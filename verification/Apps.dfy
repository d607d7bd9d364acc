/** Installing and removing one assigned app, over any number of check-ins: internal/agent/apps/scheduler.go
    and internal/agent/apps/syncer.go. Instants are nanoseconds; 0 is Go's zero time. */
module Apps {
  import opened Prelude

  const DETECT_EVERY := 3_600_000_000_000
  const MAX_ATTEMPTS := 3

  datatype Intent = Unset | Install | Uninstall

  datatype Status = NotYet | Succeeded | Failed

  datatype AppState = AppState(
    version: int, intent: Intent, lastActedAt: int, lastStatus: Status, lastSeenAt: int,
    installed: bool, failures: nat, settled: bool, installedByAgent: int)

  const UNSEEN := AppState(0, Unset, 0, NotYet, 0, false, 0, false, 0)

  /** What is assigned. */
  datatype Ask = Ask(version: int, intent: Intent)

  datatype Action = Nothing | Detect | DoInstall | DoUninstall

  /** Fetching a version, then finding out whether this machine may and can act on it. */
  datatype Access = Unfetched | Unusable | Usable

  /** How everything one check-in calls answers. */
  datatype World = World(
    now: int,
    seen: Access, found: Option<bool>, seenAt: int, keeps: bool,          // the detection, and storing it
    act: Access, evicts: bool, previous: Access, removed: bool,         // the previous version, if it must go first
    works: bool, at: int, stores: bool)                                   // the installer run, and storing its outcome

  /** What others can see of a check-in, in order. */
  datatype Event = Stored(st: AppState) | Told(ask: Ask, ok: bool) | Ran(install: bool, version: int, ok: bool)

  predicate Wants(intent: Intent) { intent == Install }

  predicate Answers(st: AppState, q: Ask) { st.version == q.version && st.intent == q.intent }

  function Decide(q: Ask, st: AppState, now: int): Action {
    if !Answers(st, q) || st.lastSeenAt == 0 then Detect
    else if st.failures > 0 && st.failures >= MAX_ATTEMPTS then Nothing
    else if st.installed != Wants(q.intent) then (if Wants(q.intent) then DoInstall else DoUninstall)
    else if now - st.lastSeenAt >= DETECT_EVERY then Detect
    else Nothing
  }

  // ----- One check-in, said at once ---------------------------------------------------------------

  /** What a check-in leaves on disk, and what was seen of it. */
  datatype Outcome = Outcome(st: AppState, events: seq<Event>)

  function Declined(disk: AppState, st: AppState, q: Ask, at: int, stores: bool): Outcome {
    if (st.version == q.version && st.lastStatus == Failed) || !stores then Outcome(disk, [])
    else
      var next := st.(version := q.version, intent := q.intent, lastActedAt := at, lastStatus := Failed, settled := false);
      Outcome(next, [Stored(next), Told(q, false)])
  }

  function Concluded(st: AppState, q: Ask, ok: bool, at: int): AppState {
    var next := st.(version := q.version, intent := q.intent, lastActedAt := at,
                    lastStatus := if ok then Succeeded else Failed, settled := ok);
    if ok then next.(failures := 0, installed := Wants(q.intent), lastSeenAt := at,
                     installedByAgent := if Wants(q.intent) then q.version else 0)
    else next.(failures := if Answers(st, q) then st.failures + 1 else 1)
  }

  /** The installer ran, and what came of it is stored, then reported. */
  function Finished(disk: AppState, st: AppState, q: Ask, ok: bool, w: World, ran: seq<Event>): Outcome {
    if !w.stores then Outcome(disk, ran)
    else Outcome(Concluded(st, q, ok, w.at), ran + [Stored(Concluded(st, q, ok, w.at)), Told(q, ok)])
  }

  function Acted(st: AppState, q: Ask, w: World): Outcome {
    if w.act.Unfetched? then Outcome(st, [])
    else if w.act.Unusable? then Declined(st, st, q, w.at, w.stores)
    else if !Wants(q.intent) then Finished(st, st, q, w.works, w, [Ran(false, q.version, w.works)])
    else if w.evicts && st.installedByAgent != 0 && st.installedByAgent != q.version then
      if w.previous.Unfetched? then Outcome(st, [])
      else if w.previous.Unusable? then Declined(st, st, q, w.at, w.stores)
      else if !w.removed then Finished(st, st, q, false, w, [Ran(false, st.installedByAgent, false)])
      else Finished(st, st.(installedByAgent := 0), q, w.works, w,
                    [Ran(false, st.installedByAgent, true), Ran(true, q.version, w.works)])
    else Finished(st, st, q, w.works, w, [Ran(true, q.version, w.works)])
  }

  function Noted(st: AppState, q: Ask, installed: bool, at: int): AppState {
    st.(version := q.version, intent := q.intent, installed := installed, lastSeenAt := at,
        failures := if Answers(st, q) then st.failures else 0, settled := installed == Wants(q.intent))
  }

  function Detected(st: AppState, q: Ask, w: World): Outcome {
    if w.seen.Unfetched? then Outcome(st, [])
    else if w.seen.Unusable? then Declined(st, st, q, w.at, w.stores)
    else if w.found.None? || !w.keeps then Outcome(st, [])
    else
      var next := Noted(st, q, w.found.value, w.seenAt);
      if next.settled && !(Answers(st, q) && st.settled) then Outcome(next, [Stored(next), Told(q, true)])
      else
        var d := Decide(q, next, w.seenAt);
        if d.DoInstall? || d.DoUninstall? then
          var o := Acted(next, q, w);
          Outcome(o.st, [Stored(next)] + o.events)
        else Outcome(next, [Stored(next)])
  }

  function Visited(st: AppState, q: Ask, w: World): Outcome {
    match Decide(q, st, w.now)
    case Nothing => Outcome(st, [])
    case Detect => Detected(st, q, w)
    case _ => Acted(st, q, w)
  }

  // ----- Many check-ins -----------------------------------------------------------------------------

  datatype Visit = Visit(q: Ask, w: World)

  /** Assigned intents are install or uninstall, and the clock is past Go's zero time. */
  predicate Sensible(v: Visit) { !v.q.intent.Unset? && v.w.now > 0 && v.w.seenAt > 0 && v.w.at > 0 }

  ghost predicate History(vs: seq<Visit>, ss: seq<AppState>) {
    && |ss| == |vs| + 1 && ss[0] == UNSEEN
    && (forall i :: 0 <= i < |vs| ==> Sensible(vs[i]) && ss[i + 1] == Visited(ss[i], vs[i].q, vs[i].w).st)
  }

  ghost predicate AllStored(vs: seq<Visit>) { forall i :: 0 <= i < |vs| ==> vs[i].w.stores && vs[i].w.keeps }

  /** Everything seen of the first n check-ins. */
  function Log(vs: seq<Visit>, ss: seq<AppState>, n: nat): seq<Event>
    requires n <= |vs| < |ss|
  {
    if n == 0 then [] else Log(vs, ss, n - 1) + Visited(ss[n - 1], vs[n - 1].q, vs[n - 1].w).events
  }

  // ----- What one check-in does --------------------------------------------------------------------

  /** Nothing is known of this version and intent, or it was in place when last seen, an hour ago or more. */
  predicate LooksAgain(st: AppState, q: Ask, now: int) {
    || st.version != q.version || st.intent != q.intent || st.lastSeenAt == 0
    || (st.failures < 3 && (st.installed <==> q.intent == Install) && now - st.lastSeenAt >= 3_600_000_000_000)
  }

  /** Three failures under the same version and intent. */
  predicate Exhausted(st: AppState, q: Ask) { st.version == q.version && st.intent == q.intent && st.failures >= 3 }

  lemma DecideExactly(q: Ask, st: AppState, now: int)
    ensures Decide(q, st, now) == Detect <==> LooksAgain(st, q, now)
    ensures Decide(q, st, now) == DoInstall <==>
            st.version == q.version && st.intent == q.intent && st.lastSeenAt != 0 && st.failures < 3 && q.intent == Install && !st.installed
    ensures Decide(q, st, now) == DoUninstall <==>
            st.version == q.version && st.intent == q.intent && st.lastSeenAt != 0 && st.failures < 3 && q.intent != Install && st.installed
  {
  }

  /** The check-in gets to the installer: the app is out of place, as it was remembered or as it has just
      been seen, and not held back. */
  predicate OutOfPlace(st: AppState, q: Ask, w: World) {
    && !Exhausted(st, q)
    && if LooksAgain(st, q, w.now) then w.seen.Usable? && w.found.Some? && w.keeps && (w.found.value <==> q.intent != Install)
       else (st.installed <==> q.intent != Install)
  }

  /** Another version of the agent's own has to go first. */
  predicate Replaces(st: AppState, q: Ask, w: World) {
    q.intent == Install && w.evicts && st.installedByAgent != 0 && st.installedByAgent != q.version
  }

  /** The installer runs among the events. */
  function Runs(events: seq<Event>): seq<Event> {
    if events == [] then []
    else (if events[0].Ran? then [events[0]] else []) + Runs(events[1..])
  }

  lemma {:induction false} RunsOfBoth(a: seq<Event>, b: seq<Event>)
    ensures Runs(a + b) == Runs(a) + Runs(b)
  {
    if a == [] {
      assert a + b == b;
    } else {
      assert (a + b)[1..] == a[1..] + b;
      RunsOfBoth(a[1..], b);
    }
  }

  lemma StoredAndTold(st: AppState, q: Ask, ok: bool)
    ensures Runs([]) == [] && Runs([Stored(st)]) == [] && Runs([Stored(st), Told(q, ok)]) == []
  {
    assert [Stored(st), Told(q, ok)][1..] == [Told(q, ok)] && [Told(q, ok)][1..] == [];
  }

  lemma RunsOfRuns(a: Event, b: Event)
    requires a.Ran? && b.Ran?
    ensures Runs([a]) == [a] && Runs([a, b]) == [a, b]
  {
    assert [a, b][1..] == [b] && [a][1..] == [] && [b][1..] == [];
  }

  lemma FinishedRuns(disk: AppState, st: AppState, q: Ask, ok: bool, w: World, ran: seq<Event>)
    ensures Runs(Finished(disk, st, q, ok, w, ran).events) == Runs(ran)
  {
    var next := Concluded(st, q, ok, w.at);
    StoredAndTold(next, q, ok);
    RunsOfBoth(ran, [Stored(next), Told(q, ok)]);
  }

  lemma DeclinedRuns(disk: AppState, st: AppState, q: Ask, at: int, stores: bool)
    ensures Runs(Declined(disk, st, q, at, stores).events) == []
  {
    StoredAndTold(st.(version := q.version, intent := q.intent, lastActedAt := at, lastStatus := Failed, settled := false), q, false);
  }

  lemma ActedRuns(st: AppState, q: Ask, w: World)
    ensures Runs(Acted(st, q, w).events) ==
            if !w.act.Usable? then []
            else if !Replaces(st, q, w) then [Ran(q.intent == Install, q.version, w.works)]
            else if !w.previous.Usable? then []
            else if !w.removed then [Ran(false, st.installedByAgent, false)]
            else [Ran(false, st.installedByAgent, true), Ran(true, q.version, w.works)]
  {
    hide Runs, Finished, Declined;
    var own := st.installedByAgent;
    DeclinedRuns(st, st, q, w.at, w.stores);
    StoredAndTold(st, q, true);
    var run, first := Ran(q.intent == Install, q.version, w.works), Ran(false, own, w.removed);
    RunsOfRuns(first, run);
    RunsOfRuns(run, run);
    FinishedRuns(st, st, q, w.works, w, [run]);
    FinishedRuns(st, st, q, false, w, [first]);
    FinishedRuns(st, st.(installedByAgent := 0), q, w.works, w, [first, run]);
  }

  /** The installer runs of a check-in, exactly: none unless the app is out of place and its version can be
      acted on; then that version's own run, after the removal of the agent's previous version where it
      must go first, and not at all if that removal fails. */
  lemma RunsExactly(st: AppState, q: Ask, w: World)
    requires Sensible(Visit(q, w))
    ensures Runs(Visited(st, q, w).events) ==
            if !OutOfPlace(st, q, w) || !w.act.Usable? then []
            else if !Replaces(st, q, w) then [Ran(q.intent == Install, q.version, w.works)]
            else if !w.previous.Usable? then []
            else if !w.removed then [Ran(false, st.installedByAgent, false)]
            else [Ran(false, st.installedByAgent, true), Ran(true, q.version, w.works)]
  {
    hide Runs, Acted, Declined;
    DecideExactly(q, st, w.now);
    StoredAndTold(st, q, true);
    DeclinedRuns(st, st, q, w.at, w.stores);
    ActedRuns(st, q, w);
    if w.found.Some? {
      var next := Noted(st, q, w.found.value, w.seenAt);
      StoredAndTold(next, q, true);
      ActedRuns(next, q, w);
      RunsOfBoth([Stored(next)], Acted(next, q, w).events);
    }
  }

  /** Whatever is called works. */
  predicate AllWorks(w: World) {
    && w.seen.Usable? && w.found.Some? && w.keeps
    && w.act.Usable? && w.previous.Usable? && w.removed && w.works && w.stores
  }

  lemma ActingSettles(st: AppState, q: Ask, w: World)
    requires AllWorks(w)
    ensures var o := Acted(st, q, w);
            && Answers(o.st, q) && o.st.settled && (o.st.installed <==> q.intent == Install) && o.st.failures == 0
            && |o.events| > 1 && o.events[|o.events| - 2..] == [Stored(o.st), Told(q, true)]
            && o.st.installedByAgent == if q.intent == Install then q.version else 0
  {
    hide Runs;
  }

  /** With every call working, one check-in puts an app in place that is not held back: it is remembered
      as asked for, and settled unless there was nothing to do. */
  lemma WorkingVisitSettles(st: AppState, q: Ask, w: World)
    requires Sensible(Visit(q, w)) && AllWorks(w) && !Exhausted(st, q)
    ensures var o := Visited(st, q, w);
            && Answers(o.st, q) && (o.st.installed <==> q.intent == Install)
            && (o.st.settled <==> LooksAgain(st, q, w.now) || OutOfPlace(st, q, w) || st.settled)
            && (Told(q, true) in o.events <==> OutOfPlace(st, q, w) || (LooksAgain(st, q, w.now) && !(Answers(st, q) && st.settled)))
  {
    hide Acted;
    DecideExactly(q, st, w.now);
    ActingSettles(st, q, w);
    var done := Acted(st, q, w);
    assert done.events[|done.events| - 2..][1] == Told(q, true);
    var next := Noted(st, q, w.found.value, w.seenAt);
    ActingSettles(next, q, w);
    var after := Acted(next, q, w);
    assert after.events[|after.events| - 2..][1] == Told(q, true);
  }

  /** What is reported is the last thing a check-in does, after storing what it says; and what is on disk
      afterwards is what was stored last. */
  predicate StoresThenTells(st: AppState, q: Ask, o: Outcome) {
    && (forall i :: 0 <= i < |o.events| && o.events[i].Told? ==>
                      0 < i == |o.events| - 1 && o.events[i - 1] == Stored(o.st) && o.events[i] == Told(q, o.st.settled) && Answers(o.st, q))
    && (o.st == st || Stored(o.st) in o.events)
  }

  predicate TellsOfRuns(stores: bool, events: seq<Event>) {
    stores && (exists i :: 0 <= i < |events| && events[i].Ran?) ==> events[|events| - 1].Told?
  }

  lemma FinishTells(disk: AppState, st: AppState, q: Ask, ok: bool, w: World, ran: seq<Event>)
    requires forall i :: 0 <= i < |ran| ==> ran[i].Ran?
    ensures var o := Finished(disk, st, q, ok, w, ran); StoresThenTells(disk, q, o) && TellsOfRuns(w.stores, o.events)
  {
    var o := Finished(disk, st, q, ok, w, ran);
    if w.stores {
      assert o.events[|ran|] == Stored(o.st);
    }
  }

  lemma DeclineTells(st: AppState, q: Ask, at: int, stores: bool)
    ensures var o := Declined(st, st, q, at, stores); StoresThenTells(st, q, o) && TellsOfRuns(stores, o.events)
  {
    var o := Declined(st, st, q, at, stores);
    if o.events != [] {
      assert o.events[0] == Stored(o.st);
    }
  }

  lemma NothingTells(st: AppState, q: Ask, stores: bool)
    ensures StoresThenTells(st, q, Outcome(st, [])) && TellsOfRuns(stores, [])
  {
  }

  lemma ActTells(st: AppState, q: Ask, w: World)
    ensures var o := Acted(st, q, w); StoresThenTells(st, q, o) && TellsOfRuns(w.stores, o.events)
  {
    hide Finished, Declined, StoresThenTells, TellsOfRuns;
    NothingTells(st, q, w.stores);
    DeclineTells(st, q, w.at, w.stores);
    FinishTells(st, st, q, w.works, w, [Ran(Wants(q.intent), q.version, w.works)]);
    FinishTells(st, st, q, false, w, [Ran(false, st.installedByAgent, false)]);
    FinishTells(st, st.(installedByAgent := 0), q, w.works, w, [Ran(false, st.installedByAgent, true), Ran(true, q.version, w.works)]);
  }

  lemma StoringFirstTells(st: AppState, next: AppState, q: Ask, o: Outcome, stores: bool)
    requires StoresThenTells(next, q, o) && TellsOfRuns(stores, o.events)
    ensures var p := Outcome(o.st, [Stored(next)] + o.events); StoresThenTells(st, q, p) && TellsOfRuns(stores, p.events)
  {
    var events := [Stored(next)] + o.events;
    assert events[0] == Stored(next) && (forall i :: 0 < i < |events| ==> events[i] == o.events[i - 1]);
    assert forall e :: e in o.events ==> e in events;
  }

  lemma SettlingTells(st: AppState, next: AppState, q: Ask, stores: bool)
    requires next.settled && Answers(next, q)
    ensures var events := [Stored(next), Told(q, true)];
            StoresThenTells(st, q, Outcome(next, events)) && TellsOfRuns(stores, events)
  {
    assert [Stored(next), Told(q, true)][0] == Stored(next);
  }

  /** Local state is written before the report it stands for, and an installer run that could be stored is
      always reported. */
  lemma StoredBeforeTold(st: AppState, q: Ask, w: World)
    ensures var o := Visited(st, q, w); StoresThenTells(st, q, o) && TellsOfRuns(w.stores, o.events)
  {
    hide Acted, Declined, StoresThenTells, TellsOfRuns;
    NothingTells(st, q, w.stores);
    DeclineTells(st, q, w.at, w.stores);
    ActTells(st, q, w);
    if w.found.Some? {
      var next := Noted(st, q, w.found.value, w.seenAt);
      ActTells(next, q, w);
      NothingTells(next, q, w.stores);
      StoringFirstTells(st, next, q, Acted(next, q, w), w.stores);
      StoringFirstTells(st, next, q, Outcome(next, []), w.stores);
      assert [Stored(next)] + [] == [Stored(next)];
      if next.settled { SettlingTells(st, next, q, w.stores); }
    }
  }

  /** A failure of this version is the last outcome remembered. */
  predicate FailedLast(st: AppState, version: int) { st.version == version && st.lastStatus == Failed }

  lemma StaysToldFailed(st: AppState, q: Ask, w: World)
    requires FailedLast(st, q.version)
    ensures var o := Visited(st, q, w);
            && (FailedLast(o.st, q.version) || exists e :: e in o.events && e.Ran? && e.ok)
            && (Told(q, false) in o.events ==> exists e :: e in o.events && e.Ran?)
  {
    hide Runs;
    ActStaysToldFailed(st, q, w);
    if w.found.Some? {
      hide Acted;
      var next := Noted(st, q, w.found.value, w.seenAt);
      ActStaysToldFailed(next, q, w);
      assert forall e :: e in Acted(next, q, w).events ==> e in [Stored(next)] + Acted(next, q, w).events;
    }
  }

  lemma ActStaysToldFailed(st: AppState, q: Ask, w: World)
    requires FailedLast(st, q.version)
    ensures var o := Acted(st, q, w);
            && (FailedLast(o.st, q.version) || exists e :: e in o.events && e.Ran? && e.ok)
            && (Told(q, false) in o.events ==> exists e :: e in o.events && e.Ran?)
  {
    var o := Acted(st, q, w);
    if |o.events| > 2 {
      assert o.events[0] in o.events && o.events[1] in o.events;
    }
  }

  /** A machine that cannot act on a version says so once: after any failure of that version was stored,
      further failures are reported only of installer runs, until a run of it succeeds. */
  lemma {:induction false} UnavailableIsToldOnce(vs: seq<Visit>, ss: seq<AppState>, i: nat, n: nat)
    requires History(vs, ss) && i <= n < |vs| && FailedLast(ss[i], vs[n].q.version)
    requires forall k :: i <= k < n ==> vs[k].q.version == vs[n].q.version
    requires forall k, e :: i <= k < n && e in Visited(ss[k], vs[k].q, vs[k].w).events ==> !(e.Ran? && e.ok)
    ensures FailedLast(ss[n], vs[n].q.version)
    ensures Told(vs[n].q, false) in Visited(ss[n], vs[n].q, vs[n].w).events ==>
              exists e :: e in Visited(ss[n], vs[n].q, vs[n].w).events && e.Ran?
    decreases n
  {
    hide Visited;
    if i < n {
      UnavailableIsToldOnce(vs, ss, i, n - 1);
      StaysToldFailed(ss[n - 1], vs[n - 1].q, vs[n - 1].w);
    }
    StaysToldFailed(ss[n], vs[n].q, vs[n].w);
  }

  lemma DeclineTellsExactly(st: AppState, q: Ask, at: int)
    ensures Told(q, false) in Declined(st, st, q, at, true).events <==> !FailedLast(st, q.version)
  {
    if !FailedLast(st, q.version) {
      assert Declined(st, st, q, at, true).events[1] == Told(q, false);
    }
  }

  /** This machine cannot act on the version, found out while looking. */
  predicate SeenUnusable(st: AppState, q: Ask, w: World) { LooksAgain(st, q, w.now) && w.seen.Unusable? }

  /** Or found out only when about to act, of the version itself or of the one that has to go first. */
  predicate FoundUnusable(st: AppState, q: Ask, w: World) {
    OutOfPlace(st, q, w) && (w.act.Unusable? || (w.act.Usable? && Replaces(st, q, w) && w.previous.Unusable?))
  }

  /** The first time, it does say so while looking. When about to act it says so exactly if the last outcome
      remembered, of whatever version, is not a failure. */
  lemma UnavailableIsToldExactly(st: AppState, q: Ask, w: World)
    requires Sensible(Visit(q, w)) && w.stores && (SeenUnusable(st, q, w) || FoundUnusable(st, q, w))
    ensures Told(q, false) in Visited(st, q, w).events <==>
            if SeenUnusable(st, q, w) then !FailedLast(st, q.version) else st.lastStatus != Failed
  {
    hide Declined, FailedLast;
    DecideExactly(q, st, w.now);
    DeclineTellsExactly(st, q, w.at);
    if !SeenUnusable(st, q, w) && LooksAgain(st, q, w.now) {
      var next := Noted(st, q, w.found.value, w.seenAt);
      DeclineTellsExactly(next, q, w.at);
      assert FailedLast(next, q.version) <==> st.lastStatus == Failed by { SeenKeepsStatus(st, q, w); }
    } else if !SeenUnusable(st, q, w) {
      assert FailedLast(st, q.version) <==> st.lastStatus == Failed by { KnownStatus(st, q); }
    }
  }

  lemma SeenKeepsStatus(st: AppState, q: Ask, w: World)
    requires w.found.Some?
    ensures FailedLast(Noted(st, q, w.found.value, w.seenAt), q.version) <==> st.lastStatus == Failed
  {
  }

  lemma KnownStatus(st: AppState, q: Ask)
    requires Answers(st, q)
    ensures FailedLast(st, q.version) <==> st.lastStatus == Failed
  {
  }

  const READY := World(1, Usable, Some(false), 1, true, Usable, true, Usable, true, true, 1, true)

  /** Version 1 was installed and could not be removed for version 2. Version 3 finds version 1 beyond this
      machine's means, which nobody is ever told: its first look made the old failure its own. */
  lemma UnavailableIsNotTold()
    ensures exists vs: seq<Visit>, ss: seq<AppState> ::
              && History(vs, ss) && AllStored(vs) && |vs| == 3 && vs[2].q == Ask(3, Install) && FoundUnusable(ss[2], vs[2].q, vs[2].w)
              && (forall e :: e in Log(vs, ss, 3) ==> !(e.Told? && e.ask == vs[2].q))
              && FailedLast(ss[3], 3)
  {
    var stuck, refused := READY.(removed := false), READY.(previous := Unusable);
    var vs := [Visit(Ask(1, Install), READY), Visit(Ask(2, Install), stuck), Visit(Ask(3, Install), refused)];
    var s1 := AppState(1, Install, 1, Succeeded, 1, true, 0, true, 1);
    var s2 := AppState(2, Install, 1, Failed, 1, false, 1, false, 1);
    var s3 := AppState(3, Install, 1, Failed, 1, false, 0, false, 1);
    var ss := [UNSEEN, s1, s2, s3];
    ThreeVersions();
    assert Log(vs, ss, 3) == Log(vs, ss, 2) + [Stored(s3)];
    assert Log(vs, ss, 2) == Log(vs, ss, 1) + Visited(s1, Ask(2, Install), stuck).events;
    assert Log(vs, ss, 1) == Log(vs, ss, 0) + Visited(UNSEEN, Ask(1, Install), READY).events;
    assert History(vs, ss);
  }

  lemma ThreeVersions()
    ensures var o := Visited(UNSEEN, Ask(1, Install), READY);
            o.st == AppState(1, Install, 1, Succeeded, 1, true, 0, true, 1) && forall e :: e in o.events && e.Told? ==> e.ask.version == 1
    ensures var o := Visited(AppState(1, Install, 1, Succeeded, 1, true, 0, true, 1), Ask(2, Install), READY.(removed := false));
            o.st == AppState(2, Install, 1, Failed, 1, false, 1, false, 1) && forall e :: e in o.events && e.Told? ==> e.ask.version == 2
    ensures var s3 := AppState(3, Install, 1, Failed, 1, false, 0, false, 1);
            Visited(AppState(2, Install, 1, Failed, 1, false, 1, false, 1), Ask(3, Install), READY.(previous := Unusable))
            == Outcome(s3, [Stored(s3)])
  {
  }

  // ----- Settled means settled -------------------------------------------------------------------

  predicate Honest(st: AppState) { st.settled ==> !st.intent.Unset? && st.installed == Wants(st.intent) }

  lemma VisitKeepsHonest(st: AppState, v: Visit)
    requires Honest(st) && Sensible(v)
    ensures Honest(Visited(st, v.q, v.w).st)
  {
  }

  /** Settled always implies that what is remembered as installed matches the intent. */
  lemma {:induction false} SettledMatchesIntent(vs: seq<Visit>, ss: seq<AppState>, n: nat)
    requires History(vs, ss) && n <= |vs|
    ensures Honest(ss[n])
  {
    hide Visited, Honest;
    if n == 0 {
      assert Honest(UNSEEN) by { UnseenIsHonest(); }
    } else {
      SettledMatchesIntent(vs, ss, n - 1);
      VisitKeepsHonest(ss[n - 1], vs[n - 1]);
    }
  }

  lemma UnseenIsHonest()
    ensures Honest(UNSEEN)
  {
  }

  // ----- What the agent installed ------------------------------------------------------------------

  /** The agent's last successful install that it has not since removed. */
  function OwnInstall(log: seq<Event>): int {
    if log == [] then 0
    else match log[|log| - 1]
      case Ran(install, version, true) => if install then version else 0
      case _ => OwnInstall(log[..|log| - 1])
  }

  lemma OwnStep(log: seq<Event>, e: Event)
    ensures OwnInstall(log + [e]) == if e.Ran? && e.ok then (if e.install then e.version else 0) else OwnInstall(log)
  {
    assert (log + [e])[..|log|] == log;
  }

  lemma FinishKeepsOwn(log: seq<Event>, disk: AppState, st: AppState, q: Ask, ok: bool, w: World, ran: seq<Event>)
    requires w.stores && (ok ==> OwnInstall(log + ran) == if Wants(q.intent) then q.version else 0)
    requires !ok ==> OwnInstall(log + ran) == st.installedByAgent
    ensures var o := Finished(disk, st, q, ok, w, ran); OwnInstall(log + o.events) == o.st.installedByAgent
  {
    var e, f := Stored(Concluded(st, q, ok, w.at)), Told(q, ok);
    OwnStep(log + ran, e);
    OwnStep(log + ran + [e], f);
    assert log + (ran + [e, f]) == log + ran + [e] + [f];
  }

  lemma DeclineKeepsOwn(log: seq<Event>, st: AppState, q: Ask, at: int, stores: bool)
    requires OwnInstall(log) == st.installedByAgent
    ensures var o := Declined(st, st, q, at, stores); OwnInstall(log + o.events) == o.st.installedByAgent
  {
    var o := Declined(st, st, q, at, stores);
    if o.events == [] {
      assert log + [] == log;
    } else {
      OwnStep(log, o.events[0]);
      OwnStep(log + [o.events[0]], o.events[1]);
      assert log + o.events == log + [o.events[0]] + [o.events[1]];
    }
  }

  lemma ActKeepsOwn(log: seq<Event>, st: AppState, q: Ask, w: World)
    requires OwnInstall(log) == st.installedByAgent && w.stores
    ensures var o := Acted(st, q, w); OwnInstall(log + o.events) == o.st.installedByAgent
  {
    hide Finished, Declined, OwnInstall;
    assert log + [] == log;
    DeclineKeepsOwn(log, st, q, w.at, w.stores);
    if w.act.Usable? {
      if !Wants(q.intent) {
        OwnStep(log, Ran(false, q.version, w.works));
        FinishKeepsOwn(log, st, st, q, w.works, w, [Ran(false, q.version, w.works)]);
      } else if w.evicts && st.installedByAgent != 0 && st.installedByAgent != q.version {
        if w.previous.Usable? {
          ReplaceKeepsOwn(log, st, q, w);
        }
      } else {
        OwnStep(log, Ran(true, q.version, w.works));
        FinishKeepsOwn(log, st, st, q, w.works, w, [Ran(true, q.version, w.works)]);
      }
    }
  }

  lemma ReplaceKeepsOwn(log: seq<Event>, st: AppState, q: Ask, w: World)
    requires OwnInstall(log) == st.installedByAgent && w.stores && Wants(q.intent)
    ensures var o := if !w.removed then Finished(st, st, q, false, w, [Ran(false, st.installedByAgent, false)])
                     else Finished(st, st.(installedByAgent := 0), q, w.works, w,
                                   [Ran(false, st.installedByAgent, true), Ran(true, q.version, w.works)]);
            OwnInstall(log + o.events) == o.st.installedByAgent
  {
    hide Finished, OwnInstall;
    var e := Ran(false, st.installedByAgent, w.removed);
    OwnStep(log, e);
    if !w.removed {
      FinishKeepsOwn(log, st, st, q, false, w, [e]);
    } else {
      var f := Ran(true, q.version, w.works);
      OwnStep(log + [e], f);
      assert log + [e, f] == log + [e] + [f];
      FinishKeepsOwn(log, st, st.(installedByAgent := 0), q, w.works, w, [e, f]);
    }
  }

  lemma VisitKeepsOwn(log: seq<Event>, st: AppState, q: Ask, w: World)
    requires OwnInstall(log) == st.installedByAgent && w.stores
    ensures var o := Visited(st, q, w); OwnInstall(log + o.events) == o.st.installedByAgent
  {
    hide Acted, Declined, OwnInstall;
    assert log + [] == log;
    DeclineKeepsOwn(log, st, q, w.at, w.stores);
    ActKeepsOwn(log, st, q, w);
    if w.found.Some? {
      var next := Noted(st, q, w.found.value, w.seenAt);
      var o := Acted(next, q, w);
      OwnStep(log, Stored(next));
      OwnStep(log + [Stored(next)], Told(q, true));
      assert log + [Stored(next), Told(q, true)] == log + [Stored(next)] + [Told(q, true)];
      ActKeepsOwn(log + [Stored(next)], next, q, w);
      assert log + ([Stored(next)] + o.events) == log + [Stored(next)] + o.events;
    }
  }

  /** With local state written, InstalledByAgent always names the agent's last successful install that
      it has not since removed, across any versions and intents. */
  lemma {:induction false} InstalledByAgentIsOwn(vs: seq<Visit>, ss: seq<AppState>, n: nat)
    requires History(vs, ss) && AllStored(vs) && n <= |vs|
    ensures ss[n].installedByAgent == OwnInstall(Log(vs, ss, n))
  {
    hide Visited;
    if n > 0 {
      InstalledByAgentIsOwn(vs, ss, n - 1);
      VisitKeepsOwn(Log(vs, ss, n - 1), ss[n - 1], vs[n - 1].q, vs[n - 1].w);
    }
  }

  // ----- One success report per settling -----------------------------------------------------------

  /** A stored state under which q no longer counts as reached. */
  predicate Unsettles(e: Event, q: Ask) { e.Stored? && !(e.st.settled && Answers(e.st, q)) }

  /** q was reported as reached, and nothing stored since says otherwise. */
  predicate StillTold(log: seq<Event>, q: Ask) {
    if log == [] then false
    else
      var e := log[|log| - 1];
      e == Told(q, true) || (!Unsettles(e, q) && StillTold(log[..|log| - 1], q))
  }

  /** No success is reported while it still stands reported. */
  ghost predicate NeverRepeats(log: seq<Event>, q: Ask) {
    forall j :: 0 <= j < |log| && log[j] == Told(q, true) ==> !StillTold(log[..j], q)
  }

  predicate Agrees(log: seq<Event>, st: AppState, q: Ask) { StillTold(log, q) ==> st.settled && Answers(st, q) }

  ghost predicate Orderly(log: seq<Event>, st: AppState, q: Ask) { NeverRepeats(log, q) && Agrees(log, st, q) }

  lemma ToldStep(log: seq<Event>, e: Event, q: Ask)
    requires NeverRepeats(log, q) && (e == Told(q, true) ==> !StillTold(log, q))
    ensures NeverRepeats(log + [e], q)
    ensures StillTold(log + [e], q) <==> e == Told(q, true) || (!Unsettles(e, q) && StillTold(log, q))
  {
    assert (log + [e])[..|log|] == log;
    forall j | 0 <= j < |log| + 1 && (log + [e])[j] == Told(q, true)
      ensures !StillTold((log + [e])[..j], q)
    {
      assert (log + [e])[..j] == log[..j];
      assert j == |log| ==> log[..j] == log;
    }
  }

  /** Running the installer tells nobody anything. */
  lemma {:induction false} RanTellsNothing(log: seq<Event>, st: AppState, q: Ask, ran: seq<Event>)
    requires Orderly(log, st, q) && forall i :: 0 <= i < |ran| ==> ran[i].Ran?
    ensures Orderly(log + ran, st, q) && (StillTold(log + ran, q) <==> StillTold(log, q))
    decreases |ran|
  {
    hide NeverRepeats;
    if ran == [] {
      assert log + ran == log;
    } else {
      var n := |ran| - 1;
      RanTellsNothing(log, st, q, ran[..n]);
      ToldStep(log + ran[..n], ran[n], q);
      assert log + ran == log + ran[..n] + [ran[n]];
    }
  }

  /** Storing a state and then reporting a success is orderly if the success had not been reported. */
  lemma StoreThenTell(log: seq<Event>, st: AppState, next: AppState, p: Ask, ok: bool, q: Ask)
    requires Orderly(log, st, q) && Answers(next, p) && next.settled == ok
    requires p == q && ok ==> !StillTold(log, q)
    ensures Orderly(log + [Stored(next), Told(p, ok)], next, q)
  {
    hide NeverRepeats, StillTold;
    ToldStep(log, Stored(next), q);
    ToldStep(log + [Stored(next)], Told(p, ok), q);
    assert log + [Stored(next), Told(p, ok)] == log + [Stored(next)] + [Told(p, ok)];
  }

  lemma FinishIsOrderly(log: seq<Event>, disk: AppState, st: AppState, p: Ask, ok: bool, w: World, ran: seq<Event>, q: Ask)
    requires Orderly(log, disk, q) && (forall i :: 0 <= i < |ran| ==> ran[i].Ran?)
    requires p == q ==> !StillTold(log, q)
    ensures var o := Finished(disk, st, p, ok, w, ran); Orderly(log + o.events, o.st, q)
  {
    hide NeverRepeats, StillTold;
    RanTellsNothing(log, disk, q, ran);
    if w.stores {
      var next := Concluded(st, p, ok, w.at);
      StoreThenTell(log + ran, disk, next, p, ok, q);
      assert log + (ran + [Stored(next), Told(p, ok)]) == log + ran + [Stored(next), Told(p, ok)];
    }
  }

  lemma DeclineIsOrderly(log: seq<Event>, st: AppState, p: Ask, at: int, stores: bool, q: Ask)
    requires Orderly(log, st, q)
    ensures var o := Declined(st, st, p, at, stores); Orderly(log + o.events, o.st, q)
  {
    hide NeverRepeats, StillTold;
    var o := Declined(st, st, p, at, stores);
    if o.events == [] {
      assert log + [] == log;
    } else {
      StoreThenTell(log, st, o.st, p, false, q);
    }
  }

  lemma ActIsOrderly(log: seq<Event>, st: AppState, p: Ask, w: World, q: Ask)
    requires Orderly(log, st, q) && (p == q ==> !StillTold(log, q))
    ensures var o := Acted(st, p, w); Orderly(log + o.events, o.st, q)
  {
    hide Finished, Declined, Orderly, StillTold;
    assert log + [] == log;
    DeclineIsOrderly(log, st, p, w.at, w.stores, q);
    FinishIsOrderly(log, st, st, p, w.works, w, [Ran(false, p.version, w.works)], q);
    FinishIsOrderly(log, st, st, p, w.works, w, [Ran(true, p.version, w.works)], q);
    FinishIsOrderly(log, st, st, p, false, w, [Ran(false, st.installedByAgent, false)], q);
    FinishIsOrderly(log, st, st.(installedByAgent := 0), p, w.works, w,
                    [Ran(false, st.installedByAgent, true), Ran(true, p.version, w.works)], q);
  }

  /** While it still stands reported the app is where it should be, so the installer is left alone. */
  lemma ToldMeansNothingToDo(log: seq<Event>, st: AppState, q: Ask, now: int)
    requires Orderly(log, st, q) && Honest(st)
    ensures var d := Decide(q, st, now); d.DoInstall? || d.DoUninstall? ==> !StillTold(log, q)
  {
    hide NeverRepeats, StillTold;
  }

  lemma DetectIsOrderly(log: seq<Event>, st: AppState, v: Visit, q: Ask)
    requires Orderly(log, st, q) && Honest(st) && Sensible(v)
    ensures var o := Detected(st, v.q, v.w); Orderly(log + o.events, o.st, q)
  {
    hide Acted, Declined, NeverRepeats, StillTold;
    assert log + [] == log;
    DeclineIsOrderly(log, st, v.q, v.w.at, v.w.stores, q);
    if v.w.found.Some? && v.w.keeps && v.w.seen.Usable? {
      var next := Noted(st, v.q, v.w.found.value, v.w.seenAt);
      if next.settled && !(Answers(st, v.q) && st.settled) {
        StoreThenTell(log, st, next, v.q, true, q);
      } else {
        ToldStep(log, Stored(next), q);
        if !next.settled {
          ActIsOrderly(log + [Stored(next)], next, v.q, v.w, q);
        }
        assert log + ([Stored(next)] + Acted(next, v.q, v.w).events) == log + [Stored(next)] + Acted(next, v.q, v.w).events;
      }
    }
  }

  lemma VisitIsOrderly(log: seq<Event>, st: AppState, v: Visit, q: Ask)
    requires Orderly(log, st, q) && Honest(st) && Sensible(v)
    ensures var o := Visited(st, v.q, v.w); Orderly(log + o.events, o.st, q)
  {
    hide Acted, Detected, Orderly, StillTold;
    assert log + [] == log;
    DetectIsOrderly(log, st, v, q);
    ActIfDue(log, st, v, q);
  }

  lemma ActIfDue(log: seq<Event>, st: AppState, v: Visit, q: Ask)
    requires Orderly(log, st, q) && Honest(st)
    ensures var d := Decide(v.q, st, v.w.now);
            d.DoInstall? || d.DoUninstall? ==> var o := Acted(st, v.q, v.w); Orderly(log + o.events, o.st, q)
  {
    hide Acted, Orderly, StillTold;
    var d := Decide(v.q, st, v.w.now);
    if d.DoInstall? || d.DoUninstall? {
      if v.q == q {
        ToldMeansNothingToDo(log, st, q, v.w.now);
      }
      ActIsOrderly(log, st, v.q, v.w, q);
    }
  }

  lemma {:induction false} RunIsOrderly(vs: seq<Visit>, ss: seq<AppState>, n: nat, q: Ask)
    requires History(vs, ss) && n <= |vs|
    ensures Orderly(Log(vs, ss, n), ss[n], q)
  {
    hide Visited, Honest;
    if n > 0 {
      hide Orderly;
      RunIsOrderly(vs, ss, n - 1, q);
      SettledMatchesIntent(vs, ss, n - 1);
      VisitIsOrderly(Log(vs, ss, n - 1), ss[n - 1], vs[n - 1], q);
    }
  }

  lemma {:induction false} StandsUntilUnsettled(log: seq<Event>, q: Ask, i: nat, j: nat)
    requires i < j <= |log| && log[i] == Told(q, true)
    requires forall k :: i < k < j ==> !Unsettles(log[k], q)
    ensures StillTold(log[..j], q)
    decreases j
  {
    assert log[..j][..j - 1] == log[..j - 1];
    if j > i + 1 {
      StandsUntilUnsettled(log, q, i, j - 1);
    }
  }

  /** Between two reports that one version and intent has been reached, something was stored that said
      it was not. */
  lemma SecondSuccessNeedsUnsettling(vs: seq<Visit>, ss: seq<AppState>, n: nat, q: Ask, i: nat, j: nat)
    requires History(vs, ss) && n <= |vs|
    requires i < j < |Log(vs, ss, n)| && Log(vs, ss, n)[i] == Log(vs, ss, n)[j] == Told(q, true)
    ensures exists k :: i < k < j && Unsettles(Log(vs, ss, n)[k], q)
  {
    hide Visited, Unsettles, StillTold, Agrees;
    var log := Log(vs, ss, n);
    RunIsOrderly(vs, ss, n, q);
    if forall k :: i < k < j ==> !Unsettles(log[k], q) {
      StandsUntilUnsettled(log, q, i, j);
      assert false;
    }
  }

  // ----- Failing runs ------------------------------------------------------------------------------

  predicate Fails(events: seq<Event>) { exists i :: 0 <= i < |events| && events[i].Ran? && !events[i].ok }

  predicate Acts(events: seq<Event>) { exists i :: 0 <= i < |events| && events[i].Ran? }

  function EventsAt(vs: seq<Visit>, ss: seq<AppState>, i: nat): seq<Event>
    requires i < |vs| < |ss|
  {
    Visited(ss[i], vs[i].q, vs[i].w).events
  }

  /** Check-ins in a row whose installer run failed, under one version and intent. */
  function Streak(vs: seq<Visit>, ss: seq<AppState>, n: nat): nat
    requires n <= |vs| < |ss|
  {
    if n == 0 then 0
    else
      var before := if n >= 2 && vs[n - 2].q != vs[n - 1].q then 0 else Streak(vs, ss, n - 1);
      if Fails(EventsAt(vs, ss, n - 1)) then before + 1
      else if Acts(EventsAt(vs, ss, n - 1)) then 0
      else before
  }

  /** What one check-in does to the count on disk. */
  lemma VisitCounts(st: AppState, q: Ask, w: World)
    requires w.stores && w.keeps && w.seenAt > 0
    ensures var o := Visited(st, q, w);
            && (Fails(o.events) ==> Answers(o.st, q) && o.st.failures <= MAX_ATTEMPTS
                                    && o.st.failures == (if Answers(st, q) then st.failures + 1 else 1))
            && (Acts(o.events) ==> Answers(o.st, q) && (Answers(st, q) ==> st.failures < MAX_ATTEMPTS))
            && (!Acts(o.events) ==> o.st == st || (Answers(o.st, q) && (Answers(st, q) ==> o.st.failures == st.failures)))
  {
    hide Declined, Acted;
    ActCounts(st, q, w);
    DeclineCounts(st, q, w.at, w.stores);
    if w.found.Some? {
      var next := Noted(st, q, w.found.value, w.seenAt);
      ActCounts(next, q, w);
      var o := Acted(next, q, w);
      ActsAfter(Stored(next), o.events);
    }
  }

  lemma ActsAfter(e: Event, events: seq<Event>)
    requires !e.Ran?
    ensures Acts([e] + events) <==> Acts(events)
    ensures Fails([e] + events) <==> Fails(events)
  {
    var all := [e] + events;
    assert forall i :: 0 <= i < |events| ==> all[i + 1] == events[i];
    assert forall i :: 0 < i < |all| ==> all[i] == events[i - 1];
  }

  lemma DeclineCounts(st: AppState, q: Ask, at: int, stores: bool)
    ensures var o := Declined(st, st, q, at, stores);
            !Acts(o.events) && !Fails(o.events) && (o.st == st || (Answers(o.st, q) && o.st.failures == st.failures))
  {
  }

  lemma ActCounts(st: AppState, q: Ask, w: World)
    requires w.stores
    ensures var o := Acted(st, q, w);
            && (Fails(o.events) ==> Answers(o.st, q) && o.st.failures == (if Answers(st, q) then st.failures + 1 else 1))
            && (Acts(o.events) ==> Answers(o.st, q))
            && (!Acts(o.events) ==> o.st == st || (Answers(o.st, q) && o.st.failures == st.failures))
  {
    hide Declined;
    DeclineCounts(st, q, w.at, w.stores);
    var o := Acted(st, q, w);
    if o.events != [] && w.act.Usable? && o.events[0].Ran? {
      assert Acts(o.events);
    }
  }

  /** For one app version and intent, failing installer runs never exceed three in a row. */
  lemma {:induction false} NeverMoreThanThree(vs: seq<Visit>, ss: seq<AppState>, n: nat)
    requires History(vs, ss) && AllStored(vs) && n <= |vs|
    ensures Streak(vs, ss, n) <= MAX_ATTEMPTS
    ensures n > 0 ==> if Answers(ss[n], vs[n - 1].q) then Streak(vs, ss, n) <= ss[n].failures else Streak(vs, ss, n) == 0
  {
    hide Visited, Fails, Acts;
    if n > 0 {
      NeverMoreThanThree(vs, ss, n - 1);
      VisitCounts(ss[n - 1], vs[n - 1].q, vs[n - 1].w);
      FailsMeansActs(EventsAt(vs, ss, n - 1));
    }
  }

  lemma FailsMeansActs(events: seq<Event>)
    ensures Fails(events) ==> Acts(events)
  {
  }

  /** After three, the installer is not run again while the assignment stays as it is. */
  lemma StopsAfterThree(vs: seq<Visit>, ss: seq<AppState>, n: nat)
    requires History(vs, ss) && AllStored(vs) && 0 < n < |vs| && Streak(vs, ss, n) == MAX_ATTEMPTS && vs[n].q == vs[n - 1].q
    ensures !Acts(EventsAt(vs, ss, n)) && Streak(vs, ss, n + 1) == MAX_ATTEMPTS
  {
    hide Visited, Fails, Acts;
    NeverMoreThanThree(vs, ss, n);
    VisitCounts(ss[n], vs[n].q, vs[n].w);
    FailsMeansActs(EventsAt(vs, ss, n));
  }

  /** Failures hold this assignment back, whatever the clock says. */
  predicate HeldBack(q: Ask, st: AppState) { Answers(st, q) && st.lastSeenAt != 0 && st.failures >= MAX_ATTEMPTS }

  // ----- Failures that are not its own -----------------------------------------------------------------

  /** The look ends in a report that this machine cannot use the app, and that is stored. */
  predicate Declines(st: AppState, q: Ask, w: World) {
    w.seen.Unusable? && w.stores && !(st.version == q.version && st.lastStatus == Failed)
  }

  /** A new version or intent is meant to start afresh, and the first look at it does, exactly unless it ends
      in such a report while failures of the old one are on disk: the report keeps them and puts them under
      the new one's name. */
  lemma InheritsExactly(st: AppState, q: Ask, w: World)
    requires !Answers(st, q) && w.seenAt > 0
    ensures var o := Visited(st, q, w);
            Answers(o.st, q) && o.st.failures > (if Fails(o.events) then 1 else 0) <==> Declines(st, q, w) && st.failures > 0
  {
    hide Acted, Declined;
    DeclineExactly(st, q, w);
    if w.found.Some? {
      var next := Noted(st, q, w.found.value, w.seenAt);
      ActAddsOne(next, q, w);
      ActsAfter(Stored(next), Acted(next, q, w).events);
    }
  }

  lemma DeclineExactly(st: AppState, q: Ask, w: World)
    requires !Answers(st, q)
    ensures var o := Declined(st, st, q, w.at, w.stores);
            && !Fails(o.events) && (w.seen.Unusable? ==> (Answers(o.st, q) <==> Declines(st, q, w)))
            && o.st.failures == st.failures
  {
  }

  /** Three of them hold it back at once, untried. */
  lemma FreshIsHeldBackExactly(st: AppState, q: Ask, w: World)
    requires !Answers(st, q) && w.seenAt > 0
    ensures HeldBack(q, Visited(st, q, w).st) <==> Declines(st, q, w) && st.lastSeenAt != 0 && st.failures >= MAX_ATTEMPTS
  {
    hide Acted;
    if w.found.Some? {
      ActAddsOne(Noted(st, q, w.found.value, w.seenAt), q, w);
    }
  }

  /** Check-ins in a row under one assignment. */
  ghost predicate Period(q: Ask, vs: seq<Visit>, ss: seq<AppState>) {
    && |ss| == |vs| + 1
    && (forall i :: 0 <= i < |vs| ==> vs[i].q == q && Sensible(vs[i]) && ss[i + 1] == Visited(ss[i], q, vs[i].w).st)
  }

  /** The installer ran and did not fail. */
  predicate Succeeds(events: seq<Event>) { Acts(events) && !Fails(events) }

  /** The first look that was stored put failures of another assignment under this one's name, and the
      installer has not succeeded since. */
  ghost predicate Inherited(q: Ask, vs: seq<Visit>, ss: seq<AppState>, n: nat)
    requires n <= |vs| < |ss|
  {
    exists k :: && 0 <= k < n && !Answers(ss[k], q) && Declines(ss[k], q, vs[k].w) && ss[k].failures > 0
                && forall m :: k < m < n ==> !Succeeds(EventsAt(vs, ss, m))
  }

  /** Or failures were on disk under its name when these check-ins began, as they are if it was replaced and
      restored with nothing stored in between, and it has not succeeded since. */
  ghost predicate Burdened(q: Ask, vs: seq<Visit>, ss: seq<AppState>, n: nat)
    requires n <= |vs| < |ss|
  {
    || Inherited(q, vs, ss, n)
    || (Answers(ss[0], q) && ss[0].failures > 0 && forall m :: 0 <= m < n ==> !Succeeds(EventsAt(vs, ss, m)))
  }

  /** A first look: nothing is stored, or the count is the old one if it declines and its own if it does not. */
  lemma FirstLook(st: AppState, q: Ask, w: World)
    requires !Answers(st, q) && w.stores && w.keeps && w.seenAt > 0
    ensures var o := Visited(st, q, w);
            && (!Answers(o.st, q) ==> o.st == st && !Acts(o.events) && !Declines(st, q, w))
            && (Answers(o.st, q) ==> o.st.failures == if Declines(st, q, w) then st.failures else if Fails(o.events) then 1 else 0)
            && (Declines(st, q, w) ==> Answers(o.st, q) && !Acts(o.events))
  {
    hide Declined, Acted;
    DeclineExactly(st, q, w);
    DeclineCounts(st, q, w.at, w.stores);
    if w.found.Some? {
      var next := Noted(st, q, w.found.value, w.seenAt);
      ActCounts(next, q, w);
      ActResets(next, q, w);
      ActsAfter(Stored(next), Acted(next, q, w).events);
    }
    if w.seen.Unusable? { DeclinesNothing(st, q, w.at, w.stores); }
  }

  lemma DeclinesNothing(st: AppState, q: Ask, at: int, stores: bool)
    ensures var o := Declined(st, st, q, at, stores); !Answers(o.st, q) ==> o.st == st
  {
  }

  lemma ActResets(st: AppState, q: Ask, w: World)
    requires w.stores
    ensures Succeeds(Acted(st, q, w).events) ==> Acted(st, q, w).st.failures == 0
  {
    var o := Acted(st, q, w);
    assert forall i :: 0 <= i < |o.events| && o.events[i].Ran? && !o.events[i].ok ==> Fails(o.events);
    if w.act.Usable? && Acts(o.events) {
      assert o.events[0].Ran?;
      assert |o.events| > 1 && o.events[1].Ran? ==> o.events[1].ok == w.works;
    }
  }

  /** Any later look: a failing run adds one, a successful one clears, anything else leaves the count. */
  lemma LaterLook(st: AppState, q: Ask, w: World)
    requires Answers(st, q) && w.stores && w.keeps && w.seenAt > 0
    ensures var o := Visited(st, q, w);
            && Answers(o.st, q) && (Acts(o.events) ==> st.failures < MAX_ATTEMPTS)
            && o.st.failures == if Fails(o.events) then st.failures + 1 else if Acts(o.events) then 0 else st.failures
  {
    hide Declined, Acted;
    VisitCounts(st, q, w);
    FailsMeansActs(Visited(st, q, w).events);
    ActResets(st, q, w);
    DeclineCounts(st, q, w.at, w.stores);
    if w.found.Some? {
      var next := Noted(st, q, w.found.value, w.seenAt);
      ActResets(next, q, w);
      ActsAfter(Stored(next), Acted(next, q, w).events);
    }
  }

  /** How many of the failures on disk are not of these check-ins. */
  function Burden(q: Ask, vs: seq<Visit>, ss: seq<AppState>, n: nat): nat
    requires n <= |vs| < |ss|
  {
    if n == 0 then (if Answers(ss[0], q) then ss[0].failures else 0)
    else if Succeeds(EventsAt(vs, ss, n - 1)) then 0
    else if Answers(ss[n - 1], q) then Burden(q, vs, ss, n - 1)
    else if Declines(ss[n - 1], q, vs[n - 1].w) then ss[n - 1].failures else 0
  }

  /** The count on disk is its own failures in a row and those. */
  lemma {:induction false} CountedWithBurden(q: Ask, vs: seq<Visit>, ss: seq<AppState>, n: nat)
    requires Period(q, vs, ss) && AllStored(vs) && n <= |vs|
    ensures Answers(ss[n], q) ==> ss[n].failures == Streak(vs, ss, n) + Burden(q, vs, ss, n)
    ensures !Answers(ss[n], q) ==> Streak(vs, ss, n) == 0 && Burden(q, vs, ss, n) == 0
    ensures Streak(vs, ss, n) > 0 ==> ss[n].failures <= MAX_ATTEMPTS
  {
    hide Visited, Fails, Acts, Declines;
    if n > 0 {
      CountedWithBurden(q, vs, ss, n - 1);
      FailsMeansActs(EventsAt(vs, ss, n - 1));
      if Answers(ss[n - 1], q) {
        LaterLook(ss[n - 1], q, vs[n - 1].w);
      } else {
        FirstLook(ss[n - 1], q, vs[n - 1].w);
      }
    }
  }

  lemma {:induction false} StaysAnswered(q: Ask, vs: seq<Visit>, ss: seq<AppState>, k: nat, n: nat)
    requires Period(q, vs, ss) && AllStored(vs) && k <= n <= |vs| && Answers(ss[k], q)
    ensures Answers(ss[n], q)
    decreases n
  {
    hide Visited;
    if k < n {
      StaysAnswered(q, vs, ss, k, n - 1);
      LaterLook(ss[n - 1], q, vs[n - 1].w);
    }
  }

  lemma {:induction false} BurdenedExactly(q: Ask, vs: seq<Visit>, ss: seq<AppState>, n: nat)
    requires Period(q, vs, ss) && AllStored(vs) && n <= |vs|
    ensures Burden(q, vs, ss, n) > 0 <==> Burdened(q, vs, ss, n)
  {
    hide Visited, Fails, Acts, Declines, EventsAt;
    if n > 0 {
      BurdenedExactly(q, vs, ss, n - 1);
      BurdenStep(q, vs, ss, n);
    }
  }

  lemma BurdenStep(q: Ask, vs: seq<Visit>, ss: seq<AppState>, n: nat)
    requires Period(q, vs, ss) && AllStored(vs) && 0 < n <= |vs|
    ensures Burdened(q, vs, ss, n) <==>
              && !Succeeds(EventsAt(vs, ss, n - 1))
              && if Answers(ss[n - 1], q) then Burdened(q, vs, ss, n - 1) else Declines(ss[n - 1], q, vs[n - 1].w) && ss[n - 1].failures > 0
  {
    hide Visited, Fails, Declines;
    if !Answers(ss[n - 1], q) { FirstLook(ss[n - 1], q, vs[n - 1].w); }
    if Answers(ss[0], q) { StaysAnswered(q, vs, ss, 0, n - 1); }
    forall k | 0 <= k < n - 1 && !Answers(ss[k], q) && Declines(ss[k], q, vs[k].w)
      ensures Answers(ss[n - 1], q)
    {
      FirstLook(ss[k], q, vs[k].w);
      StaysAnswered(q, vs, ss, k + 1, n - 1);
    }
  }

  /** An assignment that is held back has failed fewer than three times in these check-ins exactly when its first
      stored look put another's failures under its name, or they began with failures there, and no run of its
      own has succeeded since. */
  lemma HeldBackEarlyExactly(q: Ask, vs: seq<Visit>, ss: seq<AppState>, n: nat)
    requires Period(q, vs, ss) && AllStored(vs) && n <= |vs| && HeldBack(q, ss[n])
    ensures Streak(vs, ss, n) < MAX_ATTEMPTS <==> Burdened(q, vs, ss, n)
  {
    hide Visited, Burdened, Burden, Streak;
    CountedWithBurden(q, vs, ss, n);
    BurdenedExactly(q, vs, ss, n);
  }

  /** Every answer of a check-in at which the installer fails. */
  const BROKEN := World(1, Usable, Some(false), 1, true, Usable, false, Usable, true, false, 1, true)

  /** Version 1 fails twice; version 2 is first looked at while this machine cannot use it; it is then given
      up after one failure of its own. */
  lemma OneFailureOfItsOwn()
    ensures exists vs: seq<Visit>, ss: seq<AppState> :: && History(vs, ss) && AllStored(vs) && |vs| == 4 && vs[2].q == vs[3].q == Ask(2, Install)
                             && HeldBack(vs[3].q, ss[4]) && Streak(vs, ss, 4) == 1
  {
    var p, q := Ask(1, Install), Ask(2, Install);
    var w := BROKEN.(seen := Unusable);
    var vs := [Visit(p, BROKEN), Visit(p, BROKEN), Visit(q, w), Visit(q, BROKEN)];
    var s1, s2 := FAILED_ONCE, FAILED_ONCE.(failures := 2);
    FailsTwice();
    var s3 := Visited(s2, q, w).st;
    var s4 := Visited(s3, q, BROKEN).st;
    var ss := [UNSEEN, s1, s2, s3, s4];
    assert s3 == s2.(version := 2, settled := false) && Visited(s2, q, w).events == [Stored(s3), Told(q, false)];
    assert Visited(s3, q, BROKEN).events[0] == Ran(true, 2, false);
    assert EventsAt(vs, ss, 2) == Visited(s2, q, w).events && EventsAt(vs, ss, 3) == Visited(s3, q, BROKEN).events;
    assert Streak(vs, ss, 3) == 0 by { OldFailuresAside(vs, ss); }
    assert Fails(EventsAt(vs, ss, 3));
    assert History(vs, ss);
  }

  const FAILED_ONCE := AppState(1, Install, 1, Failed, 1, false, 1, false, 0)

  lemma FailsTwice()
    ensures Visited(UNSEEN, Ask(1, Install), BROKEN).st == FAILED_ONCE
    ensures Visited(FAILED_ONCE, Ask(1, Install), BROKEN).st == FAILED_ONCE.(failures := 2)
  {
  }

  /** Under a new assignment the failures in a row start over. */
  lemma OldFailuresAside(vs: seq<Visit>, ss: seq<AppState>)
    requires 3 <= |vs| < |ss| && vs[1].q != vs[2].q
    requires !Fails(EventsAt(vs, ss, 2)) && !Acts(EventsAt(vs, ss, 2))
    ensures Streak(vs, ss, 3) == 0
  {
  }

  lemma ActAddsOne(st: AppState, q: Ask, w: World)
    requires Answers(st, q)
    ensures var o := Acted(st, q, w); o.st.failures <= st.failures + if Fails(o.events) then 1 else 0
  {
    var o := Acted(st, q, w);
    assert forall i :: 0 <= i < |o.events| && o.events[i].Ran? && !o.events[i].ok ==> Fails(o.events);
    if o.st.failures > st.failures {
      assert o.events[0].Ran? && (!o.events[0].ok || !o.events[1].ok);
    }
  }

  /** Once a check-in has stored that the assignment is reached, nothing more is done about it for an hour. */
  lemma ReachedIsLeftForAnHour(st: AppState, q: Ask, w: World, now: int)
    requires Honest(st) && w.seenAt > 0 && w.at > 0
    requires var o := Visited(st, q, w); o.st != st && o.st.settled && Answers(o.st, q)
    requires now - w.seenAt < DETECT_EVERY && now - w.at < DETECT_EVERY
    ensures Decide(q, Visited(st, q, w).st, now) == Nothing
  {
  }

  /** And after an hour it is looked at again, unless failures hold it back. */
  lemma ReachedIsRechecked(st: AppState, q: Ask, now: int)
    requires Honest(st) && st.settled && Answers(st, q) && !HeldBack(q, st)
    ensures Decide(q, st, now) == Detect <==> st.lastSeenAt == 0 || now - st.lastSeenAt >= DETECT_EVERY
    ensures Decide(q, st, now) in {Detect, Nothing}
  {
  }

  // ----- When an outcome cannot be stored -------------------------------------------------------------

  /** It is as if the installer had not run: the next check-in decides the same, whatever the clock says,
      and runs it again, so that nothing bounds the failures. */
  lemma UnstoredRunRepeats(st: AppState, q: Ask, w: World, now: int)
    requires Decide(q, st, w.now) in {DoInstall, DoUninstall} && w.act.Usable? && !w.stores
    ensures Visited(st, q, w).st == st && Decide(q, st, now) == Decide(q, st, w.now)
  {
  }

  /** An install that worked and could not be stored is not known as the agent's own. */
  lemma UnstoredInstallIsNotOwn(log: seq<Event>, st: AppState, q: Ask, w: World)
    requires Decide(q, st, w.now) == DoInstall && w.act.Usable? && !w.evicts && w.works && !w.stores
    ensures var o := Visited(st, q, w);
            OwnInstall(log + o.events) == q.version && o.st.installedByAgent == st.installedByAgent
  {
    OwnStep(log, Ran(true, q.version, true));
  }

  // ----- As the source runs it ----------------------------------------------------------------------

  /** Settled means settled, no success is reported while it still stands, and, as long as every outcome
      could be stored, the agent knows what it installed itself. */
  ghost predicate Sound(log: seq<Event>, st: AppState, stored: bool) {
    Honest(st) && (forall q :: Orderly(log, st, q)) && (stored ==> st.installedByAgent == OwnInstall(log))
  }

  lemma DeclineIsSound(log: seq<Event>, st: AppState, q: Ask, at: int, stores: bool, stored: bool)
    requires Sound(log, st, stored)
    ensures var o := Declined(st, st, q, at, stores); Sound(log + o.events, o.st, stored)
  {
    var o := Declined(st, st, q, at, stores);
    hide Orderly, OwnInstall;
    if stored { DeclineKeepsOwn(log, st, q, at, stores); }
    forall p
      ensures Orderly(log + o.events, o.st, p)
    {
      DeclineIsOrderly(log, st, q, at, stores, p);
    }
  }

  /** What the store may be told: a success only of what the installer has just done. */
  ghost predicate Ready(log: seq<Event>, st: AppState, q: Ask, ok: bool) {
    OwnInstall(log) == if !ok then st.installedByAgent else if Wants(q.intent) then q.version else 0
  }

  lemma FinishIsSound(log: seq<Event>, disk: AppState, st: AppState, q: Ask, ok: bool, w: World, stored: bool)
    requires Honest(disk) && (forall p :: Orderly(log, disk, p)) && !StillTold(log, q) && !q.intent.Unset?
    requires stored ==> Ready(log, st, q, ok)
    ensures var o := Finished(disk, st, q, ok, w, []); Sound(log + o.events, o.st, stored && w.stores)
  {
    var o := Finished(disk, st, q, ok, w, []);
    hide Orderly, OwnInstall, StillTold;
    assert log + [] == log;
    if stored && w.stores { FinishKeepsOwn(log, disk, st, q, ok, w, []); }
    forall p
      ensures Orderly(log + o.events, o.st, p)
    {
      FinishIsOrderly(log, disk, st, q, ok, w, [], p);
    }
  }

  /** The failures in a row are on disk, if they are of what is asked for now. */
  predicate Counted(st: AppState, last: Option<Ask>, streak: nat) {
    && streak <= MAX_ATTEMPTS
    && (last.Some? ==> if Answers(st, last.value) then streak <= st.failures else streak == 0)
  }

  /** The failures in a row after one more check-in. */
  function NextStreak(last: Option<Ask>, streak: nat, q: Ask, events: seq<Event>): nat {
    var before := if last.Some? && last != Some(q) then 0 else streak;
    if Fails(events) then before + 1 else if Acts(events) then 0 else before
  }

  lemma VisitIsCounted(st: AppState, last: Option<Ask>, streak: nat, q: Ask, w: World)
    requires Counted(st, last, streak) && (last.None? ==> streak == 0) && w.stores && w.keeps && w.seenAt > 0
    ensures var o := Visited(st, q, w); Counted(o.st, Some(q), NextStreak(last, streak, q, o.events))
  {
    hide Visited, Fails, Acts;
    VisitCounts(st, q, w);
    FailsMeansActs(Visited(st, q, w).events);
  }

  /** Running the installer leaves the reports as they stand. */
  lemma RanIsOrderly(log: seq<Event>, disk: AppState, e: Event, q: Ask)
    requires (forall p :: Orderly(log, disk, p)) && e.Ran?
    ensures (forall p :: Orderly(log + [e], disk, p)) && (StillTold(log + [e], q) <==> StillTold(log, q))
    ensures OwnInstall(log + [e]) == if e.ok then (if e.install then e.version else 0) else OwnInstall(log)
  {
    OwnStep(log, e);
    RanTellsNothing(log, disk, q, [e]);
    hide StillTold, OwnInstall;
    forall p
      ensures Orderly(log + [e], disk, p)
    {
      RanTellsNothing(log, disk, p, [e]);
    }
  }

  /** What a detection stores: reported if it is the transition, acted on if it is not settled. */
  lemma NotedIsSound(log: seq<Event>, st: AppState, q: Ask, installed: bool, at: int, stored: bool)
    requires Sound(log, st, stored) && !q.intent.Unset?
    ensures var next := Noted(st, q, installed, at);
            && Sound(log + [Stored(next)], next, stored) && (!next.settled ==> !StillTold(log + [Stored(next)], q))
            && (next.settled && !(Answers(st, q) && st.settled) ==> Sound(log + [Stored(next), Told(q, true)], next, stored))
  {
    var next := Noted(st, q, installed, at);
    OwnStep(log, Stored(next));
    OwnStep(log + [Stored(next)], Told(q, true));
    assert log + [Stored(next), Told(q, true)] == log + [Stored(next)] + [Told(q, true)];
    assert Orderly(log, st, q);
    ToldStep(log, Stored(next), q);
    hide StillTold, OwnInstall, NeverRepeats;
    forall p
      ensures Orderly(log + [Stored(next)], next, p)
      ensures next.settled && !(Answers(st, q) && st.settled) ==> Orderly(log + [Stored(next), Told(q, true)], next, p)
    {
      assert Orderly(log, st, p);
      ToldStep(log, Stored(next), p);
      if next.settled && !(Answers(st, q) && st.settled) {
        StoreThenTell(log, st, next, q, true, p);
      }
    }
  }

  class Syncer {
    /** What the store holds about the app. */
    var disk: AppState

    /** What was seen, what was last asked for, the failing installer runs in a row under it, and whether
        every outcome so far could be stored. */
    ghost var log: seq<Event>
    ghost var last: Option<Ask>
    ghost var streak: nat
    ghost var stored: bool

    ghost predicate Valid()
      reads this
    {
      Sound(log, disk, stored) && (stored ==> Counted(disk, last, streak)) && (last.None? ==> streak == 0)
    }

    constructor ()
      ensures Valid() && stored && disk == UNSEEN && log == []
    {
      disk, log, last, streak, stored := UNSEEN, [], None, 0, true;
    }

    /** reportUnavailable. */
    method ReportUnavailable(st: AppState, q: Ask, at: int, stores: bool)
      requires st == disk && Sound(log, disk, stored)
      modifies this`disk, this`log
      ensures Sound(log, disk, stored)
      ensures var o := Declined(old(disk), st, q, at, stores); disk == o.st && log == old(log) + o.events
    {
      DeclineIsSound(log, st, q, at, stores, stored);
      hide Sound;
      assert log + [] == log;
      if st.version == q.version && st.lastStatus == Failed {
        return;
      }
      var next := st;
      next := next.(version := q.version, intent := q.intent);
      next := next.(lastActedAt := at);
      next := next.(lastStatus := Failed);
      next := next.(settled := false);
      if !stores {
        return;
      }
      disk := next;
      log := log + [Stored(next), Told(q, false)];
    }

    /** finish: what is stored of an outcome agrees with what the installer did, and is stored before it is
        reported. */
    method Finish(st: AppState, q: Ask, ok: bool, w: World)
      requires Honest(disk) && (forall p :: Orderly(log, disk, p)) && !StillTold(log, q) && !q.intent.Unset?
      requires stored ==> Ready(log, st, q, ok)
      modifies this`disk, this`log, this`stored
      ensures Sound(log, disk, stored) && stored == (old(stored) && w.stores)
      ensures var o := Finished(old(disk), st, q, ok, w, []); disk == o.st && log == old(log) + o.events
    {
      FinishIsSound(log, disk, st, q, ok, w, stored);
      hide Sound, Orderly, Ready;
      assert log + [] == log && forall es: seq<Event> :: [] + es == es;
      stored := stored && w.stores;
      var next := st;
      next := next.(version := q.version, intent := q.intent);
      next := next.(lastActedAt := w.at);
      next := next.(lastStatus := if ok then Succeeded else Failed);
      if ok {
        next := next.(failures := 0, installed := Wants(q.intent), lastSeenAt := w.at, installedByAgent := 0);
        if next.installed {
          next := next.(installedByAgent := q.version);
        }
        next := next.(settled := true);
      } else if st.version == q.version && st.intent == q.intent {
        next := next.(failures := st.failures + 1, settled := false);
      } else {
        next := next.(failures := 1, settled := false);
      }
      if !w.stores {
        return;
      }
      disk := next;
      log := log + [Stored(next), Told(q, ok)];
    }

    /** One installer run, and what the world saw of it. */
    method RunInstaller(install: bool, version: int, works: bool, ghost q: Ask)
      requires forall p :: Orderly(log, disk, p)
      modifies this`log
      ensures log == old(log) + [Ran(install, version, works)]
      ensures (forall p :: Orderly(log, disk, p)) && (StillTold(log, q) <==> StillTold(old(log), q))
      ensures OwnInstall(log) == if works then (if install then version else 0) else OwnInstall(old(log))
    {
      hide Orderly, StillTold, OwnInstall;
      RanIsOrderly(log, disk, Ran(install, version, works), q);
      log := log + [Ran(install, version, works)];
    }

    /** install and uninstall: the installer is run only on what does not still stand reported as reached. */
    method Act(st0: AppState, q: Ask, w: World)
      requires disk == st0 && Sound(log, disk, stored) && !StillTold(log, q) && !q.intent.Unset?
      modifies this`disk, this`log, this`stored
      ensures Sound(log, disk, stored) && (stored ==> old(stored)) && (old(stored) && w.stores ==> stored)
      ensures var o := Acted(st0, q, w); disk == o.st && log == old(log) + o.events
    {
      hide Concluded, Orderly, StillTold, OwnInstall;
      var st := st0;
      if w.act.Unfetched? {
        return;
      }
      if w.act.Unusable? {
        ReportUnavailable(st, q, w.at, w.stores);
        return;
      }
      if q.intent != Install {
        RunInstaller(false, q.version, w.works, q);
        Finish(st, q, w.works, w);
        return;
      }
      if w.evicts && st.installedByAgent != 0 && st.installedByAgent != q.version {
        if w.previous.Unfetched? {
          return;
        }
        if w.previous.Unusable? {
          ReportUnavailable(st, q, w.at, w.stores);
          return;
        }
        RunInstaller(false, st.installedByAgent, w.removed, q);
        if !w.removed {
          Finish(st, q, false, w);
          return;
        }
        st := st.(installedByAgent := 0);
      }
      RunInstaller(true, q.version, w.works, q);
      Finish(st, q, w.works, w);
    }

    /** detect, and acting on what it found. */
    method DetectThenAct(q: Ask, w: World)
      requires Sound(log, disk, stored) && !q.intent.Unset?
      modifies this`disk, this`log, this`stored
      ensures Sound(log, disk, stored) && (stored ==> old(stored)) && (old(stored) && w.stores ==> stored)
      ensures var o := Detected(old(disk), q, w); disk == o.st && log == old(log) + o.events
    {
      hide Acted, Declined, Sound, StillTold;
      var st := disk;
      if w.seen.Unfetched? {
        return;
      }
      if w.seen.Unusable? {
        ReportUnavailable(st, q, w.at, w.stores);
        return;
      }
      if w.found.None? {
        return;
      }
      NotedIsSound(log, st, q, w.found.value, w.seenAt, stored);
      var next := st;
      next := next.(version := q.version, intent := q.intent);
      next := next.(installed := w.found.value);
      next := next.(lastSeenAt := w.seenAt);
      if !Answers(st, q) {
        next := next.(failures := 0, settled := false);
      }
      var settledNow := w.found.value == Wants(q.intent);
      var report := settledNow && !next.settled;
      next := next.(settled := settledNow);
      if !w.keeps {
        return;
      }
      disk := next;
      if report {
        log := log + [Stored(next), Told(q, true)];
        return;
      }
      log := log + [Stored(next)];
      var d := Decide(q, next, w.seenAt);
      if d.DoInstall? || d.DoUninstall? {
        Act(next, q, w);
      }
    }

    /** syncOne. Over any sequence of check-ins, with any versions, intents, answers and failed writes:
        settled implies installed matches the intent; a success is not reported while it still stands; and
        while every outcome could be stored, InstalledByAgent is the agent's last own install not since
        removed and no more than three installer runs in a row fail under one version and intent. */
    method SyncOne(q: Ask, w: World)
      requires Valid() && Sensible(Visit(q, w))
      modifies this
      ensures Valid() && last == Some(q) && (stored <==> old(stored) && w.stores && w.keeps)
      ensures var o := Visited(old(disk), q, w);
              disk == o.st && log == old(log) + o.events && streak == NextStreak(old(last), old(streak), q, o.events)
    {
      ghost var st, before := disk, log;
      hide Detected, Acted, StillTold, Orderly, OwnInstall;
      var d := Decide(q, disk, w.now);
      if d.Detect? {
        DetectThenAct(q, w);
      } else if d.DoInstall? || d.DoUninstall? {
        ToldMeansNothingToDo(log, disk, q, w.now);
        Act(disk, q, w);
      }
      assert before + [] == before;
      if stored && w.stores && w.keeps { VisitIsCounted(st, last, streak, q, w); }
      streak := NextStreak(last, streak, q, Visited(st, q, w).events);
      last := Some(q);
      stored := stored && w.stores && w.keeps;
    }
  }
}
