/** What policy reconciliation promises over whole histories, and what one reconcile promises whatever
    order its profiles come in: internal/agent/policy/reconcile.go. */
module PolicyHistory {
  import opened Prelude
  import opened PolicyPlan
  import opened Policy

  // ----- Order of assignment ------------------------------------------------------------------

  lemma SameActive(xs: seq<Assigned>, ys: seq<Assigned>)
    requires forall a :: a in xs <==> a in ys
    ensures forall a :: a in Active(xs) <==> a in Active(ys)
  {
    forall a
      ensures a in Active(xs) <==> a in Active(ys)
    {
      ActiveMember(xs, a);
      ActiveMember(ys, a);
    }
  }

  lemma SameClaimed(cs: seq<Claim>, ds: seq<Claim>, id: Identity)
    requires forall c :: c in cs <==> c in ds
    ensures Claimed(cs, id) <==> Claimed(ds, id)
  {
    hide AllSame, On;
    if Claimed(cs, id) { PlanIgnoresOrder(cs, ds, id); }
    if Claimed(ds, id) { PlanIgnoresOrder(ds, cs, id); }
  }

  /** Permuting the assigned profiles changes neither what the machine ends up with nor what any
      identity's status is. */
  lemma ReconcileIgnoresOrder(h: Handlers, w: World, st: Store, xs: seq<Assigned>, ys: seq<Assigned>, id: Identity)
    requires forall a :: a in xs <==> a in ys
    ensures SpotAfter(h, w, st, xs, id) == SpotAfter(h, w, st, ys, id)
    ensures Claimed(Claims(Active(xs)), id) ==> StatusAfter(h, w, st, xs, id) == StatusAfter(h, w, st, ys, id)
  {
    hide On, Claims, Active, AllSame, Wanted, SpotAt, Seen;
    var cs, ds := Claims(Active(xs)), Claims(Active(ys));
    SameActive(xs, ys);
    SameClaims(Active(xs), Active(ys));
    SameClaims(xs, ys);
    SameClaimed(Claims(xs), Claims(ys), id);
    SameClaimed(cs, ds, id);
    assert GoneFrom(st, xs) == GoneFrom(st, ys);
    if Claimed(cs, id) {
      PlanIgnoresOrder(cs, ds, id);
    }
  }

  /** Two profiles that disagree leave the identity exactly as it was, and the report says so. */
  lemma ConflictIsNeverWritten(h: Handlers, w: World, st: Store, assigned_: seq<Assigned>, a: Assigned, b: Assigned, s: Setting, t: Setting)
    requires a in assigned_ && b in assigned_ && !a.held && !b.held
    requires s in a.settings && t in b.settings && s.id == t.id && s != t
    ensures SpotAfter(h, w, st, assigned_, s.id) == SpotAt(st, s.id)
    ensures StatusAfter(h, w, st, assigned_, s.id) == Conflict
  {
    hide On, Claims, Active, AllSame, Wanted, SpotAt, Seen;
    var cs := Claims(Active(assigned_));
    ActiveMember(assigned_, a);
    ActiveMember(assigned_, b);
    var c, d := Claim(a.profile, s), Claim(b.profile, t);
    ClaimsMembers(Active(assigned_), c);
    ClaimsMembers(Active(assigned_), d);
    ConflictExactly(cs, s.id);
    OnMember(cs, s.id, c);
    ActiveIsClaimed(assigned_, s.id);
  }

  // ----- What is never undone, and what undoing leaves ------------------------------------------

  /** The cycle changed this cell by Set. */
  ghost predicate Wrote(h: Handlers, w: World, st: Store, assigned_: seq<Assigned>, id: Identity) {
    var cs := Claims(Active(assigned_));
    Claimed(cs, id) && Writes(h, w.touch(id), SpotAt(st, id).cell, ActionFor(cs, id))
  }

  /** An identity in a setting of any assigned profile, held or not, is never undone: its recorded
      state stays on record, and its cell changes only by Set. */
  lemma ClaimedIsNeverUndone(h: Handlers, w: World, st: Store, assigned_: seq<Assigned>, st': Store, a: Assigned, s: Setting)
    requires MayReconcile(h, w, st, assigned_, st')
    requires a in assigned_ && s in a.settings
    ensures SpotAt(st', s.id).cell == SpotAt(st, s.id).cell || Wrote(h, w, st, assigned_, s.id)
    ensures SpotAt(st, s.id).prior.Some? ==> SpotAt(st', s.id).prior == SpotAt(st, s.id).prior
  {
    hide On, Claims, Active, AllSame, Wanted, SpotAt, Seen;
    ClaimsMembers(assigned_, Claim(a.profile, s));
    OnMember(Claims(assigned_), s.id, Claim(a.profile, s));
    assert StillClaimed(assigned_, s.id);
  }

  /** A profile that only holds an identity does not write it either. */
  lemma HeldAloneIsUntouched(h: Handlers, w: World, st: Store, assigned_: seq<Assigned>, st': Store, a: Assigned, s: Setting)
    requires MayReconcile(h, w, st, assigned_, st')
    requires a in assigned_ && s in a.settings
    requires forall b :: b in assigned_ && !b.held ==> forall t :: t in b.settings ==> t.id != s.id
    ensures SpotAt(st', s.id) == SpotAt(st, s.id)
  {
    hide On, Claims, Active, AllSame, Wanted, SpotAt, Seen, Touched;
    var cs := Claims(Active(assigned_));
    if Claimed(cs, s.id) {
      var c := On(cs, s.id)[0];
      OnMember(cs, s.id, c);
      ClaimsMembers(Active(assigned_), c);
      var b :| b in Active(assigned_) && c.profile == b.profile && c.setting in b.settings;
      ActiveMember(assigned_, b);
    }
    ClaimsMembers(assigned_, Claim(a.profile, s));
    OnMember(Claims(assigned_), s.id, Claim(a.profile, s));
  }

  /** What a removed profile asked to have undone, and nothing assigned claims, is back where it was. */
  lemma RemovalRestores(h: Handlers, w: World, st: Store, assigned_: seq<Assigned>, st': Store, p: string, id: Identity)
    requires Reconciled(h, w, st, assigned_, st') && w.listed
    requires p in st.records && p !in Current(assigned_) && st.records[p].revert && id in st.records[p].identities
    requires CanUndo(h, w, st, assigned_, id)
    ensures SpotAt(st', id).cell == st.priors[id].state
    ensures w.touch(id).forgotten ==> SpotAt(st', id).prior == None
  {
    hide On, Claims, Active, AllSame, StillClaimed, Touched;
    assert Wanted(st.records, GoneFrom(st, assigned_), id);
    assert SpotAt(st', id) == Undone(w.touch(id), SpotAt(st, id));
  }

  /** What no removed profile asked to have undone stays as it is, even if nothing claims it any longer: a
      newer version dropping a setting does not undo it, and neither does a removal without revert. */
  lemma DroppedSettingStays(h: Handlers, w: World, st: Store, assigned_: seq<Assigned>, st': Store, id: Identity)
    requires MayReconcile(h, w, st, assigned_, st')
    requires !StillClaimed(assigned_, id)
    requires forall p :: p in st.records && id in st.records[p].identities && p !in Current(assigned_) ==> !st.records[p].revert
    ensures SpotAt(st', id) == SpotAt(st, id)
  {
    hide On, Claims, Active, AllSame, SpotAt, Seen, Touched, ActionFor;
    if Claimed(Claims(Active(assigned_)), id) {
      ActiveIsClaimed(assigned_, id);
    }
  }

  // ----- What a status and a record say ---------------------------------------------------------

  /** Compliant and remediated are said only of a cell that matches, compliant and the other statuses
      without a write only of one that is as it was, and remediated only after a write. */
  lemma StatusIsTruthful(h: Handlers, w: World, st: Store, assigned_: seq<Assigned>, st': Store, id: Identity)
    requires MayReconcile(h, w, st, assigned_, st') && Claimed(Claims(Active(assigned_)), id)
    ensures var a, status := ActionFor(Claims(Active(assigned_)), id), StatusAfter(h, w, st, assigned_, id);
            && (status in {Compliant, Remediated} ==> !a.conflict && h.matches(a.setting, Read(st'.machine, id)))
            && (status == Remediated ==> Wrote(h, w, st, assigned_, id))
            && (status in {Compliant, Conflict, NotApplicable} ==> !Wrote(h, w, st, assigned_, id))
            && (!Wrote(h, w, st, assigned_, id) ==> SpotAt(st', id) == SpotAt(st, id))
  {
    hide On, Claims, Active, AllSame, Wanted, Seen, ActionFor;
    ActiveIsClaimed(assigned_, id);
  }

  /** Every active profile that speaks of this identity asks for this. */
  ghost predicate Agreed(assigned_: seq<Assigned>, s: Setting) {
    forall b, t :: b in assigned_ && !b.held && t in b.settings && t.id == s.id ==> t == s
  }

  lemma ActionIsAsked(assigned_: seq<Assigned>, a: Assigned, s: Setting)
    requires a in assigned_ && !a.held && s in a.settings
    ensures Claimed(Claims(Active(assigned_)), s.id)
    ensures var x := ActionFor(Claims(Active(assigned_)), s.id);
            x.id == s.id && (x.conflict <==> !Agreed(assigned_, s)) && (!x.conflict ==> x.setting == s)
  {
    hide Claims, Active, AllSame, On;
    var active := Active(assigned_);
    var cs := Claims(active);
    var c := Claim(a.profile, s);
    ActiveMember(assigned_, a);
    ClaimsMembers(active, c);
    OnMember(cs, s.id, c);
    ConflictExactly(cs, s.id);
    AskedOnce(cs, c);
    if !Agreed(assigned_, s) {
      var b, t :| b in assigned_ && !b.held && t in b.settings && t.id == s.id && t != s;
      ActiveMember(assigned_, b);
      ClaimsMembers(active, Claim(b.profile, t));
    } else {
      forall d | d in cs && d.setting.id == s.id
        ensures d.setting == s
      {
        ClaimsMembers(active, d);
        var b :| b in active && d.profile == b.profile && d.setting in b.settings;
        ActiveMember(assigned_, b);
      }
    }
  }

  lemma AskedOnce(cs: seq<Claim>, c: Claim)
    requires c in cs
    ensures !ActionFor(cs, c.setting.id).conflict ==> ActionFor(cs, c.setting.id).setting == c.setting
  {
    hide On;
    OnMember(cs, c.setting.id, c);
  }

  /** What an active profile's setting comes to, exactly: in conflict unless all agree; beyond this agent or
      not applicable; compliant if the cell already matched; and otherwise set, its first state recorded,
      and remediated exactly if Set worked and a second test found it so. */
  lemma EnforcedExactly(h: Handlers, w: World, st: Store, assigned_: seq<Assigned>, st': Store, a: Assigned, s: Setting)
    requires MayReconcile(h, w, st, assigned_, st') && a in assigned_ && !a.held && s in a.settings
    ensures var status, t, was := StatusAfter(h, w, st, assigned_, s.id), w.touch(s.id), Read(st.machine, s.id);
            var able := Agreed(assigned_, s) && s.id.kind in h.kinds;
            var due := able && t.first.Answers? && !h.matches(s, was);
            && (status == Conflict <==> !Agreed(assigned_, s))
            && (status == NotApplicable <==> able && t.first.Inapplicable?)
            && (status == Compliant <==> able && t.first.Answers? && h.matches(s, was))
            && (status == Remediated <==> due && t.set_.Sets? && t.second && h.matches(s, t.set_.to))
            && Read(st'.machine, s.id) == (if due then t.set_.to else was)
            && (s.id in st'.priors <==> s.id in st.priors || (due && t.recorded))
            && (s.id in st'.priors ==> st'.priors[s.id] == if s.id in st.priors then st.priors[s.id] else Prior(s, was))
  {
    hide On, Claims, Active, AllSame, Wanted, Seen, ActionFor, Agreed, StillClaimed;
    ActionIsAsked(assigned_, a, s);
    ActiveIsClaimed(assigned_, s.id);
    assert SpotAt(st', s.id) == SpotAfter(h, w, st, assigned_, s.id);
  }

  lemma {:induction false} TimesIn(ps: seq<string>, p: string)
    ensures Times(ps, p) > 0 <==> p in ps
  {
    if ps != [] {
      TimesIn(ps[..|ps| - 1], p);
      assert ps == ps[..|ps| - 1] + [ps[|ps| - 1]];
    }
  }

  lemma {:induction false} HeardSays(h: Handlers, w: World, st: Store, actions: seq<Action>, p: string, r: SettingResult)
    ensures r in Heard(h, w, st, actions, p) <==>
            exists i :: 0 <= i < |actions| && p in actions[i].profiles && r == SettingResult(actions[i].id, StatusOf(h, w, st, actions[i]))
    decreases |actions|
  {
    hide StatusOf;
    if actions != [] {
      var n := |actions| - 1;
      HeardSays(h, w, st, actions[..n], p, r);
      TimesIn(actions[n].profiles, p);
      var told := SettingResult(actions[n].id, StatusOf(h, w, st, actions[n]));
      var last := Repeat(told, Times(actions[n].profiles, p));
      assert |last| > 0 ==> last[0] == told;
    }
  }

  lemma {:induction false} SavedSays(records: map<string, ProfileRecord>, active: seq<Assigned>, unsaved: set<string>, p: string)
    requires OneEach(active)
    ensures p !in Current(active) || p in unsaved ==>
              (p in Saved(records, active, unsaved) <==> p in records) &&
              (p in records ==> Saved(records, active, unsaved)[p] == records[p])
    ensures forall a :: a in active && a.profile == p && p !in unsaved ==>
              p in Saved(records, active, unsaved) && Saved(records, active, unsaved)[p] == RecordOf(a)
    decreases |active|
  {
    hide RecordOf;
    if active != [] {
      var n := |active| - 1;
      SavedSays(records, active[..n], unsaved, p);
      assert active == active[..n] + [active[n]];
    }
  }

  /** The record lists the identities of the profile's settings, and whether to undo them. */
  predicate Undoing(r: ProfileRecord, a: Assigned) {
    && r.revert == a.revert && r.version == a.version && |r.identities| == |a.settings|
    && (forall i :: 0 <= i < |a.settings| ==> r.identities[i] == a.settings[i].id)
  }

  lemma RecordSays(a: Assigned)
    ensures Undoing(RecordOf(a), a)
  {
  }

  /** Afterwards every active profile that could be stored has a record of exactly its identities and of
      whether to undo them, a held one keeps the record it had, and no other profile has one. */
  lemma RecordsSayWhatToUndo(h: Handlers, w: World, st: Store, assigned_: seq<Assigned>, st': Store, a: Assigned)
    requires Reconciled(h, w, st, assigned_, st') && w.listed && OneEach(assigned_)
    ensures a in assigned_ && !a.held && a.profile !in w.unsaved ==>
              a.profile in st'.records && st'.records[a.profile] == RecordOf(a) && Undoing(st'.records[a.profile], a)
    ensures a in assigned_ && a.held ==>
              (a.profile in st'.records <==> a.profile in st.records) &&
              (a.profile in st.records ==> st'.records[a.profile] == st.records[a.profile])
    ensures a.profile !in Current(assigned_) ==> a.profile !in st'.records
  {
    hide SpotAt, SpotAfter, Saved, Active, RecordOf, Undoing;
    RecordSays(a);
    var active := Active(assigned_);
    var left := st.records - GoneFrom(st, assigned_);
    ActiveOneEach(assigned_);
    SavedSays(left, active, w.unsaved, a.profile);
    ActiveMember(assigned_, a);
    if a in assigned_ && a.held && a.profile in Current(active) {
      var b :| b in active && b.profile == a.profile;
      ActiveMember(assigned_, b);
    }
    NothingLeftGone(h, w, st, assigned_, st');
    assert a.profile in GoneFrom(st', assigned_) <==> a.profile in st'.records && a.profile !in Current(assigned_);
  }

  lemma RecordLists(a: Assigned, s: Setting)
    requires s in a.settings
    ensures s.id in RecordOf(a).identities
  {
    var i :| 0 <= i < |a.settings| && a.settings[i] == s;
    assert RecordOf(a).identities[i] == s.id;
  }

  /** End to end: a profile that changed a cell nobody had changed before, asked to be undone and was
      then unassigned, leaves the cell as it found it, whatever moved the cell in the meantime. */
  lemma AssignThenRemoveRestores(h: Handlers, w: World, st: Store, xs: seq<Assigned>, st1: Store, drifted: Store,
                                 w2: World, ys: seq<Assigned>, st2: Store, a: Assigned, s: Setting)
    requires Reconciled(h, w, st, xs, st1) && w.listed && OneEach(xs)
    requires a in xs && !a.held && a.revert && s in a.settings && a.profile !in w.unsaved
    requires Wrote(h, w, st, xs, s.id) && s.id !in st.priors && w.touch(s.id).recorded
    requires Next(h, Drift, st1, drifted)
    requires Reconciled(h, w2, drifted, ys, st2) && w2.listed
    requires a.profile !in Current(ys) && !StillClaimed(ys, s.id) && s.id.kind in h.reverters && w2.touch(s.id).reverted
    ensures Read(st2.machine, s.id) == Read(st.machine, s.id)
  {
    hide Reconciled, Wrote, StillClaimed, RecordOf, SpotAt, Current;
    RecordsSayWhatToUndo(h, w, st, xs, st1, a);
    RecordLists(a, s);
    RecordKeepsRevert(a);
    FirstWriteRecorded(h, w, st, xs, st1, s.id);
    RemovalRestores(h, w2, drifted, ys, st2, a.profile, s.id);
    assert SpotAt(st2, s.id).cell == Read(st2.machine, s.id) by { CellOf(st2, s.id); }
  }

  lemma CellOf(st: Store, id: Identity)
    ensures SpotAt(st, id).cell == Read(st.machine, id)
  {
  }

  lemma RecordKeepsRevert(a: Assigned)
    ensures RecordOf(a).revert == a.revert
  {
  }

  /** A first write puts on record what was there, with a setting of the same identity. */
  lemma FirstWriteRecorded(h: Handlers, w: World, st: Store, assigned_: seq<Assigned>, st': Store, id: Identity)
    requires Reconciled(h, w, st, assigned_, st') && Wrote(h, w, st, assigned_, id) && id !in st.priors && w.touch(id).recorded
    ensures id in st'.priors && st'.priors[id].state == Read(st.machine, id) && st'.priors[id].setting.id == id
  {
    hide Claims, Active, AllSame, Wanted, Seen;
    var cs := Claims(Active(assigned_));
    ActiveIsClaimed(assigned_, id);
    OnMember(cs, id, On(cs, id)[0]);
    assert SpotAt(st', id) == SpotAfter(h, w, st, assigned_, id);
  }

  // ----- Histories ----------------------------------------------------------------------------

  /** A reconcile, or anything else changing the machine between two of them. */
  datatype Event = Cycle(w: World, assigned_: seq<Assigned>) | Drift

  ghost predicate Next(h: Handlers, e: Event, st: Store, st': Store) {
    match e
    case Cycle(w, assigned_) => MayReconcile(h, w, st, assigned_, st')
    case Drift => st'.priors == st.priors && st'.records == st.records
  }

  /** The stores before, between and after the events. */
  ghost predicate History(h: Handlers, events: seq<Event>, stores: seq<Store>) {
    && |stores| == |events| + 1
    && (forall i :: 0 <= i < |events| ==> Next(h, events[i], stores[i], stores[i + 1]))
  }

  ghost predicate WroteIn(h: Handlers, e: Event, st: Store, id: Identity) {
    e.Cycle? && Wrote(h, e.w, st, e.assigned_, id)
  }

  /** The cycle put the recorded state back and forgot it. */
  predicate LetGo(st: Store, st': Store, id: Identity) { id in st.priors && id !in st'.priors }

  /** The cell just before Retune's first write since the start, or since it last let the identity go.
      What the store remembers plays no part in which write is first. */
  ghost function Original(h: Handlers, events: seq<Event>, stores: seq<Store>, id: Identity): Option<Cell>
    requires History(h, events, stores)
  {
    if events == [] then None
    else
      var n := |events| - 1;
      var before := Original(h, events[..n], stores[..n + 1], id);
      if LetGo(stores[n], stores[n + 1], id) then None
      else if before.Some? then before
      else if WroteIn(h, events[n], stores[n], id) then Some(Read(stores[n].machine, id))
      else None
  }

  function Remembered(st: Store, id: Identity): Option<Cell> {
    if id in st.priors then Some(st.priors[id].state) else None
  }

  /** A write of a cell with nothing on record, when reading or recording what was there fails. */
  ghost predicate Unrecorded(h: Handlers, e: Event, st: Store, id: Identity) {
    WroteIn(h, e, st, id) && id !in st.priors && !e.w.touch(id).recorded
  }

  ghost predicate AlwaysRecorded(h: Handlers, events: seq<Event>, stores: seq<Store>, id: Identity)
    requires History(h, events, stores)
  {
    forall i :: 0 <= i < |events| ==> !Unrecorded(h, events[i], stores[i], id)
  }

  ghost predicate RemembersThroughout(h: Handlers, events: seq<Event>, stores: seq<Store>, id: Identity)
    requires History(h, events, stores)
  {
    forall k :: 0 <= k <= |events| ==> Remembered(stores[k], id) == Original(h, events[..k], stores[..k + 1], id)
  }

  lemma Prefix(h: Handlers, events: seq<Event>, stores: seq<Store>, n: nat)
    requires History(h, events, stores) && n <= |events|
    ensures History(h, events[..n], stores[..n + 1])
  {
    forall i | 0 <= i < n
      ensures Next(h, events[..n][i], stores[..n + 1][i], stores[..n + 1][i + 1])
    {
      assert Next(h, events[i], stores[i], stores[i + 1]);
    }
  }

  /** How one event moves what is remembered. */
  lemma RememberedNext(h: Handlers, e: Event, st: Store, st': Store, id: Identity)
    requires Next(h, e, st, st')
    ensures id in st.priors ==> LetGo(st, st', id) || Remembered(st', id) == Remembered(st, id)
    ensures id !in st.priors && WroteIn(h, e, st, id) ==>
              Remembered(st', id) == if Unrecorded(h, e, st, id) then None else Some(Read(st.machine, id))
    ensures id !in st.priors && !WroteIn(h, e, st, id) ==> Remembered(st', id) == None
  {
    hide On, Claims, Active, AllSame, Wanted, Seen, ActionFor;
    if e.Cycle? {
      assert SpotAt(st', id) == SpotAfter(h, e.w, st, e.assigned_, id) ||
             (!StillClaimed(e.assigned_, id) && SpotAt(st', id) == SpotAt(st, id));
      if Claimed(Claims(Active(e.assigned_)), id) {
        ActiveIsClaimed(e.assigned_, id);
      }
    }
  }

  lemma OriginalStep(h: Handlers, events: seq<Event>, stores: seq<Store>, k: nat, id: Identity)
    requires History(h, events, stores) && k < |events|
    ensures History(h, events[..k], stores[..k + 1]) && History(h, events[..k + 1], stores[..k + 2])
    ensures var before := Original(h, events[..k], stores[..k + 1], id);
            Original(h, events[..k + 1], stores[..k + 2], id) ==
            if LetGo(stores[k], stores[k + 1], id) then None
            else if before.Some? then before
            else if WroteIn(h, events[k], stores[k], id) then Some(Read(stores[k].machine, id))
            else None
  {
    hide WroteIn, Next;
    Prefix(h, events, stores, k);
    Prefix(h, events, stores, k + 1);
    assert events[..k + 1][..k] == events[..k];
    assert stores[..k + 2][..k + 1] == stores[..k + 1];
  }

  /** What is on record is the cell before Retune's first write, and stays it. */
  lemma {:induction false} RecordedIsOriginal(h: Handlers, events: seq<Event>, stores: seq<Store>, id: Identity, k: nat)
    requires History(h, events, stores) && id !in stores[0].priors && k <= |events|
    requires AlwaysRecorded(h, events, stores, id)
    ensures History(h, events[..k], stores[..k + 1])
    ensures Remembered(stores[k], id) == Original(h, events[..k], stores[..k + 1], id)
    decreases k
  {
    hide Wrote, Next;
    if k > 0 {
      RecordedIsOriginal(h, events, stores, id, k - 1);
      OriginalStep(h, events, stores, k - 1, id);
      RememberedNext(h, events[k - 1], stores[k - 1], stores[k], id);
    }
  }

  lemma UnrecordedShows(h: Handlers, events: seq<Event>, stores: seq<Store>, id: Identity, k: nat)
    requires History(h, events, stores) && k < |events| && Unrecorded(h, events[k], stores[k], id)
    ensures History(h, events[..k], stores[..k + 1]) && History(h, events[..k + 1], stores[..k + 2])
    ensures Remembered(stores[k], id) != Original(h, events[..k], stores[..k + 1], id) ||
            Remembered(stores[k + 1], id) != Original(h, events[..k + 1], stores[..k + 2], id)
  {
    hide Wrote, Next;
    OriginalStep(h, events, stores, k, id);
    RememberedNext(h, events[k], stores[k], stores[k + 1], id);
  }

  /** Recording works whenever it is needed, exactly when what is on record is at every moment the
      state before Retune's first write, through any assignments, conflicts, holds, removals and drift. */
  lemma RecordedExactlyWhenAlwaysRecorded(h: Handlers, events: seq<Event>, stores: seq<Store>, id: Identity)
    requires History(h, events, stores) && id !in stores[0].priors
    ensures RemembersThroughout(h, events, stores, id) <==> AlwaysRecorded(h, events, stores, id)
  {
    hide Unrecorded, Next, Original, Remembered;
    if AlwaysRecorded(h, events, stores, id) {
      forall k | 0 <= k <= |events|
        ensures History(h, events[..k], stores[..k + 1])
        ensures Remembered(stores[k], id) == Original(h, events[..k], stores[..k + 1], id)
      {
        RecordedIsOriginal(h, events, stores, id, k);
      }
    } else {
      var k :| 0 <= k < |events| && Unrecorded(h, events[k], stores[k], id);
      UnrecordedShows(h, events, stores, id, k);
    }
  }

  /** So undoing a removed profile puts back exactly what was there before Retune. */
  lemma RemovalRestoresTheOriginal(h: Handlers, events: seq<Event>, stores: seq<Store>, w: World, assigned_: seq<Assigned>, st': Store,
                                   p: string, id: Identity)
    requires History(h, events, stores) && id !in stores[0].priors && AlwaysRecorded(h, events, stores, id)
    requires var st := stores[|events|];
             && Reconciled(h, w, st, assigned_, st') && w.listed
             && p in st.records && p !in Current(assigned_) && st.records[p].revert && id in st.records[p].identities
             && CanUndo(h, w, st, assigned_, id)
    ensures Original(h, events, stores, id) == Some(Read(st'.machine, id))
  {
    hide Next, Reconciled, AlwaysRecorded, CanUndo;
    var n := |events|;
    RemovalRestores(h, w, stores[n], assigned_, st', p, id);
    RecordedIsOriginal(h, events, stores, id, n);
    assert events[..n] == events && stores[..n + 1] == stores;
    assert id in stores[n].priors by { Undoable(h, w, stores[n], assigned_, id); }
  }

  lemma Undoable(h: Handlers, w: World, st: Store, assigned_: seq<Assigned>, id: Identity)
    requires CanUndo(h, w, st, assigned_, id)
    ensures id in st.priors
  {
  }

  // ----- Convergence --------------------------------------------------------------------------

  /** Where this cycle writes, Set does what it promises and the second test answers. */
  ghost predicate SetWorks(h: Handlers, w: World, st: Store, assigned_: seq<Assigned>) {
    forall id :: Wrote(h, w, st, assigned_, id) ==>
      var t := w.touch(id);
      t.set_.Sets? && t.second && h.matches(ActionFor(Claims(Active(assigned_)), id).setting, t.set_.to)
  }

  lemma {:induction false} SavedKeys(records: map<string, ProfileRecord>, active: seq<Assigned>, unsaved: set<string>)
    ensures Saved(records, active, unsaved).Keys <= records.Keys + Current(active)
    decreases |active|
  {
    if active != [] {
      var n := |active| - 1;
      SavedKeys(records, active[..n], unsaved);
      assert active == active[..n] + [active[n]];
    }
  }

  /** After a full sweep no profile on record is gone. */
  lemma NothingLeftGone(h: Handlers, w: World, st: Store, assigned_: seq<Assigned>, st': Store)
    requires Reconciled(h, w, st, assigned_, st') && w.listed
    ensures GoneFrom(st', assigned_) == {}
  {
    hide SpotAt, SpotAfter, Saved;
    var active := Active(assigned_);
    SavedKeys(st.records - GoneFrom(st, assigned_), active, w.unsaved);
    forall p | p in Current(active)
      ensures p in Current(assigned_)
    {
      var a :| a in active && a.profile == p;
      ActiveMember(assigned_, a);
    }
  }

  /** A second reconcile of the same assignment, the tests applying where they applied, writes nothing,
      undoes nothing, and finds compliant whatever the first had to fix. */
  lemma Converges(h: Handlers, w: World, st: Store, assigned_: seq<Assigned>, st1: Store, w2: World, st2: Store, id: Identity)
    requires Reconciled(h, w, st, assigned_, st1) && w.listed && SetWorks(h, w, st, assigned_)
    requires MayReconcile(h, w2, st1, assigned_, st2) && w2.touch(id).first == w.touch(id).first
    ensures SpotAt(st2, id) == SpotAt(st1, id)
    ensures !Wrote(h, w2, st1, assigned_, id)
    ensures Claimed(Claims(Active(assigned_)), id) ==>
              var first := StatusAfter(h, w, st, assigned_, id);
              StatusAfter(h, w2, st1, assigned_, id) == if first.Remediated? then Compliant else first
  {
    hide On, Claims, Active, AllSame, Seen, ActionFor, Wanted, GoneFrom;
    NothingLeftGone(h, w, st, assigned_, st1);
    NothingWantedOf(st1.records, id);
    if Claimed(Claims(Active(assigned_)), id) {
      ActiveIsClaimed(assigned_, id);
    }
    assert SpotAt(st1, id) == SpotAfter(h, w, st, assigned_, id);
    assert SpotAt(st2, id) == SpotAfter(h, w2, st1, assigned_, id) || SpotAt(st2, id) == SpotAt(st1, id);
  }

  lemma NothingWantedOf(records: map<string, ProfileRecord>, id: Identity)
    ensures !Wanted(records, {}, id)
  {
  }

  // ----- Every claim is answered once -----------------------------------------------------------

  function ClaimsBy(cs: seq<Claim>, p: string): nat { Times(Profiles(cs), p) }

  lemma TimesSnoc(cs: seq<Claim>, c: Claim, p: string)
    ensures ClaimsBy(cs + [c], p) == ClaimsBy(cs, p) + if c.profile == p then 1 else 0
  {
    assert Profiles(cs + [c]) == Profiles(cs) + [c.profile];
    assert (Profiles(cs) + [c.profile])[..|cs|] == Profiles(cs);
  }

  /** How many claims p makes on the identities listed. */
  function ClaimsAcross(ids: seq<Identity>, cs: seq<Claim>, p: string): nat {
    if ids == [] then 0 else ClaimsAcross(ids[..|ids| - 1], cs, p) + ClaimsBy(On(cs, ids[|ids| - 1]), p)
  }

  lemma {:induction false} AcrossSnoc(ids: seq<Identity>, cs: seq<Claim>, c: Claim, p: string)
    requires Distinct(ids)
    ensures ClaimsAcross(ids, cs + [c], p) ==
            ClaimsAcross(ids, cs, p) + if c.setting.id in ids && c.profile == p then 1 else 0
    decreases |ids|
  {
    if ids != [] {
      var n := |ids| - 1;
      assert ids == ids[..n] + [ids[n]];
      AcrossSnoc(ids[..n], cs, c, p);
      OnSnoc(cs, c, ids[n]);
      TimesSnoc(On(cs, ids[n]), c, p);
    }
  }

  lemma {:induction false} AcrossAll(cs: seq<Claim>, p: string)
    ensures ClaimsAcross(Seen(cs), cs, p) == ClaimsBy(cs, p)
    decreases |cs|
  {
    hide On;
    if cs != [] {
      var n := |cs| - 1;
      var rest, c := cs[..n], cs[n];
      assert cs == rest + [c];
      AcrossAll(rest, p);
      TimesSnoc(rest, c, p);
      SeenDistinct(rest);
      AcrossSnoc(Seen(rest), rest, c, p);
      if c.setting.id !in Seen(rest) {
        NewIdentity(rest, c, p);
      }
    }
  }

  lemma NewIdentity(cs: seq<Claim>, c: Claim, p: string)
    requires c.setting.id !in Seen(cs)
    ensures ClaimsAcross(Seen(cs) + [c.setting.id], cs + [c], p) ==
            ClaimsAcross(Seen(cs), cs + [c], p) + if c.profile == p then 1 else 0
  {
    hide Seen, On;
    var ids := Seen(cs) + [c.setting.id];
    assert ids[..|ids| - 1] == Seen(cs);
    SeenMember(cs, c.setting.id);
    OnSnoc(cs, c, c.setting.id);
    TimesSnoc([], c, p);
  }

  lemma {:induction false} HeardCount(h: Handlers, w: World, st: Store, cs: seq<Claim>, n: nat, p: string)
    requires n <= |PlanOf(cs)|
    ensures |Heard(h, w, st, PlanOf(cs)[..n], p)| == ClaimsAcross(Seen(cs)[..n], cs, p)
  {
    hide On, Seen, AllSame, Times, StatusOf;
    if n > 0 {
      HeardCount(h, w, st, cs, n - 1, p);
      HeardSnoc(h, w, st, PlanOf(cs), n - 1, p);
      assert Seen(cs)[..n][..n - 1] == Seen(cs)[..n - 1];
    }
  }

  lemma {:induction false} TimesConcat(cs: seq<Claim>, ds: seq<Claim>, p: string)
    ensures ClaimsBy(cs + ds, p) == ClaimsBy(cs, p) + ClaimsBy(ds, p)
    decreases |ds|
  {
    if ds == [] {
      assert cs + ds == cs;
    } else {
      var n := |ds| - 1;
      TimesConcat(cs, ds[..n], p);
      assert cs + ds == cs + ds[..n] + [ds[n]] && ds == ds[..n] + [ds[n]];
      TimesSnoc(cs + ds[..n], ds[n], p);
      TimesSnoc(ds[..n], ds[n], p);
    }
  }

  lemma {:induction false} TimesAll(ps: seq<string>, p: string)
    ensures (forall i :: 0 <= i < |ps| ==> ps[i] == p) ==> Times(ps, p) == |ps|
    ensures p !in ps ==> Times(ps, p) == 0
    decreases |ps|
  {
    if ps != [] {
      TimesAll(ps[..|ps| - 1], p);
    }
  }

  /** Among profiles of different ids, each makes as many claims as it has settings. */
  lemma {:induction false} ClaimsByEach(assigned_: seq<Assigned>, p: string)
    requires OneEach(assigned_)
    ensures p !in Current(assigned_) ==> ClaimsBy(Claims(assigned_), p) == 0
    ensures forall a :: a in assigned_ && a.profile == p ==> ClaimsBy(Claims(assigned_), p) == |a.settings|
    decreases |assigned_|
  {
    if assigned_ != [] {
      var n := |assigned_| - 1;
      var rest, last := assigned_[..n], assigned_[n];
      ClaimsByEach(rest, p);
      TimesConcat(Claims(rest), ClaimsOf(last), p);
      TimesAll(Profiles(ClaimsOf(last)), p);
      assert assigned_ == rest + [last];
    }
  }

  lemma {:induction false} ActiveOneEach(assigned_: seq<Assigned>)
    requires OneEach(assigned_)
    ensures OneEach(Active(assigned_))
    decreases |assigned_|
  {
    if assigned_ != [] {
      var n := |assigned_| - 1;
      ActiveOneEach(assigned_[..n]);
      var rest := Active(assigned_[..n]);
      forall i | 0 <= i < |rest|
        ensures rest[i].profile != assigned_[n].profile
      {
        ActiveMember(assigned_[..n], rest[i]);
      }
    }
  }

  /** Each profile is told exactly as many results as it has settings, held or not. */
  lemma OneResultPerSetting(h: Handlers, w: World, st: Store, assigned_: seq<Assigned>, a: Assigned)
    requires OneEach(assigned_) && a in assigned_
    ensures |Report(h, w, st, assigned_, a)| == |a.settings|
  {
    hide On, Seen, AllSame, Claims, Active, Heard, Times, PlanOf;
    var active := Active(assigned_);
    var cs := Claims(active);
    assert |PlanOf(cs)| == |Seen(cs)| by { PlanLength(cs); }
    HeardCount(h, w, st, cs, |PlanOf(cs)|, a.profile);
    assert PlanOf(cs)[..|PlanOf(cs)|] == PlanOf(cs) && Seen(cs)[..|PlanOf(cs)|] == Seen(cs);
    AcrossAll(cs, a.profile);
    ActiveOneEach(assigned_);
    ClaimsByEach(active, a.profile);
    ActiveMember(assigned_, a);
    if a.held && a.profile in Current(active) {
      var b :| b in active && b.profile == a.profile;
      ActiveMember(assigned_, b);
    }
  }

  /** And the results are those of its settings: an error for each if it is held, and otherwise what each
      setting's identity came to. */
  lemma ReportSays(h: Handlers, w: World, st: Store, assigned_: seq<Assigned>, a: Assigned, r: SettingResult)
    requires OneEach(assigned_) && a in assigned_
    ensures r in Report(h, w, st, assigned_, a) <==>
            exists s :: s in a.settings && r == SettingResult(s.id, if a.held then Error else StatusAfter(h, w, st, assigned_, s.id))
  {
    hide On, Seen, AllSame, Claims, Active, Heard, StatusAfter, HeldPart, PlanOf;
    HeldPartSays(a, r);
    if a.held {
      HeldHearNothing(h, w, st, assigned_, a);
    } else {
      ActiveHear(h, w, st, assigned_, a, r);
    }
  }

  lemma HeldPartSays(a: Assigned, r: SettingResult)
    ensures r in HeldPart(a) <==> a.held && exists s :: s in a.settings && r == SettingResult(s.id, Error)
  {
    if a.held {
      var rs := HeldResults(a);
      forall s | s in a.settings
        ensures SettingResult(s.id, Error) in rs
      {
        var i :| 0 <= i < |a.settings| && a.settings[i] == s;
        assert rs[i] == SettingResult(s.id, Error);
      }
    }
  }

  lemma HeldHearNothing(h: Handlers, w: World, st: Store, assigned_: seq<Assigned>, a: Assigned)
    requires OneEach(assigned_) && a in assigned_ && a.held
    ensures Heard(h, w, st, PlanOf(Claims(Active(assigned_))), a.profile) == []
  {
    hide Heard, HeldResults;
    OneResultPerSetting(h, w, st, assigned_, a);
    assert |HeldPart(a)| == |a.settings|;
  }

  lemma PlanMember(cs: seq<Claim>, i: nat)
    requires i < |PlanOf(cs)|
    ensures PlanOf(cs)[i] == ActionFor(cs, PlanOf(cs)[i].id)
  {
  }

  lemma Planned(cs: seq<Claim>, id: Identity)
    requires Claimed(cs, id)
    ensures exists i :: 0 <= i < |PlanOf(cs)| && PlanOf(cs)[i] == ActionFor(cs, id)
  {
    hide On, AllSame;
    SeenMember(cs, id);
    var i :| 0 <= i < |Seen(cs)| && Seen(cs)[i] == id;
    assert PlanOf(cs)[i] == ActionFor(cs, id);
  }

  lemma ActiveHear(h: Handlers, w: World, st: Store, assigned_: seq<Assigned>, a: Assigned, r: SettingResult)
    requires OneEach(assigned_) && a in assigned_ && !a.held
    ensures r in Heard(h, w, st, PlanOf(Claims(Active(assigned_))), a.profile) <==>
            exists s :: s in a.settings && r == SettingResult(s.id, StatusAfter(h, w, st, assigned_, s.id))
  {
    hide On, Seen, AllSame, Claims, Active, Heard, PlanOf, Touched, ActionFor, SpotAt;
    var active := Active(assigned_);
    var cs := Claims(active);
    var actions := PlanOf(cs);
    HeardSays(h, w, st, actions, a.profile, r);
    ActiveMember(assigned_, a);
    forall s | s in a.settings
      ensures exists i :: 0 <= i < |actions| && actions[i] == ActionFor(cs, s.id) && actions[i].id == s.id && a.profile in actions[i].profiles
    {
      ClaimsMembers(active, Claim(a.profile, s));
      ActionIsAsked(assigned_, a, s);
      Planned(cs, s.id);
      ClaimantsExactly(cs, s.id, a.profile);
    }
    if i :| 0 <= i < |actions| && a.profile in actions[i].profiles && r == SettingResult(actions[i].id, StatusOf(h, w, st, actions[i])) {
      PlanMember(cs, i);
      ClaimantsExactly(cs, actions[i].id, a.profile);
      var c :| c in cs && c.setting.id == actions[i].id && c.profile == a.profile;
      ClaimsMembers(active, c);
      var b :| b in active && b.profile == a.profile && c.setting in b.settings;
      ActiveMember(assigned_, b);
      assert b == a;
    }
  }

  lemma PlanLength(cs: seq<Claim>)
    ensures |PlanOf(cs)| == |Seen(cs)|
  {
  }
}
