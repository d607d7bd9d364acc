/** Keeping a machine to its profiles, and putting back what it had before: internal/agent/policy/reconcile.go.
    A handler owns one cell of the machine per identity. */
module Policy {
  import opened Prelude
  import opened PolicyPlan

  datatype Cell = Absent | Present(data: string)

  datatype Status = Conflict | Error | NotApplicable | Compliant | Remediated

  /** What was there before Retune's first change, with the setting that changed it. */
  datatype Prior = Prior(setting: Setting, state: Cell)

  datatype ProfileRecord = ProfileRecord(identities: seq<Identity>, revert: bool, version: int)

  datatype Store = Store(machine: map<Identity, Cell>, priors: map<Identity, Prior>, records: map<string, ProfileRecord>)

  /** Which kinds this agent can apply, which it can undo, and what each setting accepts. */
  datatype Handlers = Handlers(kinds: set<string>, reverters: set<string>, matches: (Setting, Cell) -> bool)

  // ----- What the world answers ---------------------------------------------------------------

  datatype TestAnswer = Answers | Inapplicable | TestFails

  /** Set leaves its cell at some value whether it reports success or not. */
  datatype SetAnswer = Sets(to: Cell) | SetFails(to: Cell)

  /** How the handler and the store answer about one identity in one cycle. */
  datatype Touch = Touch(first: TestAnswer, recorded: bool, set_: SetAnswer, second: bool, reverted: bool, forgotten: bool)

  datatype World = World(touch: Identity -> Touch, listed: bool, undeletable: set<string>, unsaved: set<string>)

  // ----- One identity -------------------------------------------------------------------------

  /** All that a reconcile reads and writes about one identity. */
  datatype Spot = Spot(cell: Cell, prior: Option<Prior>)

  function Read(machine: map<Identity, Cell>, id: Identity): Cell { if id in machine then machine[id] else Absent }

  function SpotAt(st: Store, id: Identity): Spot {
    Spot(Read(st.machine, id), if id in st.priors then Some(st.priors[id]) else None)
  }

  /** This cycle reaches Set. */
  predicate Writes(h: Handlers, t: Touch, cell: Cell, a: Action) {
    !a.conflict && a.id.kind in h.kinds && t.first.Answers? && !h.matches(a.setting, cell)
  }

  /** apply, on its one identity: test, set only if needed, test again. */
  function Touched(h: Handlers, t: Touch, s: Spot, a: Action): (Spot, Status) {
    if a.conflict then (s, Conflict)
    else if a.id.kind !in h.kinds then (s, Error)
    else match t.first
      case Inapplicable => (s, NotApplicable)
      case TestFails => (s, Error)
      case Answers =>
        if h.matches(a.setting, s.cell) then (s, Compliant)
        else
          var prior := if s.prior.Some? || !t.recorded then s.prior else Some(Prior(a.setting, s.cell));
          match t.set_
          case SetFails(to) => (Spot(to, prior), Error)
          case Sets(to) => (Spot(to, prior), if t.second && h.matches(a.setting, to) then Remediated else Error)
  }

  /** revert, on one identity: the recorded state goes back, and is forgotten if the store lets it. */
  function Undone(t: Touch, s: Spot): Spot
    requires s.prior.Some?
  {
    Spot(s.prior.value.state, if t.forgotten then None else s.prior)
  }

  // ----- The whole cycle, said at once ----------------------------------------------------------

  function Active(assigned_: seq<Assigned>): seq<Assigned> {
    if assigned_ == [] then []
    else
      var a, rest := assigned_[|assigned_| - 1], Active(assigned_[..|assigned_| - 1]);
      if a.held then rest else rest + [a]
  }

  function Current(assigned_: seq<Assigned>): set<string> { set a | a in assigned_ :: a.profile }

  /** Claimed by any assigned profile, held ones included. */
  predicate StillClaimed(assigned_: seq<Assigned>, id: Identity) { Claimed(Claims(assigned_), id) }

  /** Profiles on record that no longer apply. */
  function GoneFrom(st: Store, assigned_: seq<Assigned>): set<string> { st.records.Keys - Current(assigned_) }

  /** Removed profiles want this identity undone, nothing assigned claims it, and it can be undone. */
  predicate Wanted(records: map<string, ProfileRecord>, gone: set<string>, id: Identity) {
    exists p :: p in gone && p in records && records[p].revert && id in records[p].identities
  }

  predicate Undoes(h: Handlers, w: World, st: Store, assigned_: seq<Assigned>, id: Identity) {
    && Wanted(st.records, GoneFrom(st, assigned_), id) && CanUndo(h, w, st, assigned_, id)
  }

  predicate CanUndo(h: Handlers, w: World, st: Store, assigned_: seq<Assigned>, id: Identity) {
    !StillClaimed(assigned_, id) && id in st.priors && st.priors[id].setting.id.kind in h.reverters && w.touch(id).reverted
  }

  /** What one reconcile leaves at one identity, whatever order anything is visited in. */
  ghost function SpotAfter(h: Handlers, w: World, st: Store, assigned_: seq<Assigned>, id: Identity): Spot {
    var cs := Claims(Active(assigned_));
    var s := if Claimed(cs, id) then Touched(h, w.touch(id), SpotAt(st, id), ActionFor(cs, id)).0 else SpotAt(st, id);
    if w.listed && Undoes(h, w, st, assigned_, id) then Undone(w.touch(id), SpotAt(st, id)) else s
  }

  ghost function StatusAfter(h: Handlers, w: World, st: Store, assigned_: seq<Assigned>, id: Identity): Status {
    Touched(h, w.touch(id), SpotAt(st, id), ActionFor(Claims(Active(assigned_)), id)).1
  }

  lemma {:induction false} ActiveMember(assigned_: seq<Assigned>, a: Assigned)
    ensures a in Active(assigned_) <==> a in assigned_ && !a.held
  {
    if assigned_ != [] {
      var n := |assigned_| - 1;
      ActiveMember(assigned_[..n], a);
      assert assigned_ == assigned_[..n] + [assigned_[n]];
    }
  }

  /** An identity an active profile claims is still claimed. */
  lemma ActiveIsClaimed(assigned_: seq<Assigned>, id: Identity)
    requires Claimed(Claims(Active(assigned_)), id)
    ensures StillClaimed(assigned_, id)
  {
    hide On, Claims;
    var c := On(Claims(Active(assigned_)), id)[0];
    OnMember(Claims(Active(assigned_)), id, c);
    ClaimsMembers(Active(assigned_), c);
    var a :| a in Active(assigned_) && c.profile == a.profile && c.setting in a.settings;
    ActiveMember(assigned_, a);
    ClaimsMembers(assigned_, c);
    OnMember(Claims(assigned_), id, c);
  }

  // ----- As the source runs it ------------------------------------------------------------------

  datatype SettingResult = SettingResult(id: Identity, status: Status)

  function Repeat(r: SettingResult, n: nat): seq<SettingResult> { seq(n, _ => r) }

  function Times(ps: seq<string>, p: string): nat {
    if ps == [] then 0 else Times(ps[..|ps| - 1], p) + (if ps[|ps| - 1] == p then 1 else 0)
  }

  function StatusOf(h: Handlers, w: World, st: Store, a: Action): Status { Touched(h, w.touch(a.id), SpotAt(st, a.id), a).1 }

  /** What a profile hears about a plan: one result per claim, in the plan's order. */
  function Heard(h: Handlers, w: World, st: Store, actions: seq<Action>, p: string): seq<SettingResult> {
    if actions == [] then []
    else
      var a := actions[|actions| - 1];
      Heard(h, w, st, actions[..|actions| - 1], p) + Repeat(SettingResult(a.id, StatusOf(h, w, st, a)), Times(a.profiles, p))
  }

  function HeldResults(a: Assigned): (rs: seq<SettingResult>)
    ensures |rs| == |a.settings|
  {
    seq(|a.settings|, i requires 0 <= i < |a.settings| => SettingResult(a.settings[i].id, Error))
  }

  function RecordOf(a: Assigned): ProfileRecord {
    ProfileRecord(seq(|a.settings|, i requires 0 <= i < |a.settings| => a.settings[i].id), a.revert, a.version)
  }

  function Saved(records: map<string, ProfileRecord>, active: seq<Assigned>, unsaved: set<string>): map<string, ProfileRecord> {
    if active == [] then records
    else
      var a, rest := active[|active| - 1], Saved(records, active[..|active| - 1], unsaved);
      if a.profile in unsaved then rest else rest[a.profile := RecordOf(a)]
  }

  function RecordsAfter(w: World, st: Store, assigned_: seq<Assigned>): map<string, ProfileRecord> {
    Saved(if w.listed then st.records - GoneFrom(st, assigned_) else st.records, Active(assigned_), w.unsaved)
  }

  /** No record of a removed profile resists deletion, which would end the sweep early. */
  predicate Smooth(w: World, st: Store, assigned_: seq<Assigned>) { GoneFrom(st, assigned_) !! w.undeletable }

  /** One reconcile, as a relation between what was stored before and after it. */
  ghost predicate Reconciled(h: Handlers, w: World, st: Store, assigned_: seq<Assigned>, st': Store) {
    && (forall id :: SpotAt(st', id) == SpotAfter(h, w, st, assigned_, id))
    && st'.records == RecordsAfter(w, st, assigned_)
  }

  lemma HeardSnoc(h: Handlers, w: World, st: Store, actions: seq<Action>, i: nat, p: string)
    requires i < |actions|
    ensures var a := actions[i];
            Heard(h, w, st, actions[..i + 1], p) ==
            Heard(h, w, st, actions[..i], p) + Repeat(SettingResult(a.id, StatusOf(h, w, st, a)), Times(a.profiles, p))
  {
    assert actions[..i + 1][..i] == actions[..i];
  }

  /** `done` are the identities undone so far; nothing else has changed. */
  ghost predicate UndoneSoFar(h: Handlers, w: World, st: Store, assigned_: seq<Assigned>, done: set<Identity>, st': Store) {
    && (forall id :: id in done ==> CanUndo(h, w, st, assigned_, id) && SpotAt(st', id) == Undone(w.touch(id), SpotAt(st, id)))
    && (forall id :: id !in done ==> SpotAt(st', id) == SpotAt(st, id))
  }

  /** Exactly what the profiles in `seen` wanted undone, and could be, has been undone. */
  ghost predicate SweptOf(h: Handlers, w: World, st: Store, assigned_: seq<Assigned>, seen: set<string>, st': Store) {
    forall id :: SpotAt(st', id) == if Wanted(st.records, seen, id) && CanUndo(h, w, st, assigned_, id)
                                    then Undone(w.touch(id), SpotAt(st, id)) else SpotAt(st, id)
  }

  lemma SweptSome(h: Handlers, w: World, st: Store, assigned_: seq<Assigned>, seen: set<string>, done: set<Identity>, st': Store)
    requires UndoneSoFar(h, w, st, assigned_, done, st')
    requires forall id :: id in done <==> Wanted(st.records, seen, id) && CanUndo(h, w, st, assigned_, id)
    ensures SweptOf(h, w, st, assigned_, seen, st')
  {
    hide Wanted, StillClaimed;
  }

  lemma NothingSwept(h: Handlers, w: World, st: Store, assigned_: seq<Assigned>)
    ensures SweptOf(h, w, st, assigned_, {}, st) && UndoneSoFar(h, w, st, assigned_, {}, st)
    ensures forall id :: !Wanted(st.records, {}, id)
  {
  }

  lemma StillUndone(h: Handlers, w: World, st: Store, assigned_: seq<Assigned>, done: set<Identity>, st1: Store, st2: Store)
    requires UndoneSoFar(h, w, st, assigned_, done, st1) && st1.machine == st2.machine && st1.priors == st2.priors
    ensures UndoneSoFar(h, w, st, assigned_, done, st2)
  {
    hide CanUndo;
    SameSpots(st1, st2);
  }

  lemma ClaimedSet(assigned_: seq<Assigned>, claimed: set<Identity>)
    requires claimed == set a, s | a in assigned_ && s in a.settings :: s.id
    ensures forall id :: id in claimed <==> StillClaimed(assigned_, id)
  {
    hide On, Claims;
    var cs := Claims(assigned_);
    forall id
      ensures id in claimed <==> StillClaimed(assigned_, id)
    {
      if id in claimed {
        var a, s :| a in assigned_ && s in a.settings && s.id == id;
        ClaimsMembers(assigned_, Claim(a.profile, s));
        OnMember(cs, id, Claim(a.profile, s));
      }
      if On(cs, id) != [] {
        var c := On(cs, id)[0];
        OnMember(cs, id, c);
        ClaimsMembers(assigned_, c);
      }
    }
  }

  lemma WantedMore(records: map<string, ProfileRecord>, seen: set<string>, p: string)
    requires p in records
    ensures forall id :: Wanted(records, seen + {p}, id) <==>
                         Wanted(records, seen, id) || (records[p].revert && id in records[p].identities)
  {
  }

  /** No two assigned profiles share an id. */
  predicate OneEach(assigned_: seq<Assigned>) {
    forall i, j :: 0 <= i < j < |assigned_| ==> assigned_[i].profile != assigned_[j].profile
  }

  function HeldPart(a: Assigned): seq<SettingResult> { if a.held then HeldResults(a) else [] }

  /** What one profile is told about a reconcile. */
  function Report(h: Handlers, w: World, st: Store, assigned_: seq<Assigned>, a: Assigned): seq<SettingResult> {
    HeldPart(a) + Heard(h, w, st, PlanOf(Claims(Active(assigned_))), a.profile)
  }

  /** A plan's actions speak of different identities, and only to profiles that are assigned. */
  lemma PlanShape(assigned_: seq<Assigned>)
    ensures var actions := PlanOf(Claims(Active(assigned_)));
            && (forall i, j :: 0 <= i < j < |actions| ==> actions[i].id != actions[j].id)
            && (forall i, p :: 0 <= i < |actions| && p in actions[i].profiles ==> p in Current(assigned_))
  {
    hide On, Seen, AllSame, Claims, Active;
    var cs := Claims(Active(assigned_));
    var actions := PlanOf(cs);
    SeenDistinct(cs);
    forall i, p | 0 <= i < |actions| && p in actions[i].profiles
      ensures p in Current(assigned_)
    {
      ClaimantsExactly(cs, actions[i].id, p);
      var c :| c in cs && c.setting.id == actions[i].id && c.profile == p;
      ClaimsMembers(Active(assigned_), c);
      var a :| a in Active(assigned_) && c.profile == a.profile && c.setting in a.settings;
      ActiveMember(assigned_, a);
    }
  }

  /** The store once the plan is carried out. */
  ghost predicate IsApplied(h: Handlers, w: World, st: Store, assigned_: seq<Assigned>, st1: Store) {
    var cs := Claims(Active(assigned_));
    forall id :: SpotAt(st1, id) ==
                 if Claimed(cs, id) then Touched(h, w.touch(id), SpotAt(st, id), ActionFor(cs, id)).0 else SpotAt(st, id)
  }

  /** The store once the first n actions are carried out. */
  ghost predicate AppliedUpTo(h: Handlers, w: World, st: Store, actions: seq<Action>, n: nat, st1: Store)
    requires n <= |actions|
  {
    && (forall i :: 0 <= i < n ==>
          SpotAt(st1, actions[i].id) == Touched(h, w.touch(actions[i].id), SpotAt(st, actions[i].id), actions[i]).0)
    && (forall id :: (forall i :: 0 <= i < n ==> actions[i].id != id) ==> SpotAt(st1, id) == SpotAt(st, id))
  }

  lemma AppliedNothing(h: Handlers, w: World, st: Store, actions: seq<Action>)
    ensures AppliedUpTo(h, w, st, actions, 0, st)
  {
  }

  lemma NothingHeard(h: Handlers, w: World, st: Store)
    ensures forall p :: Heard(h, w, st, [], p) == []
  {
  }

  lemma AppliedOne(h: Handlers, w: World, st: Store, actions: seq<Action>, i: nat, st1: Store, st2: Store)
    requires i < |actions| && AppliedUpTo(h, w, st, actions, i, st1)
    requires forall j, k :: 0 <= j < k < |actions| ==> actions[j].id != actions[k].id
    requires var a := actions[i]; SpotAt(st2, a.id) == Touched(h, w.touch(a.id), SpotAt(st1, a.id), a).0
    requires forall id :: id != actions[i].id ==> SpotAt(st2, id) == SpotAt(st1, id)
    ensures AppliedUpTo(h, w, st, actions, i + 1, st2)
    ensures SpotAt(st1, actions[i].id) == SpotAt(st, actions[i].id)
  {
    hide Touched, SpotAt;
    assert SpotAt(st1, actions[i].id) == SpotAt(st, actions[i].id);
    forall id | forall j :: 0 <= j < i + 1 ==> actions[j].id != id
      ensures SpotAt(st2, id) == SpotAt(st, id)
    {
      assert actions[i].id != id;
    }
  }

  lemma Applied(h: Handlers, w: World, st: Store, assigned_: seq<Assigned>, st1: Store)
    requires var actions := PlanOf(Claims(Active(assigned_))); AppliedUpTo(h, w, st, actions, |actions|, st1)
    ensures IsApplied(h, w, st, assigned_, st1)
  {
    hide On, AllSame, Touched, SpotAt, Seen;
    var cs := Claims(Active(assigned_));
    var ids := Seen(cs);
    forall id
      ensures SpotAt(st1, id) ==
              if Claimed(cs, id) then Touched(h, w.touch(id), SpotAt(st, id), ActionFor(cs, id)).0 else SpotAt(st, id)
    {
      SeenMember(cs, id);
      if id in ids {
        var k :| 0 <= k < |ids| && ids[k] == id;
        assert PlanOf(cs)[k] == ActionFor(cs, id);
      } else {
        assert forall i :: 0 <= i < |PlanOf(cs)| ==> PlanOf(cs)[i].id == ids[i];
      }
    }
  }

  /** A reconcile whose sweep may have stopped at a record it could not delete. */
  ghost predicate MayReconcile(h: Handlers, w: World, st: Store, assigned_: seq<Assigned>, st': Store) {
    forall id :: SpotAt(st', id) == SpotAfter(h, w, st, assigned_, id) ||
                 (!StillClaimed(assigned_, id) && SpotAt(st', id) == SpotAt(st, id))
  }

  /** Carrying out the plan does not disturb what is to be undone. */
  lemma StillUndoable(h: Handlers, w: World, st: Store, assigned_: seq<Assigned>, st1: Store, id: Identity)
    requires IsApplied(h, w, st, assigned_, st1) && st1.records == st.records
    ensures !StillClaimed(assigned_, id) ==> SpotAt(st1, id) == SpotAt(st, id)
    ensures Undoes(h, w, st1, assigned_, id) <==> Undoes(h, w, st, assigned_, id)
  {
    hide Touched, ActionFor, Claims, Active, On, Wanted;
    if !StillClaimed(assigned_, id) {
      if Claimed(Claims(Active(assigned_)), id) {
        ActiveIsClaimed(assigned_, id);
      }
      assert SpotAt(st1, id) == SpotAt(st, id);
    }
  }

  lemma Swept(h: Handlers, w: World, st: Store, assigned_: seq<Assigned>, st1: Store, st2: Store)
    requires IsApplied(h, w, st, assigned_, st1) && st1.records == st.records
    requires w.listed && Smooth(w, st1, assigned_) ==> SweptOf(h, w, st1, assigned_, GoneFrom(st1, assigned_), st2)
    requires !w.listed ==> st2 == st1
    requires exists seen :: seen <= GoneFrom(st1, assigned_) && SweptOf(h, w, st1, assigned_, seen, st2)
    ensures Smooth(w, st, assigned_) ==> forall id :: SpotAt(st2, id) == SpotAfter(h, w, st, assigned_, id)
    ensures MayReconcile(h, w, st, assigned_, st2)
  {
    var seen :| seen <= GoneFrom(st1, assigned_) && SweptOf(h, w, st1, assigned_, seen, st2);
    forall id
      ensures Smooth(w, st, assigned_) ==> SpotAt(st2, id) == SpotAfter(h, w, st, assigned_, id)
      ensures SpotAt(st2, id) == SpotAfter(h, w, st, assigned_, id) ||
              (!StillClaimed(assigned_, id) && SpotAt(st2, id) == SpotAt(st, id))
    {
      hide Touched, ActionFor, Claims, Active, On, SpotAt;
      StillUndoable(h, w, st, assigned_, st1, id);
      assert Wanted(st1.records, seen, id) ==> Wanted(st1.records, GoneFrom(st1, assigned_), id);
    }
  }

  lemma SameSpots(st: Store, st': Store)
    requires st.machine == st'.machine && st.priors == st'.priors
    ensures forall id :: SpotAt(st, id) == SpotAt(st', id)
  {
  }

  class Reconciler {
    const h: Handlers
    var machine: map<Identity, Cell>
    var priors: map<Identity, Prior>
    var records: map<string, ProfileRecord>

    ghost function St(): Store
      reads this
    {
      Store(machine, priors, records)
    }

    constructor (h: Handlers, st: Store)
      ensures this.h == h && St() == st
    {
      this.h, this.machine, this.priors, this.records := h, st.machine, st.priors, st.records;
    }

    /** apply. */
    method Apply(a: Action, t: Touch) returns (status: Status)
      modifies this`machine, this`priors
      ensures status == Touched(h, t, SpotAt(old(St()), a.id), a).1
      ensures SpotAt(St(), a.id) == Touched(h, t, SpotAt(old(St()), a.id), a).0
      ensures forall id :: id != a.id ==> SpotAt(St(), id) == SpotAt(old(St()), id)
      ensures Writes(h, t, Read(old(machine), a.id), a) || (machine == old(machine) && priors == old(priors))
    {
      if a.conflict {
        return Conflict;
      }
      if a.id.kind !in h.kinds {
        return Error;
      }
      if t.first.Inapplicable? {
        return NotApplicable;
      }
      if t.first.TestFails? {
        return Error;
      }
      var cell := Read(machine, a.id);
      if h.matches(a.setting, cell) {
        return Compliant;
      }
      if a.id !in priors && t.recorded {
        priors := priors[a.id := Prior(a.setting, cell)];
      }
      machine := machine[a.id := t.set_.to];
      if t.set_.SetFails? {
        return Error;
      }
      if !t.second || !h.matches(a.setting, t.set_.to) {
        return Error;
      }
      return Remediated;
    }

    /** The actions in turn, each result going to every claimant. */
    method ApplyPlan(actions: seq<Action>, w: World, start: map<string, seq<SettingResult>>)
      returns (results: map<string, seq<SettingResult>>)
      requires forall i, j :: 0 <= i < j < |actions| ==> actions[i].id != actions[j].id
      requires forall i, p :: 0 <= i < |actions| && p in actions[i].profiles ==> p in start
      modifies this`machine, this`priors
      ensures AppliedUpTo(h, w, old(St()), actions, |actions|, St())
      ensures results.Keys == start.Keys
      ensures forall p :: p in start ==> results[p] == start[p] + Heard(h, w, old(St()), actions, p)
    {
      hide Touched, SpotAt, AppliedUpTo, Heard, Repeat, Times;
      results := start;
      ghost var st := St();
      AppliedNothing(h, w, st, actions);
      NothingHeard(h, w, st);
      for i := 0 to |actions|
        invariant AppliedUpTo(h, w, st, actions, i, St())
        invariant results.Keys == start.Keys
        invariant forall p :: p in start ==> results[p] == start[p] + Heard(h, w, st, actions[..i], p)
      {
        var a := actions[i];
        ghost var st1, before := St(), results;
        var status := Apply(a, w.touch(a.id));
        AppliedOne(h, w, st, actions, i, st1, St());
        results := Tell(results, a.profiles, SettingResult(a.id, status));
        forall p | p in start
          ensures results[p] == start[p] + Heard(h, w, st, actions[..i + 1], p)
        {
          HeardSnoc(h, w, st, actions, i, p);
        }
      }
      assert actions[..|actions|] == actions;
    }

    method Tell(before: map<string, seq<SettingResult>>, profiles: seq<string>, r: SettingResult)
      returns (results: map<string, seq<SettingResult>>)
      requires forall p :: p in profiles ==> p in before
      ensures results.Keys == before.Keys
      ensures forall p :: p in before ==> results[p] == before[p] + Repeat(r, Times(profiles, p))
    {
      results := before;
      for k := 0 to |profiles|
        invariant results.Keys == before.Keys
        invariant forall p :: p in before ==> results[p] == before[p] + Repeat(r, Times(profiles[..k], p))
      {
        var q := profiles[k];
        assert profiles[..k + 1][..k] == profiles[..k];
        ghost var was := results;
        results := results[q := results[q] + [r]];
        forall p | p in before
          ensures results[p] == before[p] + Repeat(r, Times(profiles[..k + 1], p))
        {
          assert Repeat(r, Times(profiles[..k], p)) + [r] == Repeat(r, Times(profiles[..k], p) + 1);
        }
      }
      assert profiles[..|profiles|] == profiles;
    }

    method RevertOne(id: Identity, claimed: set<Identity>, w: World, assigned_: seq<Assigned>, ghost st: Store, ghost done: set<Identity>)
      returns (ghost all: set<Identity>)
      requires id in claimed <==> StillClaimed(assigned_, id)
      requires UndoneSoFar(h, w, st, assigned_, done, St())
      modifies this`machine, this`priors
      ensures UndoneSoFar(h, w, st, assigned_, all, St())
      ensures all == done + if CanUndo(h, w, st, assigned_, id) then {id} else {}
    {
      hide StillClaimed;
      all := done;
      if id in claimed || id !in priors || priors[id].setting.id.kind !in h.reverters || !w.touch(id).reverted {
        return;
      }
      machine := machine[id := priors[id].state];
      if w.touch(id).forgotten {
        priors := priors - {id};
      }
      all := all + {id};
    }

    /** revert: every identity of a removed profile that nothing assigned still claims. */
    method Revert(rec: ProfileRecord, claimed: set<Identity>, w: World, assigned_: seq<Assigned>, ghost st: Store, ghost done: set<Identity>)
      returns (ghost all: set<Identity>)
      requires forall id :: id in claimed <==> StillClaimed(assigned_, id)
      requires UndoneSoFar(h, w, st, assigned_, done, St())
      modifies this`machine, this`priors
      ensures UndoneSoFar(h, w, st, assigned_, all, St())
      ensures forall id :: id in all <==> id in done || (id in rec.identities && CanUndo(h, w, st, assigned_, id))
    {
      hide StillClaimed, UndoneSoFar, CanUndo;
      all := done;
      for k := 0 to |rec.identities|
        invariant UndoneSoFar(h, w, st, assigned_, all, St())
        invariant forall id :: id in all <==> id in done || (id in rec.identities[..k] && CanUndo(h, w, st, assigned_, id))
      {
        var id := rec.identities[k];
        assert rec.identities[..k + 1] == rec.identities[..k] + [id];
        all := RevertOne(id, claimed, w, assigned_, st, all);
      }
      assert rec.identities[..|rec.identities|] == rec.identities;
    }

    /** forgetRemoved, visiting the removed profiles in whatever order the map gives them. */
    method ForgetRemoved(assigned_: seq<Assigned>, w: World)
      modifies this
      ensures w.listed && Smooth(w, old(St()), assigned_) ==>
                && SweptOf(h, w, old(St()), assigned_, GoneFrom(old(St()), assigned_), St())
                && records == old(records) - GoneFrom(old(St()), assigned_)
      ensures !w.listed ==> St() == old(St())
      ensures exists seen :: seen <= GoneFrom(old(St()), assigned_) && SweptOf(h, w, old(St()), assigned_, seen, St())
    {
      ghost var st := St();
      hide StillClaimed, CanUndo, SpotAt, Wanted, Undone, UndoneSoFar, SweptOf;
      NothingSwept(h, w, st, assigned_);
      if !w.listed {
        return;
      }
      var claimed := set a, s | a in assigned_ && s in a.settings :: s.id;
      ClaimedSet(assigned_, claimed);
      var current := set a | a in assigned_ :: a.profile;
      var todo := records.Keys - current;
      ghost var gone, seen, done := todo, {}, {};
      while todo != {}
        invariant todo <= gone && seen == gone - todo
        invariant records == st.records - seen
        invariant UndoneSoFar(h, w, st, assigned_, done, St())
        invariant forall id :: id in done <==> Wanted(st.records, seen, id) && CanUndo(h, w, st, assigned_, id)
        decreases todo
      {
        var p :| p in todo;
        todo := todo - {p};
        assert p in records && records[p] == st.records[p];
        WantedMore(st.records, seen, p);
        seen := seen + {p};
        if records[p].revert {
          done := Revert(records[p], claimed, w, assigned_, st, done);
        }
        ghost var st1 := St();
        if p in w.undeletable {
          SweptSome(h, w, st, assigned_, seen, done, st1);
          return;
        }
        records := records - {p};
        StillUndone(h, w, st, assigned_, done, st1, St());
      }
      assert seen == gone;
      SweptSome(h, w, st, assigned_, seen, done, St());
    }

    method ReportHeld(a: Assigned) returns (rs: seq<SettingResult>)
      ensures rs == HeldPart(a)
    {
      rs := [];
      if a.held {
        for k := 0 to |a.settings|
          invariant rs == HeldResults(a)[..k]
        {
          rs := rs + [SettingResult(a.settings[k].id, Error)];
        }
      }
    }

    /** Every profile starts with nothing to report, a held one with an error for each of its settings. */
    method Blank(assigned_: seq<Assigned>) returns (results: map<string, seq<SettingResult>>)
      ensures results.Keys == Current(assigned_)
      ensures OneEach(assigned_) ==> forall a :: a in assigned_ ==> results[a.profile] == HeldPart(a)
    {
      hide HeldPart, HeldResults;
      results := map[];
      for i := 0 to |assigned_|
        invariant results.Keys == Current(assigned_[..i])
        invariant OneEach(assigned_) ==> forall j :: 0 <= j < i ==> results[assigned_[j].profile] == HeldPart(assigned_[j])
      {
        var a := assigned_[i];
        assert assigned_[..i + 1] == assigned_[..i] + [a];
        var rs := ReportHeld(a);
        results := results[a.profile := rs];
      }
      assert assigned_[..|assigned_|] == assigned_;
    }

    method PickActive(assigned_: seq<Assigned>) returns (active: seq<Assigned>)
      ensures active == Active(assigned_)
    {
      active := [];
      for i := 0 to |assigned_|
        invariant active == Active(assigned_[..i])
      {
        assert assigned_[..i + 1][..i] == assigned_[..i];
        if !assigned_[i].held {
          active := active + [assigned_[i]];
        }
      }
      assert assigned_[..|assigned_|] == assigned_;
    }

    /** What each active profile is responsible for, known once it stops applying. */
    method SaveRecords(active: seq<Assigned>, unsaved: set<string>)
      modifies this`records
      ensures records == Saved(old(records), active, unsaved)
    {
      for i := 0 to |active|
        invariant records == Saved(old(records), active[..i], unsaved)
      {
        var a := active[i];
        assert active[..i + 1][..i] == active[..i];
        var ids: seq<Identity> := [];
        for k := 0 to |a.settings|
          invariant |ids| == k && forall j :: 0 <= j < k ==> ids[j] == a.settings[j].id
        {
          ids := ids + [a.settings[k].id];
        }
        assert ids == RecordOf(a).identities;
        if a.profile !in unsaved {
          records := records[a.profile := ProfileRecord(ids, a.revert, a.version)];
        }
      }
      assert active[..|active|] == active;
    }

    /** Reconcile: apply every active profile once, undo what has gone, and remember what each active
        profile is responsible for. */
    method Reconcile(assigned_: seq<Assigned>, w: World) returns (results: map<string, seq<SettingResult>>)
      modifies this
      ensures MayReconcile(h, w, old(St()), assigned_, St())
      ensures Smooth(w, old(St()), assigned_) ==> Reconciled(h, w, old(St()), assigned_, St())
      ensures results.Keys == Current(assigned_)
      ensures OneEach(assigned_) ==>
                forall a :: a in assigned_ ==> results[a.profile] == Report(h, w, old(St()), assigned_, a)
    {
      hide Touched, SpotAt, PlanOf, Claims, Active, Heard, Undone, SpotAfter, AppliedUpTo, StillClaimed, CanUndo, Wanted, Saved, SweptOf;
      ghost var st := St();
      var active := PickActive(assigned_);
      ghost var cs := Claims(active);
      var actions := Plan(active);
      var start := Blank(assigned_);
      PlanShape(assigned_);
      results := ApplyPlan(actions, w, start);
      ghost var st1 := St();
      Applied(h, w, st, assigned_, st1);
      ForgetRemoved(assigned_, w);
      ghost var st2 := St();
      Swept(h, w, st, assigned_, st1, st2);
      SaveRecords(active, w.unsaved);
      SameSpots(st2, St());
    }
  }
}
