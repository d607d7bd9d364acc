/** The command ledger and the result queue, as the check-in loop, the worker and a flush share them:
    internal/agent/session/session.go over internal/agent/state/state.go. One step is one database
    transaction, one locked region or one call to the outside; a crash may come between any two. */
module Commands {
  import opened Prelude

  const WORK_QUEUE_SIZE := 64
  /** In seconds. */
  const LEDGER_RETENTION := 30 * 24 * 3600

  datatype Entry = Entry(completed: bool, at: int)

  datatype Worker =
    | Resting
    | Taken(id: string)      // received, not yet marked started
    | Marked(id: string)     // started, about to execute
    | Finished(id: string)   // a result in hand, not stored
    | Stored(id: string)     // its result is stored, the ledger not yet told
    | Leaving(id: string)    // about to drop it from the commands in flight

  /** The check-in loop giving up on a command that was started before a restart. */
  datatype Delivery = Nothing | GivingUp(id: string) | GivenUp(id: string)

  /** A flush working through what was queued when it looked. */
  datatype Flush = Flush(left: seq<string>, answered: bool)

  datatype State = State(
    ledger: map<string, Entry>,
    results: map<string, string>,
    up: bool,
    inflight: set<string>,
    queue: seq<string>,
    worker: Worker,
    delivery: Delivery,
    flush: Option<Flush>,
    resolved: set<string>)   // results the server accepted or rejected for good, since the last prune of the id

  datatype Answer = Accepted | Rejected | Unsent

  datatype Label =
    | Boot(now: int, pruned: bool) | Crash
    | Deliver(id: string, read: bool) | GiveUp(result: string, write: bool) | GiveUpMark(now: int, write: bool)
    | Take | Mark(now: int, write: bool) | Execute | Panic
    | Store(result: string, write: bool) | Complete(now: int, write: bool) | Leave
    | Look(ids: seq<string>) | Send(answer: Answer) | Drop(write: bool) | Done

  // ----- Steps --------------------------------------------------------------------------------

  predicate ForWorker(l: Label) { l.Take? || l.Mark? || l.Execute? || l.Panic? || l.Store? || l.Complete? || l.Leave? }

  predicate ForFlush(l: Label) { l.Look? || l.Send? || l.Drop? || l.Done? }

  predicate ForDelivery(l: Label) { l.Deliver? || l.GiveUp? || l.GiveUpMark? }

  /** PendingResults: everything queued. */
  predicate Lists(ids: seq<string>, results: map<string, string>) { (set id | id in ids) == results.Keys }

  predicate Enabled(s: State, l: Label) {
    match l
    case Boot(_, _) => !s.up
    case Crash => s.up
    case Deliver(_, _) => s.up && s.delivery.Nothing?
    case GiveUp(_, _) => s.delivery.GivingUp?
    case GiveUpMark(_, _) => s.delivery.GivenUp?
    case Take => s.up && s.worker.Resting? && s.queue != []
    case Mark(_, _) => s.worker.Taken?
    case Execute => s.worker.Marked?
    case Panic => !s.worker.Resting?
    case Store(_, _) => s.worker.Finished?
    case Complete(_, _) => s.worker.Stored?
    case Leave => s.worker.Leaving?
    case Look(ids) => s.up && s.flush.None? && Lists(ids, s.results)
    case Send(_) => s.flush.Some? && s.flush.value.left != [] && !s.flush.value.answered
    case Drop(_) => s.flush.Some? && s.flush.value.left != [] && s.flush.value.answered
    case Done => s.flush.Some? && s.flush.value.left == []
  }

  /** What PruneLedger takes out. */
  function Expired(ledger: map<string, Entry>, now: int): set<string> {
    set id | id in ledger && ledger[id].at < now - LEDGER_RETENTION
  }

  function Forgotten(s: State, l: Label): set<string> {
    if l.Boot? && l.pruned then Expired(s.ledger, l.now) else {}
  }

  /** enqueue, up to its own finish. */
  function Delivered(s: State, id: string, read: bool): State {
    if id in s.inflight || !read then s
    else if id in s.ledger then (if s.ledger[id].completed then s else s.(delivery := GivingUp(id)))
    else if |s.queue| < WORK_QUEUE_SIZE then s.(queue := s.queue + [id], inflight := s.inflight + {id})
    else s
  }

  function WorkerStep(s: State, l: Label): State
    requires Enabled(s, l) && ForWorker(l)
  {
    match l
    case Take => s.(queue := s.queue[1..], worker := Taken(s.queue[0]))
    case Mark(now, write) =>
      // The run goes on even if the ledger already knew the command.
      var id := s.worker.id;
      if !write then s.(worker := Leaving(id))
      else s.(worker := Marked(id), ledger := if id in s.ledger then s.ledger else s.ledger[id := Entry(false, now)])
    case Execute => s.(worker := Finished(s.worker.id))
    case Panic => s.(worker := Finished(s.worker.id))
    case Store(result, write) =>
      var id := s.worker.id;
      if write then s.(worker := Stored(id), results := s.results[id := result]) else s.(worker := Leaving(id))
    case Complete(now, write) =>
      var id := s.worker.id;
      s.(worker := Leaving(id), ledger := if write then s.ledger[id := Entry(true, now)] else s.ledger)
    case Leave => s.(worker := Resting, inflight := s.inflight - {s.worker.id})
  }

  function FlushStep(s: State, l: Label): State
    requires Enabled(s, l) && ForFlush(l)
  {
    match l
    case Look(ids) => s.(flush := Some(Flush(ids, false)))
    case Send(answer) =>
      var left := s.flush.value.left;
      if answer.Unsent? then s.(flush := None)
      else s.(flush := Some(Flush(left, true)), resolved := s.resolved + {left[0]})
    case Drop(write) =>
      var left := s.flush.value.left;
      if write then s.(flush := Some(Flush(left[1..], false)), results := s.results - {left[0]}) else s.(flush := None)
    case Done => s.(flush := None)
  }

  function Step(s: State, l: Label): State
    requires Enabled(s, l)
  {
    if ForWorker(l) then WorkerStep(s, l)
    else if ForFlush(l) then FlushStep(s, l)
    else match l
      case Boot(now, pruned) => s.(up := true, ledger := s.ledger - Forgotten(s, l), resolved := s.resolved - Forgotten(s, l))
      case Crash => s.(up := false, inflight := {}, queue := [], worker := Resting, delivery := Nothing, flush := None)
      case Deliver(id, read) => Delivered(s, id, read)
      case GiveUp(result, write) =>
        var id := s.delivery.id;
        if write then s.(delivery := GivenUp(id), results := s.results[id := result]) else s.(delivery := Nothing)
      case GiveUpMark(now, write) =>
        var id := s.delivery.id;
        s.(delivery := Nothing, ledger := if write then s.ledger[id := Entry(true, now)] else s.ledger)
  }

  ghost predicate Init(s: State) {
    s == State(map[], map[], false, {}, [], Resting, Nothing, None, {})
  }

  /** The states before, between and after the steps. */
  ghost predicate Run(ls: seq<Label>, ss: seq<State>) {
    && |ss| == |ls| + 1 && Init(ss[0])
    && (forall i :: 0 <= i < |ls| ==> Enabled(ss[i], ls[i]) && ss[i + 1] == Step(ss[i], ls[i]))
  }

  // ----- What every step keeps ------------------------------------------------------------------

  /** A result for it is still queued, or the server has answered one. */
  predicate Answered(s: State, id: string) { id in s.results || id in s.resolved }

  /** In flight is exactly what is queued and what is running. */
  ghost predicate InFlightExactly(s: State) {
    && Distinct(s.queue) && |s.queue| <= WORK_QUEUE_SIZE
    && (!s.worker.Resting? ==> s.worker.id !in s.queue)
    && (forall id :: id in s.inflight <==> id in s.queue || (!s.worker.Resting? && s.worker.id == id))
  }

  /** The ledger does not know what is still waiting to run, and knows what runs. */
  ghost predicate LedgerAgrees(s: State) {
    && (forall id :: id in s.queue ==> id !in s.ledger)
    && (s.worker.Taken? ==> s.worker.id !in s.ledger)
    && (s.worker.Marked? ==> s.worker.id in s.ledger)
    && (!s.delivery.Nothing? ==> s.delivery.id in s.ledger && s.delivery.id !in s.inflight)
  }

  /** No finished command goes silent. */
  ghost predicate NothingSilent(s: State) {
    && (forall id :: id in s.ledger && s.ledger[id].completed ==> Answered(s, id))
    && (s.worker.Stored? ==> Answered(s, s.worker.id))
    && (s.delivery.GivenUp? ==> Answered(s, s.delivery.id))
    && (s.flush.Some? && s.flush.value.answered ==> s.flush.value.left != [] && s.flush.value.left[0] in s.resolved)
  }

  ghost predicate Inv(s: State) {
    && InFlightExactly(s) && LedgerAgrees(s) && NothingSilent(s)
    && (!s.up ==> s.queue == [] && s.worker.Resting? && s.delivery.Nothing? && s.flush.None?)
  }

  lemma WorkerStepKeeps(s: State, l: Label)
    requires Inv(s) && Enabled(s, l) && ForWorker(l)
    ensures Inv(WorkerStep(s, l))
  {
    if l.Take? {
      assert forall id :: id in s.queue <==> id == s.queue[0] || id in s.queue[1..];
    }
  }

  lemma FlushStepKeeps(s: State, l: Label)
    requires Inv(s) && Enabled(s, l) && ForFlush(l)
    ensures Inv(FlushStep(s, l))
  {
  }

  lemma StepKeepsInv(s: State, l: Label)
    requires Inv(s) && Enabled(s, l)
    ensures Inv(Step(s, l))
  {
    if ForWorker(l) {
      WorkerStepKeeps(s, l);
    } else if ForFlush(l) {
      FlushStepKeeps(s, l);
    }
  }

  lemma {:induction false} RunKeepsInv(ls: seq<Label>, ss: seq<State>, n: nat)
    requires Run(ls, ss) && n <= |ls|
    ensures Inv(ss[n])
  {
    hide Inv, Enabled, Step;
    if n == 0 {
      assert Inv(ss[0]) by { InitInv(ss[0]); }
    } else {
      RunKeepsInv(ls, ss, n - 1);
      StepKeepsInv(ss[n - 1], ls[n - 1]);
    }
  }

  lemma InitInv(s: State)
    requires Init(s)
    ensures Inv(s)
  {
  }

  // ----- At most once -------------------------------------------------------------------------

  /** The ledger knows it and it waits for nothing. */
  predicate NotWaiting(s: State, id: string) {
    id in s.ledger && id !in s.queue && !(s.worker.Taken? && s.worker.id == id)
  }

  /** Neither is it about to be executed. */
  predicate Over(s: State, id: string) { NotWaiting(s, id) && !(s.worker.Marked? && s.worker.id == id) }

  lemma StepKeepsOver(s: State, l: Label, id: string)
    requires Inv(s) && Enabled(s, l) && id !in Forgotten(s, l) && NotWaiting(s, id)
    ensures NotWaiting(Step(s, l), id)
    ensures Over(s, id) ==> Over(Step(s, l), id)
  {
  }

  /** The command may have been executed, wholly or in part: its execution came to an end, panicked, or was
      cut off by a crash. */
  predicate Executes(s: State, l: Label, id: string) {
    s.worker == Marked(id) && (l.Execute? || l.Panic? || l.Crash?)
  }

  predicate Starts(s: State, l: Label, id: string) { l.Mark? && l.write && s.worker.Taken? && s.worker.id == id }

  lemma {:induction false} StaysNotWaiting(ls: seq<Label>, ss: seq<State>, i: nat, n: nat, id: string)
    requires Run(ls, ss) && i <= n <= |ls| && NotWaiting(ss[i], id)
    requires forall k :: i <= k < n ==> id !in Forgotten(ss[k], ls[k])
    ensures NotWaiting(ss[n], id)
    ensures Over(ss[i], id) ==> Over(ss[n], id)
    decreases n
  {
    hide Step, Enabled, Inv, NotWaiting, Forgotten;
    if i < n {
      StaysNotWaiting(ls, ss, i, n - 1, id);
      RunKeepsInv(ls, ss, n - 1);
      StepKeepsOver(ss[n - 1], ls[n - 1], id);
    }
  }

  lemma ExecuteEnds(s: State, l: Label, id: string)
    requires Inv(s) && Enabled(s, l) && Executes(s, l, id)
    ensures Over(Step(s, l), id) && Forgotten(s, l) == {}
  {
  }

  /** Whatever is delivered, full, failed, panicking or crashed, two executions of one command, begun ones
      included, are always separated by a prune that forgot it. */
  lemma AtMostOncePerPrune(ls: seq<Label>, ss: seq<State>, i: nat, j: nat, id: string)
    requires Run(ls, ss) && i < j < |ls|
    requires Executes(ss[i], ls[i], id) && Executes(ss[j], ls[j], id)
    ensures exists k :: i < k < j && id in Forgotten(ss[k], ls[k])
  {
    hide Step, Enabled, Inv, Forgotten;
    if forall k :: i < k < j ==> id !in Forgotten(ss[k], ls[k]) {
      RunKeepsInv(ls, ss, i);
      ExecuteEnds(ss[i], ls[i], id);
      StaysNotWaiting(ls, ss, i + 1, j, id);
      assert false;
    }
  }

  // ----- How far apart --------------------------------------------------------------------------

  function When(l: Label): Option<int> {
    match l
    case Boot(now, _) => Some(now)
    case GiveUpMark(now, _) => Some(now)
    case Mark(now, _) => Some(now)
    case Complete(now, _) => Some(now)
    case _ => None
  }

  /** The clock never goes back. */
  ghost predicate ClockRuns(ls: seq<Label>) {
    forall i, j :: 0 <= i < j < |ls| && When(ls[i]).Some? && When(ls[j]).Some? ==> When(ls[i]).value <= When(ls[j]).value
  }

  predicate KnownSince(s: State, id: string, t: int) { id in s.ledger ==> s.ledger[id].at >= t }

  lemma StepKeepsKnownSince(s: State, l: Label, id: string, t: int)
    requires Inv(s) && Enabled(s, l) && KnownSince(s, id, t) && (When(l).Some? ==> When(l).value >= t)
    ensures KnownSince(Step(s, l), id, t)
  {
  }

  lemma {:induction false} StaysKnownSince(ls: seq<Label>, ss: seq<State>, i: nat, n: nat, id: string)
    requires Run(ls, ss) && ClockRuns(ls) && i < n <= |ls| && Starts(ss[i], ls[i], id)
    ensures KnownSince(ss[n], id, ls[i].now)
    decreases n
  {
    hide Step, Enabled, Inv, KnownSince;
    RunKeepsInv(ls, ss, n - 1);
    if n == i + 1 {
      StartKnows(ss[i], ls[i], id);
    } else {
      StaysKnownSince(ls, ss, i, n - 1, id);
      StepKeepsKnownSince(ss[n - 1], ls[n - 1], id, ls[i].now);
    }
  }

  lemma StartKnows(s: State, l: Label, id: string)
    requires Inv(s) && Enabled(s, l) && Starts(s, l, id)
    ensures KnownSince(Step(s, l), id, l.now) && NotWaiting(Step(s, l), id) && Forgotten(s, l) == {}
  {
  }

  lemma ForgetsOnlyOld(s: State, l: Label, id: string, t: int)
    requires KnownSince(s, id, t) && id in Forgotten(s, l)
    ensures When(l).Some? && When(l).value > t + LEDGER_RETENTION
  {
  }

  /** With a clock that never goes back, one command is never started twice within the retention. */
  lemma StartsAreFarApart(ls: seq<Label>, ss: seq<State>, i: nat, j: nat, id: string)
    requires Run(ls, ss) && ClockRuns(ls) && i < j < |ls|
    requires Starts(ss[i], ls[i], id) && Starts(ss[j], ls[j], id)
    ensures ls[j].now > ls[i].now + LEDGER_RETENTION
  {
    hide Step, Enabled, Inv, Forgotten, KnownSince;
    RunKeepsInv(ls, ss, i);
    StartKnows(ss[i], ls[i], id);
    if forall k :: i < k < j ==> id !in Forgotten(ss[k], ls[k]) {
      StaysNotWaiting(ls, ss, i + 1, j, id);
      assert false;
    } else {
      var k :| i < k < j && id in Forgotten(ss[k], ls[k]);
      StaysKnownSince(ls, ss, i, k, id);
      ForgetsOnlyOld(ss[k], ls[k], id, ls[i].now);
    }
  }

  // ----- No finished command goes silent ----------------------------------------------------------

  /** In every reachable state, crashes included. */
  lemma NeverSilent(ls: seq<Label>, ss: seq<State>, n: nat, id: string)
    requires Run(ls, ss) && n <= |ls|
    requires id in ss[n].ledger && ss[n].ledger[id].completed
    ensures Answered(ss[n], id)
  {
    RunKeepsInv(ls, ss, n);
  }

  /** Once completed, a command stays completed until a prune forgets it. */
  lemma StaysCompleted(s: State, l: Label, id: string)
    requires Enabled(s, l) && id in s.ledger && s.ledger[id].completed && id !in Forgotten(s, l)
    ensures var t := Step(s, l); id in t.ledger && t.ledger[id].completed
  {
  }

  lemma {:induction false} KeepsGivingUp(ls: seq<Label>, ss: seq<State>, i: nat, n: nat)
    requires Run(ls, ss) && i <= n <= |ls|
    requires !ss[i].delivery.Nothing?
    requires forall k :: i <= k < n ==> !ForDelivery(ls[k]) && !ls[k].Crash?
    ensures ss[n].delivery == ss[i].delivery
    decreases n
  {
    hide Inv;
    if i < n {
      KeepsGivingUp(ls, ss, i, n - 1);
      RunKeepsInv(ls, ss, n - 1);
    }
  }

  lemma {:induction false} KeepsCompleted(ls: seq<Label>, ss: seq<State>, i: nat, n: nat, id: string)
    requires Run(ls, ss) && i <= n <= |ls| && id in ss[i].ledger && ss[i].ledger[id].completed
    requires forall k :: i <= k < n ==> id !in Forgotten(ss[k], ls[k])
    ensures id in ss[n].ledger && ss[n].ledger[id].completed
    decreases n
  {
    hide Step, Enabled, Forgotten;
    if i < n {
      KeepsCompleted(ls, ss, i, n - 1, id);
      StaysCompleted(ss[n - 1], ls[n - 1], id);
    }
  }

  /** A command found started and not in flight, delivered again at step a, has its result stored and
      its ledger entry completed by the check-in loop's next two actions, whatever the worker and any
      flush do meanwhile; from then on it is never silent until a prune forgets it. */
  lemma RedeliveryResolves(ls: seq<Label>, ss: seq<State>, a: nat, b: nat, c: nat, n: nat, id: string)
    requires Run(ls, ss) && a < b < c < n <= |ls|
    requires id in ss[a].ledger && !ss[a].ledger[id].completed && id !in ss[a].inflight && ls[a] == Deliver(id, true)
    requires ls[b].GiveUp? && ls[b].write && ls[c].GiveUpMark? && ls[c].write
    requires forall k :: a < k < c && k != b ==> !ForDelivery(ls[k]) && !ls[k].Crash?
    requires forall k :: c < k < n ==> id !in Forgotten(ss[k], ls[k])
    ensures id in ss[n].ledger && ss[n].ledger[id].completed && Answered(ss[n], id)
  {
    hide Inv;
    KeepsGivingUp(ls, ss, a + 1, b);
    assert ss[b].delivery == GivingUp(id);
    KeepsGivingUp(ls, ss, b + 1, c);
    assert ss[c].delivery == GivenUp(id);
    KeepsCompleted(ls, ss, c + 1, n, id);
    NeverSilent(ls, ss, n, id);
  }

  /** A command the ledger knows as started, and no longer in flight, is never executed again by
      delivering it: it is given up. */
  lemma StartedIsNeverQueued(s: State, id: string, read: bool)
    requires Inv(s) && id in s.ledger
    ensures Delivered(s, id, read).queue == s.queue && Delivered(s, id, read).inflight == s.inflight
    ensures id !in s.queue
  {
  }
}
