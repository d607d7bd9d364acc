/** The session as it runs: enqueue, run, finish and FlushResults of internal/agent/session/session.go, and
    the store's PruneLedger. Every transaction is logged as a step of the command protocol, so all that
    the protocol keeps, at-most-once and never silent included, holds of this code. */
module Sessions {
  import opened Prelude
  import opened Commands

  /** How the server and the store answer about each result of one flush. */
  datatype Replies = Replies(read: bool, answer: string -> Answer, dropped: string -> bool)

  /** How one run of a command is answered. */
  datatype Outcomes = Outcomes(
    marked: bool, panics: bool, result: string, stored: bool, completed: bool,
    startedAt: int, finishedAt: int, order: seq<string>, replies: Replies)

  /** How far a flush gets: up to the first result it cannot send or cannot drop. */
  function Through(order: seq<string>, r: Replies): (n: nat)
    ensures n <= |order|
  {
    if order == [] || !Settles(order[0], r) then 0
    else 1 + Through(order[1..], r)
  }

  predicate Settles(id: string, r: Replies) { !r.answer(id).Unsent? && r.dropped(id) }

  /** Everything before that point is settled, and what is there is not. */
  lemma {:induction false} ThroughExactly(order: seq<string>, r: Replies, i: nat)
    requires i <= Through(order, r) && i < |order|
    ensures Settles(order[i], r) <==> i < Through(order, r)
    decreases |order|
  {
    if i > 0 { ThroughExactly(order[1..], r, i - 1); }
  }

  /** The first n of them. */
  function First(order: seq<string>, n: nat): set<string>
    requires n <= |order|
  {
    set id | id in order[..n]
  }

  lemma FirstMore(order: seq<string>, n: nat)
    requires n < |order|
    ensures First(order, n + 1) == First(order, n) + {order[n]}
  {
    assert order[..n + 1] == order[..n] + [order[n]];
  }

  lemma DropNext(m: map<string, string>, order: seq<string>, n: nat)
    requires n < |order|
    ensures m - First(order, n) - {order[n]} == m - First(order, n + 1)
  {
    FirstMore(order, n);
  }

  lemma FirstNone(order: seq<string>, m: map<string, string>)
    ensures m == m - First(order, 0)
  {
  }

  /** Nothing but the queue shrank, and whatever left it the server had answered. */
  ghost predicate FlushedFrom(s: State, t: State) {
    && t == s.(results := t.results, resolved := t.resolved)
    && s.resolved <= t.resolved
    && (forall id :: id in s.results ==> id in t.results || id in t.resolved)
  }

  lemma FlushedNone(s: State)
    ensures FlushedFrom(s, s)
  {
  }

  lemma FlushedMore(s: State, t: State, u: State, id: string)
    requires FlushedFrom(s, t.(flush := None))
    requires u == t.(results := u.results, resolved := u.resolved, flush := u.flush)
    requires t.resolved <= u.resolved && (u.results == t.results || (id in u.resolved && u.results == t.results - {id}))
    ensures FlushedFrom(s, u.(flush := None))
  {
  }

  /** A result, with the command it is of. */
  type Report = (string, string)

  /** The results queued for these, in their order. */
  function Reports(ids: seq<string>, queued: map<string, string>): seq<Report>
    requires forall id :: id in ids ==> id in queued
  {
    seq(|ids|, i requires 0 <= i < |ids| => (ids[i], queued[ids[i]]))
  }

  /** How many results of a flush the server gets to answer: the one it stops at too, if that could only
      not be dropped. */
  function Heard(order: seq<string>, r: Replies): (n: nat)
    ensures n <= |order|
  {
    var through := Through(order, r);
    if through < |order| && !r.answer(order[through]).Unsent? then through + 1 else through
  }

  lemma HeardExactly(order: seq<string>, r: Replies)
    ensures Through(order, r) <= Heard(order, r) <= Through(order, r) + 1
    ensures Through(order, r) < Heard(order, r) <==> Through(order, r) < |order| && !r.answer(order[Through(order, r)]).Unsent?
  {
  }

  /** A flush took results from the queue to the server: what it left is as it was queued, what it took the
      server answered, and the server was sent nothing but what was queued. */
  ghost predicate HandedOn(queued: map<string, string>, left: map<string, string>, sent: seq<Report>) {
    && left.Keys <= queued.Keys && (forall id :: id in left ==> left[id] == queued[id])
    && (forall id :: id in queued && id !in left ==> (id, queued[id]) in sent)
    && (forall p :: p in sent ==> p.0 in queued && queued[p.0] == p.1)
  }

  /** The queue once a run of the command has finished: its own result in place of any other. */
  function Queued(o: Outcomes, id: string, results: map<string, string>): map<string, string> {
    if o.marked && o.stored then results[id := o.result] else results
  }

  lemma KeptHandsOn(queued: map<string, string>)
    ensures HandedOn(queued, queued, [])
  {
  }

  lemma ReportsMore(order: seq<string>, n: nat, queued: map<string, string>)
    requires n < |order| && forall id :: id in order ==> id in queued
    ensures Reports(order[..n + 1], queued) == Reports(order[..n], queued) + [(order[n], queued[order[n]])]
  {
    assert order[..n + 1] == order[..n] + [order[n]];
  }

  lemma ReportsNone(order: seq<string>, queued: map<string, string>)
    requires forall id :: id in order ==> id in queued
    ensures Reports(order[..0], queued) == []
  {
  }

  lemma FlushHandsOn(order: seq<string>, n: nat, m: nat, queued: map<string, string>)
    requires n <= m <= |order| && forall id :: id in order ==> id in queued
    ensures HandedOn(queued, queued - First(order, n), Reports(order[..m], queued))
  {
    var sent := Reports(order[..m], queued);
    forall id | id in First(order, n)
      ensures (id, queued[id]) in sent
    {
      var i :| 0 <= i < n && order[i] == id;
      assert sent[i] == (id, queued[id]);
    }
  }

  lemma DropsOne(m: map<string, Entry>, id: string)
    requires id in m
    ensures |m - {id}| == |m| - 1
  {
    assert (m - {id}).Keys == m.Keys - {id};
    assert |m.Keys| == |m| && |(m - {id}).Keys| == |m - {id}|;
  }

  lemma Boots(s: State, now: int, prunes: bool)
    requires !s.up
    ensures Enabled(s, Boot(now, prunes))
    ensures var gone := if prunes then Expired(s.ledger, now) else {};
            Step(s, Boot(now, prunes)) == s.(up := true, ledger := s.ledger - gone, resolved := s.resolved - gone)
  {
    hide WorkerStep, FlushStep, Expired;
  }

  class Session {
    var ledger: map<string, Entry>
    var results: map<string, string>
    var inflight: set<string>
    var work: seq<string>

    /** What the server has answered, in the order it was sent. */
    ghost var sent: seq<Report>

    ghost var labels: seq<Label>
    ghost var states: seq<State>

    ghost var world: State

    /** The world got here by the steps logged. */
    ghost predicate Reached()
      reads this`labels, this`states, this`world
    {
      Run(labels, states) && states[|labels|] == world
    }

    ghost predicate Linked()
      reads this
    {
      Reached() && world.ledger == ledger && world.results == results && world.inflight == inflight && world.queue == work
    }

    constructor ()
      ensures Linked() && !world.up && world.worker.Resting? && world.delivery.Nothing? && world.flush.None?
      ensures sent == []
    {
      ledger, results, inflight, work, sent := map[], map[], {}, [], [];
      world := State(map[], map[], false, {}, [], Resting, Nothing, None, {});
      labels, states := [], [State(map[], map[], false, {}, [], Resting, Nothing, None, {})];
    }

    ghost method Log(l: Label)
      requires Reached() && Enabled(world, l)
      modifies this`labels, this`states, this`world
      ensures Reached() && labels == old(labels) + [l] && states == old(states) + [world] && |states| == |labels| + 1 && world == Step(old(world), l)
    {
      hide Step, Enabled;
      world := Step(world, l);
      states := states + [world];
      labels := labels + [l];
    }

    /** PruneLedger, through a cursor. */
    method PruneLedger(now: int) returns (removed: nat)
      modifies this`ledger
      ensures ledger == old(ledger) - Expired(old(ledger), now)
      ensures removed == |old(ledger)| - |ledger|
    {
      var todo := ledger.Keys;
      removed := 0;
      ghost var all := ledger;
      while todo != {}
        invariant todo <= ledger.Keys <= all.Keys
        invariant forall id :: id in ledger ==> ledger[id] == all[id]
        invariant forall id :: id in all ==> (id in ledger <==> id in todo || all[id].at >= now - LEDGER_RETENTION)
        invariant removed == |all| - |ledger|
        decreases todo
      {
        var id :| id in todo;
        todo := todo - {id};
        if ledger[id].at < now - LEDGER_RETENTION {
          DropsOne(ledger, id);
          ledger := ledger - {id};
          removed := removed + 1;
        }
      }
      assert ledger == all - Expired(all, now);
    }

    ghost method LogBoot(now: int, prunes: bool)
      requires Reached() && !world.up
      modifies this`labels, this`states, this`world
      ensures Reached() && var gone := if prunes then Expired(old(world).ledger, now) else {};
              world == old(world).(up := true, ledger := old(world).ledger - gone, resolved := old(world).resolved - gone)
    {
      hide Reached, Expired, Step, Enabled;
      Boots(world, now, prunes);
      Log(Boot(now, prunes));
    }

    /** Start, on a new store or after a crash: old entries go, then the worker runs. The process begins with
        empty memory. */
    method Start(now: int, prunes: bool)
      requires Linked() && !world.up
      modifies this
      ensures Linked() && world.up && world.worker.Resting? && inflight == {} && work == []
      ensures var gone := if prunes then Expired(old(ledger), now) else {};
              ledger == old(ledger) - gone && world.resolved == old(world).resolved - gone
      ensures results == old(results) && world.delivery == old(world).delivery && world.flush == old(world).flush
      ensures sent == old(sent)
    {
      hide Reached, Expired;
      NothingInMemory();
      LogBoot(now, prunes);
      PruneAtStart(now, prunes);
    }

    /** A store that cannot be pruned is left as it is. */
    method PruneAtStart(now: int, prunes: bool)
      modifies this`ledger
      ensures ledger == old(ledger) - if prunes then Expired(old(ledger), now) else {}
    {
      hide Expired;
      if prunes {
        var _ := PruneLedger(now);
      }
    }

    /** The process ends, at whatever point the worker, the check-in loop and a flush had reached: memory is
        lost, what was stored is not. */
    method Crash()
      requires Linked() && world.up
      modifies this
      ensures Linked() && !world.up && inflight == {} && work == []
      ensures ledger == old(ledger) && results == old(results) && world.resolved == old(world).resolved
      ensures world.worker.Resting? && world.delivery.Nothing? && world.flush.None? && sent == old(sent)
    {
      hide Reached;
      Log(Label.Crash);
      inflight, work := {}, [];
    }

    /** finish: the result is stored before the command is marked done. */
    method Finish(id: string, result: string, stored: bool, completed: bool, now: int, ghost own: bool)
      requires Linked()
      requires if own then world.delivery == GivingUp(id) else world.worker == Finished(id)
      modifies this`ledger, this`results, this`labels, this`states, this`world
      ensures Linked() && results == if stored then old(results)[id := result] else old(results)
      ensures ledger == if stored && completed then old(ledger)[id := Entry(true, now)] else old(ledger)
      ensures world == old(world).(
                ledger := ledger, results := results,
                delivery := if own then Nothing else old(world).delivery,
                worker := if own then old(world).worker else Leaving(id))
      ensures old(labels) <= labels && old(states) <= states
    {
      hide Reached;
      Log(if own then GiveUp(result, stored) else Store(result, stored));
      if !stored {
        return;
      }
      results := results[id := result];
      Log(if own then GiveUpMark(now, completed) else Complete(now, completed));
      if completed {
        ledger := ledger[id := Entry(true, now)];
      }
    }

    /** enqueue: in flight and completed commands are left alone, a started one is given up, and any
        other is queued if there is room. */
    method Enqueue(id: string, read: bool, stored: bool, completed: bool, now: int)
      requires Linked() && world.up && world.delivery.Nothing?
      modifies this
      ensures Linked() && world.up && world.delivery.Nothing? && world.worker == old(world).worker
      ensures var given := read && id !in old(inflight) && id in old(ledger) && !old(ledger)[id].completed;
              && results == (if given && stored then old(results)[id := RESTARTED_RESULT] else old(results))
              && ledger == (if given && stored && completed then old(ledger)[id := Entry(true, now)] else old(ledger))
      ensures var queued := read && id !in old(inflight) && id !in old(ledger) && |old(work)| < WORK_QUEUE_SIZE;
              && work == (if queued then old(work) + [id] else old(work))
              && inflight == (if queued then old(inflight) + {id} else old(inflight))
      ensures sent == old(sent)
    {
      hide Reached;
      Log(Deliver(id, read));
      if id in inflight || !read {
        return;
      }
      if id in ledger {
        if !ledger[id].completed {
          Finish(id, RESTARTED_RESULT, stored, completed, now, true);
        }
        return;
      }
      if |work| < WORK_QUEUE_SIZE {
        work := work + [id];
        inflight := inflight + {id};
      }
    }

    method SubmitOne(id: string, result: string, answer: Answer, ghost left: seq<string>)
      requires Linked() && world.flush == Some(Flush([id] + left, false))
      modifies this`sent, this`labels, this`states, this`world
      ensures Linked() && world == old(world).(
                flush := if answer.Unsent? then None else Some(Flush([id] + left, true)),
                resolved := if answer.Unsent? then old(world).resolved else old(world).resolved + {id})
      ensures sent == if answer.Unsent? then old(sent) else old(sent) + [(id, result)]
      ensures old(labels) <= labels && old(states) <= states
    {
      hide Reached;
      Log(Send(answer));
      if !answer.Unsent? {
        sent := sent + [(id, result)];
      }
    }

    method DeleteResult(id: string, dropped: bool, ghost left: seq<string>)
      requires Linked() && world.flush == Some(Flush([id] + left, true))
      modifies this`results, this`labels, this`states, this`world
      ensures Linked() && results == if dropped then old(results) - {id} else old(results)
      ensures world == old(world).(results := results, flush := if dropped then Some(Flush(left, false)) else None)
      ensures old(labels) <= labels && old(states) <= states
    {
      hide Reached;
      Log(Drop(dropped));
      if dropped {
        results := results - {id};
      }
      assert ([id] + left)[1..] == left;
    }

    /** One result: sent, and dropped once answered. */
    method FlushOne(id: string, result: string, answer: Answer, dropped: bool, ghost left: seq<string>) returns (ok: bool)
      requires Linked() && world.flush == Some(Flush([id] + left, false))
      modifies this`results, this`sent, this`labels, this`states, this`world
      ensures Linked() && ok == (!answer.Unsent? && dropped)
      ensures results == if ok then old(results) - {id} else old(results)
      ensures world == old(world).(
                results := results,
                resolved := if answer.Unsent? then old(world).resolved else old(world).resolved + {id},
                flush := if ok then Some(Flush(left, false)) else None)
      ensures sent == if answer.Unsent? then old(sent) else old(sent) + [(id, result)]
      ensures old(labels) <= labels && old(states) <= states
    {
      hide Step, Enabled, Reached;
      SubmitOne(id, result, answer, left);
      if answer.Unsent? {
        return false;
      }
      DeleteResult(id, dropped, left);
      return dropped;
    }

    /** A flush of what was queued in `kept`, begun in state `before` with `told` answered, has sent and
        dropped the first i. */
    ghost predicate FlushingAt(before: State, kept: map<string, string>, told: seq<Report>, order: seq<string>, i: nat)
      requires forall id :: id in order ==> id in kept
      reads this
    {
      && Linked() && i <= |order| && world.flush == Some(Flush(order[i..], false))
      && FlushedFrom(before, world.(flush := None)) && results == kept - First(order, i)
      && sent == told + Reports(order[..i], kept)
    }

    /** One turn of the flush; it stops at a result it cannot send or cannot drop. */
    method FlushNext(order: seq<string>, i: nat, r: Replies, kept: map<string, string>, ghost before: State, ghost told: seq<Report>)
      returns (ok: bool)
      requires i < |order| && (forall id :: id in order ==> id in kept) && FlushingAt(before, kept, told, order, i)
      modifies this`results, this`sent, this`labels, this`states, this`world
      ensures ok == Settles(order[i], r)
      ensures ok ==> FlushingAt(before, kept, told, order, i + 1)
      ensures !ok ==> Linked() && FlushedFrom(before, world) && results == kept - First(order, i)
      ensures !ok ==> sent == told + Reports(order[..if r.answer(order[i]).Unsent? then i else i + 1], kept)
      ensures old(labels) <= labels && old(states) <= states
    {
      hide Reached, FlushedFrom, First, Reports;
      var id := order[i];
      ghost var now := world;
      assert order[i..] == [id] + order[i + 1..];
      ok := FlushOne(id, kept[id], r.answer(id), r.dropped(id), order[i + 1..]);
      assert FlushedFrom(before, world.(flush := None)) by { FlushedMore(before, now, world, id); }
      assert !ok ==> world.(flush := None) == world;
      DropNext(kept, order, i);
      ReportsMore(order, i, kept);
    }

    /** Sends each result as it was queued when the flush looked. */
    method FlushAll(order: seq<string>, r: Replies) returns (ok: bool)
      requires Linked() && world.up && world.flush.None? && Lists(order, results)
      requires forall id :: id in order ==> id in results
      modifies this`results, this`sent, this`labels, this`states, this`world
      ensures Linked() && FlushedFrom(old(world), world)
      ensures ok <==> Through(order, r) == |order|
      ensures results == old(results) - First(order, Through(order, r))
      ensures sent == old(sent) + Reports(order[..Heard(order, r)], old(results))
      ensures old(labels) <= labels && old(states) <= states
    {
      hide Reached, Through, First, Lists, FlushedFrom, Settles, Reports;
      FlushedNone(world);
      FirstNone(order, results);
      ReportsNone(order, results);
      var kept := results;
      BeginFlush(order);
      var i := 0;
      while i < |order|
        invariant 0 <= i <= Through(order, r) && FlushingAt(old(world), kept, old(sent), order, i)
        invariant old(labels) <= labels && old(states) <= states
      {
        ThroughExactly(order, r, i);
        HeardExactly(order, r);
        ok := FlushNext(order, i, r, kept, old(world), old(sent));
        if !ok {
          return false;
        }
        i := i + 1;
      }
      assert order[i..] == [];
      EndFlush();
      return true;
    }

    /** FlushResults, over the queued results as the store lists them. */
    method FlushResults(order: seq<string>, r: Replies) returns (ok: bool)
      requires Linked() && world.up && world.flush.None? && Lists(order, results)
      modifies this`results, this`sent, this`labels, this`states, this`world
      ensures Linked() && FlushedFrom(old(world), world)
      ensures ok <==> r.read && Through(order, r) == |order|
      ensures results == if r.read then old(results) - First(order, Through(order, r)) else old(results)
      ensures forall id :: id in order ==> id in old(results)
      ensures sent == if r.read then old(sent) + Reports(order[..Heard(order, r)], old(results)) else old(sent)
      ensures HandedOn(old(results), results, sent[|old(sent)|..])
      ensures old(labels) <= labels && old(states) <= states
    {
      assert forall id :: id in order ==> id in (set x | x in order);
      if !r.read {
        FlushedNone(world);
        KeptHandsOn(results);
        return false;
      }
      hide Linked, Reached, Through, First, Lists, FlushedFrom, Settles, Reports, HandedOn;
      ok := FlushAll(order, r);
      FlushHandsOn(order, Through(order, r), Heard(order, r), old(results));
      assert sent[|old(sent)|..] == Reports(order[..Heard(order, r)], old(results));
    }

    ghost method BeginFlush(order: seq<string>)
      requires Linked() && world.up && world.flush.None? && Lists(order, results)
      modifies this`labels, this`states, this`world
      ensures Linked() && world == old(world).(flush := Some(Flush(order[0..], false)))
      ensures old(labels) <= labels && old(states) <= states
    {
      hide Reached, Lists;
      Log(Look(order));
      assert order[0..] == order;
    }

    ghost method EndFlush()
      requires Linked() && world.flush == Some(Flush([], false))
      modifies this`labels, this`states, this`world
      ensures Linked() && world == old(world).(flush := None)
      ensures old(labels) <= labels && old(states) <= states
    {
      hide Reached;
      Log(Done);
    }

    method Receive() returns (id: string)
      requires Linked() && world.up && world.worker.Resting? && work != []
      modifies this`work, this`labels, this`states, this`world
      ensures Linked() && id == old(work)[0] && work == old(work)[1..] && id !in ledger
      ensures world == old(world).(queue := work, worker := Taken(id))
      ensures old(labels) <= labels && old(states) <= states
    {
      NotYetKnown();
      hide Reached;
      id := work[0];
      Log(Take);
      work := work[1..];
    }

    /** MarkStarted, and Execute unless it failed; Execute may panic, which run recovers from. */
    method Begin(id: string, now: int, marked: bool, ghost panics: bool)
      requires Linked() && world.worker == Taken(id) && id !in ledger
      modifies this`ledger, this`labels, this`states, this`world
      ensures Linked() && ledger == if marked then old(ledger)[id := Entry(false, now)] else old(ledger)
      ensures world == old(world).(ledger := ledger, worker := if marked then Finished(id) else Leaving(id))
      ensures marked ==> |labels| == |old(labels)| + 2 && |states| == |labels| + 1
      ensures marked ==> Executes(states[|labels| - 1], labels[|labels| - 1], id)
    {
      hide Reached;
      Log(Mark(now, marked));
      if marked {
        ledger := ledger[id := Entry(false, now)];
        Log(if panics then Panic else Execute);
      }
    }

    method Depart(id: string)
      requires Linked() && world.worker == Leaving(id)
      modifies this`inflight, this`labels, this`states, this`world
      ensures Linked() && inflight == old(inflight) - {id}
      ensures world == old(world).(inflight := inflight, worker := Resting)
      ensures old(labels) <= labels && old(states) <= states
    {
      hide Reached;
      Log(Leave);
      inflight := inflight - {id};
    }

    /** run: the next command from the queue, from its first mark in the ledger until it is no longer in
        flight. It is executed unless that mark could not be written. */
    method RunNext(o: Outcomes) returns (executed: bool)
      requires Linked() && world.up && world.worker.Resting? && world.flush.None? && work != []
      requires Lists(o.order, Queued(o, work[0], results))
      modifies this
      ensures Linked() && world.worker.Resting? && world.flush.None? && world.up
      ensures work == old(work)[1..] && inflight == old(inflight) - {old(work)[0]}
      ensures executed == o.marked
      ensures !o.marked ==> ledger == old(ledger) && results == old(results)
      ensures o.marked ==> ledger == old(ledger)[old(work)[0] := if o.stored && o.completed then Entry(true, o.finishedAt) else Entry(false, o.startedAt)]
      ensures o.marked ==> exists k :: |old(labels)| <= k < |labels| && Executes(states[k], labels[k], old(work)[0])
      ensures o.marked && o.stored ==> Answered(world, old(work)[0])
      ensures forall id :: id in old(results) ==> id in results || id in world.resolved
      ensures old(sent) <= sent
      ensures HandedOn(Queued(o, old(work)[0], old(results)), results, sent[|old(sent)|..])
      ensures o.marked && !o.panics && o.replies.read ==>
                results == Queued(o, old(work)[0], old(results)) - First(o.order, Through(o.order, o.replies))
    {
      hide Step, Enabled, Reached, Through, Lists, First, HandedOn, Executes, Reports, Heard;
      KeptHandsOn(Queued(o, work[0], results));
      var id := Receive();
      Begin(id, o.startedAt, o.marked, o.panics);
      ghost var k := |labels| - 1;
      assert sent[|old(sent)|..] == [];
      if o.marked {
        assert Executes(states[k], labels[k], id);
        Finish(id, o.result, o.stored, o.completed, o.finishedAt, false);
        if !o.panics {
          var _ := FlushResults(o.order, o.replies);
        }
      }
      Depart(id);
      assert o.marked ==> Executes(states[k], labels[k], id);
      executed := o.marked;
    }

    lemma NothingInMemory()
      requires Linked() && !world.up
      ensures inflight == {} && work == [] && world.worker.Resting?
    {
      hide Enabled, Step;
      RunKeepsInv(labels, states, |labels|);
    }

    /** What waits in the queue is not in the ledger. */
    lemma NotYetKnown()
      requires Linked()
      ensures forall id :: id in work ==> id !in ledger
    {
      hide Enabled, Step;
      RunKeepsInv(labels, states, |labels|);
    }
  }

  const RESTARTED_RESULT := "the agent restarted"
}
