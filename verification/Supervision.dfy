/** The supervisor as it runs: internal/agent/selfupdate/supervise.go. Every action it takes is a step of
    the update protocol, logged as it happens, so what the protocol keeps this code keeps. */
module Supervision {
  import opened Prelude
  import opened SelfUpdate
  import opened UpdateProtocol

  /** One turn of the polling loop: whether the new build's check-in reached the record before it was
      read, whether the read worked, what the clock says, and whether supervision was cancelled. */
  datatype Tick = Tick(checkedIn: bool, read: bool, now: int, cancelled: bool)

  /** How every call of one run is answered. */
  datatype World = World(
    read: bool,
    stop: Call, repoint: Call, arm: Call, start: Call,
    ticks: seq<Tick>,
    undoStop: Call, undoRepoint: Call, undoStart: Call, answered: bool,
    write: bool, remove: bool, stuck: set<string>)

  datatype Outcome = Nothing | NotStarted | Kept | Undone | NotUndone | Cancelled(restored: bool)

  /** The attempt's record as it was found, or with the success the new build's check-in made of it. */
  ghost predicate Untouched(r: Record, disk: Option<Record>) { disk == Some(r) || disk == Some(r.(status := Succeeded)) }

  ghost predicate Judged(r: Record, disk: Option<Record>, verdict: Status) {
    disk.Some? && disk.value == r.(status := verdict, detail := disk.value.detail)
  }

  /** What the record and the service are once a supervisor that found r pending, and the service at svc0,
      has returned: nothing but the two builds of this attempt is ever wired, always with its arguments,
      and a write or removal that failed leaves the record as it was. */
  ghost predicate Leaves(r: Record, svc0: Service, disk: Option<Record>, svc: Service, w: World, out: Outcome) {
    var wired, restored := Service(r.toPath, r.fromArgs), Service(r.fromPath, r.fromArgs);
    match out
    case Nothing => false
    case NotStarted =>
      svc == svc0 && if w.write then Judged(r, disk, RolledBack) else disk == Some(r)
    case Kept =>
      svc == wired && disk == if w.remove then None else Some(r.(status := Succeeded))
    case Undone =>
      svc == restored && if w.write then Judged(r, disk, RolledBack) else Untouched(r, disk)
    case NotUndone =>
      && (svc == svc0 || svc == wired || svc == restored)
      && if w.write then Judged(r, disk, if w.answered && svc.path == r.toPath then Pending else RolledBack)
         else Untouched(r, disk)
    case Cancelled(back) =>
      && (svc == wired || svc == restored) && (back ==> svc == restored)
      && if back && w.remove then disk == None else Untouched(r, disk)
  }

  lemma KeptLeaves(r: Record, svc0: Service, disk: Option<Record>, w: World)
    requires disk == if w.remove then None else Some(r.(status := Succeeded))
    ensures Leaves(r, svc0, disk, Service(r.toPath, r.fromArgs), w, Kept)
  {
  }

  lemma CancelledLeaves(r: Record, svc0: Service, before: Option<Record>, disk: Option<Record>, svc: Service, w: World, back: bool)
    requires Untouched(r, before) && disk == if back && w.remove then None else before
    requires svc == Service(r.fromPath, r.fromArgs) || (!back && svc == Service(r.toPath, r.fromArgs))
    ensures Leaves(r, svc0, disk, svc, w, Cancelled(back))
  {
  }

  /** What ends the watch: the new build's check-in is read, the deadline passes, or supervision is cancelled. */
  datatype Ending = Proven | TooLate | Interrupted

  /** The first turn that ends it; `came` says whether the new build has checked in before these. */
  function EndOf(ticks: seq<Tick>, deadline: int, came: bool): Option<Ending> {
    if ticks == [] then None
    else
      var t := ticks[0];
      if (came || t.checkedIn) && t.read then Some(Proven)
      else if t.now >= deadline then Some(TooLate)
      else if t.cancelled then Some(Interrupted)
      else EndOf(ticks[1..], deadline, came || t.checkedIn)
  }

  predicate CameBy(ticks: seq<Tick>, i: nat)
    requires i < |ticks|
  {
    exists j :: 0 <= j <= i && ticks[j].checkedIn
  }

  /** At turn i the check-in, which came then or before, is read. */
  predicate ProofAt(ticks: seq<Tick>, i: nat)
    requires i < |ticks|
  {
    ticks[i].read && CameBy(ticks, i)
  }

  predicate EndsAt(ticks: seq<Tick>, deadline: int, i: nat)
    requires i < |ticks|
  {
    ProofAt(ticks, i) || ticks[i].now >= deadline || ticks[i].cancelled
  }

  /** The first turn at which any of the three holds decides, the proof of life before the deadline and that
      before a cancellation. */
  lemma {:induction false} EndIsTheFirst(ticks: seq<Tick>, deadline: int, i: nat)
    requires i < |ticks| && EndsAt(ticks, deadline, i) && forall j :: 0 <= j < i ==> !EndsAt(ticks, deadline, j)
    ensures EndOf(ticks, deadline, false) ==
            Some(if ProofAt(ticks, i) then Proven else if ticks[i].now >= deadline then TooLate else Interrupted)
  {
    assert ticks[0..] == ticks;
    EndFrom(ticks, deadline, i, 0);
  }

  lemma {:induction false} EndFrom(ticks: seq<Tick>, deadline: int, i: nat, k: nat)
    requires k <= i < |ticks| && EndsAt(ticks, deadline, i) && forall j :: 0 <= j < i ==> !EndsAt(ticks, deadline, j)
    ensures EndOf(ticks[k..], deadline, exists j :: 0 <= j < k && ticks[j].checkedIn) ==
            Some(if ProofAt(ticks, i) then Proven else if ticks[i].now >= deadline then TooLate else Interrupted)
    decreases i - k
  {
    var came := exists j :: 0 <= j < k && ticks[j].checkedIn;
    var t := ticks[k];
    assert ticks[k..][0] == t && ticks[k..][1..] == ticks[k + 1..];
    assert CameBy(ticks, k) <==> came || t.checkedIn;
    if k < i {
      assert !EndsAt(ticks, deadline, k);
      EndFrom(ticks, deadline, i, k + 1);
      assert (exists j :: 0 <= j < k + 1 && ticks[j].checkedIn) <==> came || t.checkedIn;
    }
  }

  function UndoOutcome(w: World): Outcome {
    if w.undoStop.Worked? && w.undoRepoint.Worked? && w.undoStart.Worked? then Undone else NotUndone
  }

  /** How a supervisor that found a pending record returns, from the answers it gets alone. */
  function OutcomeOf(w: World, deadline: int): Outcome {
    if !w.stop.Worked? then NotStarted
    else if !(w.repoint.Worked? && w.arm.Worked? && w.start.Worked?) then UndoOutcome(w)
    else match EndOf(w.ticks, deadline, false)
      case None => Nothing
      case Some(Proven) => Kept
      case Some(TooLate) => UndoOutcome(w)
      case Some(Interrupted) => Cancelled(UndoOutcome(w) == Undone)
  }

  /** Rolled back is said of a service that is on the new path all the same: it was before anything was
      done, or the build put back lies at that very path. */
  predicate Misjudges(r: Record, svc0: Service, out: Outcome) {
    || (out == NotStarted && svc0.path == r.toPath)
    || (out == Undone && r.fromPath == r.toPath)
  }

  /** With the record writable and the controller answering, a run that was not cancelled leaves one of the
      three, exactly unless it misjudges. */
  lemma ThreeWayExactly(r: Record, svc0: Service, disk: Option<Record>, svc: Service, w: World, out: Outcome)
    requires Leaves(r, svc0, disk, svc, w, out) && !out.Cancelled? && w.write && w.remove && w.answered
    ensures ThreeWay(r, disk, svc) <==> !Misjudges(r, svc0, out)
  {
  }

  class Supervisor {
    ghost const fleet: Fleet
    ghost const id: nat
    ghost const origin: State

    /** update.json, the service's configuration, and the bin directory. */
    var disk: Option<Record>
    var svc: Service
    var builds: map<string, Bytes>

    ghost var world: State
    ghost var trace: seq<Label>

    /** What this object sees of the world is the world, and the world got here by protocol steps. */
    ghost predicate Linked()
      reads this
    {
      && world.disk == disk && world.svc == svc && world.files == builds
      && Run(fleet, origin, trace) && After(fleet, origin, trace) == world
    }

    ghost predicate On(rec: Record, at: At)
      reads this
    {
      id in world.sups && world.sups[id] == Supervising(rec, at)
    }

    /** The process of a spawned supervisor begins. */
    constructor (ghost fleet: Fleet, ghost id: nat, ghost s: State, disk: Option<Record>, svc: Service, builds: map<string, Bytes>)
      requires id in s.sups && s.sups[id] == Waking && s.disk == disk && s.svc == svc && s.files == builds
      ensures Linked() && world == s && trace == [] && this.fleet == fleet && this.id == id && origin == s
    {
      this.fleet, this.id, this.origin := fleet, id, s;
      this.disk, this.svc, this.builds := disk, svc, builds;
      this.world, this.trace := s, [];
    }

    ghost method Log(l: Label)
      requires Run(fleet, origin, trace) && After(fleet, origin, trace) == world && Enabled(fleet, world, l)
      modifies this`world, this`trace
      ensures Run(fleet, origin, trace) && After(fleet, origin, trace) == world
      ensures trace == old(trace) + [l] && world == Step(fleet, old(world), l)
    {
      hide Step, Enabled;
      RunSnoc(fleet, origin, trace, l);
      world := Step(fleet, world, l);
      trace := trace + [l];
    }

    // ----- The controller -----

    method Stop(ghost rec: Record, ghost at: At, call: Call) returns (ok: bool)
      requires Linked() && On(rec, at) && at in {Stopping, UndoStopping, CancelStopping}
      modifies this`world, this`trace
      ensures Linked() && ok == call.Worked?
      ensures world.agent == if call.Failed? && !call.applied then old(world.agent) else None
      ensures if NextAt(at, ok).Some? then On(rec, NextAt(at, ok).value) else id !in world.sups
    {
      hide Run, After, StageStep;
      Log(Control(id, call));
      ok := call.Worked?;
    }

    /** A failed SetBinPath may still have repointed the service. */
    method SetBinPath(ghost rec: Record, ghost at: At, path: Path, args: seq<string>, call: Call) returns (ok: bool)
      requires Linked() && On(rec, at) && args == rec.fromArgs
      requires (at == Repointing && path == rec.toPath) || (at in {UndoRepointing, CancelRepointing} && path == rec.fromPath)
      modifies this`svc, this`world, this`trace
      ensures Linked() && ok == call.Worked? && world.agent == old(world.agent)
      ensures svc == if call.Failed? && !call.applied then old(svc) else Service(path, args)
      ensures if NextAt(at, ok).Some? then On(rec, NextAt(at, ok).value) else id !in world.sups
    {
      hide Run, After, StageStep;
      Log(Control(id, call));
      if call.Worked? || call.applied {
        svc := Service(path, args);
      }
      ok := call.Worked?;
    }

    /** SetRecoveryActions and Start: neither touches the record or the configuration. */
    method Invoke(ghost rec: Record, ghost at: At, call: Call) returns (ok: bool)
      requires Linked() && On(rec, at) && at in {Arming, Starting, UndoStarting, CancelStarting}
      modifies this`world, this`trace
      ensures Linked() && ok == call.Worked? && world.agent == old(world.agent)
      ensures if NextAt(at, ok).Some? then On(rec, NextAt(at, ok).value) else id !in world.sups
    {
      hide Run, After, StageStep;
      Log(Control(id, call));
      ok := call.Worked?;
    }

    // ----- Undoing -----

    /** restoreBuild, for a rollback or for a cancellation. */
    method RestoreBuild(rec: Record, cancel: bool, w: World) returns (ok: bool)
      requires Linked() && On(rec, if cancel then CancelStopping else UndoStopping)
      modifies this`svc, this`world, this`trace
      ensures Linked()
      ensures ok <==> w.undoStop.Worked? && w.undoRepoint.Worked? && w.undoStart.Worked?
      ensures svc == old(svc) || svc == Service(rec.fromPath, rec.fromArgs)
      ensures ok ==> svc == Service(rec.fromPath, rec.fromArgs) && On(rec, if cancel then CancelRemoving else Recording(RolledBack))
      ensures !ok ==> if cancel then id !in world.sups else On(rec, Asking)
    {
      hide Linked;
      ok := Stop(rec, if cancel then CancelStopping else UndoStopping, w.undoStop);
      if !ok {
        return;
      }
      ok := SetBinPath(rec, if cancel then CancelRepointing else UndoRepointing, rec.fromPath, rec.fromArgs, w.undoRepoint);
      if !ok {
        return;
      }
      ok := Invoke(rec, if cancel then CancelStarting else UndoStarting, w.undoStart);
    }

    /** stillOnNewBuild: a controller that cannot answer contradicts nothing. */
    method StillOnNewBuild(rec: Record, answered: bool) returns (still: bool)
      requires Linked() && On(rec, Asking)
      modifies this`world, this`trace
      ensures Linked() && still == (answered && svc.path == rec.toPath)
      ensures On(rec, Recording(if still then Pending else RolledBack))
    {
      hide Run, After, StageStep;
      Log(Ask(id, answered));
      still := answered && svc.path == rec.toPath;
    }

    method WriteVerdict(rec: Record, verdict: Status, detail: string, write: bool)
      requires Linked() && On(rec, Recording(verdict))
      modifies this`disk, this`world, this`trace
      ensures Linked() && id !in world.sups
      ensures disk == if write then Some(rec.(status := verdict, detail := detail)) else old(disk)
    {
      hide Run, After, StageStep;
      Log(Record_(id, detail, write));
      if write {
        disk := Some(rec.(status := verdict, detail := detail));
      }
    }

    /** rollback: what it records is what is true of the service, as far as the controller will say. */
    method Rollback(rec: Record, detail: string, w: World, ghost svc0: Service) returns (out: Outcome)
      requires Linked() && On(rec, UndoStopping) && Untouched(rec, disk)
      requires svc == svc0 || svc == Service(rec.toPath, rec.fromArgs)
      modifies this`disk, this`svc, this`world, this`trace
      ensures Linked() && id !in world.sups
      ensures out == UndoOutcome(w)
      ensures !w.write ==> disk == old(disk)
      ensures Leaves(rec, svc0, disk, svc, w, out)
    {
      hide Linked;
      var restored := RestoreBuild(rec, false, w);
      if !restored {
        var still := StillOnNewBuild(rec, w.answered);
        WriteVerdict(rec, if still then Pending else RolledBack, detail + "; restoring the previous build also failed", w.write);
        return NotUndone;
      }
      WriteVerdict(rec, RolledBack, detail, w.write);
      return Undone;
    }

    // ----- Settling -----

    /** The build stays: it is one of this attempt's two, or it cannot be removed. */
    predicate Stays(rec: Record, stuck: set<string>, v: string) { v == rec.toVersion || v == rec.fromVersion || v in stuck }

    /** pruneOldBuilds. */
    method PruneOldBuilds(rec: Record, stuck: set<string>) returns (ghost gone: set<string>)
      modifies this`builds
      ensures gone == set v | v in old(builds) && !Stays(rec, stuck, v)
      ensures builds == old(builds) - gone
    {
      var todo := builds.Keys;
      gone := {};
      while todo != {}
        invariant todo <= old(builds).Keys && builds == old(builds) - gone
        invariant gone == set v | v in old(builds) && v !in todo && !Stays(rec, stuck, v)
        decreases todo
      {
        var v :| v in todo;
        todo := todo - {v};
        if v == rec.toVersion || v == rec.fromVersion {
          continue;
        }
        if v in stuck {
          continue;
        }
        gone := gone + {v};
        builds := builds - {v};
      }
    }

    /** RemoveRecord and pruneOldBuilds: only the build that won, the one it replaced and those that cannot
        be removed stay. */
    method Settle(rec: Record, w: World)
      requires Linked() && On(rec, Settling)
      modifies this`disk, this`builds, this`world, this`trace
      ensures Linked() && id !in world.sups
      ensures disk == if w.remove then None else old(disk)
      ensures builds == if w.remove then old(builds) - (set v | v in old(builds) && !Stays(rec, w.stuck, v)) else old(builds)
    {
      hide Run, After, StageStep;
      Log(Remove(id, w.remove));
      if !w.remove {
        return;
      }
      disk := None;
      ghost var gone := PruneOldBuilds(rec, w.stuck);
      Log(Prune(id, gone));
    }

    /** Cancellation: the previous build goes back, and no verdict is left behind. */
    method CancelRun(rec: Record, w: World) returns (out: Outcome)
      requires Linked() && On(rec, Watching)
      modifies this`disk, this`svc, this`world, this`trace
      ensures Linked() && id !in world.sups
      ensures out == Cancelled(UndoOutcome(w) == Undone)
      ensures out.restored ==> svc == Service(rec.fromPath, rec.fromArgs)
      ensures svc == old(svc) || svc == Service(rec.fromPath, rec.fromArgs)
      ensures disk == if out.restored && w.remove then None else old(disk)
    {
      hide Run, After, StageStep;
      Log(Cancel(id));
      var restored := RestoreBuild(rec, true, w);
      if restored {
        Log(Remove(id, w.remove));
        if w.remove {
          disk := None;
        }
      }
      out := Cancelled(restored);
    }

    ghost method LogStart(rec: Record)
      requires Linked() && On(rec, Watching) && world.agent.None?
      modifies this`world, this`trace
      ensures Linked() && On(rec, Watching)
      ensures world.agent.Some? && world.agent.value.running == rec.toVersion && world.agent.value.proof.None? && world.agent.value.job.Idle?
    {
      hide Run, After, StageStep, SupStep, Excuse;
      Log(Start(rec.toVersion, true, 0, false, false));
    }

    /** The new build starts if it has to, checks in, and marks a record that is still pending for it. */
    method NewBuildChecksIn(rec: Record)
      requires Linked() && On(rec, Watching)
      requires world.agent.None? || (world.agent.value.running == rec.toVersion && world.agent.value.proof.None? && world.agent.value.job.Idle?)
      modifies this`disk, this`world, this`trace
      ensures Linked() && On(rec, Watching)
      ensures world.agent.Some? && world.agent.value.running == rec.toVersion && world.agent.value.proof.None? && world.agent.value.job.Idle?
      ensures disk == if IsPending(old(disk)) && old(disk).value.toVersion == rec.toVersion
                      then Some(old(disk).value.(status := Succeeded)) else old(disk)
    {
      hide Run, After, StageStep, SupStep, Excuse;
      if world.agent.None? {
        LogStart(rec);
      }
      Log(ProofRead(true));
      if disk.Some? && disk.value.status == Pending && disk.value.toVersion == rec.toVersion {
        Log(ProofWrite(true));
        disk := Some(disk.value.(status := Succeeded));
      }
    }

    /** Supervise. What every return leaves, failed writes and removals included; and with the record
        writable and the controller answering, a run that was not cancelled leaves one of the three exactly
        unless it misjudges. */
    method Supervise(w: World) returns (out: Outcome)
      requires Linked() && id in world.sups && world.sups[id] == Waking
      requires IsPending(disk) ==> w.ticks != [] && w.ticks[|w.ticks| - 1].now >= disk.value.deadline
      modifies this
      ensures Linked() && id !in world.sups
      ensures out == Nothing <==> !w.read || !old(IsPending(disk))
      ensures out == Nothing ==> disk == old(disk) && svc == old(svc) && builds == old(builds)
      ensures out != Nothing ==> Leaves(old(disk).value, old(svc), disk, svc, w, out)
      ensures w.read && old(IsPending(disk)) ==> out == OutcomeOf(w, old(disk).value.deadline)
      ensures out != Nothing && !out.Cancelled? && w.write && w.remove && w.answered ==>
                (ThreeWay(old(disk).value, disk, svc) <==> !Misjudges(old(disk).value, old(svc), out))
    {
      hide Linked, Leaves;
      var woken := WakeUp(w.read);
      if !woken {
        return Nothing;
      }
      ghost var r, svc0 := disk.value, svc;
      out := CarryOut(disk.value, w);
      if !out.Cancelled? && w.write && w.remove && w.answered {
        ThreeWayExactly(r, svc0, disk, svc, w, out);
      }
    }

    /** Supervise from its step 2 on. */
    method CarryOut(rec: Record, w: World) returns (out: Outcome)
      requires Linked() && On(rec, Stopping) && disk == Some(rec) && rec.status == Pending
      requires w.ticks != [] && w.ticks[|w.ticks| - 1].now >= rec.deadline
      modifies this
      ensures Linked() && id !in world.sups
      ensures Leaves(rec, old(svc), disk, svc, w, out) && out == OutcomeOf(w, rec.deadline) && out != Nothing
    {
      hide Linked;
      ghost var svc0 := svc;
      var ok := Stop(rec, Stopping, w.stop);
      if !ok {
        WriteVerdict(rec, RolledBack, "the service would not stop", w.write);
        return NotStarted;
      }
      ok := SetBinPath(rec, Repointing, rec.toPath, rec.fromArgs, w.repoint);
      if !ok {
        out := Rollback(rec, "repointing the service at the new build failed", w, svc0);
        return;
      }
      ok := Invoke(rec, Arming, w.arm);
      if !ok {
        out := Rollback(rec, "setting recovery actions failed", w, svc0);
        return;
      }
      ok := Invoke(rec, Starting, w.start);
      if !ok {
        out := Rollback(rec, "starting the new build failed", w, svc0);
        return;
      }
      out := Watch(rec, w, svc0);
    }

    method WakeUp(read: bool) returns (pending: bool)
      requires Linked() && id in world.sups && world.sups[id] == Waking
      modifies this`world, this`trace
      ensures Linked() && pending == (read && IsPending(disk))
      ensures if pending then On(disk.value, Stopping) else id !in world.sups
    {
      hide Run, After, StageStep;
      Log(Wake(id, read));
      pending := read && disk.Some? && disk.value.status == Pending;
    }

    method Look(rec: Record, read: bool) returns (settled: bool)
      requires Linked() && On(rec, Watching)
      modifies this`world, this`trace
      ensures Linked() && settled == (read && disk.Some? && disk.value.status == Succeeded)
      ensures On(rec, if settled then Settling else Watching) && world.agent == old(world.agent)
    {
      hide Run, After, StageStep;
      Log(Poll(id, read));
      settled := read && disk.Some? && disk.value.status == Succeeded;
    }

    /** Nobody is running, or the new build, between two check-ins. */
    ghost predicate NewBuildOnly(rec: Record)
      reads this`world
    {
      world.agent.None? || (world.agent.value.running == rec.toVersion && world.agent.value.proof.None? && world.agent.value.job.Idle?)
    }

    /** The attempt's record, the new build having checked in or not. */
    ghost predicate Marked(rec: Record, came: bool)
      reads this`disk
    {
      disk == Some(if came then rec.(status := Succeeded) else rec) && rec.status == Pending
    }

    /** One turn of the polling loop; it goes on if there is no outcome. */
    method Turn(rec: Record, t: Tick, w: World, ghost svc0: Service, ghost came: bool) returns (out: Option<Outcome>)
      requires Linked() && On(rec, Watching) && NewBuildOnly(rec) && Marked(rec, came)
      requires svc == Service(rec.toPath, rec.fromArgs)
      modifies this
      ensures Linked()
      ensures out.None? ==> On(rec, Watching) && NewBuildOnly(rec) && Marked(rec, came || t.checkedIn) && svc == old(svc)
      ensures out.Some? ==> id !in world.sups && Leaves(rec, svc0, disk, svc, w, out.value)
      ensures out == if (came || t.checkedIn) && t.read then Some(Kept)
                     else if t.now >= rec.deadline then Some(UndoOutcome(w))
                     else if t.cancelled then Some(Cancelled(UndoOutcome(w) == Undone))
                     else None
    {
      hide Linked, Leaves, On, UndoOutcome;
      if t.checkedIn {
        NewBuildChecksIn(rec);
      }
      var settled := Look(rec, t.read);
      if settled {
        Settle(rec, w);
        KeptLeaves(rec, svc0, disk, w);
        return Some(Kept);
      }
      if t.now >= rec.deadline {
        GiveUp(rec, t.now);
        var undone := Rollback(rec, "the new build never checked in before the deadline", w, svc0);
        return Some(undone);
      }
      if t.cancelled {
        ghost var before := disk;
        var cancelled := CancelRun(rec, w);
        CancelledLeaves(rec, svc0, before, disk, svc, w, cancelled.restored);
        return Some(cancelled);
      }
      return None;
    }

    /** The polling loop: proof of life, the deadline, or cancellation, whichever comes first. */
    method Watch(rec: Record, w: World, ghost svc0: Service) returns (out: Outcome)
      requires Linked() && On(rec, Watching) && world.agent.None? && disk == Some(rec) && rec.status == Pending
      requires svc == Service(rec.toPath, rec.fromArgs)
      requires w.ticks != [] && w.ticks[|w.ticks| - 1].now >= rec.deadline
      modifies this
      ensures Linked() && id !in world.sups && Leaves(rec, svc0, disk, svc, w, out)
      ensures out == match EndOf(w.ticks, rec.deadline, false)
                     case None => Nothing
                     case Some(Proven) => Kept
                     case Some(TooLate) => UndoOutcome(w)
                     case Some(Interrupted) => Cancelled(UndoOutcome(w) == Undone)
    {
      hide Linked, Leaves, On, UndoOutcome;
      var i := 0;
      ghost var came := false;
      assert w.ticks[0..] == w.ticks;
      while true
        invariant i < |w.ticks|
        invariant Linked() && On(rec, Watching) && NewBuildOnly(rec) && Marked(rec, came)
        invariant svc == Service(rec.toPath, rec.fromArgs)
        invariant EndOf(w.ticks[i..], rec.deadline, came) == EndOf(w.ticks, rec.deadline, false)
        decreases |w.ticks| - i
      {
        var t := w.ticks[i];
        assert w.ticks[i..][0] == t && w.ticks[i..][1..] == w.ticks[i + 1..];
        var ended := Turn(rec, t, w, svc0, came);
        if ended.Some? {
          return ended.value;
        }
        came := came || t.checkedIn;
        i := i + 1;
      }
    }

    ghost method GiveUp(rec: Record, now: int)
      requires Linked() && On(rec, Watching) && now >= rec.deadline
      modifies this`world, this`trace
      ensures Linked() && On(rec, UndoStopping)
    {
      hide Run, After, StageStep;
      Log(Overdue(id, now));
    }
  }
}
