/** The agent's side of a self-update as it runs: internal/agent/selfupdate/syncer.go. As in Supervision,
    every action is a logged step of the update protocol. */
module Syncing {
  import opened Prelude
  import opened Text
  import opened SelfUpdate
  import opened UpdateProtocol
  import Release
  import Versions

  /** How the calls made while staging one build are answered. Nothing here is a report to the server:
      staging never waits for one. */
  datatype World = World(
    mkdir: bool,
    downloaded: Option<Bytes>, rename: bool, chmod: bool, runnable: bool, removed: bool,
    config: bool, now: int, deadline: nat,
    write: bool, remove: bool, copied: bool, spawned: Option<nat>)

  datatype Outcome = Rejected | Refused_ | Failed_ | HandedOver

  /** One agent build offered by a check-in: whether its options parse, whether the record can be read,
      what the server says of it, and the answers staging would get. */
  datatype Offer = Offer(item: string, options: bool, read: bool, build: Option<Build>, world: World)

  predicate Unreported(disk: Option<Record>) { disk.Some? && disk.value.status == RolledBack && !disk.value.reported }

  /** The record on disk is still of that attempt, and says the same of it. */
  predicate SameAttempt(disk: Option<Record>, rec: Record) {
    disk.Some? && disk.value.toVersion == rec.toVersion && disk.value.status == rec.status
  }

  /** The download arrives, is what was signed, and can be put in place. */
  predicate Arrives(f: Fleet, b: Build, w: World) {
    w.mkdir && w.downloaded.Some? && EqualFold(f.crypto.sha256(w.downloaded.value), b.sha256) && w.rename
  }

  /** From the file in place to the hand-over. */
  predicate GetsAcross(w: World) { w.chmod && w.runnable && w.config && w.write && w.copied && w.spawned.Some? }

  class Syncer {
    const fleet: Fleet
    const running: string
    const injected: bool
    ghost const origin: State

    /** update.json, the service's configuration, the bin directory, and an unreported rollback. */
    var disk: Option<Record>
    var svc: Service
    var builds: map<string, Bytes>
    var rollback: Option<Record>

    ghost var world: State
    ghost var trace: seq<Label>

    ghost predicate Linked()
      reads this
    {
      && world.disk == disk && world.svc == svc && world.files == builds
      && Run(fleet, origin, trace) && After(fleet, origin, trace) == world
    }

    ghost predicate Doing(j: Job)
      reads this
    {
      world.agent == Some(Agent(running, injected, rollback, None, j))
    }

    /** A started agent, with whatever its start made of the record. */
    constructor (fleet: Fleet, running: string, injected: bool, ghost s: State,
                 disk: Option<Record>, svc: Service, builds: map<string, Bytes>, rollback: Option<Record>)
      requires s.disk == disk && s.svc == svc && s.files == builds
      requires s.agent == Some(Agent(running, injected, rollback, None, Idle))
      ensures Linked() && Doing(Idle) && world == s && trace == [] && origin == s
      ensures this.fleet == fleet && this.running == running && this.injected == injected
    {
      this.fleet, this.running, this.injected, this.origin := fleet, running, injected, s;
      this.disk, this.svc, this.builds, this.rollback := disk, svc, builds, rollback;
      this.world, this.trace := s, [];
    }

    ghost method Log(l: Label)
      requires Run(fleet, origin, trace) && After(fleet, origin, trace) == world && Enabled(fleet, world, l)
      modifies this`world, this`trace
      ensures Run(fleet, origin, trace) && After(fleet, origin, trace) == world
      ensures trace == old(trace) + [l] && world == Step(fleet, old(world), l)
    {
      hide Step, Enabled;
      RunSnoc(fleet, origin, trace, l);
      world := Step(fleet, world, l);
      trace := trace + [l];
    }

    // ----- Check-ins and reports -----

    /** CheckedIn: the proof of life. Only a pending record staged for this very build changes. */
    method CheckedIn(read: bool, write: bool)
      requires Linked() && Doing(Idle)
      modifies this`disk, this`world, this`trace
      ensures Linked() && Doing(Idle) && world.sups == old(world.sups)
      ensures disk == if read && write && IsPending(old(disk)) && old(disk).value.toVersion == running
                      then Some(old(disk).value.(status := Succeeded)) else old(disk)
    {
      hide Run, After, SupStep, SupEnabled, Excuse, StageStep;
      Log(ProofRead(read));
      if read && disk.Some? && disk.value.status == Pending && disk.value.toVersion == running {
        Log(ProofWrite(write));
        if write {
          disk := Some(disk.value.(status := Succeeded));
        }
      }
    }

    /** markReported, with no supervisor at work between its read and its write: the record keeps everything but
        its Reported flag, and a record that has moved on to another version or another status is left alone.
        FailingRuns.MarkingIsSafeExactly is what can happen with one. */
    method MarkReported(rec: Record, read: bool, write: bool)
      requires Linked() && Doing(Told(rec))
      modifies this`disk, this`world, this`trace
      ensures Linked() && Doing(Idle) && world.sups == old(world.sups)
      ensures disk == if read && write && old(disk).Some? && old(disk).value.toVersion == rec.toVersion
                         && old(disk).value.status == rec.status
                      then Some(old(disk).value.(reported := true)) else old(disk)
    {
      hide Run, After, SupStep, SupEnabled, Excuse, StageStep;
      Log(MarkRead(read));
      if !read || disk.None? || disk.value.toVersion != rec.toVersion || disk.value.status != rec.status {
        return;
      }
      Log(MarkWrite(write));
      if write {
        disk := Some(disk.value.(reported := true));
      }
    }

    /** The first half of Sync: adopt an unreported rollback, and report it until the server has taken
        it or said it never will. */
    method ReportRollback(adopt: bool, answer: Answer, read: bool, write: bool)
      requires Linked() && Doing(Idle)
      modifies this`disk, this`rollback, this`world, this`trace
      ensures Linked() && Doing(Idle) && world.sups == old(world.sups)
      ensures var told := if old(rollback).Some? then old(rollback)
                          else if adopt && Unreported(old(disk)) then old(disk) else None;
              && rollback == (if answer.Lost? then told else None)
              && disk == (if told.Some? && !answer.Lost? && read && write && SameAttempt(old(disk), told.value)
                          then Some(old(disk).value.(reported := true)) else old(disk))
    {
      hide Run, After, SupStep, SupEnabled, Excuse, StageStep;
      if rollback.None? {
        Log(Adopt(adopt));
        if adopt && disk.Some? && disk.value.status == RolledBack && !disk.value.reported {
          rollback := disk;
        }
      }
      if rollback.Some? {
        var rec := rollback.value;
        Log(Tell(answer));
        if !answer.Lost? {
          rollback := None;
          MarkReported(rec, read, write);
        }
      }
    }

    // ----- Staging -----

    /** rememberRefusal. */
    method RememberRefusal(item: string, version: string, detail: string, write: bool)
      modifies this`disk
      ensures disk == if write then Some(RefusedRecord(item, running, version, detail)) else old(disk)
      ensures write ==> AlreadyRefused(disk, item) && disk.value.toVersion == version && disk.value.fromVersion == running
      ensures write ==> disk.value.detail == detail && disk.value.reported
    {
      if write {
        disk := Some(Record(item, running, Outside(""), [], version, Outside(""), 0, Refused, detail, true));
      }
    }

    method RemoveBuild(version: string, removed: bool)
      modifies this`builds
      ensures builds == Without(old(builds), version, removed)
    {
      if removed {
        builds := builds - {version};
      }
    }

    /** The checks stage makes before it touches the disk: the version is a plain folder name, and a
        trusted key signed version and hash together. A build that fails the second is remembered. */
    method CheckBuild(item: string, build: Build, w: World) returns (bad: Option<Outcome>)
      requires Linked() && Doing(Chosen(item, build))
      modifies this`disk, this`world, this`trace
      ensures Linked() && world.sups == old(world.sups)
      ensures bad.None? <==> Verified(fleet, build)
      ensures bad == Some(Refused_) <==> ValidVersion(build.version) && !Verified(fleet, build)
      ensures bad.Some? ==> bad.value in {Rejected, Refused_}
      ensures Doing(if bad.None? then Chosen(item, build) else Idle)
      ensures disk == if bad == Some(Refused_) && w.write
                      then Some(RefusedRecord(item, running, build.version, "signature did not verify")) else old(disk)
    {
      hide Run, After, Release.Verify, ValidVersion, SupStep, SupEnabled, Excuse, ReportStep, Decide;
      if !ValidVersion(build.version) {
        Log(Reject);
        return Some(Rejected);
      }
      if build.signature.None? || !SignatureHolds(fleet, build) {
        Log(Refuse("signature did not verify", w.write));
        RememberRefusal(item, build.version, "signature did not verify", w.write);
        return Some(Refused_);
      }
      return None;
    }

    /** Download, compare and put in place: nothing stays unless its bytes match the signed hash. */
    method Download(item: string, build: Build, w: World) returns (ok: bool)
      requires Linked() && Doing(Chosen(item, build)) && Verified(fleet, build)
      modifies this`builds, this`world, this`trace
      ensures Linked() && world.sups == old(world.sups)
      ensures ok <==> Arrives(fleet, build, w)
      ensures Doing(if ok then Placed(item, build) else Idle)
      ensures ok ==> builds == old(builds)[build.version := w.downloaded.value]
      ensures !ok ==> builds == if w.mkdir then Without(old(builds), build.version, w.removed) else old(builds)
    {
      hide Linked, Doing, Verified, ValidVersion, EqualFold, Without;
      if !w.mkdir {
        NothingArrived(item, build, false);
        return false;
      }
      if w.downloaded.None? || !EqualFold(fleet.crypto.sha256(w.downloaded.value), build.sha256) || !w.rename {
        NothingArrived(item, build, w.removed);
        return false;
      }
      PutInPlace(item, build, w.downloaded.value);
      return true;
    }

    method NothingArrived(item: string, build: Build, removed: bool)
      requires Linked() && Doing(Chosen(item, build)) && Verified(fleet, build)
      modifies this`builds, this`world, this`trace
      ensures Linked() && Doing(Idle) && world.sups == old(world.sups)
      ensures builds == Without(old(builds), build.version, removed) && (!removed ==> builds == old(builds))
    {
      hide Run, After, SupStep, SupEnabled, Excuse, ReportStep, Verified, ValidVersion;
      Log(NotDownloaded(removed));
      RemoveBuild(build.version, removed);
    }

    method PutInPlace(item: string, build: Build, bytes: Bytes)
      requires Linked() && Doing(Chosen(item, build)) && Verified(fleet, build)
      requires EqualFold(fleet.crypto.sha256(bytes), build.sha256)
      modifies this`builds, this`world, this`trace
      ensures Linked() && Doing(Placed(item, build)) && world.sups == old(world.sups)
      ensures builds == old(builds)[build.version := bytes]
    {
      hide Run, After, SupStep, SupEnabled, Excuse, ReportStep, Verified, ValidVersion, EqualFold;
      Log(Place(bytes));
      builds := builds[build.version := bytes];
    }

    /** A staged build that cannot be used goes again. */
    method Discard(item: string, build: Build, w: World)
      requires Linked() && Doing(Placed(item, build))
      modifies this`builds, this`world, this`trace
      ensures Linked() && Doing(Idle) && world.sups == old(world.sups)
      ensures builds == Without(old(builds), build.version, w.removed)
    {
      hide Run, After, SupStep, SupEnabled, Excuse, ReportStep, Verified, ValidVersion;
      Log(NotConfigured(w.removed));
      RemoveBuild(build.version, w.removed);
    }

    /** The right version for the wrong machine is remembered like a bad signature. */
    method RefuseUnrunnable(item: string, build: Build, w: World)
      requires Linked() && Doing(Placed(item, build))
      modifies this`disk, this`builds, this`world, this`trace
      ensures Linked() && Doing(Idle) && world.sups == old(world.sups)
      ensures builds == Without(old(builds), build.version, w.removed)
      ensures disk == if w.write then Some(RefusedRecord(item, running, build.version, "the build cannot run here")) else old(disk)
    {
      hide Run, After, SupStep, SupEnabled, Excuse, ReportStep, Verified, ValidVersion;
      Log(WrongMachine("the build cannot run here", w.write, w.removed));
      RemoveBuild(build.version, w.removed);
      RememberRefusal(item, build.version, "the build cannot run here", w.write);
    }

    ghost method LogConfig(item: string, build: Build, w: World)
      requires Linked() && Doing(Placed(item, build))
      modifies this`world, this`trace
      ensures Linked() && Doing(Wired(NewRecord(item, running, svc, build, w.now, w.deadline))) && world.sups == old(world.sups)
    {
      hide Run, After, SupStep, SupEnabled, Excuse, ReportStep, Verified, ValidVersion;
      Log(Configure(w.now, w.deadline));
    }

    /** stage, from the file in place to the hand-over. */
    method HandOver(item: string, build: Build, w: World) returns (out: Outcome)
      requires Linked() && Doing(Placed(item, build))
      requires w.spawned.Some? ==> w.spawned.value !in world.sups
      modifies this`disk, this`builds, this`world, this`trace
      ensures Linked() && Doing(Idle)
      ensures out == HandedOver <==> GetsAcross(w)
      ensures out == HandedOver ==>
                && disk == Some(NewRecord(item, running, svc, build, w.now, w.deadline))
                && world.sups == old(world.sups)[w.spawned.value := Waking] && builds == old(builds)
      ensures out in {HandedOver, Refused_, Failed_}
      ensures out != HandedOver ==> world.sups == old(world.sups) && builds == Without(old(builds), build.version, w.removed)
      ensures out == Refused_ <==> w.chmod && !w.runnable
      ensures out == Refused_ ==> disk == if w.write then Some(RefusedRecord(item, running, build.version, "the build cannot run here")) else old(disk)
      ensures out == Failed_ ==>
                disk == if !(w.chmod && w.runnable && w.config && w.write) then old(disk)
                        else if w.remove then None else Some(NewRecord(item, running, svc, build, w.now, w.deadline))
    {
      hide Linked, Doing, Without, NewRecord, RefusedRecord;
      if !w.chmod {
        Discard(item, build, w);
        return Failed_;
      }
      if !w.runnable {
        RefuseUnrunnable(item, build, w);
        return Refused_;
      }
      if !w.config {
        Discard(item, build, w);
        return Failed_;
      }
      LogConfig(item, build, w);
      NewRecordSays(item, running, svc, build, w.now, w.deadline);
      out := WriteAndSpawn(NewRecord(item, running, svc, build, w.now, w.deadline), w);
    }

    /** abandon: with no supervisor coming, the record goes, so that nothing waits for one. */
    method Abandon(rec: Record, w: World)
      requires Linked() && Doing(Written(rec))
      modifies this`disk, this`builds, this`world, this`trace
      ensures Linked() && Doing(Idle) && world.sups == old(world.sups)
      ensures disk == if w.remove then None else old(disk)
      ensures builds == Without(old(builds), rec.toVersion, w.removed)
    {
      hide Run, After, SupStep, SupEnabled, Excuse, ReportStep, Verified, ValidVersion;
      Log(SpawnFails(w.remove, w.removed));
      if w.remove {
        disk := None;
      }
      RemoveBuild(rec.toVersion, w.removed);
    }

    method WriteNew(rec: Record, w: World) returns (ok: bool)
      requires Linked() && Doing(Wired(rec))
      modifies this`disk, this`builds, this`world, this`trace
      ensures Linked() && world.sups == old(world.sups) && ok == w.write
      ensures Doing(if ok then Written(rec) else Idle)
      ensures disk == if ok then Some(rec) else old(disk)
      ensures builds == if ok then old(builds) else Without(old(builds), rec.toVersion, w.removed)
    {
      hide Run, After, SupStep, SupEnabled, Excuse, ReportStep, Verified, ValidVersion;
      Log(WriteRecord(w.write, w.removed));
      ok := w.write;
      if ok {
        disk := Some(rec);
      } else {
        RemoveBuild(rec.toVersion, w.removed);
      }
    }

    ghost method LogSpawn(rec: Record, id: nat)
      requires Linked() && Doing(Written(rec)) && id !in world.sups
      modifies this`world, this`trace
      ensures Linked() && Doing(Idle) && world.sups == old(world.sups)[id := Waking]
    {
      hide Run, After, SupStep, SupEnabled, Excuse, ReportStep, Verified, ValidVersion;
      Log(Spawn(id));
    }

    /** The record, then the supervisor. */
    method WriteAndSpawn(rec: Record, w: World) returns (out: Outcome)
      requires Linked() && Doing(Wired(rec))
      requires w.spawned.Some? ==> w.spawned.value !in world.sups
      modifies this`disk, this`builds, this`world, this`trace
      ensures Linked() && Doing(Idle) && (out == HandedOver || out == Failed_)
      ensures out == HandedOver <==> w.write && w.copied && w.spawned.Some?
      ensures out == HandedOver ==> disk == Some(rec) && world.sups == old(world.sups)[w.spawned.value := Waking] && builds == old(builds)
      ensures out == Failed_ ==>
                && world.sups == old(world.sups)
                && disk == (if !w.write then old(disk) else if w.remove then None else Some(rec))
                && builds == Without(old(builds), rec.toVersion, w.removed)
    {
      hide Linked, Doing, Without;
      var ok := WriteNew(rec, w);
      if !ok {
        return Failed_;
      }
      if !w.copied || w.spawned.None? {
        Abandon(rec, w);
        return Failed_;
      }
      LogSpawn(rec, w.spawned.value);
      return HandedOver;
    }

    /** What staging leaves of the record and the folder, for each way it can end. */
    ghost predicate StageLeaves(item: string, build: Build, w: World, out: Outcome, disk0: Option<Record>, builds0: map<string, Bytes>)
      reads this
    {
      var arrived := Arrives(fleet, build, w);
      var placed := if arrived then builds0[build.version := w.downloaded.value] else builds0;
      match out
      case Rejected => disk == disk0 && builds == builds0
      case Refused_ =>
        var detail := if Verified(fleet, build) then "the build cannot run here" else "signature did not verify";
        && disk == (if w.write then Some(RefusedRecord(item, running, build.version, detail)) else disk0)
        && builds == (if Verified(fleet, build) then Without(placed, build.version, w.removed) else builds0)
      case HandedOver =>
        disk == Some(NewRecord(item, running, svc, build, w.now, w.deadline)) && builds == placed
      case Failed_ =>
        && disk == (if !(arrived && w.chmod && w.runnable && w.config && w.write) then disk0
                    else if w.remove then None else Some(NewRecord(item, running, svc, build, w.now, w.deadline)))
        && builds == (if w.mkdir then Without(placed, build.version, w.removed) else builds0)
    }

    /** stage: exactly when it rejects, refuses and hands over, and what each end leaves. It never ends with a new
        pending record and no supervisor, unless removing that record is what failed. */
    method Stage(item: string, build: Build, w: World) returns (out: Outcome)
      requires Linked() && Doing(Chosen(item, build))
      requires w.spawned.Some? ==> w.spawned.value !in world.sups
      modifies this`disk, this`builds, this`world, this`trace
      ensures Linked() && Doing(Idle)
      ensures out == HandedOver <==> Verified(fleet, build) && Arrives(fleet, build, w) && GetsAcross(w)
      ensures out == Rejected <==> !ValidVersion(build.version)
      ensures out == Refused_ <==> && ValidVersion(build.version)
                                   && (Verified(fleet, build) ==> Arrives(fleet, build, w) && w.chmod && !w.runnable)
      ensures StageLeaves(item, build, w, out, old(disk), old(builds))
      ensures world.sups == if out == HandedOver then old(world.sups)[w.spawned.value := Waking] else old(world.sups)
      ensures out != HandedOver && IsPending(disk) && disk != old(disk) ==> !w.remove
    {
      hide Linked, Doing, Verified, Without, ValidVersion, Arrives, NewRecord, RefusedRecord;
      VerifiedIsValid(fleet, build);
      var bad := CheckBuild(item, build, w);
      if bad.Some? {
        RefusalIsNotPending(item, running, build.version);
        return bad.value;
      }
      var ok := Download(item, build, w);
      ArrivesWith(fleet, build, w);
      if !ok {
        return Failed_;
      }
      RefusalIsNotPending(item, running, build.version);
      out := HandOver(item, build, w);
    }

    /** syncOne's reading of the record: a build that was refused is not even asked for. */
    method Consult(item: string, read: bool) returns (found: Option<Option<Record>>)
      requires Linked() && Doing(Idle)
      modifies this`world, this`trace
      ensures Linked() && world.sups == old(world.sups)
      ensures found == if read && !AlreadyRefused(disk, item) then Some(disk) else None
      // Only a refusal of this very item ends it here.
      ensures read ==> (found.None? <==> disk.Some? && disk.value.status == Refused && disk.value.itemID == item)
      ensures Doing(if found.Some? then Considering(item, disk) else Idle)
    {
      hide Run, After, SupStep, SupEnabled, Excuse, ReportStep, Decide;
      Log(Label.Consult(item, read));
      if read && !(disk.Some? && disk.value.status == Refused && disk.value.itemID == item) {
        found := Some(disk);
      } else {
        found := None;
      }
    }

    /** And its decision, once the server has said what the build is. */
    method Settle(item: string, found: Option<Record>, build: Option<Build>) returns (update: bool)
      requires Linked() && Doing(Considering(item, found))
      modifies this`world, this`trace
      ensures Linked() && world.sups == old(world.sups)
      ensures update <==> build.Some? && Decide(running, build.value.version, injected, |fleet.trusted|, found).Update?
      ensures Doing(if update then Chosen(item, build.value) else Idle)
    {
      hide Run, After, SupStep, SupEnabled, Excuse, ReportStep, Decide;
      if build.None? {
        Log(NotFetched);
        return false;
      }
      Log(Consider(build.value));
      update := Decide(running, build.value.version, injected, |fleet.trusted|, found).Update?;
    }

    /** syncOne: a build that was refused is not even fetched, and one that Decide turns down is not
        downloaded. */
    method SyncOne(o: Offer) returns (out: Option<Outcome>)
      requires Linked() && Doing(Idle)
      requires o.world.spawned.Some? ==> o.world.spawned.value !in world.sups
      modifies this`disk, this`builds, this`world, this`trace
      ensures Linked() && Doing(Idle)
      ensures out.Some? <==> && o.options && o.read && o.build.Some? && !AlreadyRefused(old(disk), o.item)
                             && Decide(running, o.build.value.version, injected, |fleet.trusted|, old(disk)).Update?
      ensures out.None? ==> disk == old(disk) && builds == old(builds) && world.sups == old(world.sups)
      ensures out == Some(HandedOver) <==> && out.Some? && Verified(fleet, o.build.value)
                                           && Arrives(fleet, o.build.value, o.world) && GetsAcross(o.world)
      ensures out.Some? ==> StageLeaves(o.item, o.build.value, o.world, out.value, old(disk), old(builds))
      ensures out.Some? && out.value != HandedOver && IsPending(disk) && disk != old(disk) ==> !o.world.remove
    {
      hide Linked, Doing, Decide, AlreadyRefused, Verified, Arrives, StageLeaves, ValidVersion;
      if !o.options {
        return None;
      }
      var found := Consult(o.item, o.read);
      if found.None? {
        return None;
      }
      var update := Settle(o.item, found.value, o.build);
      if !update {
        return None;
      }
      var staged := Stage(o.item, o.build.value, o.world);
      return Some(staged);
    }
  }

  lemma VerifiedIsValid(f: Fleet, b: Build)
    ensures Verified(f, b) ==> ValidVersion(b.version)
  {
  }

  lemma ArrivesWith(f: Fleet, b: Build, w: World)
    ensures Arrives(f, b, w) ==> w.mkdir && w.downloaded.Some?
  {
  }

  lemma RefusalIsNotPending(item: string, running: string, version: string)
    ensures forall detail :: RefusedRecord(item, running, version, detail).status == Refused
  {
  }

  /** What a new attempt's record says: where the service is, where it is to go, and until when. */
  lemma NewRecordSays(item: string, running: string, svc: Service, b: Build, now: int, deadline: nat)
    ensures var r := NewRecord(item, running, svc, b, now, deadline);
            && r.fromPath == svc.path && r.fromArgs == svc.args && r.fromVersion == running
            && r.toVersion == b.version && r.toPath == StagedAt(b.version) && r.itemID == item
            && r.deadline - now == deadline && r.status == Pending && !r.reported
  {
  }

  lemma {:induction false} CharsOfParts(s: string, c: char)
    requires c in s && c != '.'
    ensures exists part :: part in SplitOn(s, '.') && c in part
    decreases |s|
  {
    hide SplitOn;
    var first, rest := Versions.SplitStep(s);
    if |SplitOn(s, '.')| == 1 || c in first {
      assert first in SplitOn(s, '.');
    } else {
      assert c in rest by { assert c in first + "." + rest; }
      CharsOfParts(rest, c);
      var part :| part in SplitOn(rest, '.') && c in part;
      assert part in [first] + SplitOn(rest, '.');
    }
  }

  lemma IdentChars(s: string, c: char)
    requires c in s && c != '.' && Versions.AllMetadata(SplitOn(s, '.'))
    ensures VersionChar(c)
  {
    hide SplitOn;
    CharsOfParts(s, c);
    var part :| part in SplitOn(s, '.') && c in part;
    assert Versions.MetadataIdent(part);
    var i :| 0 <= i < |part| && part[i] == c;
    assert Versions.IdentChar(part[i]);
  }

  lemma SameChars(ids: seq<string>)
    requires Versions.AllSemVer(ids)
    ensures Versions.AllMetadata(ids)
  {
    forall i | 0 <= i < |ids|
      ensures Versions.MetadataIdent(ids[i])
    {
      assert Versions.SemVerIdent(ids[i]);
    }
  }

  lemma PreReleaseChars(v: Versions.Version, c: char)
    requires Versions.SemVerVersion(v) && c in v.pre
    ensures VersionChar(c)
  {
    hide SplitOn, IndexOf, VersionChar, Versions.AllMetadata, Versions.AllSemVer;
    assert VersionChar('.') && VersionChar('+') by { Punctuation(); }
    var k := IndexOf(v.pre, '+');
    var head := v.pre[..k];
    if c != '.' && c != '+' {
      if c in head {
        SameChars(SplitOn(head, '.'));
        IdentChars(head, c);
      } else {
        assert v.pre == head + v.pre[k..] && v.pre[k..] == ['+'] + v.pre[k + 1..];
        IdentChars(v.pre[k + 1..], c);
      }
    }
  }

  lemma Punctuation()
    ensures VersionChar('.') && VersionChar('+')
  {
  }

  /** Every version of sections 9 and 10 of Semantic Versioning 2.0.0 that is not too long is one a folder may
      be named by. */
  lemma ReleasesHaveFolders(v: Versions.Version)
    requires v.major >= 0 && v.minor >= 0 && v.patch >= 0 && Versions.SemVerVersion(v)
    ensures ValidVersion(Versions.Printed(v)) <==> |Versions.Printed(v)| <= 64
  {
    var s := Versions.Printed(v);
    var a, b, c := Versions.Digits(v.major), Versions.Digits(v.minor), Versions.Digits(v.patch);
    hide Versions.Digits, Versions.SemVerVersion;
    Versions.DigitsBack(v.major);
    Versions.DigitsBack(v.minor);
    Versions.DigitsBack(v.patch);
    forall i | 0 <= i < |s|
      ensures VersionChar(s[i])
    {
      if s[i] in v.pre { PreReleaseChars(v, s[i]); }
      assert s[i] in a || s[i] in b || s[i] in c || s[i] in v.pre || s[i] == '.' || s[i] == '-';
    }
    assert s[0] == a[0] && |s| >= 5;
  }

  /** runtime checks of release.Verify, once the signature has decoded. */
  predicate SignatureHolds(f: Fleet, b: Build)
    requires b.signature.Some?
  {
    Release.Verify(f.crypto, f.trusted, Release.Manifest(b.version, b.sha256),
                   Release.Signature(b.version, b.sha256, b.keyID, b.signature.value)).Ok?
  }
}
