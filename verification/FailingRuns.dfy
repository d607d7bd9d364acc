/** Runs of the update protocol in which something goes wrong that no single call did, and exactly when
    marking a rollback reported can. */
module FailingRuns {
  import opened Prelude
  import opened SelfUpdate
  import opened UpdateProtocol
  import Text

  ghost predicate Reaches(f: Fleet, s: State, t: State) { exists ls :: Run(f, s, ls) && After(f, s, ls) == t }

  lemma Onward(f: Fleet, s: State, t: State, l: Label)
    requires Reaches(f, s, t) && Enabled(f, t, l)
    ensures Reaches(f, s, Step(f, t, l))
  {
    hide Step, Enabled;
    var ls :| Run(f, s, ls) && After(f, s, ls) == t;
    RunSnoc(f, s, ls, l);
  }

  /** A signed build that is not what is running, and no update to it known. */
  ghost predicate Eligible(f: Fleet, s: State, b: Build, bytes: Bytes) {
    && f.trusted != [] && Verified(f, b) && Text.EqualFold(f.crypto.sha256(bytes), b.sha256)
    && s.agent.Some? && s.agent.value.injected && s.agent.value.job.Idle? && s.agent.value.proof.None? && s.agent.value.running != b.version
    && (s.disk.Some? ==> s.disk.value.status == Pending && s.disk.value.toVersion != b.version)
  }

  lemma ChosenBy(f: Fleet, s0: State, s: State, b: Build, bytes: Bytes) returns (t: State)
    requires Reaches(f, s0, s) && Eligible(f, s, b, bytes)
    ensures Reaches(f, s0, t)
    ensures t == s.(agent := Some(s.agent.value.(job := Chosen("item", b))), orphaned := t.orphaned)
  {
    hide Reaches, Verified, Text.EqualFold;
    assert Verified(f, b) ==> b.version != "" by { VerifiedHasVersion(f, b); }
    var t1 := Step(f, s, Consult("item", true));
    Onward(f, s0, s, Consult("item", true));
    t := Step(f, t1, Consider(b));
    Onward(f, s0, t1, Consider(b));
  }

  lemma VerifiedHasVersion(f: Fleet, b: Build)
    ensures Verified(f, b) ==> b.version != ""
  {
  }

  lemma Places(f: Fleet, s0: State, s: State, b: Build, bytes: Bytes) returns (t: State)
    requires Reaches(f, s0, s) && s.agent.Some? && s.agent.value.job == Chosen("item", b)
    requires Verified(f, b) && Text.EqualFold(f.crypto.sha256(bytes), b.sha256)
    ensures Reaches(f, s0, t)
    ensures t == s.(agent := Some(s.agent.value.(job := Placed("item", b))), files := s.files[b.version := bytes],
                    orphaned := t.orphaned)
  {
    hide Reaches, Verified, Text.EqualFold;
    t := Step(f, s, Place(bytes));
    Onward(f, s0, s, Place(bytes));
  }

  lemma Configures(f: Fleet, s0: State, s: State, b: Build) returns (t: State)
    requires Reaches(f, s0, s) && s.agent.Some? && s.agent.value.job == Placed("item", b)
    ensures Reaches(f, s0, t)
    ensures var rec := NewRecord("item", s.agent.value.running, s.svc, b, 0, 900);
            t == s.(agent := Some(s.agent.value.(job := Wired(rec))), orphaned := t.orphaned)
  {
    hide Reaches;
    t := Step(f, s, Configure(0, 900));
    Onward(f, s0, s, Configure(0, 900));
  }

  lemma Writes(f: Fleet, s0: State, s: State, rec: Record) returns (t: State)
    requires Reaches(f, s0, s) && s.agent.Some? && s.agent.value.job == Wired(rec) && s.agent.value.proof.None?
    ensures Reaches(f, s0, t)
    ensures t == s.(agent := Some(s.agent.value.(job := Written(rec))), disk := Some(rec), orphaned := t.orphaned)
  {
    hide Reaches;
    t := Step(f, s, WriteRecord(true, false));
    Onward(f, s0, s, WriteRecord(true, false));
  }

  lemma SpawnsAndWakes(f: Fleet, s0: State, s: State, rec: Record, id: nat) returns (t: State)
    requires Reaches(f, s0, s) && s.agent.Some? && s.agent.value.job == Written(rec) && s.disk == Some(rec)
    requires id !in s.sups && rec.status == Pending
    ensures Reaches(f, s0, t)
    ensures t == s.(agent := Some(s.agent.value.(job := Idle)), sups := s.sups[id := Supervising(rec, Stopping)],
                    orphaned := t.orphaned)
  {
    hide Reaches;
    var t1 := Step(f, s, Spawn(id));
    Onward(f, s0, s, Spawn(id));
    t := Step(f, t1, Wake(id, true));
    Onward(f, s0, t1, Wake(id, true));
  }

  /** Any such build may be staged and handed to a new supervisor, whatever else is under way. */
  lemma StagesAnother(f: Fleet, s0: State, s: State, b: Build, bytes: Bytes, id: nat) returns (t: State)
    requires Reaches(f, s0, s) && Eligible(f, s, b, bytes) && id !in s.sups
    ensures Reaches(f, s0, t)
    ensures var rec := NewRecord("item", s.agent.value.running, s.svc, b, 0, 900);
            t == s.(disk := Some(rec), sups := s.sups[id := Supervising(rec, Stopping)],
                    files := s.files[b.version := bytes], orphaned := t.orphaned)
  {
    hide Reaches, Verified, Text.EqualFold;
    var rec := NewRecord("item", s.agent.value.running, s.svc, b, 0, 900);
    t := ChosenBy(f, s0, s, b, bytes);
    t := Places(f, s0, t, b, bytes);
    t := Configures(f, s0, t, b);
    t := Writes(f, s0, t, rec);
    t := SpawnsAndWakes(f, s0, t, rec, id);
  }

  lemma Calls(f: Fleet, s0: State, s: State, id: nat) returns (t: State)
    requires Reaches(f, s0, s) && InControl(s, id) && NextAt(s.sups[id].at, true).Some?
    ensures Reaches(f, s0, t)
    ensures var rec, at := s.sups[id].rec, s.sups[id].at;
            t == Effect(s, rec, at, Worked).(sups := s.sups[id := Supervising(rec, NextAt(at, true).value)], orphaned := t.orphaned)
  {
    hide Reaches;
    t := Step(f, s, Control(id, Worked));
    Onward(f, s0, s, Control(id, Worked));
  }

  /** A supervisor that nothing stops wires its build in. */
  lemma SwapsIn(f: Fleet, s0: State, s: State, id: nat, rec: Record) returns (t: State)
    requires Reaches(f, s0, s) && id in s.sups && s.sups[id] == Supervising(rec, Stopping)
    ensures Reaches(f, s0, t)
    ensures t == s.(agent := None, svc := Service(rec.toPath, rec.fromArgs), sups := s.sups[id := Supervising(rec, Watching)],
                    orphaned := t.orphaned)
  {
    hide Reaches;
    t := Calls(f, s0, s, id);
    t := Calls(f, s0, t, id);
    t := Calls(f, s0, t, id);
    t := Calls(f, s0, t, id);
  }

  /** The build the record names starts and checks in. */
  lemma ChecksIn(f: Fleet, s0: State, s: State, rec: Record) returns (t: State)
    requires Reaches(f, s0, s) && s.agent.None? && s.disk == Some(rec) && rec.status == Pending
    ensures Reaches(f, s0, t)
    ensures t.disk == Some(rec.(status := Succeeded)) && t.svc == s.svc && t.sups == s.sups && t.files == s.files
  {
    hide Reaches;
    var l1 := Start(rec.toVersion, true, 0, true, true);
    var t1 := Step(f, s, l1);
    Onward(f, s0, s, l1);
    var t2 := Step(f, t1, ProofRead(true));
    Onward(f, s0, t1, ProofRead(true));
    t := Step(f, t2, ProofWrite(true));
    Onward(f, s0, t2, ProofWrite(true));
  }

  /** A supervisor takes any success on disk for its own, and every build but its own two is gone. */
  lemma TakesItForItsOwn(f: Fleet, s0: State, s: State, id: nat, rec: Record) returns (t: State)
    requires Reaches(f, s0, s) && id in s.sups && s.sups[id] == Supervising(rec, Watching)
    requires s.disk.Some? && s.disk.value.status == Succeeded
    ensures Reaches(f, s0, t) && t.svc == s.svc
    ensures t.files.Keys == s.files.Keys * {rec.toVersion, rec.fromVersion}
  {
    hide Reaches, ControlStep;
    var t1 := Settles(f, s0, s, id, rec);
    var gone := s.files.Keys - {rec.toVersion, rec.fromVersion};
    t := Step(f, t1, Prune(id, gone));
    Onward(f, s0, t1, Prune(id, gone));
  }

  lemma Settles(f: Fleet, s0: State, s: State, id: nat, rec: Record) returns (t: State)
    requires Reaches(f, s0, s) && id in s.sups && s.sups[id] == Supervising(rec, Watching)
    requires s.disk.Some? && s.disk.value.status == Succeeded
    ensures Reaches(f, s0, t)
    ensures t == s.(disk := None, sups := s.sups[id := Supervising(rec, Pruning)], orphaned := t.orphaned)
  {
    hide Reaches, ControlStep;
    var t1 := Step(f, s, Poll(id, true));
    Onward(f, s0, s, Poll(id, true));
    t := Step(f, t1, Remove(id, true));
    Onward(f, s0, t1, Remove(id, true));
  }

  lemma RecordsVerdict(f: Fleet, s0: State, s: State, id: nat, rec: Record, detail: string) returns (t: State)
    requires Reaches(f, s0, s) && id in s.sups && s.sups[id] == Supervising(rec, Recording(RolledBack))
    ensures Reaches(f, s0, t)
    ensures t == s.(disk := Some(rec.(status := RolledBack, detail := detail)), sups := s.sups - {id}, orphaned := t.orphaned)
  {
    hide Reaches, ControlStep;
    t := Step(f, s, Record_(id, detail, true));
    Onward(f, s0, s, Record_(id, detail, true));
  }

  /** A call fails and changes nothing. */
  lemma CallFails(f: Fleet, s0: State, s: State, id: nat) returns (t: State)
    requires Reaches(f, s0, s) && InControl(s, id) && NextAt(s.sups[id].at, false).Some?
    ensures Reaches(f, s0, t)
    ensures var rec, at := s.sups[id].rec, s.sups[id].at;
            t == s.(sups := s.sups[id := Supervising(rec, NextAt(at, false).value)], orphaned := t.orphaned)
  {
    hide Reaches;
    t := Step(f, s, Control(id, Failed(false)));
    Onward(f, s0, s, Control(id, Failed(false)));
  }

  lemma GivesUp(f: Fleet, s0: State, s: State, id: nat, rec: Record) returns (t: State)
    requires Reaches(f, s0, s) && id in s.sups && s.sups[id] == Supervising(rec, Watching)
    ensures Reaches(f, s0, t)
    ensures t == s.(sups := s.sups[id := Supervising(rec, UndoStopping)], orphaned := t.orphaned)
  {
    hide Reaches, ControlStep;
    t := Step(f, s, Overdue(id, rec.deadline));
    Onward(f, s0, s, Overdue(id, rec.deadline));
  }

  /** The deadline passes, and every call of the rollback works. */
  lemma RollsBackCleanly(f: Fleet, s0: State, s: State, id: nat, rec: Record, detail: string) returns (t: State)
    requires Reaches(f, s0, s) && id in s.sups && s.sups[id] == Supervising(rec, Watching)
    ensures Reaches(f, s0, t) && t.svc == Service(rec.fromPath, rec.fromArgs)
    ensures t.disk == Some(rec.(status := RolledBack, detail := detail))
  {
    hide Reaches;
    t := GivesUp(f, s0, s, id, rec);
    t := Calls(f, s0, t, id);
    t := Calls(f, s0, t, id);
    t := Calls(f, s0, t, id);
    t := RecordsVerdict(f, s0, t, id, rec, detail);
  }

  /** The service will not stop, so the attempt is over before it began. */
  lemma WillNotStop(f: Fleet, s0: State, s: State, id: nat, rec: Record) returns (t: State)
    requires Reaches(f, s0, s) && id in s.sups && s.sups[id] == Supervising(rec, Stopping)
    ensures Reaches(f, s0, t)
    ensures t == s.(disk := Some(rec.(status := RolledBack, detail := "the service would not stop")), sups := s.sups - {id},
                    orphaned := t.orphaned)
  {
    hide Reaches;
    t := CallFails(f, s0, s, id);
    t := RecordsVerdict(f, s0, t, id, rec, "the service would not stop");
  }

  // ----- Losing the build in use ----------------------------------------------------------------

  /** Two builds offered one after the other, each staged, wired in and neither failing: the first one's
      supervisor deletes the second while the service is wired to it. */
  lemma OverlapLosesTheWiredBuild(f: Fleet, s: State, running: string, b: Build, c: Build, bytes: Bytes, more: Bytes)
    requires Initial(f, s) && f.trusted != [] && Verified(f, b) && Verified(f, c)
    requires Text.EqualFold(f.crypto.sha256(bytes), b.sha256) && Text.EqualFold(f.crypto.sha256(more), c.sha256)
    requires running != b.version && running != c.version && b.version != c.version
    ensures exists t :: Reaches(f, s, t) && t.svc.path == StagedAt(c.version) && c.version !in t.files
  {
    var t := Begins(f, s, running);
    hide Reaches, Verified, Text.EqualFold, Initial;
    t := StagesAnother(f, s, t, b, bytes, 1);
    var r1 := t.disk.value;
    t := StagesAnother(f, s, t, c, more, 2);
    var r2 := t.disk.value;
    t := SwapsIn(f, s, t, 1, r1);
    t := SwapsIn(f, s, t, 2, r2);
    t := ChecksIn(f, s, t, r2);
    t := TakesItForItsOwn(f, s, t, 1, r1);
  }

  /** The supervisor of a build just wired in dies, and what starts past the deadline calls itself by
      another version than the folder it lies in. */
  lemma DiesMisstamped(f: Fleet, s0: State, s: State, rec: Record, running: string) returns (t: State)
    requires Reaches(f, s0, s) && s.sups == map[1 := Supervising(rec, Watching)] && s.agent.None?
    requires s.disk == Some(rec) && rec.status == Pending && running != rec.toVersion
    ensures Reaches(f, s0, t)
    ensures t == s.(sups := map[], disk := None, agent := Some(Agent(running, true, None, None, Idle)), orphaned := t.orphaned)
  {
    hide Reaches, ControlStep;
    var t1 := Step(f, s, Die(1));
    Onward(f, s0, s, Die(1));
    var l := Start(running, true, rec.deadline, true, true);
    t := Step(f, t1, l);
    Onward(f, s0, t1, l);
  }

  /** Staged, wired in, and left without a supervisor under an agent of another stamp. */
  lemma WiredUnderAnotherName(f: Fleet, s: State, running: string, b: Build, bytes: Bytes, stamp: string) returns (t: State)
    requires Initial(f, s) && f.trusted != [] && Verified(f, b) && Text.EqualFold(f.crypto.sha256(bytes), b.sha256)
    requires running != b.version && stamp != b.version
    ensures Reaches(f, s, t) && t.svc.path == StagedAt(b.version) && t.disk == None && t.sups == map[]
    ensures t.agent == Some(Agent(stamp, true, None, None, Idle)) && b.version in t.files
  {
    t := Begins(f, s, running);
    hide Reaches, Verified, Text.EqualFold, Initial;
    t := StagesAnother(f, s, t, b, bytes, 1);
    var r := t.disk.value;
    t := SwapsIn(f, s, t, 1, r);
    t := DiesMisstamped(f, s, t, r, stamp);
  }

  /** Such an agent, offered the version the service is wired to, deletes it if the download fails; no two
      updates overlap. */
  lemma MisstampLosesTheWiredBuild(f: Fleet, s: State, running: string, b: Build, bytes: Bytes, stamp: string)
    requires Initial(f, s) && f.trusted != [] && Verified(f, b) && Text.EqualFold(f.crypto.sha256(bytes), b.sha256)
    requires running != b.version && stamp != b.version
    ensures exists t :: Reaches(f, s, t) && t.svc.path == StagedAt(b.version) && b.version !in t.files && t.sups == map[]
  {
    var t := WiredUnderAnotherName(f, s, running, b, bytes, stamp);
    hide Reaches, Verified, Text.EqualFold, Initial;
    t := ChosenBy(f, s, t, b, bytes);
    var u := Step(f, t, NotDownloaded(true));
    Onward(f, s, t, NotDownloaded(true));
  }

  // ----- Rolled back, and still wired ---------------------------------------------------------------

  /** Such an agent, given the download, stages the build over itself: its record has one path for both
      builds, and a rollback in which every call works is recorded of a service that is on the new path. */
  lemma SamePathIsMisjudged(f: Fleet, s: State, running: string, b: Build, bytes: Bytes, stamp: string)
    requires Initial(f, s) && f.trusted != [] && Verified(f, b) && Text.EqualFold(f.crypto.sha256(bytes), b.sha256)
    requires running != b.version && stamp != b.version
    ensures exists t :: && Reaches(f, s, t) && t.disk.Some? && t.disk.value.status == RolledBack
                        && t.disk.value.fromPath == t.disk.value.toPath == t.svc.path
  {
    var t := WiredUnderAnotherName(f, s, running, b, bytes, stamp);
    hide Reaches, Verified, Text.EqualFold, Initial;
    t := StagesAnother(f, s, t, b, bytes, 2);
    var r := t.disk.value;
    t := SwapsIn(f, s, t, 2, r);
    t := RollsBackCleanly(f, s, t, 2, r, "the new build never checked in");
  }

  /** So it is if the service will not even stop. */
  lemma SamePathIsMisjudgedUnstarted(f: Fleet, s: State, running: string, b: Build, bytes: Bytes, stamp: string)
    requires Initial(f, s) && f.trusted != [] && Verified(f, b) && Text.EqualFold(f.crypto.sha256(bytes), b.sha256)
    requires running != b.version && stamp != b.version
    ensures exists t :: && Reaches(f, s, t) && t.disk.Some? && t.disk.value.status == RolledBack
                        && t.disk.value.detail == "the service would not stop" && t.disk.value.toPath == t.svc.path
  {
    var t := WiredUnderAnotherName(f, s, running, b, bytes, stamp);
    hide Reaches, Verified, Text.EqualFold, Initial;
    t := StagesAnother(f, s, t, b, bytes, 2);
    t := WillNotStop(f, s, t, 2, t.disk.value);
  }

  // ----- A check-in over a verdict --------------------------------------------------------------------

  /** The new build reads the pending record to mark it; the supervisor, past the deadline, can neither stop
      it nor learn what the service is wired to and writes a rollback; the check-in writes over it. */
  lemma ProofOverVerdict(f: Fleet, s: State, running: string, b: Build, bytes: Bytes)
    requires Initial(f, s) && f.trusted != [] && Verified(f, b) && Text.EqualFold(f.crypto.sha256(bytes), b.sha256)
    requires running != b.version
    ensures exists t :: && Reaches(f, s, t) && t.disk.Some? && t.disk.value.status == RolledBack && Enabled(f, t, ProofWrite(true))
                        && Step(f, t, ProofWrite(true)).disk == Some(t.disk.value.(status := Succeeded, detail := ""))
  {
    var t := Begins(f, s, running);
    hide Reaches, Verified, Text.EqualFold, Initial, Step, Enabled;
    t := StagesAnother(f, s, t, b, bytes, 1);
    var r := t.disk.value;
    t := SwapsIn(f, s, t, 1, r);
    t := CannotJudge(f, s, t, 1, r);
    ProofWrites(f, t, r);
  }

  lemma CannotJudge(f: Fleet, s0: State, s: State, id: nat, rec: Record) returns (t: State)
    requires Reaches(f, s0, s) && id in s.sups && s.sups[id] == Supervising(rec, Watching)
    requires s.agent.None? && s.disk == Some(rec) && rec.status == Pending
    ensures Reaches(f, s0, t) && t.agent == Some(Agent(rec.toVersion, true, None, Some(rec), Idle))
    ensures t.disk == Some(rec.(status := RolledBack, detail := "the new build never checked in"))
  {
    hide Reaches;
    t := BeginsCheckIn(f, s0, s, rec);
    t := GivesUp(f, s0, t, id, rec);
    t := CallFails(f, s0, t, id);
    t := AsksInVain(f, s0, t, id, rec);
    t := RecordsVerdict(f, s0, t, id, rec, "the new build never checked in");
  }

  lemma ProofWrites(f: Fleet, s: State, rec: Record)
    requires s.agent.Some? && s.agent.value.proof == Some(rec)
    ensures Enabled(f, s, ProofWrite(true)) && Step(f, s, ProofWrite(true)).disk == Some(rec.(status := Succeeded))
  {
  }

  lemma BeginsCheckIn(f: Fleet, s0: State, s: State, rec: Record) returns (t: State)
    requires Reaches(f, s0, s) && s.agent.None? && s.disk == Some(rec) && rec.status == Pending
    ensures Reaches(f, s0, t)
    ensures t == s.(agent := Some(Agent(rec.toVersion, true, None, Some(rec), Idle)), orphaned := t.orphaned)
  {
    hide Reaches;
    var l := Start(rec.toVersion, true, 0, true, true);
    var t1 := Step(f, s, l);
    Onward(f, s0, s, l);
    t := Step(f, t1, ProofRead(true));
    Onward(f, s0, t1, ProofRead(true));
  }

  lemma AsksInVain(f: Fleet, s0: State, s: State, id: nat, rec: Record) returns (t: State)
    requires Reaches(f, s0, s) && id in s.sups && s.sups[id] == Supervising(rec, Asking)
    ensures Reaches(f, s0, t)
    ensures t == s.(sups := s.sups[id := Supervising(rec, Recording(RolledBack))], orphaned := t.orphaned)
  {
    hide Reaches, ControlStep;
    t := Step(f, s, Ask(id, false));
    Onward(f, s0, s, Ask(id, false));
  }

  // ----- A look over a verdict ------------------------------------------------------------------------

  /** The service is stopped for an attempt, and the old build starts again past its deadline: the record goes,
      and a look at the assigned build finds none. */
  lemma LooksInBetween(f: Fleet, s0: State, s: State, id: nat, rec: Record, running: string) returns (t: State)
    requires Reaches(f, s0, s) && id in s.sups && s.sups[id] == Supervising(rec, Repointing) && s.agent.None?
    requires s.disk == Some(rec) && rec.status == Pending && running != rec.toVersion
    ensures Reaches(f, s0, t)
    ensures t == s.(disk := None, agent := Some(Agent(running, true, None, None, Considering("item", None))), orphaned := t.orphaned)
  {
    hide Reaches;
    var l := Start(running, true, rec.deadline, true, true);
    var t1 := Step(f, s, l);
    Onward(f, s0, s, l);
    t := Step(f, t1, Consult("item", true));
    Onward(f, s0, t1, Consult("item", true));
  }

  /** The supervisor then fails to repoint and to stop the service, and writes its verdict. */
  lemma GivesUpUnstopped(f: Fleet, s0: State, s: State, id: nat, rec: Record) returns (t: State)
    requires Reaches(f, s0, s) && id in s.sups && s.sups[id] == Supervising(rec, Repointing)
    ensures Reaches(f, s0, t)
    ensures t == s.(disk := Some(rec.(status := RolledBack, detail := "repointing failed")), sups := s.sups - {id}, orphaned := t.orphaned)
  {
    hide Reaches;
    t := CallFails(f, s0, s, id);
    t := CallFails(f, s0, t, id);
    t := AsksInVain(f, s0, t, id, rec);
    t := RecordsVerdict(f, s0, t, id, rec, "repointing failed");
  }

  /** That look, answered only now, decides on what it read and begins the version just rolled back again, with
      no supervisor left and by the build the service is wired to. */
  lemma LookOverVerdict(f: Fleet, s: State, running: string, b: Build, bytes: Bytes)
    requires Initial(f, s) && f.trusted != [] && Verified(f, b) && Text.EqualFold(f.crypto.sha256(bytes), b.sha256)
    requires running != b.version
    ensures exists t :: && Reaches(f, s, t) && t.sups == map[] && t.svc.path == f.home
                        && t.disk.Some? && t.disk.value.status == RolledBack && t.disk.value.toVersion == b.version
                        && Enabled(f, t, Consider(b)) && Step(f, t, Consider(b)).agent.Some?
                        && Step(f, t, Consider(b)).agent.value.job == Chosen("item", b)
  {
    var t := Begins(f, s, running);
    assert b.version != "" by { VerifiedHasVersion(f, b); }
    assert t.svc.path == f.home;
    hide Reaches, Verified, Text.EqualFold, Initial, Step, Enabled;
    t := StagesAnother(f, s, t, b, bytes, 1);
    var r := t.disk.value;
    t := Calls(f, s, t, 1);
    t := LooksInBetween(f, s, t, 1, r, running);
    t := GivesUpUnstopped(f, s, t, 1, r);
    DecidesOnNothing(f, t, running, b);
  }

  lemma DecidesOnNothing(f: Fleet, s: State, running: string, b: Build)
    requires s.agent == Some(Agent(running, true, None, None, Considering("item", None)))
    requires f.trusted != [] && running != b.version && b.version != ""
    ensures Enabled(f, s, Consider(b)) && Step(f, s, Consider(b)).agent == Some(Agent(running, true, None, None, Chosen("item", b)))
  {
  }

  // ----- A mark over a verdict ------------------------------------------------------------------------

  /** With two builds under way, the agent marks the first one's rollback over the second one's, and would
      then install the second again. */
  lemma MarkOverVerdict(f: Fleet, s: State, running: string, b: Build, c: Build, bytes: Bytes, more: Bytes)
    requires Initial(f, s) && f.trusted != [] && Verified(f, b) && Verified(f, c)
    requires Text.EqualFold(f.crypto.sha256(bytes), b.sha256) && Text.EqualFold(f.crypto.sha256(more), c.sha256)
    requires running != b.version && running != c.version && b.version != c.version
    ensures exists t :: && Reaches(f, s, t) && Enabled(f, t, MarkWrite(true))
                        && t.disk.Some? && t.disk.value.status == RolledBack && t.disk.value.toVersion == c.version
                        && var after := Step(f, t, MarkWrite(true)).disk;
                           && after.Some? && after.value.toVersion == b.version
                           && Decide(running, c.version, true, |f.trusted|, after).Update?
  {
    var t := Begins(f, s, running);
    assert c.version != "" by { VerifiedHasVersion(f, c); }
    hide Reaches, Verified, Text.EqualFold, Initial, Step, Enabled;
    t := StagesAnother(f, s, t, b, bytes, 1);
    var r1 := t.disk.value;
    t := StagesAnother(f, s, t, c, more, 2);
    var r2 := t.disk.value;
    t := WillNotStop(f, s, t, 1, r1);
    t := BeginsMarking(f, s, t);
    t := WillNotStop(f, s, t, 2, r2);
    MarkWrites(f, t, r1.(status := RolledBack, detail := "the service would not stop"));
  }

  lemma MarkWrites(f: Fleet, s: State, cur: Record)
    requires s.agent.Some? && s.agent.value.job == Marking(cur)
    ensures Enabled(f, s, MarkWrite(true)) && Step(f, s, MarkWrite(true)).disk == Some(cur.(reported := true))
  {
  }

  /** An idle agent adopts the rollback on disk, reports it and re-reads it. */
  lemma BeginsMarking(f: Fleet, s0: State, s: State) returns (t: State)
    requires Reaches(f, s0, s) && s.disk.Some? && s.disk.value.status == RolledBack && !s.disk.value.reported
    requires s.agent.Some? && s.agent.value.job.Idle? && s.agent.value.rollback.None? && s.agent.value.proof.None?
    ensures Reaches(f, s0, t)
    ensures t == s.(agent := Some(s.agent.value.(job := Marking(s.disk.value))), orphaned := t.orphaned)
  {
    hide Reaches;
    var t1 := Step(f, s, Adopt(true));
    Onward(f, s0, s, Adopt(true));
    var t2 := Step(f, t1, Tell(Delivered));
    Onward(f, s0, t1, Tell(Delivered));
    t := Step(f, t2, MarkRead(true));
    Onward(f, s0, t2, MarkRead(true));
  }

  lemma Begins(f: Fleet, s: State, running: string) returns (t: State)
    requires Initial(f, s)
    ensures Reaches(f, s, t) && t.disk == None && t.sups == map[] && t.agent == Some(Agent(running, true, None, None, Idle))
    ensures t.svc == s.svc
  {
    var l := Start(running, true, 0, true, true);
    t := Step(f, s, l);
    RunOne(f, s, l);
  }

  // ----- Exactly when marking is safe -------------------------------------------------------------------

  /** Between markReported's read, which found cur, and its write. */
  predicate Marks(s: State, cur: Record) {
    s.agent.Some? && s.agent.value.job == Marking(cur) && s.agent.value.proof.None?
  }

  /** A supervisor that may yet write or remove the record without first stopping the agent. One that is
      waking finds no pending record, and one that is pruning is done with it. */
  predicate Meddles(sup: Supervisor) { sup.Supervising? && !sup.at.Pruning? && !sup.at.CancelStopping? }

  ghost predicate Meddled(s: State) { exists id :: id in s.sups && Meddles(s.sups[id]) }

  ghost predicate StaysMarking(f: Fleet, s: State, ls: seq<Label>, cur: Record)
    requires Run(f, s, ls)
    decreases |ls|
  {
    Marks(s, cur) && (ls == [] || StaysMarking(f, Step(f, s, ls[0]), ls[1..], cur))
  }

  /** Others act, and the agent is still between its read and its write. */
  ghost predicate MeanwhileAt(f: Fleet, s: State, t: State, cur: Record) {
    exists ls :: Run(f, s, ls) && StaysMarking(f, s, ls, cur) && After(f, s, ls) == t
  }

  lemma UnmeddledStep(f: Fleet, s: State, l: Label, cur: Record)
    requires Marks(s, cur) && s.disk == Some(cur) && cur.status == RolledBack && !Meddled(s)
    requires Enabled(f, s, l) && Marks(Step(f, s, l), cur)
    ensures Step(f, s, l).disk == Some(cur) && !Meddled(Step(f, s, l))
  {
    hide Verified, ValidVersion, Decide, AlreadyRefused, Reconcile;
    var t := Step(f, s, l);
    assert ForSupervisor(l) ==> !Meddles(s.sups[l.id]);
    assert forall k :: k in t.sups ==> k in s.sups && t.sups[k] == s.sups[k];
  }

  lemma {:induction false} UnmeddledRun(f: Fleet, s: State, ls: seq<Label>, cur: Record)
    requires s.disk == Some(cur) && cur.status == RolledBack && !Meddled(s)
    requires Run(f, s, ls) && StaysMarking(f, s, ls, cur)
    ensures After(f, s, ls).disk == Some(cur)
    decreases |ls|
  {
    hide Step, Enabled, Marks, Meddled;
    if ls != [] {
      UnmeddledStep(f, s, ls[0], cur);
      UnmeddledRun(f, Step(f, s, ls[0]), ls[1..], cur);
    }
  }

  lemma {:induction false} StaysSnoc(f: Fleet, s: State, ls: seq<Label>, l: Label, cur: Record)
    requires Run(f, s, ls) && StaysMarking(f, s, ls, cur) && Enabled(f, After(f, s, ls), l)
    requires Marks(Step(f, After(f, s, ls), l), cur)
    ensures Run(f, s, ls + [l]) && After(f, s, ls + [l]) == Step(f, After(f, s, ls), l) && StaysMarking(f, s, ls + [l], cur)
    decreases |ls|
  {
    hide Step, Enabled, Marks;
    RunSnoc(f, s, ls, l);
    if ls == [] {
      assert (ls + [l])[1..] == [] && (ls + [l])[0] == l;
    } else {
      assert (ls + [l])[1..] == ls[1..] + [l];
      StaysSnoc(f, Step(f, s, ls[0]), ls[1..], l, cur);
    }
  }

  lemma MeanwhileOnward(f: Fleet, s: State, t: State, l: Label, cur: Record)
    requires MeanwhileAt(f, s, t, cur) && Enabled(f, t, l) && Marks(Step(f, t, l), cur)
    ensures MeanwhileAt(f, s, Step(f, t, l), cur)
  {
    hide Step, Enabled, Marks;
    var ls :| Run(f, s, ls) && StaysMarking(f, s, ls, cur) && After(f, s, ls) == t;
    StaysSnoc(f, s, ls, l, cur);
  }

  /** How such a supervisor gets to the record while the agent lives: calls fail without effect, unless it
      is being cancelled and has stopped the service already. */
  function TowardsTheRecord(id: nat, rec: Record, at: At, detail: string): Label {
    match at
    case Recording(_) => Record_(id, detail, true)
    case Settling => Remove(id, true)
    case CancelRemoving => Remove(id, true)
    case Asking => Ask(id, false)
    case Watching => Overdue(id, rec.deadline)
    case CancelRepointing => Control(id, Worked)
    case CancelStarting => Control(id, Worked)
    case _ => Control(id, Failed(false))
  }

  function StepsLeft(at: At): nat {
    match at
    case Recording(_) => 0
    case Settling => 0
    case CancelRemoving => 0
    case Asking => 1
    case CancelStarting => 1
    case Stopping => 1
    case CancelRepointing => 2
    case UndoStopping => 2
    case UndoRepointing => 2
    case UndoStarting => 2
    case _ => 3
  }

  /** Such a call leaves agent and record alone. */
  lemma CallTowards(f: Fleet, s: State, id: nat, call: Call)
    requires InControl(s, id) && NextAt(s.sups[id].at, call.Worked?).Some?
    requires call == Failed(false) || (call.Worked? && s.sups[id].at in {CancelRepointing, CancelStarting})
    ensures Enabled(f, s, Control(id, call))
    ensures var t := Step(f, s, Control(id, call));
            && t.agent == s.agent && t.disk == s.disk
            && t.sups == s.sups[id := Supervising(s.sups[id].rec, NextAt(s.sups[id].at, call.Worked?).value)]
  {
  }

  lemma NearerTheRecord(at: At, ok: bool)
    requires NextAt(at, ok).Some? && !at.CancelStopping? && (ok <==> at in {CancelRepointing, CancelStarting})
    ensures var next := NextAt(at, ok).value; StepsLeft(next) < StepsLeft(at) && !next.Pruning? && !next.CancelStopping?
  {
  }

  lemma OneStepTowards(f: Fleet, s: State, id: nat, cur: Record, detail: string)
    requires Marks(s, cur) && s.disk == Some(cur) && id in s.sups && Meddles(s.sups[id]) && detail != cur.detail
    ensures var l := TowardsTheRecord(id, s.sups[id].rec, s.sups[id].at, detail);
            && Enabled(f, s, l) && Marks(Step(f, s, l), cur)
            && var t := Step(f, s, l);
               t.disk != Some(cur) ||
               (t.disk == Some(cur) && id in t.sups && Meddles(t.sups[id]) && StepsLeft(t.sups[id].at) < StepsLeft(s.sups[id].at))
  {
    var l := TowardsTheRecord(id, s.sups[id].rec, s.sups[id].at, detail);
    if l.Control? {
      hide Step, Enabled, StepsLeft;
      assert InControl(s, id);
      CallTowards(f, s, id, l.call);
      NearerTheRecord(s.sups[id].at, l.call.Worked?);
    } else {
      hide ControlStep, AgentStep;
    }
  }

  lemma MeddlerGetsThere(f: Fleet, s0: State, s: State, id: nat, cur: Record) returns (t: State)
    requires MeanwhileAt(f, s0, s, cur) && Marks(s, cur) && s.disk == Some(cur) && id in s.sups && Meddles(s.sups[id])
    ensures MeanwhileAt(f, s0, t, cur) && t.disk != Some(cur)
    decreases StepsLeft(s.sups[id].at)
  {
    var detail := cur.detail + "!";
    var l := TowardsTheRecord(id, s.sups[id].rec, s.sups[id].at, detail);
    OneStepTowards(f, s, id, cur, detail);
    hide Step, Enabled, Marks, Meddles, MeanwhileAt, StepsLeft;
    t := Step(f, s, l);
    MeanwhileOnward(f, s0, s, l, cur);
    if t.disk == Some(cur) {
      t := MeddlerGetsThere(f, s0, t, id, cur);
    }
  }

  /** The record markReported read is still the one it writes over, whatever the supervisors do meanwhile,
      exactly when none of them may yet get at the record. */
  lemma MarkingIsSafeExactly(f: Fleet, s: State, cur: Record)
    requires Marks(s, cur) && s.disk == Some(cur) && cur.status == RolledBack
    ensures (forall t :: MeanwhileAt(f, s, t, cur) ==> t.disk == Some(cur)) <==> !Meddled(s)
  {
    hide Step, Enabled, Meddles;
    if Meddled(s) {
      var id :| id in s.sups && Meddles(s.sups[id]);
      var none: seq<Label> := [];
      assert Run(f, s, none) && StaysMarking(f, s, none, cur) && After(f, s, none) == s;
      var t := MeddlerGetsThere(f, s, s, id, cur);
    } else {
      forall t | MeanwhileAt(f, s, t, cur)
        ensures t.disk == Some(cur)
      {
        var ls :| Run(f, s, ls) && StaysMarking(f, s, ls, cur) && After(f, s, ls) == t;
        UnmeddledRun(f, s, ls, cur);
      }
    }
  }
}
