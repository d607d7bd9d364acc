/** The self-update protocol as its actors play it: the agent, any number of supervisors, the update
    record, the service's image path and arguments, and the staged files. Every step is one atomic
    action of internal/agent/selfupdate/syncer.go, internal/agent/selfupdate/supervise.go or
    internal/agent/runner/runner.go, and a label says which, together with how the outside world
    answered. Nothing here assumes that an update waits for the last one to finish. */
module UpdateProtocol {
  import opened Prelude
  import opened Text
  import opened SelfUpdate
  import Release

  // ----- State --------------------------------------------------------------------------------

  /** What stays put: the crypto, the trusted keys, and how the service was installed. */
  datatype Fleet = Fleet(crypto: Release.Crypto, trusted: seq<Release.Key>, home: Path, args: seq<string>)

  datatype Service = Service(path: Path, args: seq<string>)

  /** One build as the server describes it. */
  datatype Build = Build(version: string, sha256: string, keyID: string, signature: Option<Bytes>)

  /** Where the agent's Sync has got to. */
  datatype Job =
    | Idle
    | Told(rec: Record)                        // the rollback report is resolved, the record not marked yet
    | Marking(cur: Record)                     // markReported holds the record it re-read
    | Considering(item: string, found: Option<Record>)   // syncOne has read the record and asks the server
    | Chosen(item: string, build: Build)       // Decide said to update
    | Placed(item: string, build: Build)       // the verified file is in place
    | Wired(rec: Record)                       // Config answered
    | Written(rec: Record)                     // the record is on disk, the supervisor not spawned

  datatype Agent = Agent(running: string, injected: bool, rollback: Option<Record>, proof: Option<Record>, job: Job)

  datatype At =
    | Stopping | Repointing | Arming | Starting | Watching             // carrying the update out
    | UndoStopping | UndoRepointing | UndoStarting | Asking            // rolling it back
    | Recording(verdict: Status)
    | CancelStopping | CancelRepointing | CancelStarting | CancelRemoving
    | Settling | Pruning                                               // it stood

  datatype Supervisor = Waking | Supervising(rec: Record, at: At)

  datatype State = State(
    disk: Option<Record>,
    svc: Service,
    agent: Option<Agent>,
    sups: map<nat, Supervisor>,
    files: map<string, Bytes>,
    orphaned: bool)   // a pending record may have lost whoever would resolve it

  // ----- Labels -------------------------------------------------------------------------------

  /** A failed controller call may still have taken effect. */
  datatype Call = Worked | Failed(applied: bool)

  datatype Answer = Delivered | Gone | Lost

  datatype Label =
    | Start(running: string, injected: bool, now: int, read: bool, remove: bool)
    | Exit
    | ProofRead(read: bool) | ProofWrite(write: bool)
    | Adopt(read: bool)
    | Tell(answer: Answer)
    | MarkRead(read: bool) | MarkWrite(write: bool)
    | Consult(item: string, read: bool) | NotFetched | Consider(build: Build)
    | Reject
    | Refuse(detail: string, write: bool)
    | NotDownloaded(removed: bool)
    | Place(bytes: Bytes)
    | WrongMachine(detail: string, write: bool, removed: bool)
    | NotConfigured(removed: bool)
    | Configure(now: int, deadline: nat)
    | WriteRecord(write: bool, removed: bool)
    | Spawn(id: nat)
    | SpawnFails(remove: bool, removed: bool)
    | Wake(id: nat, read: bool)
    | Control(id: nat, call: Call)
    | Poll(id: nat, read: bool)
    | Overdue(id: nat, now: int)
    | Cancel(id: nat)
    | Ask(id: nat, answered: bool)
    | Record_(id: nat, detail: string, write: bool)
    | Remove(id: nat, remove: bool)
    | Prune(id: nat, gone: set<string>)
    | Die(id: nat)

  predicate ForSupervisor(l: Label) {
    l.Wake? || l.Control? || l.Poll? || l.Overdue? || l.Cancel? || l.Ask? || l.Record_? || l.Remove? || l.Prune? || l.Die?
  }

  predicate ForReports(l: Label) {
    l.Start? || l.Exit? || l.ProofRead? || l.ProofWrite? || l.Adopt? || l.Tell? || l.MarkRead? || l.MarkWrite?
  }

  // ----- Agent steps --------------------------------------------------------------------------

  function Without(files: map<string, Bytes>, version: string, removed: bool): map<string, Bytes> {
    if removed then files - {version} else files
  }

  function RefusedRecord(item: string, running: string, version: string, detail: string): Record {
    Record(item, running, Outside(""), [], version, Outside(""), 0, Refused, detail, true)
  }

  function NewRecord(item: string, running: string, svc: Service, build: Build, now: int, deadline: nat): Record {
    Record(item, running, svc.path, svc.args, build.version, StagedAt(build.version), now + deadline, Pending, "", false)
  }

  predicate Verified(f: Fleet, b: Build) {
    && ValidVersion(b.version) && b.signature.Some?
    && Release.Verify(f.crypto, f.trusted, Release.Manifest(b.version, b.sha256),
                      Release.Signature(b.version, b.sha256, b.keyID, b.signature.value)).Ok?
  }

  predicate AgentEnabled(f: Fleet, s: State, l: Label) {
    if l.Start? then s.agent.None? else s.agent.Some? && JobEnabled(f, s, s.agent.value, s.agent.value.job, l)
  }

  /** A check-in that has read the record and not yet written it, or markReported between its two, holds
      the agent's own lock on the record; a supervisor is another process and does not take it. */
  predicate JobEnabled(f: Fleet, s: State, a: Agent, j: Job, l: Label) {
    match l
    case Exit => true
    case ProofRead(_) => a.proof.None? && !j.Marking?
    case ProofWrite(_) => a.proof.Some?
    case Adopt(_) => j.Idle? && a.rollback.None? && a.proof.None?
    case Tell(_) => j.Idle? && a.rollback.Some?
    case MarkRead(_) => j.Told? && a.proof.None?
    case MarkWrite(_) => j.Marking?
    case Consult(_, _) => j.Idle? && a.proof.None?
    case NotFetched => j.Considering?
    case Consider(_) => j.Considering?
    case Reject => j.Chosen? && !ValidVersion(j.build.version)
    case Refuse(_, _) => j.Chosen? && ValidVersion(j.build.version) && !Verified(f, j.build) && a.proof.None?
    case NotDownloaded(_) => j.Chosen? && Verified(f, j.build)
    case Place(bytes) => j.Chosen? && Verified(f, j.build) && EqualFold(f.crypto.sha256(bytes), j.build.sha256)
    case WrongMachine(_, _, _) => j.Placed? && a.proof.None?
    case NotConfigured(_) => j.Placed?
    case Configure(_, _) => j.Placed?
    case WriteRecord(_, _) => j.Wired? && a.proof.None?
    case Spawn(id) => j.Written? && id !in s.sups
    case SpawnFails(_, _) => j.Written? && a.proof.None?
    case _ => false
  }

  function Works(s: State, j: Job): State
    requires s.agent.Some?
  {
    s.(agent := Some(s.agent.value.(job := j)))
  }

  /** Starting up, checking in, and reporting a rollback. */
  function ReportStep(f: Fleet, s: State, l: Label): State
    requires AgentEnabled(f, s, l) && ForReports(l)
  {
    match l
    case Start(running, injected, now, read, remove) =>
      // The read-then-resolve of runner.Run, in one step.
      var found := if read then s.disk else None;
      var action := Reconcile(found, running, now);
      s.(agent := Some(Agent(running, injected, if action.Report? then found else None, None, Idle)),
         disk := if action.Abandon? && remove then None else s.disk)
    case Exit => s.(agent := None)
    case ProofRead(read) =>
      var a := s.agent.value;
      if read && s.disk.Some? && s.disk.value.status == Pending && s.disk.value.toVersion == a.running
      then s.(agent := Some(a.(proof := s.disk))) else s
    case ProofWrite(write) =>
      var a := s.agent.value;
      s.(agent := Some(a.(proof := None)),
         disk := if write then Some(a.proof.value.(status := Succeeded)) else s.disk)
    case Adopt(read) =>
      if read && s.disk.Some? && s.disk.value.status == RolledBack && !s.disk.value.reported
      then s.(agent := Some(s.agent.value.(rollback := s.disk))) else s
    case Tell(answer) =>
      var a := s.agent.value;
      if answer.Lost? then s else s.(agent := Some(a.(rollback := None, job := Told(a.rollback.value))))
    case MarkRead(read) =>
      var rec := s.agent.value.job.rec;
      if read && s.disk.Some? && s.disk.value.toVersion == rec.toVersion && s.disk.value.status == rec.status
      then Works(s, Marking(s.disk.value)) else Works(s, Idle)
    case MarkWrite(write) =>
      Works(s, Idle).(disk := if write then Some(s.agent.value.job.cur.(reported := true)) else s.disk)
  }

  /** syncOne and stage, up to the hand-over. */
  function StageStep(f: Fleet, s: State, l: Label): State
    requires AgentEnabled(f, s, l) && !ForReports(l)
  {
    match l
    case Consult(item, read) =>
      if read && !AlreadyRefused(s.disk, item) then Works(s, Considering(item, s.disk)) else s
    case NotFetched => Works(s, Idle)
    case Consider(build) =>
      // The decision is about the record as it was before the server was asked.
      var a := s.agent.value;
      if Decide(a.running, build.version, a.injected, |f.trusted|, a.job.found).Update?
      then Works(s, Chosen(a.job.item, build)) else Works(s, Idle)
    case Reject => Works(s, Idle)
    case Refuse(detail, write) =>
      var j := s.agent.value.job;
      Works(s, Idle).(disk := if write then Some(RefusedRecord(j.item, s.agent.value.running, j.build.version, detail)) else s.disk)
    case NotDownloaded(removed) =>
      Works(s, Idle).(files := Without(s.files, s.agent.value.job.build.version, removed))
    case Place(bytes) =>
      var j := s.agent.value.job;
      Works(s, Placed(j.item, j.build)).(files := s.files[j.build.version := bytes])
    case WrongMachine(detail, write, removed) =>
      var j := s.agent.value.job;
      Works(s, Idle).(
        files := Without(s.files, j.build.version, removed),
        disk := if write then Some(RefusedRecord(j.item, s.agent.value.running, j.build.version, detail)) else s.disk)
    case NotConfigured(removed) =>
      Works(s, Idle).(files := Without(s.files, s.agent.value.job.build.version, removed))
    case Configure(now, deadline) =>
      var j := s.agent.value.job;
      Works(s, Wired(NewRecord(j.item, s.agent.value.running, s.svc, j.build, now, deadline)))
    case WriteRecord(write, removed) =>
      var rec := s.agent.value.job.rec;
      if write then Works(s, Written(rec)).(disk := Some(rec))
      else Works(s, Idle).(files := Without(s.files, rec.toVersion, removed))
    case Spawn(id) => Works(s, Idle).(sups := s.sups[id := Waking])
    case SpawnFails(remove, removed) =>
      Works(s, Idle).(
        disk := if remove then None else s.disk,
        files := Without(s.files, s.agent.value.job.rec.toVersion, removed))
  }

  function AgentStep(f: Fleet, s: State, l: Label): State
    requires AgentEnabled(f, s, l)
  {
    if ForReports(l) then ReportStep(f, s, l) else StageStep(f, s, l)
  }

  // ----- Supervisor steps ---------------------------------------------------------------------

  predicate Controls(at: At) {
    || at.Stopping? || at.Repointing? || at.Arming? || at.Starting?
    || at.UndoStopping? || at.UndoRepointing? || at.UndoStarting?
    || at.CancelStopping? || at.CancelRepointing? || at.CancelStarting?
  }

  /** Where a supervisor that holds a record has got to. */
  function Where(s: State, id: nat): Option<At> {
    if id in s.sups && s.sups[id].Supervising? then Some(s.sups[id].at) else None
  }

  predicate InControl(s: State, id: nat) { Where(s, id).Some? && Controls(Where(s, id).value) }

  predicate HandingOver(s: State) { s.agent.Some? && s.agent.value.job.Written? }

  predicate SupEnabled(s: State, l: Label) {
    match l
    case Wake(id, _) => id in s.sups && s.sups[id].Waking?
    case Control(id, _) => InControl(s, id)
    case Poll(id, _) => Where(s, id) == Some(Watching)
    case Overdue(id, now) => Where(s, id) == Some(Watching) && now >= s.sups[id].rec.deadline
    case Cancel(id) => Where(s, id) == Some(Watching)
    case Ask(id, _) => Where(s, id) == Some(Asking)
    case Record_(id, _, _) => Where(s, id).Some? && Where(s, id).value.Recording?
    case Remove(id, _) => Where(s, id) in {Some(Settling), Some(CancelRemoving)}
    case Prune(id, gone) => Where(s, id) == Some(Pruning)
                            && s.sups[id].rec.toVersion !in gone && s.sups[id].rec.fromVersion !in gone
    case Die(id) => id in s.sups
    case _ => false
  }

  function Moves(s: State, id: nat, at: At): State
    requires id in s.sups && s.sups[id].Supervising?
  {
    s.(sups := s.sups[id := Supervising(s.sups[id].rec, at)])
  }

  function Ends(s: State, id: nat): State { s.(sups := s.sups - {id}) }

  /** What a controller call changes, whether it worked or failed halfway. */
  function Effect(s: State, rec: Record, at: At, call: Call): State {
    if call.Failed? && !call.applied then s
    else match at
      case Stopping => s.(agent := None)
      case UndoStopping => s.(agent := None)
      case CancelStopping => s.(agent := None)
      case Repointing => s.(svc := Service(rec.toPath, rec.fromArgs))
      case UndoRepointing => s.(svc := Service(rec.fromPath, rec.fromArgs))
      case CancelRepointing => s.(svc := Service(rec.fromPath, rec.fromArgs))
      case _ => s
  }

  /** Where the supervisor goes from there; it returns if nowhere. */
  function NextAt(at: At, ok: bool): Option<At> {
    match at
    case Stopping => Some(if ok then Repointing else Recording(RolledBack))
    case Repointing => Some(if ok then Arming else UndoStopping)
    case Arming => Some(if ok then Starting else UndoStopping)
    case Starting => Some(if ok then Watching else UndoStopping)
    case UndoStopping => Some(if ok then UndoRepointing else Asking)
    case UndoRepointing => Some(if ok then UndoStarting else Asking)
    case UndoStarting => Some(if ok then Recording(RolledBack) else Asking)
    case CancelStopping => if ok then Some(CancelRepointing) else None
    case CancelRepointing => if ok then Some(CancelStarting) else None
    case CancelStarting => if ok then Some(CancelRemoving) else None
    case _ => None
  }

  function ControlStep(s: State, id: nat, call: Call): State
    requires InControl(s, id)
  {
    var t := Effect(s, s.sups[id].rec, s.sups[id].at, call);
    match NextAt(s.sups[id].at, call.Worked?)
    case Some(at) => Moves(t, id, at)
    case None => Ends(t, id)
  }

  function SupStep(s: State, l: Label): State
    requires SupEnabled(s, l)
  {
    match l
    case Wake(id, read) =>
      if read && s.disk.Some? && s.disk.value.status == Pending
      then s.(sups := s.sups[id := Supervising(s.disk.value, Stopping)]) else Ends(s, id)
    case Control(id, call) => ControlStep(s, id, call)
    case Poll(id, read) =>
      if read && s.disk.Some? && s.disk.value.status == Succeeded then Moves(s, id, Settling) else s
    case Overdue(id, now) => Moves(s, id, UndoStopping)
    case Cancel(id) => Moves(s, id, CancelStopping)
    case Ask(id, answered) =>
      Moves(s, id, Recording(if answered && s.svc.path == s.sups[id].rec.toPath then Pending else RolledBack))
    case Record_(id, detail, write) =>
      Ends(s, id).(disk := if write then Some(s.sups[id].rec.(status := s.sups[id].at.verdict, detail := detail)) else s.disk)
    case Remove(id, remove) =>
      var t := s.(disk := if remove then None else s.disk);
      if s.sups[id].at.Settling? && remove then Moves(t, id, Pruning) else Ends(t, id)
    case Prune(id, gone) => Ends(s, id).(files := s.files - gone)
    case Die(id) => Ends(s, id)
  }

  // ----- Runs ---------------------------------------------------------------------------------

  predicate Enabled(f: Fleet, s: State, l: Label) {
    if ForSupervisor(l) then SupEnabled(s, l) else AgentEnabled(f, s, l)
  }

  predicate IsPending(disk: Option<Record>) { disk.Some? && disk.value.status == Pending }

  /** Every way a pending record can lose whoever would have resolved it. */
  predicate Excuse(s: State, l: Label) {
    match l
    case Exit => HandingOver(s)
    case SpawnFails(remove, _) => !remove
    case Wake(_, read) => !read
    case Control(id, call) =>
      || (!call.Worked? && Where(s, id) in {Some(CancelStopping), Some(CancelRepointing), Some(CancelStarting)})
      || (HandingOver(s) && Where(s, id) in {Some(Stopping), Some(UndoStopping), Some(CancelStopping)})
    case Record_(id, _, write) => !write || Where(s, id) == Some(Recording(Pending))
    case Remove(id, remove) => !remove && Where(s, id) == Some(CancelRemoving)
    case Die(_) => true
    case _ => false
  }

  function Step(f: Fleet, s: State, l: Label): State
    requires Enabled(f, s, l)
  {
    var t := if ForSupervisor(l) then SupStep(s, l) else AgentStep(f, s, l);
    t.(orphaned := s.orphaned || Excuse(s, l))
  }

  ghost predicate Run(f: Fleet, s: State, ls: seq<Label>)
    decreases |ls|
  {
    ls == [] || (Enabled(f, s, ls[0]) && Run(f, Step(f, s, ls[0]), ls[1..]))
  }

  ghost function After(f: Fleet, s: State, ls: seq<Label>): State
    requires Run(f, s, ls)
    decreases |ls|
  {
    if ls == [] then s else After(f, Step(f, s, ls[0]), ls[1..])
  }

  /** A device on which no update has ever been tried. */
  ghost predicate Initial(f: Fleet, s: State) {
    s == State(None, Service(f.home, f.args), None, map[], map[], false)
  }

  // ----- The service only ever runs what it was installed with or a verified build --------------

  ghost predicate SomeSum(f: Fleet, version: string) {
    exists sum :: Release.SignedBy(f.crypto, f.trusted, version, sum)
  }

  /** The installed path, or the folder of a version some trusted key signed. */
  ghost predicate OkPath(f: Fleet, p: Path) { p == f.home || (p.StagedAt? && SomeSum(f, p.version)) }

  /** Every byte in a staging folder was signed by a trusted key as that folder's version. */
  ghost predicate FilesOk(f: Fleet, files: map<string, Bytes>) {
    forall v :: v in files ==> Release.SignedBy(f.crypto, f.trusted, v, f.crypto.sha256(files[v]))
  }

  ghost predicate Good(f: Fleet, r: Record) {
    r.fromArgs == f.args && OkPath(f, r.fromPath) && r.toPath == StagedAt(r.toVersion) && OkPath(f, r.toPath)
  }

  ghost predicate GoodJob(f: Fleet, j: Job) {
    match j
    case Told(rec) => rec.status == RolledBack
    case Marking(cur) => Good(f, cur) && cur.status == RolledBack
    case Placed(_, b) => Release.SignedBy(f.crypto, f.trusted, b.version, b.sha256)
    case Wired(rec) => Good(f, rec)
    case Written(rec) => Good(f, rec)
    case _ => true
  }

  ghost predicate GoodAgent(f: Fleet, a: Agent) {
    && (a.rollback.Some? ==> a.rollback.value.status == RolledBack)
    && (a.proof.Some? ==> Good(f, a.proof.value))
    && GoodJob(f, a.job)
  }

  /** The service is wired to its installed path or to a verified build's, always with the arguments
      it was installed with; and whoever holds a record holds one that keeps it so. */
  ghost predicate Safe(f: Fleet, s: State) {
    && s.svc.args == f.args && OkPath(f, s.svc.path)
    && FilesOk(f, s.files)
    && (s.disk.Some? && s.disk.value.status != Refused ==> Good(f, s.disk.value))
    && (s.agent.Some? ==> GoodAgent(f, s.agent.value))
    && (forall id :: id in s.sups && s.sups[id].Supervising? ==> Good(f, s.sups[id].rec))
  }

  lemma VerifiedIsSigned(f: Fleet, b: Build, bytes: Bytes)
    requires Verified(f, b) && EqualFold(f.crypto.sha256(bytes), b.sha256)
    ensures Release.SignedBy(f.crypto, f.trusted, b.version, b.sha256)
    ensures Release.SignedBy(f.crypto, f.trusted, b.version, f.crypto.sha256(bytes))
  {
    Release.SignedFold(f.crypto, f.trusted, b.version, b.sha256, f.crypto.sha256(bytes));
  }

  lemma ReportsKeepSafe(f: Fleet, s: State, l: Label)
    requires Safe(f, s) && AgentEnabled(f, s, l) && ForReports(l)
    ensures Safe(f, ReportStep(f, s, l))
  {
    hide Reconcile, OkPath, FilesOk;
    if l.Start? { ReportMeansRolledBack(if l.read then s.disk else None, l.running, l.now); }
  }

  lemma PlaceKeepsSafe(f: Fleet, s: State, bytes: Bytes)
    requires Safe(f, s) && AgentEnabled(f, s, Place(bytes))
    ensures Safe(f, StageStep(f, s, Place(bytes)))
  {
    hide Verified, Release.SignedBy, OkPath;
    VerifiedIsSigned(f, s.agent.value.job.build, bytes);
  }

  lemma ConfigureKeepsSafe(f: Fleet, s: State, now: int, deadline: nat)
    requires Safe(f, s) && AgentEnabled(f, s, Configure(now, deadline))
    ensures Safe(f, StageStep(f, s, Configure(now, deadline)))
  {
    hide Release.SignedBy, FilesOk;
    assert SomeSum(f, s.agent.value.job.build.version);
  }

  predicate Deciding(l: Label) { l.Consult? || l.NotFetched? || l.Consider? || l.Reject? }

  lemma DecidingKeepsSafe(f: Fleet, s: State, l: Label)
    requires Safe(f, s) && AgentEnabled(f, s, l) && Deciding(l)
    ensures Safe(f, StageStep(f, s, l))
  {
    hide Verified, Decide, Release.SignedBy, ValidVersion, OkPath, AlreadyRefused, FilesOk, Good;
  }

  lemma OtherStagingKeepsSafe(f: Fleet, s: State, l: Label)
    requires Safe(f, s) && AgentEnabled(f, s, l) && !ForReports(l) && !l.Place? && !l.Configure? && !Deciding(l)
    ensures Safe(f, StageStep(f, s, l))
  {
    hide Verified, Decide, Release.SignedBy, ValidVersion, OkPath, AlreadyRefused;
  }

  lemma StagingKeepsSafe(f: Fleet, s: State, l: Label)
    requires Safe(f, s) && AgentEnabled(f, s, l) && !ForReports(l)
    ensures Safe(f, StageStep(f, s, l))
  {
    hide StageStep, Safe, JobEnabled;
    if l.Place? {
      PlaceKeepsSafe(f, s, l.bytes);
    } else if l.Configure? {
      ConfigureKeepsSafe(f, s, l.now, l.deadline);
    } else if Deciding(l) {
      DecidingKeepsSafe(f, s, l);
    } else {
      OtherStagingKeepsSafe(f, s, l);
    }
  }

  lemma ReportMeansRolledBack(disk: Option<Record>, running: string, now: int)
    ensures Reconcile(disk, running, now).Report? ==> disk.Some? && disk.value.status == RolledBack
  {
  }

  lemma EffectKeepsSafe(f: Fleet, s: State, rec: Record, at: At, call: Call)
    requires Safe(f, s) && Good(f, rec)
    ensures Safe(f, Effect(s, rec, at, call)) && Effect(s, rec, at, call).sups == s.sups
  {
    hide OkPath, FilesOk, GoodAgent;
  }

  lemma ControlKeepsSafe(f: Fleet, s: State, id: nat, call: Call)
    requires Safe(f, s) && InControl(s, id)
    ensures Safe(f, ControlStep(s, id, call))
  {
    hide OkPath, FilesOk, GoodAgent, Effect, NextAt, Good;
    EffectKeepsSafe(f, s, s.sups[id].rec, s.sups[id].at, call);
  }

  lemma SupervisorKeepsSafe(f: Fleet, s: State, l: Label)
    requires Safe(f, s) && SupEnabled(s, l)
    ensures Safe(f, SupStep(s, l))
  {
    hide OkPath, GoodAgent, ControlStep, Release.SignedBy;
    if l.Control? { ControlKeepsSafe(f, s, l.id, l.call); }
  }

  lemma StepKeepsSafe(f: Fleet, s: State, l: Label)
    requires Safe(f, s) && Enabled(f, s, l)
    ensures Safe(f, Step(f, s, l))
  {
    hide ReportStep, StageStep, SupStep, OkPath, FilesOk, Good, GoodAgent;
    if ForSupervisor(l) {
      SupervisorKeepsSafe(f, s, l);
    } else if ForReports(l) {
      ReportsKeepSafe(f, s, l);
    } else {
      StagingKeepsSafe(f, s, l);
    }
  }

  /** Across any number of updates, overlapping ones included, and whatever calls fail. */
  lemma {:induction false} RunsAreSafe(f: Fleet, s: State, ls: seq<Label>)
    requires Safe(f, s) && Run(f, s, ls)
    ensures Safe(f, After(f, s, ls))
    decreases |ls|
  {
    hide Safe, Step, Enabled;
    if ls != [] {
      StepKeepsSafe(f, s, ls[0]);
      RunsAreSafe(f, Step(f, s, ls[0]), ls[1..]);
    }
  }

  /** From a fresh device: the arguments never change, the path is the installed one or a signed
      version's folder, and what lies in that folder, if anything does, is the signed bytes. */
  lemma ServiceOnlyRunsVerifiedBuilds(f: Fleet, s: State, ls: seq<Label>)
    requires Initial(f, s) && Run(f, s, ls)
    ensures var t := After(f, s, ls);
            && t.svc.args == f.args
            && (t.svc.path == f.home ||
                (t.svc.path.StagedAt? && SomeSum(f, t.svc.path.version) &&
                 (t.svc.path.version in t.files ==>
                    Release.SignedBy(f.crypto, f.trusted, t.svc.path.version, f.crypto.sha256(t.files[t.svc.path.version])))))
  {
    RunsAreSafe(f, s, ls);
  }

  /** With keys that sign only what is published, the service is wired to its installed path or to a published
      version's folder, and what lies there has the hash published for that version. */
  lemma ServiceOnlyRunsPublishedBuilds(f: Fleet, signed: Release.Ledger, s: State, ls: seq<Label>)
    requires Initial(f, s) && Run(f, s, ls) && Release.SignOnly(f.crypto, f.trusted, signed) && signed.OnLines()
    ensures var t := After(f, s, ls);
            t.svc.path == f.home ||
            (t.svc.path.StagedAt? && (exists sum :: Release.Offers(signed.builds, t.svc.path.version, sum)) &&
             (t.svc.path.version in t.files ==>
                Release.Offers(signed.builds, t.svc.path.version, f.crypto.sha256(t.files[t.svc.path.version]))))
  {
    hide Step, Enabled, Release.SignOnly, Release.Offers, Release.SignedBy;
    ServiceOnlyRunsVerifiedBuilds(f, s, ls);
    var t := After(f, s, ls);
    if t.svc.path != f.home {
      var v := t.svc.path.version;
      var sum :| Release.SignedBy(f.crypto, f.trusted, v, sum);
      Release.OnlyPublishedIsSigned(f.crypto, f.trusted, signed, v, sum);
      if v in t.files {
        Release.OnlyPublishedIsSigned(f.crypto, f.trusted, signed, v, f.crypto.sha256(t.files[v]));
      }
    }
  }

  // ----- What a verdict should say of the service -----------------------------------------------

  /** The record is gone and the new build is wired; or it says rolled back and the new build is not; or it
      is still pending and the new build really is. */
  ghost predicate ThreeWay(r: Record, disk: Option<Record>, svc: Service) {
    || (disk == None && svc.path == r.toPath)
    || (disk.Some? && disk.value.status == RolledBack && svc.path != r.toPath)
    || (disk.Some? && disk.value.status == Pending && svc.path == r.toPath)
  }

  // ----- No attempt wedges a device -----------------------------------------------------------

  predicate Active(at: At) { !at.Settling? && !at.Pruning? }

  /** This supervisor will read the record, or holds it and has yet to give its verdict. */
  predicate Attends(sup: Supervisor, r: Record) {
    sup.Waking? || (sup.rec == r && Active(sup.at))
  }

  ghost predicate Attended(s: State) {
    IsPending(s.disk) ==>
      || s.orphaned
      || (s.agent.Some? && s.agent.value.job == Written(s.disk.value))
      || exists id :: id in s.sups && Attends(s.sups[id], s.disk.value)
  }

  lemma ReportsKeepAttended(f: Fleet, s: State, l: Label)
    requires Safe(f, s) && Attended(s) && AgentEnabled(f, s, l) && ForReports(l)
    ensures Attended(Step(f, s, l))
  {
    hide Reconcile, Good, FilesOk, OkPath, SupStep, StageStep, SupEnabled;
    var t := Step(f, s, l);
    if IsPending(t.disk) && !t.orphaned {
      assert t.disk == s.disk && t.sups == s.sups;
    }
  }

  lemma StagingKeepsAttended(f: Fleet, s: State, l: Label)
    requires Attended(s) && AgentEnabled(f, s, l) && !ForReports(l) && !ForSupervisor(l)
    ensures Attended(Step(f, s, l))
  {
    hide Verified, Decide, ValidVersion;
    var t := Step(f, s, l);
    if IsPending(t.disk) && !t.orphaned {
      if l.Spawn? {
        assert Attends(t.sups[l.id], t.disk.value);
      } else if l.WriteRecord? && l.write {
        assert t.agent.value.job == Written(t.disk.value);
      } else {
        assert t.disk == s.disk && t.sups == s.sups;
      }
    }
  }

  lemma ControlChanges(s: State, id: nat, call: Call)
    requires InControl(s, id)
    ensures var t := ControlStep(s, id, call);
            && t.disk == s.disk
            && (forall k :: k in s.sups && k != id ==> k in t.sups && t.sups[k] == s.sups[k])
            && (id in t.sups ==> t.sups[id].Supervising? && t.sups[id].rec == s.sups[id].rec && Active(t.sups[id].at))
  {
  }

  lemma ControlExcused(s: State, id: nat, call: Call)
    requires InControl(s, id)
    ensures var t := ControlStep(s, id, call);
            && (id !in t.sups ==> Excuse(s, Control(id, call)))
            && (t.agent != s.agent && HandingOver(s) ==> Excuse(s, Control(id, call)))
  {
  }

  lemma ControlKeepsAttended(f: Fleet, s: State, id: nat, call: Call)
    requires Attended(s) && InControl(s, id)
    ensures Attended(Step(f, s, Control(id, call)))
  {
    var t := Step(f, s, Control(id, call));
    ControlChanges(s, id, call);
    ControlExcused(s, id, call);
    hide ControlStep, Active;
    if IsPending(t.disk) && !t.orphaned {
      if k :| k in s.sups && Attends(s.sups[k], s.disk.value) {
        assert k in t.sups && Attends(t.sups[k], t.disk.value);
      }
    }
  }

  lemma SupervisorKeepsAttended(f: Fleet, s: State, l: Label)
    requires Attended(s) && SupEnabled(s, l) && ForSupervisor(l) && !l.Control?
    ensures Attended(Step(f, s, l))
  {
    hide ControlStep, AgentStep, AgentEnabled;
    var t := Step(f, s, l);
    if IsPending(t.disk) && !t.orphaned && t.disk == s.disk {
      if k :| k in s.sups && Attends(s.sups[k], s.disk.value) {
        assert k in t.sups && Attends(t.sups[k], t.disk.value);
      }
    }
  }

  lemma StepKeepsAttended(f: Fleet, s: State, l: Label)
    requires Safe(f, s) && Attended(s) && Enabled(f, s, l)
    ensures Attended(Step(f, s, l))
  {
    hide Safe, Attended, Step, AgentEnabled, Where;
    if l.Control? {
      ControlKeepsAttended(f, s, l.id, l.call);
    } else if ForSupervisor(l) {
      SupervisorKeepsAttended(f, s, l);
    } else if ForReports(l) {
      ReportsKeepAttended(f, s, l);
    } else {
      StagingKeepsAttended(f, s, l);
    }
  }

  lemma {:induction false} RunsStayAttended(f: Fleet, s: State, ls: seq<Label>)
    requires Safe(f, s) && Attended(s) && Run(f, s, ls)
    ensures Attended(After(f, s, ls))
    decreases |ls|
  {
    hide Safe, Attended, Step, Enabled;
    if ls != [] {
      StepKeepsSafe(f, s, ls[0]);
      StepKeepsAttended(f, s, ls[0]);
      RunsStayAttended(f, Step(f, s, ls[0]), ls[1..]);
    }
  }

  /** None of the listed mishaps happens on the way. */
  ghost predicate Undisturbed(f: Fleet, s: State, ls: seq<Label>)
    requires Run(f, s, ls)
    decreases |ls|
  {
    ls == [] || (!Excuse(s, ls[0]) && Undisturbed(f, Step(f, s, ls[0]), ls[1..]))
  }

  lemma {:induction false} UndisturbedIsNotOrphaned(f: Fleet, s: State, ls: seq<Label>)
    requires Run(f, s, ls) && Undisturbed(f, s, ls) && !s.orphaned
    ensures !After(f, s, ls).orphaned
    decreases |ls|
  {
    hide Enabled, AgentStep, SupStep, Excuse;
    if ls != [] { UndisturbedIsNotOrphaned(f, Step(f, s, ls[0]), ls[1..]); }
  }

  /** Whatever else fails or overlaps, a pending record always has a supervisor that will read it, or
      one that holds it and has yet to give its verdict, except while the agent that wrote it is
      handing over. */
  lemma PendingIsAttended(f: Fleet, s: State, ls: seq<Label>)
    requires Initial(f, s) && Run(f, s, ls) && Undisturbed(f, s, ls)
    ensures var t := After(f, s, ls);
            IsPending(t.disk) ==>
              || (t.agent.Some? && t.agent.value.job == Written(t.disk.value))
              || exists id :: id in t.sups && Attends(t.sups[id], t.disk.value)
  {
    RunsStayAttended(f, s, ls);
    UndisturbedIsNotOrphaned(f, s, ls);
  }

  /** A pending record nobody attends any more is removed by the first start of another build after
      its deadline, which may then try the version again. */
  lemma AnotherBuildExpiresIt(f: Fleet, s: State, running: string, now: int, item: string, build: Build)
    requires IsPending(s.disk) && s.agent.None? && running != s.disk.value.toVersion && now >= s.disk.value.deadline
    requires f.trusted != [] && build.version == s.disk.value.toVersion && build.version != ""
    ensures var ls := [Start(running, true, now, true, true), Consult(item, true), Consider(build)];
            && Run(f, s, ls)
            && After(f, s, ls).disk == None
            && After(f, s, ls).agent.Some? && After(f, s, ls).agent.value.job == Chosen(item, build)
  {
    var l1, l2, l3 := Start(running, true, now, true, true), Consult(item, true), Consider(build);
    var s1 := Step(f, s, l1);
    var s2 := Step(f, s1, l2);
    RunTwo(f, s1, l2, l3);
    assert [l1, l2, l3][1..] == [l2, l3];
  }

  /** Before then it is left alone; and the build it was staged for settles it with the first check-in
      that reaches the server. */
  lemma TheNewBuildSettlesIt(f: Fleet, s: State, now: int, injected: bool)
    requires IsPending(s.disk) && s.agent.None?
    ensures var r := s.disk.value;
            var ls := [Start(r.toVersion, injected, now, true, true), ProofRead(true), ProofWrite(true)];
            Run(f, s, ls) && After(f, s, ls).disk == Some(r.(status := Succeeded))
  {
    var l1, l2, l3 := Start(s.disk.value.toVersion, injected, now, true, true), ProofRead(true), ProofWrite(true);
    var s1 := Step(f, s, l1);
    var s2 := Step(f, s1, l2);
    RunTwo(f, s1, l2, l3);
    assert [l1, l2, l3][1..] == [l2, l3];
  }

  /** A record nobody attends: no supervisor is left, and the agent, if there is one, neither hands it over nor
      stages its version again. */
  ghost predicate Unattended(s: State, r: Record) {
    && s.sups == map[] && s.disk == Some(r) && r.status == Pending
    && (s.agent.Some? ==>
          var a := s.agent.value;
          && (a.proof.Some? ==> a.proof == Some(r))
          && (a.rollback.Some? ==> a.rollback.value.status == RolledBack)
          && match a.job
             case Told(rec) => rec.status == RolledBack
             case Considering(_, found) => found == Some(r)
             case Chosen(_, b) => b.version != r.toVersion
             case Placed(_, b) => b.version != r.toVersion
             case Wired(rec) => rec.toVersion != r.toVersion
             case Marking(_) => false
             case Written(_) => false
             case _ => true)
  }

  /** A check-in of its own build, an overdue start of another, or a staging of another version that gets as
      far as writing a record, each with its write or removal working. */
  predicate Resolves(l: Label, r: Record) {
    match l
    case ProofWrite(write) => write
    case Start(running, _, now, read, remove) => read && remove && running != r.toVersion && now >= r.deadline
    case Refuse(_, write) => write
    case WrongMachine(_, write, _) => write
    case WriteRecord(write, _) => write
    case _ => false
  }

  lemma UnattendedStep(f: Fleet, s: State, l: Label, r: Record)
    requires Unattended(s, r) && Enabled(f, s, l)
    ensures Step(f, s, l).disk != Some(r) <==> Resolves(l, r)
    ensures !Resolves(l, r) ==> Unattended(Step(f, s, l), r)
  {
    hide Unattended, ReportStep, StageStep, Excuse;
    assert !ForSupervisor(l) by { Alone(s, l, r); }
    if ForReports(l) {
      UnattendedReport(f, s, l, r);
    } else {
      UnattendedStaging(f, s, l, r);
    }
    var t := AgentStep(f, s, l);
    UnattendedAside(t, r, s.orphaned || Excuse(s, l));
  }

  lemma Alone(s: State, l: Label, r: Record)
    requires Unattended(s, r)
    ensures !SupEnabled(s, l)
  {
  }

  lemma UnattendedAside(s: State, r: Record, orphaned: bool)
    ensures Unattended(s.(orphaned := orphaned), r) <==> Unattended(s, r)
  {
  }

  lemma UnattendedReport(f: Fleet, s: State, l: Label, r: Record)
    requires Unattended(s, r) && AgentEnabled(f, s, l) && ForReports(l)
    ensures ReportStep(f, s, l).disk != Some(r) <==> Resolves(l, r)
    ensures !Resolves(l, r) ==> Unattended(ReportStep(f, s, l), r)
  {
  }

  lemma UnattendedStaging(f: Fleet, s: State, l: Label, r: Record)
    requires Unattended(s, r) && AgentEnabled(f, s, l) && !ForReports(l)
    ensures StageStep(f, s, l).disk != Some(r) <==> Resolves(l, r)
    ensures !Resolves(l, r) ==> Unattended(StageStep(f, s, l), r)
  {
    hide Verified, ValidVersion, AlreadyRefused, Decide;
    if l.Consider? {
      PendingIsNotRepeated(s.agent.value.running, l.build.version, s.agent.value.injected, |f.trusted|, r);
    }
  }

  lemma PendingIsNotRepeated(running: string, offered: string, injected: bool, trusted: nat, r: Record)
    requires r.status == Pending
    ensures Decide(running, offered, injected, trusted, Some(r)).Update? ==> offered != r.toVersion
  {
  }

  /** Some step along the way resolves it. */
  ghost predicate ResolvedAlong(f: Fleet, s: State, ls: seq<Label>, r: Record)
    requires Run(f, s, ls)
    decreases |ls|
  {
    ls != [] && (Resolves(ls[0], r) || ResolvedAlong(f, Step(f, s, ls[0]), ls[1..], r))
  }

  /** The record on disk is at some point not this one. */
  ghost predicate ChangedAlong(f: Fleet, s: State, ls: seq<Label>, r: Record)
    requires Run(f, s, ls)
    decreases |ls|
  {
    s.disk != Some(r) || (ls != [] && ChangedAlong(f, Step(f, s, ls[0]), ls[1..], r))
  }

  /** Over any run, such a record changes exactly when one of those resolves it, and until then it stays
      unattended. */
  lemma {:induction false} UnattendedUntilResolved(f: Fleet, s: State, ls: seq<Label>, r: Record)
    requires Unattended(s, r) && Run(f, s, ls)
    ensures ChangedAlong(f, s, ls, r) <==> ResolvedAlong(f, s, ls, r)
    ensures !ResolvedAlong(f, s, ls, r) ==> Unattended(After(f, s, ls), r)
    decreases |ls|
  {
    hide Step, Enabled, Resolves;
    assert s.disk == Some(r);
    if ls != [] {
      UnattendedStep(f, s, ls[0], r);
      if Resolves(ls[0], r) {
        assert ChangedAlong(f, Step(f, s, ls[0]), ls[1..], r);
      } else {
        UnattendedUntilResolved(f, Step(f, s, ls[0]), ls[1..], r);
      }
    }
  }

  lemma RunOne(f: Fleet, s: State, a: Label)
    requires Enabled(f, s, a)
    ensures Run(f, s, [a]) && After(f, s, [a]) == Step(f, s, a)
  {
    hide Step, Enabled;
    var ls := [a];
    assert ls[1..] == [] && ls[0] == a;
    assert Run(f, Step(f, s, a), []);
  }

  lemma RunTwo(f: Fleet, s: State, a: Label, b: Label)
    requires Enabled(f, s, a) && Enabled(f, Step(f, s, a), b)
    ensures Run(f, s, [a, b]) && After(f, s, [a, b]) == Step(f, Step(f, s, a), b)
  {
    hide Step, Enabled;
    RunOne(f, Step(f, s, a), b);
    var ls := [a, b];
    assert ls[1..] == [b] && ls[0] == a;
    assert Run(f, s, ls);
  }

  lemma {:induction false} RunSnoc(f: Fleet, s: State, ls: seq<Label>, l: Label)
    requires Run(f, s, ls) && Enabled(f, After(f, s, ls), l)
    ensures Run(f, s, ls + [l]) && After(f, s, ls + [l]) == Step(f, After(f, s, ls), l)
    decreases |ls|
  {
    hide Step, Enabled;
    if ls == [] {
      assert ls + [l] == [l];
      RunOne(f, s, l);
    } else {
      assert (ls + [l])[1..] == ls[1..] + [l];
      RunSnoc(f, Step(f, s, ls[0]), ls[1..], l);
    }
  }

  // ----- A failed build is not fetched again ----------------------------------------------------

  predicate SameButReported(r: Record, r0: Record) { r == r0.(reported := r.reported) }

  /** The record is still that memory, no supervisor is at work, and the agent is not staging. */
  ghost predicate Quiet(s: State, r: Record) {
    && r.status in {RolledBack, Refused}
    && s.sups == map[] && s.disk.Some? && SameButReported(s.disk.value, r)
    && (s.agent.Some? ==> s.agent.value.proof.None? && AtRest(s.agent.value.job, r))
  }

  predicate AtRest(j: Job, r: Record) {
    match j
    case Idle => true
    case Told(_) => true
    case Marking(cur) => SameButReported(cur, r)
    case Considering(_, found) =>
      // Decide turns down the same version on what it was read as, attempt under way or rolled back.
      r.status == RolledBack && found.Some? && found.value.toVersion == r.toVersion && found.value.status in {Pending, RolledBack}
    case _ => false
  }

  /** What is offered is what the record keeps away: the version that was rolled back here, under whatever id,
      or the very item that was refused. */
  predicate OffersOnly(l: Label, r: Record) {
    && (l.Consider? && r.status == RolledBack ==> l.build.version == r.toVersion)
    && (l.Consult? && r.status == Refused ==> l.item == r.itemID)
  }

  /** Everything past the decision to update: the download, and what follows it. */
  predicate Fetches(l: Label) {
    l.Reject? || l.Refuse? || l.NotDownloaded? || l.Place? || l.WrongMachine? || l.NotConfigured? ||
    l.Configure? || l.WriteRecord? || l.Spawn? || l.SpawnFails?
  }

  lemma ReportsStayQuiet(f: Fleet, s: State, l: Label, r: Record)
    requires Quiet(s, r) && AgentEnabled(f, s, l) && ForReports(l)
    ensures Quiet(ReportStep(f, s, l), r)
  {
  }

  lemma ConsultStaysQuiet(f: Fleet, s: State, l: Label, r: Record)
    requires Quiet(s, r) && OffersOnly(l, r) && AgentEnabled(f, s, l) && (l.Consult? || l.NotFetched?)
    ensures Quiet(StageStep(f, s, l), r)
  {
    hide Decide, Verified, ValidVersion;
  }

  lemma TriedIsNotRepeated(running: string, offered: string, injected: bool, trusted: nat, r: Record)
    requires r.status in {Pending, RolledBack} && offered == r.toVersion
    ensures !Decide(running, offered, injected, trusted, Some(r)).Update?
  {
  }

  lemma ConsiderStaysQuiet(f: Fleet, s: State, l: Label, r: Record)
    requires Quiet(s, r) && OffersOnly(l, r) && AgentEnabled(f, s, l) && l.Consider?
    ensures Quiet(StageStep(f, s, l), r)
  {
    hide Decide, Verified, ValidVersion;
    var a := s.agent.value;
    TriedIsNotRepeated(a.running, l.build.version, a.injected, |f.trusted|, a.job.found.value);
  }

  lemma QuietEnables(f: Fleet, s: State, l: Label, r: Record)
    requires Quiet(s, r) && Enabled(f, s, l)
    ensures !ForSupervisor(l) && !Fetches(l) && (ForReports(l) || l.Consult? || l.NotFetched? || l.Consider?)
  {
    hide Verified, ValidVersion;
  }

  lemma StepStaysQuiet(f: Fleet, s: State, l: Label, r: Record)
    requires Quiet(s, r) && OffersOnly(l, r) && Enabled(f, s, l)
    ensures Quiet(Step(f, s, l), r) && !Fetches(l)
  {
    QuietEnables(f, s, l, r);
    hide ReportStep, StageStep, SupStep, Fetches, Excuse, OffersOnly, JobEnabled;
    if ForReports(l) {
      ReportsStayQuiet(f, s, l, r);
    } else if l.Consider? {
      ConsiderStaysQuiet(f, s, l, r);
    } else {
      ConsultStaysQuiet(f, s, l, r);
    }
  }

  /** Once a rollback or a refusal is on disk and that build stays the only one offered, no sequence of
      check-ins, lost reports, 404 answers or restarts downloads it again; the record changes in its
      Reported flag alone. */
  lemma {:induction false} NeverFetchedAgain(f: Fleet, s: State, ls: seq<Label>, r: Record)
    requires Quiet(s, r) && Run(f, s, ls)
    requires forall i :: 0 <= i < |ls| ==> OffersOnly(ls[i], r)
    ensures forall i :: 0 <= i < |ls| ==> !Fetches(ls[i])
    ensures After(f, s, ls).disk.Some? && SameButReported(After(f, s, ls).disk.value, r)
    decreases |ls|
  {
    hide Step, Enabled, Fetches, OffersOnly;
    if ls != [] {
      StepStaysQuiet(f, s, ls[0], r);
      NeverFetchedAgain(f, Step(f, s, ls[0]), ls[1..], r);
      forall i | 0 <= i < |ls|
        ensures !Fetches(ls[i])
      {
        if 0 < i { assert ls[i] == ls[1..][i - 1]; }
      }
    }
  }
}
