/** What the update protocol keeps besides, if an update is only begun by the build the service is wired to
    and with no supervisor left from the last one: the wired build stays on disk, marking a rollback
    reported marks and does nothing else, and a verdict is remembered. The agent checks neither condition;
    FailingRuns shows what happens without them. */
module CarefulRuns {
  import opened Prelude
  import opened SelfUpdate
  import opened UpdateProtocol
  import Release

  ghost predicate HasFile(files: map<string, Bytes>, p: Path) { p.StagedAt? ==> p.version in files }

  /** Both builds of the attempt are in folders of their own, and the record names the old one by its version. */
  ghost predicate Supplied(files: map<string, Bytes>, r: Record) {
    && r.toPath == StagedAt(r.toVersion) != r.fromPath && r.toVersion in files
    && HasFile(files, r.fromPath) && (r.fromPath.StagedAt? ==> r.fromPath.version == r.fromVersion)
  }

  ghost predicate Fits(s: State, r: Record) { Supplied(s.files, r) && (s.svc.path == r.fromPath || s.svc.path == r.toPath) }

  /** Where the new build is certainly wired. */
  predicate Repointed(at: At) { at.Arming? || at.Starting? || at.Watching? || at.Settling? || at.Pruning? }

  /** Where the old one is, not having been taken out yet or having been put back. */
  predicate Restored(at: At) { at.Stopping? || at.Repointing? || at.UndoStarting? || at.CancelStarting? || at.CancelRemoving? }

  predicate IsRolledBack(disk: Option<Record>) { disk.Some? && disk.value.status == RolledBack }

  ghost predicate SupervisorFits(s: State, sup: Supervisor) {
    && !IsRolledBack(s.disk)
    && if sup.Waking? then IsPending(s.disk) ==> Fits(s, s.disk.value) && s.svc.path == s.disk.value.fromPath
    else
      && Fits(s, sup.rec) && (IsPending(s.disk) ==> s.disk.value == sup.rec)
      && (Repointed(sup.at) ==> s.svc.path == sup.rec.toPath)
      && (Restored(sup.at) ==> s.svc.path == sup.rec.fromPath)
      && (sup.at.Recording? ==> sup.at.verdict in {Pending, RolledBack})
      && (sup.at == Recording(Pending) ==> s.svc.path == sup.rec.toPath)
  }

  /** What an agent in the middle of staging, or of marking a rollback reported, may count on. */
  ghost predicate JobFits(s: State, a: Agent) {
    var running := a.running;
    match a.job
    case Marking(cur) => s.sups == map[] && s.disk == Some(cur) && a.proof.None?
    case Chosen(_, b) =>
      s.sups == map[] && s.svc.path != StagedAt(b.version) && (s.svc.path.StagedAt? ==> s.svc.path.version == running)
    case Placed(_, b) =>
      && s.sups == map[] && s.svc.path != StagedAt(b.version) && (s.svc.path.StagedAt? ==> s.svc.path.version == running)
      && b.version in s.files
    case Wired(rec) => s.sups == map[] && rec.status == Pending && Supplied(s.files, rec) && s.svc.path == rec.fromPath != rec.toPath
    case Written(rec) =>
      && s.sups == map[] && Supplied(s.files, rec) && s.svc.path == rec.fromPath != rec.toPath
      && (IsPending(s.disk) ==> Fits(s, s.disk.value) && s.svc.path == s.disk.value.fromPath) && !IsRolledBack(s.disk)
    case _ => true
  }

  ghost predicate Present(s: State) {
    && HasFile(s.files, s.svc.path)
    && (forall i, k :: i in s.sups && k in s.sups ==> i == k)
    && (forall i :: i in s.sups ==> SupervisorFits(s, s.sups[i]))
    && (s.agent.Some? ==> JobFits(s, s.agent.value))
  }

  /** The look at an assigned build ends in a decision to install it. */
  predicate Begins(f: Fleet, s: State, l: Label) {
    && l.Consider? && s.agent.Some? && s.agent.value.job.Considering?
    && var a := s.agent.value; Decide(a.running, l.build.version, a.injected, |f.trusted|, a.job.found).Update?
  }

  /** An update is begun only by the build the service is wired to, with no supervisor about. Looking is free. */
  predicate Careful(f: Fleet, s: State, l: Label) {
    Begins(f, s, l) ==> s.sups == map[] && (s.svc.path.StagedAt? ==> s.svc.path.version == s.agent.value.running)
  }

  predicate Staging(j: Job) { j.Chosen? || j.Placed? || j.Wired? || j.Written? }

  /** The agent's own work counts on nothing it did not before. */
  predicate SameWork(s: State, t: State) {
    t.agent.Some? && (Staging(t.agent.value.job) || t.agent.value.job.Marking?) ==>
      && s.agent.Some? && s.agent.value.job == t.agent.value.job && s.agent.value.running == t.agent.value.running
      && (t.agent.value.job.Marking? ==> t.agent.value.proof == s.agent.value.proof && t.disk == s.disk)
  }

  lemma ReportsTouchNothing(f: Fleet, s: State, l: Label)
    requires AgentEnabled(f, s, l) && ForReports(l) && !l.MarkRead?
    requires s.agent.Some? && s.agent.value.job.Marking? ==>
               s.agent.value.proof.None? && s.disk == Some(s.agent.value.job.cur) && s.agent.value.job.cur.status == RolledBack
    ensures var t := ReportStep(f, s, l);
            && t.sups == s.sups && t.files == s.files && t.svc == s.svc
            && (IsPending(t.disk) ==> t.disk == s.disk) && (IsRolledBack(t.disk) ==> IsRolledBack(s.disk))
            && SameWork(s, t)
  {
    hide Reconcile;
  }

  lemma StillPresent(s: State, t: State)
    requires Present(s) && t.sups == s.sups && t.files == s.files && t.svc == s.svc
    requires (IsPending(t.disk) ==> t.disk == s.disk) && (IsRolledBack(t.disk) ==> IsRolledBack(s.disk)) && SameWork(s, t)
    ensures Present(t)
  {
    hide Supplied, HasFile;
    forall i | i in t.sups
      ensures SupervisorFits(t, t.sups[i])
    {
      assert SupervisorFits(s, s.sups[i]);
    }
  }

  /** markReported re-reads a rollback only with no supervisor about. */
  lemma MarkReadKeepsPresent(f: Fleet, s: State, read: bool)
    requires Safe(f, s) && Present(s) && AgentEnabled(f, s, MarkRead(read))
    ensures Present(ReportStep(f, s, MarkRead(read)))
  {
    hide Supplied, HasFile, OkPath, FilesOk, Good;
    var t := ReportStep(f, s, MarkRead(read));
    forall i | i in t.sups
      ensures SupervisorFits(t, t.sups[i]) && !t.agent.value.job.Marking?
    {
      assert SupervisorFits(s, s.sups[i]);
    }
    assert t.agent.value.job.Marking? ==> forall i :: i !in s.sups;
  }

  lemma MarkingIsSettled(f: Fleet, s: State)
    requires Safe(f, s) && Present(s) && s.agent.Some? && s.agent.value.job.Marking?
    ensures var a := s.agent.value;
            s.sups == map[] && a.proof.None? && s.disk == Some(a.job.cur) && a.job.cur.status == RolledBack
  {
    hide Supplied, HasFile, OkPath, FilesOk, Good;
  }

  lemma ReportsKeepPresent(f: Fleet, s: State, l: Label)
    requires Safe(f, s) && Present(s) && AgentEnabled(f, s, l) && ForReports(l)
    ensures Present(ReportStep(f, s, l))
  {
    hide Present, ReportStep, AgentEnabled, Safe, SameWork;
    if l.MarkRead? {
      MarkReadKeepsPresent(f, s, l.read);
    } else {
      if s.agent.Some? && s.agent.value.job.Marking? {
        MarkingIsSettled(f, s);
      }
      ReportsTouchNothing(f, s, l);
      StillPresent(s, ReportStep(f, s, l));
    }
  }

  /** With no supervisor about there is only the agent to look after. */
  lemma AloneIsPresent(t: State)
    requires t.sups == map[] && HasFile(t.files, t.svc.path) && (t.agent.Some? ==> JobFits(t, t.agent.value))
    ensures Present(t)
  {
  }

  lemma UpdatesAreToAnother(running: string, offered: string, injected: bool, trusted: nat, found: Option<Record>)
    ensures Decide(running, offered, injected, trusted, found).Update? ==> offered != running
  {
  }

  lemma BeginningKeepsPresent(f: Fleet, s: State, l: Label)
    requires Present(s) && AgentEnabled(f, s, l) && Begins(f, s, l) && Careful(f, s, l)
    ensures Present(StageStep(f, s, l))
  {
    hide Verified, ValidVersion, AlreadyRefused, Decide, Supplied, HasFile, SupervisorFits;
    var a := s.agent.value;
    UpdatesAreToAnother(a.running, l.build.version, a.injected, |f.trusted|, a.job.found);
    AloneIsPresent(StageStep(f, s, l));
  }

  /** A look that begins nothing leaves everything but the agent's own work alone, whoever else is about. */
  lemma LookingMovesNothing(f: Fleet, s: State, l: Label)
    requires AgentEnabled(f, s, l) && Deciding(l) && !Begins(f, s, l)
    ensures var t := StageStep(f, s, l);
            t.sups == s.sups && t.files == s.files && t.svc == s.svc && t.disk == s.disk && SameWork(s, t)
  {
    hide Verified, ValidVersion, AlreadyRefused, Decide;
  }

  lemma DecidingKeepsPresent(f: Fleet, s: State, l: Label)
    requires Present(s) && AgentEnabled(f, s, l) && Deciding(l) && Careful(f, s, l)
    ensures Present(StageStep(f, s, l))
  {
    hide Present, AgentEnabled, StageStep, SameWork, Careful, Begins;
    if Begins(f, s, l) {
      BeginningKeepsPresent(f, s, l);
    } else {
      LookingMovesNothing(f, s, l);
      StillPresent(s, StageStep(f, s, l));
    }
  }

  lemma SpawnKeepsPresent(f: Fleet, s: State, id: nat)
    requires Present(s) && AgentEnabled(f, s, Spawn(id))
    ensures Present(StageStep(f, s, Spawn(id)))
  {
    hide Supplied, HasFile;
  }

  lemma PlacingKeepsPresent(f: Fleet, s: State, l: Label)
    requires Present(s) && AgentEnabled(f, s, l) && !ForReports(l) && !Deciding(l) && !l.Spawn?
    ensures Present(StageStep(f, s, l))
  {
    hide Verified, ValidVersion, SupervisorFits;
    AloneIsPresent(StageStep(f, s, l));
  }

  lemma StagingKeepsPresent(f: Fleet, s: State, l: Label)
    requires Present(s) && AgentEnabled(f, s, l) && !ForReports(l) && Careful(f, s, l)
    ensures Present(StageStep(f, s, l))
  {
    hide Present, AgentEnabled, StageStep, Careful;
    if Deciding(l) {
      DecidingKeepsPresent(f, s, l);
    } else if l.Spawn? {
      SpawnKeepsPresent(f, s, l.id);
    } else {
      PlacingKeepsPresent(f, s, l);
    }
  }

  /** What a controller call can change. */
  lemma EffectMoves(s: State, rec: Record, at: At, call: Call)
    ensures var t := Effect(s, rec, at, call);
            && t.disk == s.disk && t.files == s.files && t.sups == s.sups && (t.agent == s.agent || t.agent == None)
            && (t.svc.path == s.svc.path || t.svc.path == rec.fromPath || t.svc.path == rec.toPath)
            && (Repointed(at) || at.Stopping? || at.UndoStarting? || at.CancelStarting? ==> t.svc == s.svc)
            && (at.Repointing? && call.Worked? ==> t.svc.path == rec.toPath)
            && ((at.UndoRepointing? || at.CancelRepointing?) && call.Worked? ==> t.svc.path == rec.fromPath)
  {
  }

  lemma NextRepointed(at: At, ok: bool)
    ensures NextAt(at, ok).Some? && Repointed(NextAt(at, ok).value) ==> Repointed(at) || (at.Repointing? && ok)
    ensures NextAt(at, ok).Some? && Restored(NextAt(at, ok).value) ==>
              at.Stopping? || at.CancelStarting? || ((at.UndoRepointing? || at.CancelRepointing?) && ok)
  {
  }

  lemma ControlKeepsPresent(s: State, id: nat, call: Call)
    requires Present(s) && InControl(s, id)
    ensures Present(ControlStep(s, id, call))
  {
    var rec, at, t := s.sups[id].rec, s.sups[id].at, ControlStep(s, id, call);
    hide Supplied, HasFile, NextAt, Repointed, Restored, Effect;
    NamedRestored(at);
    assert SupervisorFits(s, s.sups[id]);
    EffectMoves(s, rec, at, call);
    NextRepointed(at, call.Worked?);
    BothThere(s.files, rec);
    assert s.sups != map[];
    assert forall i :: i in t.sups ==> i == id;
  }

  lemma NamedRestored(at: At)
    ensures at.Stopping? || at.UndoStarting? || at.CancelStarting? ==> Restored(at)
  {
  }

  lemma BothThere(files: map<string, Bytes>, r: Record)
    requires Supplied(files, r)
    ensures HasFile(files, r.fromPath) && HasFile(files, r.toPath)
  {
  }

  lemma PruneKeepsPresent(s: State, id: nat, gone: set<string>)
    requires Present(s) && SupEnabled(s, Prune(id, gone))
    ensures Present(SupStep(s, Prune(id, gone)))
  {
    hide ControlStep;
    assert SupervisorFits(s, s.sups[id]);
    assert SupStep(s, Prune(id, gone)).sups == map[];
  }

  /** With a supervisor about, the agent is neither staging nor marking. */
  lemma AgentIsAside(s: State, id: nat)
    requires Present(s) && id in s.sups
    ensures s.agent.Some? ==> !Staging(s.agent.value.job) && !s.agent.value.job.Marking?
  {
    hide Supplied, HasFile;
    assert s.sups != map[];
  }

  /** Once the only supervisor is gone, whatever it wrote, nothing else has moved. */
  lemma EndingKeepsPresent(s: State, id: nat, t: State)
    requires Present(s) && id in s.sups && t.sups == s.sups - {id}
    requires t.files == s.files && t.svc == s.svc && t.agent == s.agent
    ensures Present(t)
  {
    hide Supplied, SupervisorFits;
    AgentIsAside(s, id);
    assert forall i :: i !in t.sups;
  }

  /** So is what one that goes on relies on, if the record is as it was or gone. */
  lemma MovingKeepsPresent(s: State, id: nat, t: State, sup: Supervisor)
    requires Present(s) && id in s.sups && t.sups == s.sups[id := sup] && SupervisorFits(t, sup)
    requires t.files == s.files && t.svc == s.svc && t.agent == s.agent
    ensures Present(t)
  {
    hide Supplied, SupervisorFits;
    AgentIsAside(s, id);
  }

  predicate Quits(l: Label) { l.Record_? || l.Die? }

  lemma QuittingKeepsPresent(s: State, l: Label)
    requires Present(s) && SupEnabled(s, l) && Quits(l)
    ensures Present(SupStep(s, l))
  {
    hide Present;
    EndingKeepsPresent(s, l.id, SupStep(s, l));
  }

  lemma WakingKeepsPresent(s: State, id: nat, read: bool)
    requires Present(s) && SupEnabled(s, Wake(id, read))
    ensures Present(SupStep(s, Wake(id, read)))
  {
    var t := SupStep(s, Wake(id, read));
    assert SupervisorFits(s, s.sups[id]);
    hide Supplied, HasFile, Present;
    if id in t.sups {
      MovingKeepsPresent(s, id, t, t.sups[id]);
    } else {
      EndingKeepsPresent(s, id, t);
    }
  }

  /** Watching, asking and settling. */
  predicate GoesOn(l: Label) { l.Poll? || l.Overdue? || l.Cancel? || l.Ask? || l.Remove? }

  lemma GoingOnKeepsPresent(s: State, l: Label)
    requires Present(s) && SupEnabled(s, l) && GoesOn(l)
    ensures Present(SupStep(s, l))
  {
    var t := SupStep(s, l);
    assert SupervisorFits(s, s.sups[l.id]);
    hide Supplied, HasFile, Present;
    if l.id in t.sups {
      MovingKeepsPresent(s, l.id, t, t.sups[l.id]);
    } else {
      EndingKeepsPresent(s, l.id, t);
    }
  }

  lemma SupervisorKeepsPresent(s: State, l: Label)
    requires Present(s) && SupEnabled(s, l) && !l.Control? && !l.Prune?
    ensures Present(SupStep(s, l))
  {
    hide Present, SupStep, Where;
    if Quits(l) {
      QuittingKeepsPresent(s, l);
    } else if l.Wake? {
      WakingKeepsPresent(s, l.id, l.read);
    } else {
      GoingOnKeepsPresent(s, l);
    }
  }

  lemma StepKeepsPresent(f: Fleet, s: State, l: Label)
    requires Safe(f, s) && Present(s) && Enabled(f, s, l) && Careful(f, s, l)
    ensures Present(Step(f, s, l))
  {
    hide ReportStep, StageStep, Safe, Present, Excuse;
    if l.Control? {
      ControlKeepsPresent(s, l.id, l.call);
    } else if l.Prune? {
      PruneKeepsPresent(s, l.id, l.gone);
    } else if ForSupervisor(l) {
      SupervisorKeepsPresent(s, l);
    } else if ForReports(l) {
      ReportsKeepPresent(f, s, l);
    } else {
      StagingKeepsPresent(f, s, l);
    }
    var t := if ForSupervisor(l) then SupStep(s, l) else AgentStep(f, s, l);
    StillPresent(t, t.(orphaned := s.orphaned || Excuse(s, l)));
  }

  /** Every update along the way is begun with care. */
  ghost predicate OneAtATime(f: Fleet, s: State, ls: seq<Label>)
    requires Run(f, s, ls)
    decreases |ls|
  {
    ls == [] || (Careful(f, s, ls[0]) && OneAtATime(f, Step(f, s, ls[0]), ls[1..]))
  }

  lemma {:induction false} RunsKeepPresent(f: Fleet, s: State, ls: seq<Label>)
    requires Safe(f, s) && Present(s) && Run(f, s, ls) && OneAtATime(f, s, ls)
    ensures Present(After(f, s, ls))
    decreases |ls|
  {
    hide Safe, Present, Step, Enabled, Careful;
    if ls != [] {
      StepKeepsSafe(f, s, ls[0]);
      StepKeepsPresent(f, s, ls[0]);
      RunsKeepPresent(f, Step(f, s, ls[0]), ls[1..]);
    }
  }

  /** Whatever fails, dies or is cancelled, the service is wired to its installed path or to a build that
      is there and whose bytes a trusted key signed as that version. */
  lemma WiredBuildIsThere(f: Fleet, s: State, ls: seq<Label>)
    requires Initial(f, s) && Run(f, s, ls) && OneAtATime(f, s, ls)
    requires f.home.Outside?
    ensures var t := After(f, s, ls);
            t.svc.path != f.home ==>
              && t.svc.path.StagedAt? && t.svc.path.version in t.files
              && Release.SignedBy(f.crypto, f.trusted, t.svc.path.version, f.crypto.sha256(t.files[t.svc.path.version]))
  {
    hide Step, Enabled;
    CarefulRunsAreSafeAndPresent(f, s, ls);
  }

  // ----- Marking a rollback reported ----------------------------------------------------------------

  /** In every run whose updates are begun with care, marking a rollback reported changes nothing of the
      record on disk but its Reported flag. */
  lemma MarkingOnlyMarks(f: Fleet, s: State, ls: seq<Label>, write: bool)
    requires Initial(f, s) && Run(f, s, ls) && OneAtATime(f, s, ls)
    requires f.home.Outside? && Enabled(f, After(f, s, ls), MarkWrite(write))
    ensures var t := After(f, s, ls);
            && IsRolledBack(t.disk)
            && Step(f, t, MarkWrite(write)).disk == if write then Some(t.disk.value.(reported := true)) else t.disk
  {
    hide Safe, Present, Run, After, Initial, OneAtATime;
    CarefulRunsAreSafeAndPresent(f, s, ls);
    MarkingIsSettled(f, After(f, s, ls));
  }

  lemma FreshIsPresent(f: Fleet, s: State)
    requires Initial(f, s) && f.home.Outside?
    ensures Present(s) && Safe(f, s)
  {
  }

  // ----- From a verdict to its memory ----------------------------------------------------------------

  /** Supervisor id writes the rollback r, which takes s to t. */
  ghost predicate RollsBack(f: Fleet, s: State, id: nat, r: Record, t: State) {
    && Where(s, id) == Some(Recording(RolledBack))
    && r == s.sups[id].rec.(status := RolledBack, detail := r.detail) && t == Step(f, s, Record_(id, r.detail, true))
  }

  /** Neither a check-in that has read the record and not yet written it, nor a look that read it as anything
      but an attempt at r's version, under way or rolled back. */
  predicate NothingInHand(agent: Option<Agent>, r: Record) {
    agent.Some? ==> agent.value.proof.None? && (agent.value.job.Considering? ==> AtRest(agent.value.job, r))
  }

  /** A rollback written by a supervisor is remembered for good exactly when the agent has nothing in hand. */
  lemma VerdictIsQuietExactly(f: Fleet, s: State, id: nat, r: Record, t: State)
    requires Safe(f, s) && Present(s) && RollsBack(f, s, id, r, t)
    ensures Quiet(t, r) <==> NothingInHand(s.agent, r)
  {
    hide Supplied, HasFile, OkPath, FilesOk, Good;
    AgentIsAside(s, id);
    assert s.sups - {id} == map[];
  }

  /** The step writes the refusal r: of a build whose signature does not hold, or of one that cannot run here. */
  ghost predicate Refuses(f: Fleet, s: State, l: Label, r: Record) {
    && AgentEnabled(f, s, l)
    && ((l.Refuse? && l.write) || (l.WrongMachine? && l.write))
    && var a := s.agent.value; r == RefusedRecord(a.job.item, a.running, a.job.build.version, l.detail)
  }

  /** A refusal always is. */
  lemma RefusalIsQuiet(f: Fleet, s: State, l: Label, r: Record)
    requires Present(s) && Refuses(f, s, l, r)
    ensures Quiet(Step(f, s, l), r)
  {
    hide Verified, ValidVersion;
  }

  lemma CarefulRunsAreSafeAndPresent(f: Fleet, s: State, ls: seq<Label>)
    requires Initial(f, s) && f.home.Outside? && Run(f, s, ls) && OneAtATime(f, s, ls)
    ensures Safe(f, After(f, s, ls)) && Present(After(f, s, ls))
  {
    hide Safe, Present, Initial, OneAtATime, Step, Enabled;
    FreshIsPresent(f, s);
    RunsAreSafe(f, s, ls);
    RunsKeepPresent(f, s, ls);
  }

  /** From a fresh device: once a careful run has written a rollback while the agent had nothing in hand, and
      only that version is offered, under whatever id, it is never downloaded again. */
  lemma RolledBackIsNeverFetchedAgain(f: Fleet, s: State, ls: seq<Label>, id: nat, r: Record, t: State, more: seq<Label>)
    requires Initial(f, s) && f.home.Outside? && Run(f, s, ls) && OneAtATime(f, s, ls)
    requires RollsBack(f, After(f, s, ls), id, r, t)
    requires NothingInHand(After(f, s, ls).agent, r)
    requires Run(f, t, more) && forall i :: 0 <= i < |more| ==> OffersOnly(more[i], r)
    ensures forall i :: 0 <= i < |more| ==> !Fetches(more[i])
    ensures After(f, t, more).disk.Some? && SameButReported(After(f, t, more).disk.value, r)
  {
    hide *;
    CarefulRunsAreSafeAndPresent(f, s, ls);
    VerdictIsQuietExactly(f, After(f, s, ls), id, r, t);
    NeverFetchedAgain(f, t, more, r);
  }

  /** Nor is a build that was refused, under whatever version, while only its item is offered. */
  lemma RefusedIsNeverFetchedAgain(f: Fleet, s: State, ls: seq<Label>, l: Label, r: Record, more: seq<Label>)
    requires Initial(f, s) && f.home.Outside? && Run(f, s, ls) && OneAtATime(f, s, ls)
    requires Refuses(f, After(f, s, ls), l, r) && Enabled(f, After(f, s, ls), l)
    requires Run(f, Step(f, After(f, s, ls), l), more) && forall i :: 0 <= i < |more| ==> OffersOnly(more[i], r)
    ensures forall i :: 0 <= i < |more| ==> !Fetches(more[i])
    ensures var t := After(f, Step(f, After(f, s, ls), l), more); t.disk.Some? && SameButReported(t.disk.value, r)
  {
    hide *;
    CarefulRunsAreSafeAndPresent(f, s, ls);
    RefusalIsQuiet(f, After(f, s, ls), l, r);
    NeverFetchedAgain(f, Step(f, After(f, s, ls), l), more, r);
  }

  // ----- What a verdict says of the service -----------------------------------------------------------

  /** A rollback about to be recorded is true of the service. */
  ghost predicate Truthful(s: State) {
    forall i :: i in s.sups && s.sups[i].Supervising? && s.sups[i].at == Recording(RolledBack) ==> s.svc.path != s.sups[i].rec.toPath
  }

  /** Asking the controller is what decides whether the verdict will be true, exactly when it answers or there is
      nothing to contradict. */
  lemma AskIsTrueExactly(f: Fleet, s: State, id: nat, answered: bool)
    requires Where(s, id) == Some(Asking)
    ensures var t, rec := Step(f, s, Ask(id, answered)), s.sups[id].rec;
            && t.sups[id].Supervising? && t.sups[id].at.Recording? && t.svc == s.svc
            && (ThreeWay(rec, Some(rec.(status := t.sups[id].at.verdict)), t.svc) <==> answered || s.svc.path != rec.toPath)
  {
  }

  lemma ControlKeepsTruthful(s: State, id: nat, call: Call)
    requires Present(s) && Truthful(s) && InControl(s, id)
    ensures Truthful(ControlStep(s, id, call))
  {
    var rec, at, t := s.sups[id].rec, s.sups[id].at, ControlStep(s, id, call);
    assert SupervisorFits(s, s.sups[id]);
    EffectMoves(s, rec, at, call);
    NextRecording(at, call.Worked?);
    NamedRestored(at);
    hide HasFile, NextAt, Repointed, Restored, Effect;
    assert forall i :: i in t.sups ==> i == id;
  }

  lemma NextRecording(at: At, ok: bool)
    ensures NextAt(at, ok) == Some(Recording(RolledBack)) ==> at.Stopping? || at.UndoStarting?
  {
  }

  lemma SupervisorKeepsTruthful(s: State, l: Label)
    requires Truthful(s) && SupEnabled(s, l) && !l.Control? && (l.Ask? ==> l.answered)
    ensures Truthful(SupStep(s, l))
  {
    hide ControlStep;
  }

  lemma LeftTruthful(s: State, t: State)
    requires Truthful(s) && LeavesSupervisors(s, t)
    ensures Truthful(t)
  {
  }

  lemma StepKeepsTruthful(f: Fleet, s: State, l: Label)
    requires Present(s) && Truthful(s) && Enabled(f, s, l) && (l.Ask? ==> l.answered)
    ensures Truthful(Step(f, s, l))
  {
    hide ReportStep, StageStep, Excuse, Present, ControlStep, Truthful, LeavesSupervisors, JobEnabled;
    var t := if ForSupervisor(l) then SupStep(s, l) else AgentStep(f, s, l);
    if l.Control? {
      ControlKeepsTruthful(s, l.id, l.call);
    } else if ForSupervisor(l) {
      SupervisorKeepsTruthful(s, l);
    } else if ForReports(l) {
      ReportsLeave(f, s, l);
      LeftTruthful(s, t);
    } else {
      StagingLeaves(f, s, l);
      LeftTruthful(s, t);
    }
    OrphanedAside(t, s.orphaned || Excuse(s, l));
  }

  lemma OrphanedAside(s: State, orphaned: bool)
    requires Truthful(s)
    ensures Truthful(s.(orphaned := orphaned))
  {
  }

  /** The agent moves neither the service nor a supervisor that is at work. */
  predicate LeavesSupervisors(s: State, t: State) {
    t.svc == s.svc && forall i :: i in t.sups && t.sups[i].Supervising? ==> i in s.sups && t.sups[i] == s.sups[i]
  }

  lemma ReportsLeave(f: Fleet, s: State, l: Label)
    requires AgentEnabled(f, s, l) && ForReports(l)
    ensures LeavesSupervisors(s, ReportStep(f, s, l))
  {
    hide Reconcile;
    assert ReportStep(f, s, l).sups == s.sups;
  }

  lemma StagingLeaves(f: Fleet, s: State, l: Label)
    requires AgentEnabled(f, s, l) && !ForReports(l)
    ensures LeavesSupervisors(s, StageStep(f, s, l))
  {
    hide Verified, ValidVersion, Decide, AlreadyRefused;
    assert l.Spawn? || StageStep(f, s, l).sups == s.sups;
  }

  /** Every question to the controller is answered along the way. */
  ghost predicate AllAnswered(ls: seq<Label>) { forall i :: 0 <= i < |ls| && ls[i].Ask? ==> ls[i].answered }

  lemma {:induction false} RunsKeepTruthful(f: Fleet, s: State, ls: seq<Label>)
    requires Safe(f, s) && Present(s) && Truthful(s) && Run(f, s, ls) && OneAtATime(f, s, ls) && AllAnswered(ls)
    ensures Truthful(After(f, s, ls))
    decreases |ls|
  {
    hide Safe, Present, Truthful, Step, Enabled, Careful;
    if ls != [] {
      StepKeepsSafe(f, s, ls[0]);
      StepKeepsPresent(f, s, ls[0]);
      StepKeepsTruthful(f, s, ls[0]);
      assert forall i :: 0 <= i < |ls| - 1 ==> ls[1..][i] == ls[i + 1];
      RunsKeepTruthful(f, Step(f, s, ls[0]), ls[1..]);
    }
  }

  /** A supervisor's last word on the record: its verdict, or taking the record of a success away. */
  predicate Concludes(s: State, l: Label) {
    || (l.Record_? && l.write)
    || (l.Remove? && l.remove && Where(s, l.id) == Some(Settling))
  }

  /** In every careful run in which the controller answers, whatever interleaves and whatever else fails, a
      supervisor concludes with one of the three: the record gone and the new build wired, rolled back and it
      not, or pending and it wired. */
  lemma ConclusionIsTrue(f: Fleet, s: State, ls: seq<Label>, l: Label)
    requires Initial(f, s) && f.home.Outside? && Run(f, s, ls) && OneAtATime(f, s, ls) && AllAnswered(ls)
    requires Enabled(f, After(f, s, ls), l) && Concludes(After(f, s, ls), l)
    ensures var t, u := After(f, s, ls), Step(f, After(f, s, ls), l);
            l.id in t.sups && t.sups[l.id].Supervising? && ThreeWay(t.sups[l.id].rec, u.disk, u.svc)
  {
    var t := After(f, s, ls);
    CarefulRunsAreSafeAndPresent(f, s, ls);
    assert Truthful(s) && Safe(f, s) && Present(s) by { FreshIsPresent(f, s); }
    RunsKeepTruthful(f, s, ls);
    hide Run, After, Initial, OneAtATime, AllAnswered;
    ConcludesTruly(f, t, l);
  }

  lemma ConcludesTruly(f: Fleet, t: State, l: Label)
    requires Present(t) && Truthful(t) && Enabled(f, t, l) && Concludes(t, l)
    ensures var u := Step(f, t, l);
            l.id in t.sups && t.sups[l.id].Supervising? && ThreeWay(t.sups[l.id].rec, u.disk, u.svc)
  {
    hide HasFile, ControlStep, AgentStep;
    assert SupervisorFits(t, t.sups[l.id]);
  }
}
