/** The update protocol on a host where the service is a systemd unit: what Config answers follows the
    service the protocol speaks of, through every update, rollback and half-failed call. */
module SystemdUpdates {
  import opened Prelude
  import opened SelfUpdate
  import opened UpdateProtocol
  import CarefulRuns
  import Systemd
  import SystemdShow

  /** What paths are called on this host. */
  type Names = Path -> string

  /** The step gets as far as replacing the drop-in. */
  predicate Rewrites(s: State, l: Label) {
    && l.Control? && InControl(s, l.id) && s.sups[l.id].at in {Repointing, UndoRepointing, CancelRepointing}
    && (l.call.Worked? || l.call.applied)
  }

  /** The drop-in after it: SetBinPath is called with the path and the arguments of the record. */
  function DropInAfter(f: Fleet, n: Names, s: State, d: Option<string>, l: Label): Option<string>
    requires Enabled(f, s, l)
  {
    if !Rewrites(s, l) then d
    else
      var rec := s.sups[l.id].rec;
      Some(Systemd.DropIn([n(if s.sups[l.id].at.Repointing? then rec.toPath else rec.fromPath)] + rec.fromArgs))
  }

  ghost function DropInAtEnd(f: Fleet, n: Names, s: State, d: Option<string>, ls: seq<Label>): Option<string>
    requires Run(f, s, ls)
    decreases |ls|
  {
    if ls == [] then d else DropInAtEnd(f, n, Step(f, s, ls[0]), DropInAfter(f, n, s, d, ls[0]), ls[1..])
  }

  /** Config answers the service the protocol speaks of. */
  ghost predicate Tells(n: Names, d: Option<string>, shown: Result<seq<string>>, svc: Service) {
    Systemd.Answered(d, shown) == Ok((n(svc.path), svc.args))
  }

  /** Every command line an update could write reads back. */
  ghost predicate AllReadable(f: Fleet, n: Names) {
    forall p :: OkPath(f, p) ==> Systemd.Readable([n(p)] + f.args)
  }

  lemma ControlWrites(f: Fleet, n: Names, s: State, d: Option<string>, id: nat, call: Call)
    requires InControl(s, id)
    ensures var t, l := ControlStep(s, id, call), Control(id, call);
            if Rewrites(s, l) then DropInAfter(f, n, s, d, l) == Some(Systemd.DropIn([n(t.svc.path)] + t.svc.args)) else t.svc == s.svc
  {
    hide Systemd.DropIn, NextAt;
  }

  lemma OthersLeaveTheService(s: State, l: Label)
    requires SupEnabled(s, l) && !l.Control?
    ensures SupStep(s, l).svc == s.svc
  {
    hide ControlStep;
  }

  lemma WritesWhatItWires(f: Fleet, n: Names, s: State, d: Option<string>, l: Label)
    requires Enabled(f, s, l)
    ensures var t := Step(f, s, l);
            if Rewrites(s, l) then DropInAfter(f, n, s, d, l) == Some(Systemd.DropIn([n(t.svc.path)] + t.svc.args)) else t.svc == s.svc
  {
    hide Systemd.DropIn, ReportStep, StageStep, Excuse, JobEnabled, ControlStep;
    if l.Control? {
      ControlWrites(f, n, s, d, l.id, l.call);
    } else if ForSupervisor(l) {
      OthersLeaveTheService(s, l);
    } else if ForReports(l) {
      CarefulRuns.ReportsLeave(f, s, l);
    } else {
      CarefulRuns.StagingLeaves(f, s, l);
    }
  }

  lemma StepKeepsTelling(f: Fleet, n: Names, shown: Result<seq<string>>, s: State, d: Option<string>, l: Label)
    requires Safe(f, s) && AllReadable(f, n) && Tells(n, d, shown, s.svc) && Enabled(f, s, l)
    ensures Safe(f, Step(f, s, l)) && Tells(n, DropInAfter(f, n, s, d, l), shown, Step(f, s, l).svc)
  {
    var t := Step(f, s, l);
    StepKeepsSafe(f, s, l);
    WritesWhatItWires(f, n, s, d, l);
    if Rewrites(s, l) {
      assert OkPath(f, t.svc.path) && t.svc.args == f.args;
      var argv := [n(t.svc.path)] + f.args;
      assert argv[0] == n(t.svc.path) && argv[1..] == f.args;
      hide Step, Enabled, OkPath, DropInAfter, Safe, Systemd.DropIn, Systemd.Readable, Systemd.ReadUnit;
      Systemd.DropInReadsBack(argv);
    }
  }

  lemma {:induction false} RunsKeepTelling(f: Fleet, n: Names, shown: Result<seq<string>>, s: State, d: Option<string>, ls: seq<Label>)
    requires Safe(f, s) && AllReadable(f, n) && Tells(n, d, shown, s.svc) && Run(f, s, ls)
    ensures Safe(f, After(f, s, ls)) && Tells(n, DropInAtEnd(f, n, s, d, ls), shown, After(f, s, ls).svc)
    decreases |ls|
  {
    hide Safe, AllReadable, Tells, Step, Enabled, DropInAfter;
    if ls != [] {
      StepKeepsTelling(f, n, shown, s, d, ls[0]);
      RunsKeepTelling(f, n, shown, Step(f, s, ls[0]), DropInAfter(f, n, s, d, ls[0]), ls[1..]);
    }
  }

  /** From a unit as it was installed, any number of updates and rollbacks, whatever fails: Config answers the
      path the service is wired to and the arguments it was installed with, if the first command line it is
      shown reads back. */
  lemma ArgumentsSurvive(f: Fleet, n: Names, s: State, ls: seq<Label>, tail: string)
    requires Initial(f, s) && Run(f, s, ls) && AllReadable(f, n) && SystemdShow.Showable([n(f.home)] + f.args)
    ensures var shown := SystemdShow.ParseShow(SystemdShow.Shown([n(f.home)] + f.args, tail));
            Systemd.Answered(DropInAtEnd(f, n, s, None, ls), shown) == Ok((n(After(f, s, ls).svc.path), f.args))
  {
    var argv := [n(f.home)] + f.args;
    var shown := SystemdShow.ParseShow(SystemdShow.Shown(argv, tail));
    SystemdShow.ShowReadsBack(argv, tail);
    assert argv[1..] == f.args;
    hide SystemdShow.Showable, SystemdShow.ParseShow, SystemdShow.Shown;
    assert Tells(n, None, shown, s.svc);
    RunsKeepTelling(f, n, shown, s, None, ls);
  }

  lemma ShownAsAnswered(n: Names, shown: Result<seq<string>>, svc: Service)
    ensures Tells(n, None, shown, svc) ==> shown == Ok([n(svc.path)] + svc.args)
  {
    assert shown.Ok? && shown.value != [] ==> shown.value == [shown.value[0]] + shown.value[1..];
  }

  /** After this run Config answers the wired path and the installed arguments. */
  ghost predicate SurviveRun(f: Fleet, n: Names, s: State, shown: Result<seq<string>>, ls: seq<Label>)
    requires Run(f, s, ls)
  {
    Tells(n, DropInAtEnd(f, n, s, None, ls), shown, Service(After(f, s, ls).svc.path, f.args))
  }

  lemma BeforeAnyStep(f: Fleet, n: Names, s: State, shown: Result<seq<string>>)
    requires Initial(f, s)
    ensures Run(f, s, []) && (SurviveRun(f, n, s, shown, []) ==> shown == Ok([n(f.home)] + f.args))
  {
    var none: seq<Label> := [];
    assert DropInAtEnd(f, n, s, None, none) == None && After(f, s, none) == s;
    ShownAsAnswered(n, shown, Service(f.home, f.args));
  }

  /** They survive every run exactly when what systemctl shows of the installed command line reads back. */
  lemma ArgumentsSurviveExactly(f: Fleet, n: Names, s: State, tail: string)
    requires Initial(f, s) && AllReadable(f, n)
    ensures var argv := [n(f.home)] + f.args;
            var shown := SystemdShow.ParseShow(SystemdShow.Shown(argv, tail));
            (forall ls :: Run(f, s, ls) ==> SurviveRun(f, n, s, shown, ls)) <==> SystemdShow.Showable(argv)
  {
    var argv := [n(f.home)] + f.args;
    var shown := SystemdShow.ParseShow(SystemdShow.Shown(argv, tail));
    SystemdShow.ShowReadsBack(argv, tail);
    if SystemdShow.Showable(argv) {
      forall ls | Run(f, s, ls)
        ensures SurviveRun(f, n, s, shown, ls)
      {
        ArgumentsSurvive(f, n, s, ls, tail);
      }
    } else {
      hide *;
      BeforeAnyStep(f, n, s, shown);
    }
  }

  // ----- The first update of a unit -----------------------------------------------------------------

  /** The drop-in the first update writes: the new build's path, and the arguments as Config answered them for
      the record. */
  function FirstSwap(answer: seq<string>, to: string): string
    requires answer != []
  {
    Systemd.DropIn([to] + answer[1..])
  }

  /** With a path that reads back, the service has the arguments it was installed with after its first update
      exactly when what systemctl shows of the installed command line reads back. */
  lemma FirstUpdateKeepsArgumentsExactly(argv: seq<string>, tail: string, to: string)
    requires argv != [] && SystemdShow.Word(argv[0]) && SystemdShow.Find(argv[0], SystemdShow.MARKER).None?
    ensures var shown := SystemdShow.ParseShow(SystemdShow.Shown(argv, tail));
            && shown.Ok? && shown.value != []
            && (Systemd.Readable([to] + shown.value[1..]) ==>
                  (Systemd.Answered(Some(FirstSwap(shown.value, to)), shown) == Ok((to, argv[1..])) <==> SystemdShow.Showable(argv)))
  {
    var shown := SystemdShow.ParseShow(SystemdShow.Shown(argv, tail));
    SystemdShow.PathReadsBack(argv, tail);
    SystemdShow.ShowReadsBack(argv, tail);
    var now := [to] + shown.value[1..];
    Systemd.DropInReadsBack(now);
    hide SystemdShow.ParseShow, SystemdShow.Shown, SystemdShow.Showable, Systemd.Readable, Systemd.DropIn, Systemd.ReadUnit;
    assert now[0] == to && now[1..] == shown.value[1..];
    assert argv == [argv[0]] + argv[1..] && shown.value == [shown.value[0]] + shown.value[1..];
  }
}
