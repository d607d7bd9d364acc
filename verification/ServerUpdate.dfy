/** One server update, from request to finished state: internal/serverupdate/update.go, carried out on
    a plain binary under systemd as internal/serverupdate/binary.go does it. */
module ServerUpdate {
  import opened Prelude
  import opened Text
  import opened Release
  import Versions

  datatype Phase = Queued | Verifying | BackingUp | Pulling | Restarting | Healthy | RolledBack | Failed {
    predicate Done() { Healthy? || RolledBack? || Failed? }
  }

  datatype Request = Request(id: string, version: string)

  datatype State = State(id: string, version: string, fromVersion: string, phase: Phase, error: string, backup: bool)

  // ----- What the world answers ---------------------------------------------------------------

  /** A copy that fails may have truncated its destination, or not even opened it. */
  datatype Copy = Copied | CopyFailed(left: Option<Bytes>)

  datatype InstallCalls = InstallCalls(copy: Copy, chmod: bool, rename: bool)

  /** Every answer one run can get. The staged file and the installed binary are read from disk. */
  datatype World = World(
    current: Option<string>,
    fetched: Option<(Bytes, Bytes)>,
    backup: bool,
    keepPrevious: Copy,
    installNew: InstallCalls,
    restartNew: bool,
    newIsReady: bool,
    installOld: InstallCalls,
    restartOld: bool,
    oldIsReady: bool)

  // ----- Verifying ----------------------------------------------------------------------------

  function TrimV(s: string): string { if s != "" && s[0] == 'v' then s[1..] else s }

  /** serverupdate.Verify. */
  function VerifyRequested(c: Crypto, keys: seq<Key>, raw: Bytes, sigRaw: Bytes, want: string, current: string): (r: Result<ReleaseManifest>)
    ensures r.Ok? ==> Published(c, keys, raw, r.value) && r.value.version == TrimV(want)
                      && Versions.Newer(r.value.version, current)
  {
    match c.decodeSidecar(sigRaw)
    case None => Err("release.json.sig")
    case Some(sig) =>
      match VerifyReleaseManifest(c, keys, raw, sig)
      case Err(e) => Err(e)
      case Ok(m) =>
        if m.version != TrimV(want) then Err("the manifest is for another version")
        else if !Versions.Newer(m.version, current) then Err("that version is not newer than the one running")
        else Ok(m)
  }

  /** An update is cleared exactly when the sidecar reads, the manifest is accepted, and the version is the
      one asked for and newer than the one running. */
  lemma RequestedExactly(c: Crypto, keys: seq<Key>, raw: Bytes, sigRaw: Bytes, want: string, current: string, m: ReleaseManifest)
    requires KeysApart(c, keys)
    ensures VerifyRequested(c, keys, raw, sigRaw, want, current) == Ok(m) <==>
              && c.decodeSidecar(sigRaw).Some?
              && var sig := c.decodeSidecar(sigRaw).value;
              && EqualFold(sig.sha256, c.sha256(raw)) && c.decode(raw) == Some(m) && Valid(m)
              && m.version == sig.version == TrimV(want) && Versions.Newer(m.version, current)
              && Endorsed(c, keys, sig.keyID, ReleaseSigned(m.version, c.sha256(raw)), sig.signature)
  {
    hide VerifyReleaseManifest, EqualFold, Valid, ReleaseSigned, Versions.Newer, TrimV, Endorsed;
    if c.decodeSidecar(sigRaw).Some? {
      ManifestExactly(c, keys, raw, c.decodeSidecar(sigRaw).value, m);
    }
  }

  // ----- One update after another -----------------------------------------------------------------

  predicate Later(a: string, b: string) { Versions.Order(Versions.Effective(a), Versions.Effective(b)) < 0 }

  lemma LaterTransitive(a: string, b: string, c: string)
    requires Versions.Canonical(Versions.Effective(a)) && Versions.Canonical(Versions.Effective(b))
    requires Versions.Canonical(Versions.Effective(c)) && Later(a, b) && Later(b, c)
    ensures Later(a, c)
  {
    hide Versions.Order, Versions.Canonical, Versions.Effective;
    Versions.CompareIsTransitive(Versions.Effective(a), Versions.Effective(b), Versions.Effective(c));
  }

  lemma NewerIsLater(a: string, b: string)
    requires Versions.Canonical(Versions.Effective(a)) && Versions.Canonical(Versions.Effective(b)) && Versions.Newer(b, a)
    ensures Later(a, b) && a != b
  {
    hide Versions.Order, Versions.Canonical, Versions.Effective, Versions.Newer;
    Versions.NewerIsLater(b, a);
    Versions.CompareIsAntisymmetric(Versions.Effective(a), Versions.Effective(b));
    Versions.CompareZero(Versions.Effective(a), Versions.Effective(b));
  }

  predicate StaysOrMovesUp(a: string, b: string) { a == b || Versions.Newer(b, a) }

  /** From one moment to the next the version installed stays or is replaced by a newer one. */
  predicate OnlyNewer(seen: seq<string>) {
    forall i :: 0 < i < |seen| ==> StaysOrMovesUp(seen[i - 1], seen[i])
  }

  /** So it is never replaced by an earlier one, */
  lemma {:induction false} NeverDown(seen: seq<string>, i: nat, j: nat)
    requires Versions.AllOrdered(seen) && OnlyNewer(seen) && i <= j < |seen|
    ensures seen[i] == seen[j] || Later(seen[i], seen[j])
    decreases j
  {
    hide Versions.Canonical, Versions.Effective, Later, Versions.Newer;
    if i < j {
      NeverDown(seen, i, j - 1);
      assert StaysOrMovesUp(seen[j - 1], seen[j]);
      if seen[j - 1] != seen[j] {
        NewerIsLater(seen[j - 1], seen[j]);
        if seen[i] != seen[j - 1] { LaterTransitive(seen[i], seen[j - 1], seen[j]); }
      }
    }
  }

  /** and none that was replaced comes back. */
  lemma NeverBack(seen: seq<string>, i: nat, k: nat, j: nat)
    requires Versions.AllOrdered(seen) && OnlyNewer(seen) && i < k <= j < |seen| && Versions.Newer(seen[k], seen[k - 1])
    ensures Later(seen[i], seen[j]) && seen[i] != seen[j]
  {
    hide Versions.Canonical, Versions.Effective, Versions.Newer, Versions.Order;
    NeverDown(seen, i, k - 1);
    NewerIsLater(seen[k - 1], seen[k]);
    NeverDown(seen, k, j);
    if seen[i] != seen[k - 1] { LaterTransitive(seen[i], seen[k - 1], seen[k]); }
    if seen[k] != seen[j] { LaterTransitive(seen[i], seen[k], seen[j]); }
    Versions.CompareZero(Versions.Effective(seen[i]), Versions.Effective(seen[j]));
  }

  // ----- The phases ---------------------------------------------------------------------------

  predicate Follows(a: Phase, b: Phase) {
    match a
    case Queued => b.Verifying?
    case Verifying => b.BackingUp? || b.Failed?
    case BackingUp => b.Pulling? || b.Failed?
    case Pulling => b.Restarting? || b.Failed?
    case Restarting => b.Restarting? || b.Done()
    case _ => false
  }

  ghost predicate Path(saves: seq<State>) {
    && saves != [] && saves[0].phase == Queued
    && (forall i :: 0 < i < |saves| ==> Follows(saves[i - 1].phase, saves[i].phase))
  }

  /** A finished state is never followed by another. */
  lemma PathStopsWhenDone(saves: seq<State>, i: nat)
    requires Path(saves) && i < |saves| && saves[i].phase.Done()
    ensures i == |saves| - 1
  {
    var j := i + 1;
    assert j < |saves| ==> Follows(saves[j - 1].phase, saves[j].phase);
  }

  // ----- The host -----------------------------------------------------------------------------

  datatype Installation = Installation(binary: string, staged: string, arch: string) {
    function Previous(): string { binary + ".previous" }
    function New(): string { binary + ".new" }
    /** The staged download lies in the updater's own directory, away from the installed binary. */
    predicate Apart() {
      staged != binary && staged != Previous() && staged != New()
    }
  }

  /** The staged bytes are the ones a verified manifest names for this machine. */
  predicate Matches(c: Crypto, inst: Installation, m: ReleaseManifest, bytes: Bytes) {
    match FindAsset(m.assets, ASSET_SERVER, "linux", inst.arch)
    case None => false
    case Some(a) => EqualFold(c.sha256(bytes), a.sha256)
  }

  predicate InstallWorks(o: InstallCalls) { o.copy.Copied? && o.chmod && o.rename }

  class Host {
    const inst: Installation
    const crypto: Crypto
    const keys: seq<Key>
    var files: map<string, Bytes>
    /** What the console has been shown of the run under way. */
    var saves: seq<State>
    /** How many times Swap and Restore have run. */
    ghost var swaps: nat
    ghost var restores: nat

    ghost predicate Ready()
      reads this
    {
      inst.Apart() && inst.binary in files
    }

    constructor (inst: Installation, crypto: Crypto, keys: seq<Key>, files: map<string, Bytes>)
      ensures this.inst == inst && this.crypto == crypto && this.keys == keys && this.files == files && saves == []
    {
      this.inst, this.crypto, this.keys, this.files, this.saves := inst, crypto, keys, files, [];
      swaps, restores := 0, 0;
    }

    /** copyFile: on success the destination holds the source's bytes; no other file changes. */
    method CopyFile(src: string, dst: string, o: Copy) returns (ok: bool)
      modifies this`files
      ensures ok <==> o.Copied? && src in old(files)
      ensures ok ==> files == old(files)[dst := old(files)[src]]
      ensures forall p :: p != dst ==> (p in files <==> p in old(files)) && (p in files ==> files[p] == old(files)[p])
    {
      if src !in files {
        return false;
      }
      match o
      case Copied =>
        files := files[dst := files[src]];
        ok := true;
      case CopyFailed(left) =>
        if left.Some? {
          files := files[dst := left.value];
        }
        ok := false;
    }

    /** install: the destination ends as it was or whole, because only a rename touches it. */
    method Install(src: string, o: InstallCalls) returns (ok: bool)
      requires Ready() && src != inst.New() && src in files
      modifies this`files
      ensures Ready()
      ensures ok <==> InstallWorks(o)
      ensures files[inst.binary] == if ok then old(files)[src] else old(files)[inst.binary]
      ensures forall p :: p != inst.binary && p != inst.New() ==>
                (p in files <==> p in old(files)) && (p in files ==> files[p] == old(files)[p])
    {
      var tmp := inst.New();
      ok := CopyFile(src, tmp, o.copy);
      if !ok || !o.chmod || !o.rename {
        return false;
      }
      files := files[inst.binary := files[tmp]] - {tmp};
    }

    /** Binary.Stage. */
    method Stage(m: ReleaseManifest) returns (target: Option<string>)
      ensures target == if inst.staged in files && Matches(crypto, inst, m, files[inst.staged])
                        then Some(inst.staged) else None
    {
      var a := FindAsset(m.assets, ASSET_SERVER, "linux", inst.arch);
      if a.None? || inst.staged !in files {
        return None;
      }
      if !EqualFold(crypto.sha256(files[inst.staged]), a.value.sha256) {
        return None;
      }
      return Some(inst.staged);
    }

    /** Binary.Swap: an empty answer means the installed binary is untouched; any other names a copy
        of it, and the staged bytes are in place. */
    method Swap(target: string, w: World) returns (previous: string, ok: bool)
      requires Ready() && target == inst.staged && target in files
      modifies this`files, this`swaps
      ensures Ready() && swaps == old(swaps) + 1
      ensures ok <==> w.keepPrevious.Copied? && InstallWorks(w.installNew) && w.restartNew
      ensures previous != "" <==> w.keepPrevious.Copied? && InstallWorks(w.installNew)
      ensures previous == "" ==> files[inst.binary] == old(files)[inst.binary]
      ensures previous != "" ==> && previous == inst.Previous() && previous in files
                                 && files[previous] == old(files)[inst.binary]
                                 && files[inst.binary] == old(files)[target]
    {
      swaps := swaps + 1;
      var was := files[inst.binary];
      var kept := CopyFile(inst.binary, inst.Previous(), w.keepPrevious);
      if !kept {
        return "", false;
      }
      assert inst.Previous() != inst.New() by { assert inst.Previous()[|inst.binary| + 1] == 'p'; assert inst.New()[|inst.binary| + 1] == 'n'; }
      assert |inst.Previous()| != |inst.binary|;
      var installed := Install(target, w.installNew);
      if !installed {
        return "", false;
      }
      return inst.Previous(), w.restartNew;
    }

    /** Binary.Restore: the copy is back in place even when only the restart failed. */
    method Restore(previous: string, w: World) returns (ok: bool)
      requires Ready() && previous == inst.Previous() && previous in files
      modifies this`files, this`restores
      ensures Ready() && restores == old(restores) + 1
      ensures ok <==> InstallWorks(w.installOld) && w.restartOld
      ensures files[inst.binary] == if InstallWorks(w.installOld) then old(files)[previous] else old(files)[inst.binary]
    {
      restores := restores + 1;
      assert inst.Previous() != inst.New() by { assert inst.Previous()[|inst.binary| + 1] == 'p'; assert inst.New()[|inst.binary| + 1] == 'n'; }
      var installed := Install(previous, w.installOld);
      if !installed {
        return false;
      }
      return w.restartOld;
    }

    /** The closure set in Run: the console sees every phase, in order. */
    method Save(st: State)
      requires if saves == [] then st.phase == Queued else Path(saves) && Follows(saves[|saves| - 1].phase, st.phase)
      modifies this`saves
      ensures saves == old(saves) + [st] && Path(saves)
    {
      saves := saves + [st];
    }

    method Fail(was: State, error: string) returns (st: State)
      requires Path(saves) && Follows(saves[|saves| - 1].phase, Failed)
      modifies this`saves
      ensures st == was.(error := error, phase := Failed) && saves == old(saves) + [st] && Path(saves)
    {
      st := was.(error := error, phase := Failed);
      Save(st);
    }

    /** The manifest a run may install: fetched, signed, asked for, and newer than what runs. */
    function ClearedManifest(req: Request, w: World): Option<ReleaseManifest>
    {
      if w.current.None? || w.fetched.None? then None
      else match VerifyRequested(crypto, keys, w.fetched.value.0, w.fetched.value.1, req.version, w.current.value)
        case Ok(m) => Some(m)
        case Err(_) => None
    }

    /** Everything Swap waits for: a cleared manifest, a backup, and staged bytes that match it. */
    predicate MaySwap(req: Request, w: World)
      reads this`files
    {
      && ClearedManifest(req, w).Some? && w.backup
      && inst.staged in files && Matches(crypto, inst, ClearedManifest(req, w).value, files[inst.staged])
    }

    /** Updater.Run. Every run ends finished and saved. The installed binary is then the original or
        the verified bytes: the verified ones when the run is healthy, the original one when it was
        rolled back or failed without a failed Restore. Swap runs at most once, and only when
        everything it waits for is there. */
    method Run(req: Request, w: World) returns (st: State)
      requires Ready() && saves == []
      modifies this
      ensures Ready()
      ensures st.phase.Done() && Path(saves) && saves[|saves| - 1] == st
      ensures st.id == req.id && st.version == req.version && st.fromVersion == (if w.current.Some? then w.current.value else "")
      ensures st.backup <==> ClearedManifest(req, w).Some? && w.backup
      ensures swaps == old(swaps) + (if old(MaySwap(req, w)) then 1 else 0)
      ensures st.phase == Healthy <==>
                && old(MaySwap(req, w)) && w.keepPrevious.Copied? && InstallWorks(w.installNew)
                && w.restartNew && w.newIsReady
      ensures st.phase == RolledBack <==>
                && old(MaySwap(req, w)) && w.keepPrevious.Copied? && InstallWorks(w.installNew)
                && !(w.restartNew && w.newIsReady)
                && InstallWorks(w.installOld) && w.restartOld && w.oldIsReady
      ensures st.phase == Healthy ==>
                && files[inst.binary] == old(files)[inst.staged]
                && Matches(crypto, inst, ClearedManifest(req, w).value, files[inst.binary])
                && Published(crypto, keys, w.fetched.value.0, ClearedManifest(req, w).value)
                && Versions.Newer(TrimV(req.version), w.current.value)
      ensures files[inst.binary] != old(files)[inst.binary] ==>
                old(MaySwap(req, w)) && files[inst.binary] == old(files)[inst.staged]
      ensures st.phase == RolledBack ==> files[inst.binary] == old(files)[inst.binary]
      ensures st.phase == Failed && (restores == old(restores) || (InstallWorks(w.installOld) && w.restartOld)) ==>
                files[inst.binary] == old(files)[inst.binary]
    {
      hide VerifyRequested, Path, Matches, Follows, Published, Versions.Newer, TrimV;
      var target: Option<string>;
      st, target := Prepare(req, w);
      if target.Some? {
        st := Apply(st, target.value, w);
      }
    }

    /** Run as far as Stage: nothing on disk changes, and a target comes out exactly when everything
        Swap waits for is there. */
    method Prepare(req: Request, w: World) returns (st: State, target: Option<string>)
      requires Ready() && saves == []
      modifies this`saves
      ensures Path(saves) && saves[|saves| - 1] == st
      ensures target == if MaySwap(req, w) then Some(inst.staged) else None
      ensures st.phase == if target.Some? then Restarting else Failed
      ensures st.id == req.id && st.version == req.version && st.fromVersion == (if w.current.Some? then w.current.value else "")
      ensures st.backup <==> ClearedManifest(req, w).Some? && w.backup
    {
      hide VerifyRequested, Path, Matches, Published, Versions.Newer, TrimV;
      st := State(req.id, req.version, "", Queued, "", false);
      Save(st);
      target := None;

      st := st.(phase := Verifying);
      Save(st);
      if w.current.None? {
        st := Fail(st, "read the running version");
        return;
      }
      st := st.(fromVersion := w.current.value);
      if w.fetched.None? {
        st := Fail(st, "fetch the release");
        return;
      }
      var checked := VerifyRequested(crypto, keys, w.fetched.value.0, w.fetched.value.1, req.version, w.current.value);
      if checked.Err? {
        st := Fail(st, checked.error);
        return;
      }

      st := st.(phase := BackingUp);
      Save(st);
      if !w.backup {
        st := Fail(st, "back up the database");
        return;
      }
      st := st.(backup := true);

      st := st.(phase := Pulling);
      Save(st);
      target := Stage(checked.value);
      if target.None? {
        st := Fail(st, "fetch the new build");
        return;
      }

      st := st.(phase := Restarting);
      Save(st);
    }

    /** Run from Swap on: the new build is kept if it comes up, and taken out again if it does not. */
    method Apply(was: State, target: string, w: World) returns (st: State)
      requires Ready() && target == inst.staged && target in files
      requires was.phase == Restarting && Path(saves) && saves[|saves| - 1] == was
      modifies this
      ensures Ready() && swaps == old(swaps) + 1
      ensures st.phase.Done() && Path(saves) && saves[|saves| - 1] == st
      ensures st == was.(phase := st.phase, error := st.error)
      ensures st.phase == Healthy <==>
                w.keepPrevious.Copied? && InstallWorks(w.installNew) && w.restartNew && w.newIsReady
      ensures st.phase == RolledBack <==>
                && w.keepPrevious.Copied? && InstallWorks(w.installNew) && !(w.restartNew && w.newIsReady)
                && InstallWorks(w.installOld) && w.restartOld && w.oldIsReady
      ensures files[inst.binary] == old(files)[inst.binary] || files[inst.binary] == old(files)[inst.staged]
      ensures st.phase == Healthy ==> files[inst.binary] == old(files)[inst.staged]
      ensures st.phase == RolledBack ==> files[inst.binary] == old(files)[inst.binary]
      ensures st.phase == Failed && (restores == old(restores) || (InstallWorks(w.installOld) && w.restartOld)) ==>
                files[inst.binary] == old(files)[inst.binary]
    {
      assert saves != [];
      hide Path;
      st := was;
      var previous, swapped := Swap(target, w);
      if swapped && w.newIsReady {
        st := st.(phase := Healthy);
        Save(st);
        return;
      }
      st := st.(error := "the new build did not come up");
      if previous == "" {
        st := Fail(st, st.error);
        return;
      }
      Save(st);
      var restored := Restore(previous, w);
      if !restored || !w.oldIsReady {
        st := Fail(st, st.error + "; rolling back also failed");
        return;
      }
      st := st.(phase := RolledBack);
      Save(st);
    }

    /** A build that a published manifest names says, when asked, the version of that manifest. */
    ghost predicate BuildsSayTheirVersion(says: Bytes -> string) {
      forall raw, m, bytes :: Published(crypto, keys, raw, m) && Matches(crypto, inst, m, bytes) ==> says(bytes) == m.version
    }

    /** One of many runs: a file may have been staged since the last one, the version running is the one the
        installed binary says, and the console follows a new update. */
    method RunAgain(req: Request, world: World, staged: Option<Bytes>, says: Bytes -> string) returns (st: State)
      requires Ready() && BuildsSayTheirVersion(says)
      modifies this
      ensures Ready() && st.phase.Done()
      ensures var before, after := says(old(files)[inst.binary]), says(files[inst.binary]);
              && (after == before || Versions.Newer(after, before))
              && (st.phase == Healthy ==> Versions.Newer(after, before))
              && (st.phase == RolledBack ==> after == before)
    {
      hide VerifyRequested, Path, Matches, Follows, Published, Versions.Newer, TrimV;
      saves := [];
      if staged.Some? {
        files := files[inst.staged := staged.value];
      }
      var w := world.(current := if world.current.Some? then Some(says(files[inst.binary])) else None);
      ghost var was := files;
      if MaySwap(req, w) { Cleared(req, w); }
      st := Run(req, w);
      if files[inst.binary] != was[inst.binary] || st.phase == Healthy {
        assert files[inst.binary] == was[inst.staged];
      }
    }

    lemma Cleared(req: Request, w: World)
      requires ClearedManifest(req, w).Some?
      ensures var m := ClearedManifest(req, w).value;
              w.current.Some? && w.fetched.Some? && Published(crypto, keys, w.fetched.value.0, m) && Versions.Newer(m.version, w.current.value)
    {
      hide Published, Versions.Newer, TrimV;
    }

    /** Any number of updates, asked for by whoever, healthy, rolled back, failed or half restored: the version
        installed only ever goes up, a healthy run takes it up, and none that was replaced comes back. */
    method RunAll(reqs: seq<Request>, worlds: seq<World>, staged: seq<Option<Bytes>>, says: Bytes -> string)
      returns (seen: seq<string>, phases: seq<Phase>)
      requires Ready() && BuildsSayTheirVersion(says) && |reqs| == |worlds| == |staged|
      modifies this
      ensures Ready() && |seen| == |reqs| + 1 && |phases| == |reqs|
      ensures seen[0] == says(old(files)[inst.binary]) && seen[|reqs|] == says(files[inst.binary])
      ensures OnlyNewer(seen)
      ensures forall i :: 0 <= i < |phases| ==> phases[i].Done() && (phases[i] == Healthy ==> Versions.Newer(seen[i + 1], seen[i]))
      ensures Versions.AllOrdered(seen) ==> forall i, j :: 0 <= i <= j < |seen| ==> seen[i] == seen[j] || Later(seen[i], seen[j])
      ensures Versions.AllOrdered(seen) ==>
                forall i, k, j :: 0 <= i <= k < j < |seen| && phases[k] == Healthy ==> Later(seen[i], seen[j]) && seen[i] != seen[j]
    {
      hide Versions.Newer, Versions.AllOrdered, Later, BuildsSayTheirVersion;
      seen, phases := [says(files[inst.binary])], [];
      for n := 0 to |reqs|
        invariant Ready() && |seen| == n + 1 && |phases| == n && seen[n] == says(files[inst.binary])
        invariant seen[0] == says(old(files)[inst.binary]) && OnlyNewer(seen)
        invariant forall i :: 0 <= i < n ==> phases[i].Done() && (phases[i] == Healthy ==> Versions.Newer(seen[i + 1], seen[i]))
      {
        var st := RunAgain(reqs[n], worlds[n], staged[n], says);
        seen, phases := seen + [says(files[inst.binary])], phases + [st.phase];
      }
      if Versions.AllOrdered(seen) {
        forall i, j | 0 <= i <= j < |seen|
          ensures seen[i] == seen[j] || Later(seen[i], seen[j])
        {
          NeverDown(seen, i, j);
        }
        forall i, k, j | 0 <= i <= k < j < |seen| && phases[k] == Healthy
          ensures Later(seen[i], seen[j]) && seen[i] != seen[j]
        {
          NeverBack(seen, i, k + 1, j);
        }
      }
    }
  }
}
