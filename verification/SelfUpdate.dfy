/** The update record and the two pure decisions taken from it: internal/agent/selfupdate/record.go and
    internal/agent/selfupdate/decide.go. */
module SelfUpdate {
  import opened Prelude

  /** An image path, in the normal form two spellings of one file share: a build self-update staged
      under bin/<version>, or anything else. */
  datatype Path = Outside(name: string) | StagedAt(version: string)

  datatype Status = Pending | Succeeded | RolledBack | Refused

  /** update.json. */
  datatype Record = Record(
    itemID: string,
    fromVersion: string, fromPath: Path, fromArgs: seq<string>,
    toVersion: string, toPath: Path,
    deadline: int,
    status: Status, detail: string, reported: bool)

  datatype Decision = Update | Stay(reason: string, report: bool)

  /** Decide. */
  function Decide(running: string, offered: string, injected: bool, trusted: nat, attempted: Option<Record>): Decision {
    if !injected then Stay("this build has no injected version, so it will not self-update", true)
    else if offered == "" then Stay("the assigned build has no version", false)
    else if running == offered then Stay("this device is already running the assigned version", false)
    else if trusted == 0 then Stay("this build has no trusted release keys, so it will not self-update", true)
    else match attempted
      case Some(r) =>
        if r.toVersion == offered && r.status == RolledBack then
          Stay("this version was already tried here and rolled back", false)
        else if r.toVersion == offered && r.status == Pending then
          Stay("an update to this version is already under way", false)
        else Update
      case None => Update
  }

  predicate AlreadyRefused(rec: Option<Record>, itemID: string) {
    rec.Some? && rec.value.status == Refused && rec.value.itemID == itemID
  }

  /** A build is installed exactly when this one knows its own version and a key, the version offered is
      another, and no attempt at it is under way or was rolled back; only what is wrong with this build
      itself is reported at every check-in. */
  lemma DecideExactly(running: string, offered: string, injected: bool, trusted: nat, attempted: Option<Record>)
    ensures var d := Decide(running, offered, injected, trusted, attempted);
            && (d.Update? <==> && injected && trusted > 0 && offered !in {"", running}
                               && !(attempted.Some? && attempted.value.toVersion == offered
                                    && attempted.value.status in {RolledBack, Pending}))
            && (d.Stay? && d.report <==> !injected || (trusted == 0 && offered !in {"", running}))
  {
  }

  datatype StartAction = Leave | Report | Abandon

  /** Reconcile: what a starting agent makes of the record it found. */
  function Reconcile(rec: Option<Record>, running: string, now: int): StartAction {
    match rec
    case None => Leave
    case Some(r) =>
      match r.status
      case RolledBack => if r.reported then Leave else Report
      case Pending =>
        if r.toVersion == running then Leave
        else if now >= r.deadline then Abandon
        else Leave
      case _ => Leave
  }

  /** A start acts on two records only: an unreported rollback, and an overdue attempt at another build. */
  lemma ReconcileExactly(rec: Option<Record>, running: string, now: int)
    ensures Reconcile(rec, running, now).Report? <==> rec.Some? && rec.value.status == RolledBack && !rec.value.reported
    ensures Reconcile(rec, running, now).Abandon? <==>
              rec.Some? && rec.value.status == Pending && rec.value.toVersion != running && now >= rec.value.deadline
  {
  }

  /** A version whose folder cannot lie anywhere but under bin: validVersion. */
  predicate ValidVersion(v: string) {
    && v != "." && v != ".." && 1 <= |v| <= 64
    && forall i :: 0 <= i < |v| ==> VersionChar(v[i])
  }

  /** Joined to bin, such a version is a folder directly under it on either system: it is no separator, drive
      or stream, and neither bin itself nor what is above it. It is one line of what a signature covers. */
  lemma VersionIsOneFolder(v: string)
    requires ValidVersion(v)
    ensures v !in {"", ".", ".."} && forall i :: 0 <= i < |v| ==> v[i] !in {'/', '\\', ':', '\n', '\0'}
  {
  }

  predicate VersionChar(c: char) {
    'A' <= c <= 'Z' || 'a' <= c <= 'z' || '0' <= c <= '9' || c == '.' || c == '_' || c == '+' || c == '-'
  }
}
