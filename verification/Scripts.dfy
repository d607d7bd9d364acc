/** When an assigned script runs, over any number of check-ins: internal/agent/scripts/scheduler.go and
    internal/agent/scripts/runner.go. Instants are nanoseconds; 0 is Go's zero time. */
module Scripts {
  const HOUR := 3_600_000_000_000

  datatype Frequency = Once | Recurring

  datatype Options = Options(frequency: Frequency, intervalHours: int, userSession: bool, maxRetries: int, rerunOnNewVersion: bool)

  datatype ItemState = ItemState(version: int, lastRunAt: int, succeeded: bool, failures: nat)

  const NEVER_RUN := ItemState(0, 0, false, 0)

  const MAX_DURATION := 0x7FFF_FFFF_FFFF_FFFF
  const MIN_DURATION := -0x8000_0000_0000_0000

  /** A product of two durations keeps its low 64 bits. */
  function Wrapped(x: int): (d: int)
    ensures MIN_DURATION <= d <= MAX_DURATION
    ensures MIN_DURATION <= x <= MAX_DURATION ==> d == x
  {
    (x + 0x8000_0000_0000_0000) % 0x1_0000_0000_0000_0000 - 0x8000_0000_0000_0000
  }

  function Interval(o: Options): int { Wrapped(o.intervalHours * HOUR) }

  /** Time.Sub, which saturates. */
  function Elapsed(now: int, since: int): int {
    if now - since > MAX_DURATION then MAX_DURATION else if now - since < MIN_DURATION then MIN_DURATION else now - since
  }

  /** Decide. */
  predicate Due(version: int, o: Options, st: ItemState, session: bool, now: int) {
    if o.userSession && !session then false
    else if st.lastRunAt == 0 then true
    else if st.version != version then o.rerunOnNewVersion
    else if st.failures > 0 && st.failures >= o.maxRetries then false
    else o.frequency.Recurring? && Elapsed(now, st.lastRunAt) >= Interval(o)
  }

  /** Never run yet, a new version that is to run again, or a recurring script whose time has come and that has
      not failed too often; and nobody signed in is needed who is not there. */
  lemma DueExactly(version: int, o: Options, st: ItemState, session: bool, now: int)
    ensures Due(version, o, st, session, now) <==>
            && (!o.userSession || session)
            && (|| st.lastRunAt == 0
                || (o.rerunOnNewVersion && st.version != version)
                || (st.version == version && o.frequency == Recurring && (st.failures == 0 || st.failures < o.maxRetries)
                    && Elapsed(now, st.lastRunAt) >= Interval(o)))
  {
  }

  /** One check-in that carries the script, and how everything it calls answers. */
  datatype Visit = Visit(now: int, session: bool, read: bool, fetched: bool, finishedAt: int, succeeded: bool, saved: bool, reported: bool)

  /** The script is executed. */
  predicate Runs(version: int, o: Options, st: ItemState, v: Visit) {
    v.read && Due(version, o, st, v.session, v.now) && v.fetched
  }

  /** What is remembered afterwards; whether the report got through plays no part. */
  function After(version: int, o: Options, st: ItemState, v: Visit): ItemState {
    if !Runs(version, o, st, v) || !v.saved then st
    else ItemState(version, v.finishedAt, v.succeeded,
                   if v.succeeded then 0 else if st.version == version then st.failures + 1 else 1)
  }

  class Scheduler {
    var items: map<string, ItemState>

    constructor ()
      ensures items == map[]
    {
      items := map[];
    }

    function Remembered(id: string): ItemState
      reads this
    {
      if id in items then items[id] else NEVER_RUN
    }

    /** syncOne: what happened is stored before it is reported. */
    method SyncOne(id: string, version: int, o: Options, v: Visit) returns (ran: bool, ok: bool)
      modifies this
      ensures ran == Runs(version, o, old(Remembered(id)), v)
      ensures Remembered(id) == After(version, o, old(Remembered(id)), v)
      ensures forall other :: other != id ==> Remembered(other) == old(Remembered(other))
      ensures ok <==> v.read && (ran ==> v.saved && v.reported) && (Due(version, o, old(Remembered(id)), v.session, v.now) ==> v.fetched)
    {
      if !v.read {
        return false, false;
      }
      var st := Remembered(id);
      if !Due(version, o, st, v.session, v.now) {
        return false, true;
      }
      if !v.fetched {
        return false, false;
      }
      var next := ItemState(version, v.finishedAt, v.succeeded, 0);
      if !v.succeeded {
        if st.version == version {
          next := next.(failures := st.failures + 1);
        } else {
          next := next.(failures := 1);
        }
      }
      if !v.saved {
        return true, false;
      }
      items := items[id := next];
      return true, v.reported;
    }
  }

  // ----- Many check-ins -------------------------------------------------------------------------

  /** One unchanged version under unchanged options, with a clock that never goes back. */
  ghost predicate History(version: int, o: Options, vs: seq<Visit>, ss: seq<ItemState>) {
    && |ss| == |vs| + 1
    && (forall i :: 0 <= i < |vs| ==> ss[i + 1] == After(version, o, ss[i], vs[i]))
    && (forall i :: 0 <= i < |vs| ==> 0 < vs[i].now <= vs[i].finishedAt)
    && (forall i, j :: 0 <= i < j < |vs| ==> vs[i].finishedAt <= vs[j].now)
  }

  ghost predicate AllSaved(vs: seq<Visit>) { forall i :: 0 <= i < |vs| ==> vs[i].saved }

  predicate RunsAt(version: int, o: Options, vs: seq<Visit>, ss: seq<ItemState>, i: nat)
    requires |ss| == |vs| + 1 && i < |vs|
  {
    Runs(version, o, ss[i], vs[i])
  }

  /** Since a run that was stored, the version and the time of some run no earlier are remembered. */
  lemma {:induction false} RememberedSince(version: int, o: Options, vs: seq<Visit>, ss: seq<ItemState>, i: nat, n: nat)
    requires History(version, o, vs, ss) && AllSaved(vs) && i < n <= |vs| && RunsAt(version, o, vs, ss, i)
    ensures ss[n].version == version && ss[n].lastRunAt >= vs[i].finishedAt > 0
    decreases n
  {
    if n > i + 1 {
      RememberedSince(version, o, vs, ss, i, n - 1);
    }
  }

  /** A script set to once executes at most once, whatever happens to its reports. */
  lemma OnceRunsOnce(version: int, o: Options, vs: seq<Visit>, ss: seq<ItemState>, i: nat, j: nat)
    requires History(version, o, vs, ss) && AllSaved(vs) && o.frequency.Once?
    requires i < j < |vs| && RunsAt(version, o, vs, ss, i)
    ensures !RunsAt(version, o, vs, ss, j)
  {
    RememberedSince(version, o, vs, ss, i, j);
  }

  /** The interval asked for is one a duration can hold. */
  predicate IntervalFits(o: Options) { o.intervalHours * HOUR <= MAX_DURATION }

  /** A recurring one leaves at least its interval between the end of a run and the start of a later
      one, provided a duration can hold it. */
  lemma RecurringRunsApart(version: int, o: Options, vs: seq<Visit>, ss: seq<ItemState>, i: nat, j: nat)
    requires History(version, o, vs, ss) && AllSaved(vs) && o.intervalHours >= 1 && IntervalFits(o)
    requires i < j < |vs| && RunsAt(version, o, vs, ss, i) && RunsAt(version, o, vs, ss, j)
    ensures o.frequency.Recurring? && vs[j].now - vs[i].finishedAt >= o.intervalHours * HOUR
  {
    RememberedSince(version, o, vs, ss, i, j);
    IntervalHonouredExactly(o);
    assert ss[j].lastRunAt >= vs[i].finishedAt;
  }

  /** A script that ran at `last` and is due again at `now`, the clock not having gone back, has waited
      the whole interval. */
  predicate Honoured(o: Options, last: int, now: int) {
    last <= now && Elapsed(now, last) >= Interval(o) ==> now - last >= o.intervalHours * HOUR
  }

  /** Validation sets no upper bound on interval_hours, and the interval is honoured exactly when it
      does not overflow. */
  lemma IntervalHonouredExactly(o: Options)
    requires o.intervalHours >= 1
    ensures (forall last, now :: Honoured(o, last, now)) <==> IntervalFits(o)
  {
    if !IntervalFits(o) {
      var gap := if Interval(o) < 0 then 0 else Interval(o);
      assert Elapsed(1 + gap, 1) == gap;
      assert !Honoured(o, 1, 1 + gap);
    }
  }

  /** Asked for every 2562048 hours, a script runs at every check-in. */
  lemma OverlongIntervalIsAlwaysDue(version: int, o: Options, st: ItemState, now: int)
    requires o == Options(Recurring, 2_562_048, false, 0, false)
    requires st.version == version && st.failures == 0 && 0 < st.lastRunAt <= now
    ensures Due(version, o, st, true, now)
  {
    assert Wrapped(2_562_048 * HOUR) < 0;
  }

  /** Failed runs since the last that succeeded. */
  function Streak(version: int, o: Options, vs: seq<Visit>, ss: seq<ItemState>, n: nat): nat
    requires |ss| == |vs| + 1 && n <= |vs|
  {
    if n == 0 then 0
    else if !RunsAt(version, o, vs, ss, n - 1) then Streak(version, o, vs, ss, n - 1)
    else if vs[n - 1].succeeded then 0
    else Streak(version, o, vs, ss, n - 1) + 1
  }

  /** This version has not run here before. */
  predicate Fresh(version: int, st: ItemState) { st == NEVER_RUN || st.version != version }

  function Most(o: Options): int { if o.maxRetries < 1 then 1 else o.maxRetries }

  lemma {:induction false} StreakIsRemembered(version: int, o: Options, vs: seq<Visit>, ss: seq<ItemState>, n: nat)
    requires History(version, o, vs, ss) && AllSaved(vs) && Fresh(version, ss[0]) && n <= |vs|
    ensures Streak(version, o, vs, ss, n) <= Most(o)
    ensures if Fresh(version, ss[n]) then Streak(version, o, vs, ss, n) == 0
            else ss[n].version == version && ss[n].lastRunAt > 0 && ss[n].failures == Streak(version, o, vs, ss, n)
    decreases n
  {
    if n > 0 {
      StreakIsRemembered(version, o, vs, ss, n - 1);
    }
  }

  /** At most max(1, max_retries) failures in a row; after that many it never runs again. */
  lemma {:induction false} StopsForGood(version: int, o: Options, vs: seq<Visit>, ss: seq<ItemState>, n: nat, m: nat)
    requires History(version, o, vs, ss) && AllSaved(vs) && Fresh(version, ss[0]) && n <= m < |vs|
    requires Streak(version, o, vs, ss, n) >= Most(o)
    ensures Streak(version, o, vs, ss, n) == Most(o)
    ensures !RunsAt(version, o, vs, ss, m) && Streak(version, o, vs, ss, m) == Most(o)
    decreases m
  {
    StreakIsRemembered(version, o, vs, ss, n);
    StreakIsRemembered(version, o, vs, ss, m);
    if n < m {
      StopsForGood(version, o, vs, ss, n, m - 1);
    }
  }

  /** A run that could not be stored is not remembered: the script runs again as soon as it can. */
  lemma UnsavedRunRepeats(version: int, o: Options, st: ItemState, v: Visit, w: Visit)
    requires st.lastRunAt == 0 && Runs(version, o, st, v) && !v.saved
    requires w.read && w.fetched && (o.userSession ==> w.session)
    ensures Runs(version, o, After(version, o, st, v), w)
  {
  }
}
