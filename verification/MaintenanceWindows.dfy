/** When changes may be made to a device: internal/protocol/window.go. Instants count nanoseconds of the
    device's own clock, whose offset is fixed. */
module MaintenanceWindows {
  import opened Prelude
  import opened Text

  const MINUTE := 60_000_000_000
  const DAY := 1440 * MINUTE

  /** In time.Weekday order. */
  const WEEKDAYS := ["sun", "mon", "tue", "wed", "thu", "fri", "sat"]

  datatype Window = Window(days: seq<string>, start: string, minutes: int)

  datatype Clock = Clock(hour: nat, minute: nat)

  datatype Item = Item(kind: string, options: Option<Window>)

  datatype Windows = Windows(offered: bool, valid: seq<Window>)

  const ITEM_KIND_WINDOW := "window"

  // ----- The meaning of a window ----------------------------------------------------------------

  /** One or two digits, and what follows them; the leading number of a layout element. */
  function LeadingNumber(s: string): Option<(nat, string)> {
    if s == "" || !IsDigit(s[0]) then None
    else if |s| == 1 || !IsDigit(s[1]) then Some((DigitOf(s[0]), s[1..]))
    else Some((10 * DigitOf(s[0]) + DigitOf(s[1]), s[2..]))
  }

  /** time.Parse of "15:04": the hour may have one digit, the minute must have two. */
  function ParseClock(s: string): (r: Option<Clock>)
    ensures r.Some? ==> r.value.hour < 24 && r.value.minute < 60
  {
    match LeadingNumber(s)
    case None => None
    case Some((hour, rest)) =>
      if hour >= 24 || |rest| != 3 || rest[0] != ':' || !IsDigit(rest[1]) || !IsDigit(rest[2]) then None
      else
        var minute := 10 * DigitOf(rest[1]) + DigitOf(rest[2]);
        if minute >= 60 then None else Some(Clock(hour, minute))
  }

  function DigitChar(n: nat): char
    requires n < 10
  {
    (n + '0' as int) as char
  }

  function TwoDigits(n: nat): string
    requires n < 100
  {
    [DigitChar(n / 10), DigitChar(n % 10)]
  }

  /** HH:MM, or H:MM for an hour of one digit. */
  predicate Writes(s: string, c: Clock)
    requires c.hour < 24 && c.minute < 60
  {
    || s == TwoDigits(c.hour) + ":" + TwoDigits(c.minute)
    || (c.hour < 10 && s == [DigitChar(c.hour)] + ":" + TwoDigits(c.minute))
  }

  /** A start is read as a time of day exactly when it is written so: an hour below 24 of two digits, or of one
      if one will do, a colon, and a minute below 60 of two digits. */
  lemma ParseClockExactly(s: string, c: Clock)
    ensures ParseClock(s) == Some(c) <==> c.hour < 24 && c.minute < 60 && Writes(s, c)
  {
    if ParseClock(s) == Some(c) {
      ParsedIsWritten(s, c);
    }
    if c.hour < 24 && c.minute < 60 && Writes(s, c) {
      WrittenIsParsed(s, c);
    }
  }

  lemma DigitBack(ch: char)
    requires IsDigit(ch)
    ensures DigitOf(ch) < 10 && DigitChar(DigitOf(ch)) == ch
  {
  }

  lemma ParsedIsWritten(s: string, c: Clock)
    requires ParseClock(s) == Some(c)
    ensures Writes(s, c)
  {
    var rest := LeadingNumber(s).value.1;
    DigitBack(s[0]);
    DigitBack(rest[1]);
    DigitBack(rest[2]);
    assert rest == ":" + TwoDigits(c.minute);
    if |s| > 1 && IsDigit(s[1]) {
      DigitBack(s[1]);
      assert s == s[..2] + rest;
      assert s[..2] == TwoDigits(c.hour);
    } else {
      assert s == [s[0]] + rest;
    }
  }

  lemma WrittenIsParsed(s: string, c: Clock)
    requires c.hour < 24 && c.minute < 60 && Writes(s, c)
    ensures ParseClock(s) == Some(c)
  {
    var minutes := ":" + TwoDigits(c.minute);
    if s == TwoDigits(c.hour) + ":" + TwoDigits(c.minute) {
      assert s[2..] == minutes;
      assert LeadingNumber(s) == Some((c.hour, minutes));
    } else {
      assert s[1..] == minutes && s[1] == ':';
      assert LeadingNumber(s) == Some((c.hour, minutes));
    }
  }

  function DayOf(t: int): int { t / DAY }

  /** Day 0 was a Thursday. */
  function WeekdayOf(d: int): (w: nat)
    ensures w < 7
  {
    (d + 4) % 7
  }

  function OpensAt(c: Clock, d: int): int { d * DAY + (60 * c.hour + c.minute) * MINUTE }

  const HOUR := 60 * MINUTE

  /** The time of day on the device's clock, and what is past its minute. */
  function ClockAt(t: int): (Clock, nat) {
    var passed := t % DAY;
    var pastHour := passed % HOUR;
    (Clock(passed / HOUR, pastHour / MINUTE), pastHour % MINUTE)
  }

  lemma Divided(t: int, n: int, q: int, r: int)
    requires n > 0 && t == q * n + r && 0 <= r < n
    ensures t / n == q && t % n == r
  {
    var p, m := t / n, t % n;
    assert t == p * n + m && (p - q) * n == r - m;
    MultipleBelow(p - q, n);
  }

  lemma MultipleBelow(k: int, n: int)
    requires n > 0 && -n < k * n < n
    ensures k == 0
  {
  }

  /** An opening is on its day, at its hour and minute, to the second. */
  lemma OpensAtExactly(c: Clock, d: int, t: int)
    requires c.hour < 24 && c.minute < 60
    ensures OpensAt(c, d) == t <==> DayOf(t) == d && ClockAt(t) == (c, 0)
  {
    if OpensAt(c, d) == t {
      var past := c.minute * MINUTE;
      Divided(t, DAY, d, c.hour * HOUR + past);
      Divided(c.hour * HOUR + past, HOUR, c.hour, past);
      Divided(past, MINUTE, c.minute, 0);
    }
  }

  /** 1 January 2024, 19723 days after 1 January 1970, was a Monday; the week goes on from there, both ways. */
  lemma WeekdaysExactly(d: int)
    ensures WEEKDAYS[WeekdayOf(d)] == ["mon", "tue", "wed", "thu", "fri", "sat", "sun"][(d - 19723) % 7]
  {
    assert (d - 19723) % 7 == (WeekdayOf(d) + 6) % 7;
  }

  /** The opening of day d covers t. */
  predicate OpeningCovers(w: Window, c: Clock, d: int, t: int) {
    OpensAt(c, d) <= t < OpensAt(c, d) + w.minutes * MINUTE
  }

  predicate OnDay(w: Window, d: int) { w.days == [] || WEEKDAYS[WeekdayOf(d)] in w.days }

  predicate OpenOn(w: Window, c: Clock, d: int, t: int) { OnDay(w, d) && OpeningCovers(w, c, d, t) }

  /** Some day at all has an opening that covers t. */
  ghost predicate Covers(w: Window, t: int) {
    ParseClock(w.start).Some? && exists d: int :: OpenOn(w, ParseClock(w.start).value, d, t)
  }

  /** What Validate accepts of the start and the length. */
  predicate SoundHours(w: Window) { ParseClock(w.start).Some? && 1 <= w.minutes <= 1440 }

  // ----- Contains -----------------------------------------------------------------------------

  lemma DayBounds(t: int)
    ensures DayOf(t) * DAY <= t < DayOf(t) * DAY + DAY
  {
  }

  /** An opening reaches no further than the end of the next day. */
  lemma OnlyTodayOrYesterday(w: Window, c: Clock, d: int, t: int)
    requires c.hour < 24 && c.minute < 60 && w.minutes <= 1440 && OpeningCovers(w, c, d, t)
    ensures d == DayOf(t) || d == DayOf(t) - 1
  {
    DayBounds(t);
    var n := DayOf(t);
    assert d >= n + 1 ==> d * DAY >= (n + 1) * DAY;
    assert d <= n - 2 ==> d * DAY <= (n - 2) * DAY;
  }

  /** Contains: today's opening, and yesterday's, which may run past midnight. */
  method Contains(w: Window, t: int) returns (inside: bool)
    ensures SoundHours(w) ==> (inside <==> Covers(w, t))
    ensures inside ==> Covers(w, t)
    ensures w.minutes < 1 ==> !inside
  {
    hide OnDay, OpensAt;
    var start := ParseClock(w.start);
    if start.None? || w.minutes < 1 {
      return false;
    }
    var c := start.value;
    var back := 0;
    while back >= -1
      invariant -2 <= back <= 0
      invariant back < 0 ==> !OpenOn(w, c, DayOf(t), t)
      invariant back < -1 ==> !OpenOn(w, c, DayOf(t) - 1, t)
      decreases back + 2
    {
      var d := DayOf(t) + back;
      if OnDay(w, d) && OpensAt(c, d) <= t && t < OpensAt(c, d) + w.minutes * MINUTE {
        assert OpenOn(w, c, d, t);
        return true;
      }
      assert !OpenOn(w, c, d, t);
      back := back - 1;
    }
    NotFound(w, c, t);
    return false;
  }

  lemma NotFound(w: Window, c: Clock, t: int)
    requires ParseClock(w.start) == Some(c)
    requires !OpenOn(w, c, DayOf(t), t) && !OpenOn(w, c, DayOf(t) - 1, t)
    ensures SoundHours(w) ==> !Covers(w, t)
  {
    hide OnDay, OpensAt, OpeningCovers;
    if SoundHours(w) && Covers(w, t) {
      var d :| OpenOn(w, c, d, t);
      OnlyTodayOrYesterday(w, c, d, t);
      assert false;
    }
  }

  /** A longer window may cover instants of a third day, which Contains does not look for. */
  lemma LongerWindowsReachFurther()
    ensures Covers(Window(["thu"], "00:00", 4320), 2 * DAY)
    ensures var w, today := Window(["thu"], "00:00", 4320), DayOf(2 * DAY); !OnDay(w, today) && !OnDay(w, today - 1)
  {
    var w := Window(["thu"], "00:00", 4320);
    assert ParseClock("00:00") == Some(Clock(0, 0));
    assert WeekdayOf(0) == 4 && WeekdayOf(1) == 5 && WeekdayOf(2) == 6 && DayOf(2 * DAY) == 2;
    assert "thu" in w.days;
    assert OpenOn(w, Clock(0, 0), 0, 2 * DAY);
    assert "fri"[0] != "thu"[0] && "sat"[0] != "thu"[0];
    assert WEEKDAYS[5] !in w.days && WEEKDAYS[6] !in w.days;
  }

  // ----- Validate -----------------------------------------------------------------------------

  /** unicode.ToLower, as far as it can yield a letter of a day's name. */
  function FoldChar(c: char): char {
    if c == '\U{130}' then 'i' else if c == '\U{212A}' then 'k' else LowerChar(c)
  }

  function Fold(s: string): (r: string)
    ensures |r| == |s| && forall i :: 0 <= i < |s| ==> r[i] == FoldChar(s[i])
  {
    if s == "" then "" else [FoldChar(s[0])] + Fold(s[1..])
  }

  /** The day a name stands for, if any. */
  function DayName(d: string): string { Fold(TrimSpace(d)) }

  predicate Spelt(t: string, name: string) { |t| == |name| && forall k :: 0 <= k < |t| ==> ReadsAs(t[k], name[k]) }

  lemma FoldExactly(t: string, name: string)
    requires forall k :: 0 <= k < |name| ==> 'a' <= name[k] <= 'z'
    ensures Fold(t) == name <==> Spelt(t, name)
  {
    hide FoldChar, ReadsAs;
    forall k | 0 <= k < |t| && k < |name|
      ensures FoldChar(t[k]) == name[k] <==> ReadsAs(t[k], name[k])
    {
      FoldsTo(t[k], name[k]);
    }
    if Spelt(t, name) {
      assert forall k :: 0 <= k < |t| ==> Fold(t)[k] == name[k];
    }
  }

  lemma WeekdaysAreLower()
    ensures forall name, k :: name in WEEKDAYS && 0 <= k < |name| ==> 'a' <= name[k] <= 'z'
  {
  }

  /** Spaces around a name and the case of its letters make no difference, and nothing else does: the two
      letters outside ASCII are those whose lower case is in it. */
  lemma DayNameExactly(d: string, name: string)
    requires name in WEEKDAYS
    ensures DayName(d) == name <==> Spelt(TrimSpace(d), name)
  {
    WeekdaysAreLower();
    FoldExactly(TrimSpace(d), name);
  }

  /** c is the letter l in either case, or what Unicode takes for its upper case. */
  predicate ReadsAs(c: char, l: char) {
    c == l || ('A' <= c <= 'Z' && c as int + 32 == l as int) || (l == 'i' && c == '\U{130}') || (l == 'k' && c == '\U{212A}')
  }

  lemma FoldsTo(c: char, l: char)
    requires 'a' <= l <= 'z'
    ensures FoldChar(c) == l <==> ReadsAs(c, l)
  {
  }

  predicate SoundDays(days: seq<string>) { forall i :: 0 <= i < |days| ==> DayName(days[i]) in WEEKDAYS }

  /** The distinct days named, in the order first named. */
  function Named(days: seq<string>): seq<string> {
    if days == [] then []
    else
      var rest, d := Named(days[..|days| - 1]), DayName(days[|days| - 1]);
      if d in rest then rest else rest + [d]
  }

  predicate Valid(w: Window) { SoundHours(w) && SoundDays(w.days) }

  /** Validate, giving the window with its days normalised; a refused window is left as it was. */
  method Validate(w: Window) returns (r: Option<Window>)
    ensures r.Some? <==> Valid(w)
    ensures r.Some? ==> r.value == w.(days := Named(w.days))
  {
    hide ParseClock, DayName;
    if ParseClock(w.start).None? || w.minutes < 1 || w.minutes > 24 * 60 {
      return None;
    }
    var seen: set<string> := {};
    var days: seq<string> := [];
    for i := 0 to |w.days|
      invariant days == Named(w.days[..i])
      invariant forall d :: d in seen <==> d in days
      invariant forall j :: 0 <= j < i ==> DayName(w.days[j]) in WEEKDAYS
    {
      var d := DayName(w.days[i]);
      assert w.days[..i + 1][..i] == w.days[..i];
      if d !in WEEKDAYS {
        return None;
      }
      if d !in seen {
        seen := seen + {d};
        days := days + [d];
      }
    }
    assert w.days[..|w.days|] == w.days;
    return Some(w.(days := days));
  }

  lemma {:induction false} NamedExactly(days: seq<string>, d: string)
    ensures d in Named(days) <==> exists i :: 0 <= i < |days| && DayName(days[i]) == d
    decreases |days|
  {
    hide DayName;
    if days != [] {
      var n := |days| - 1;
      NamedExactly(days[..n], d);
      if i :| 0 <= i < |days| && DayName(days[i]) == d {
        if i < n { assert DayName(days[..n][i]) == d; }
      }
      if d in Named(days[..n]) {
        var i :| 0 <= i < n && DayName(days[..n][i]) == d;
        assert DayName(days[i]) == d;
      }
    }
  }

  lemma {:induction false} NamedDistinct(days: seq<string>)
    ensures Distinct(Named(days)) && |Named(days)| <= |days|
    ensures days != [] ==> Named(days) != []
    decreases |days|
  {
    hide DayName;
    if days != [] { NamedDistinct(days[..|days| - 1]); }
  }

  /** A day the window as sent means, whatever the case and spacing of the names. */
  predicate MeansDay(w: Window, d: int) {
    w.days == [] || exists i :: 0 <= i < |w.days| && DayName(w.days[i]) == WEEKDAYS[WeekdayOf(d)]
  }

  /** Normalising keeps the meaning. */
  lemma NormalisedMeansTheSame(w: Window, d: int)
    ensures OnDay(w.(days := Named(w.days)), d) <==> MeansDay(w, d)
  {
    hide DayName, Named;
    NamedDistinct(w.days);
    NamedExactly(w.days, WEEKDAYS[WeekdayOf(d)]);
    assert w.days == [] ==> Named(w.days) == [];
  }

  // ----- Windows of a check-in ------------------------------------------------------------------

  function ValidAmong(items: seq<Item>): seq<Window> {
    if items == [] then []
    else
      var it, rest := items[|items| - 1], ValidAmong(items[..|items| - 1]);
      if it.kind == ITEM_KIND_WINDOW && it.options.Some? && Valid(it.options.value)
      then rest + [it.options.value.(days := Named(it.options.value.days))] else rest
  }

  predicate AnyWindow(items: seq<Item>) { exists i :: 0 <= i < |items| && items[i].kind == ITEM_KIND_WINDOW }

  /** WindowsFrom: one that cannot be read counts as assigned. */
  method WindowsFrom(items: seq<Item>) returns (ws: Windows)
    ensures ws == Windows(AnyWindow(items), ValidAmong(items))
  {
    hide Valid, Named;
    ws := Windows(false, []);
    for i := 0 to |items|
      invariant ws.offered <==> exists j :: 0 <= j < i && items[j].kind == ITEM_KIND_WINDOW
      invariant ws.valid == ValidAmong(items[..i])
    {
      var it := items[i];
      assert items[..i + 1][..i] == items[..i];
      if it.kind != ITEM_KIND_WINDOW {
        continue;
      }
      ws := ws.(offered := true);
      if it.options.None? {
        continue;
      }
      var w := Validate(it.options.value);
      if w.None? {
        continue;
      }
      ws := ws.(valid := ws.valid + [w.value]);
    }
    assert items[..|items|] == items;
  }

  predicate Listed(items: seq<Item>, i: int) {
    0 <= i < |items| && items[i].kind == ITEM_KIND_WINDOW && items[i].options.Some? && Valid(items[i].options.value)
  }

  lemma {:induction false} ValidAmongExactly(items: seq<Item>, v: Window)
    ensures v in ValidAmong(items) <==>
              exists i :: Listed(items, i) && items[i].options.value.(days := Named(items[i].options.value.days)) == v
    decreases |items|
  {
    hide Valid, Named;
    if items != [] {
      var n := |items| - 1;
      ValidAmongExactly(items[..n], v);
      forall i | 0 <= i < n
        ensures Listed(items[..n], i) <==> Listed(items, i)
      {
      }
    }
  }

  /** Open, window by window. */
  method Open(ws: Windows, t: int) returns (open: bool)
    requires forall i :: 0 <= i < |ws.valid| ==> SoundHours(ws.valid[i])
    ensures open <==> !ws.offered || exists i :: 0 <= i < |ws.valid| && Covers(ws.valid[i], t)
  {
    hide Covers, SoundHours;
    if !ws.offered {
      return true;
    }
    for i := 0 to |ws.valid|
      invariant forall j :: 0 <= j < i ==> !Covers(ws.valid[j], t)
    {
      var inside := Contains(ws.valid[i], t);
      if inside {
        return true;
      }
    }
    return false;
  }

  /** Some day the window means, as it was sent, has an opening covering t. */
  ghost predicate MeansOpen(w: Window, t: int) {
    ParseClock(w.start).Some? && exists d: int :: MeansDay(w, d) && OpeningCovers(w, ParseClock(w.start).value, d, t)
  }

  lemma NormalisedCovers(w: Window, t: int)
    ensures Covers(w.(days := Named(w.days)), t) <==> MeansOpen(w, t)
  {
    hide OnDay, MeansDay, Named;
    var v := w.(days := Named(w.days));
    if ParseClock(w.start).Some? {
      var c := ParseClock(w.start).value;
      if d: int :| OpenOn(v, c, d, t) {
        NormalisedMeansTheSame(w, d);
        assert OpeningCovers(w, c, d, t);
      }
      if d: int :| MeansDay(w, d) && OpeningCovers(w, c, d, t) {
        NormalisedMeansTheSame(w, d);
        assert OpenOn(v, c, d, t);
      }
    }
  }

  /** With any window assigned, changes may be made exactly while one that can be read is open; with
      none, at any time. */
  method MayChange(items: seq<Item>, t: int) returns (open: bool)
    ensures open <==> !AnyWindow(items) || exists i :: Listed(items, i) && MeansOpen(items[i].options.value, t)
  {
    hide Covers, MeansOpen, AnyWindow, ValidAmong, Named;
    var ws := WindowsFrom(items);
    forall i | 0 <= i < |ws.valid|
      ensures SoundHours(ws.valid[i])
    {
      ValidAmongExactly(items, ws.valid[i]);
    }
    open := Open(ws, t);
    ghost var vs := ws.valid;
    OpenExactly(items, vs, t);
  }

  lemma OpenExactly(items: seq<Item>, vs: seq<Window>, t: int)
    requires vs == ValidAmong(items)
    ensures (exists i :: 0 <= i < |vs| && Covers(vs[i], t)) <==> exists i :: Listed(items, i) && MeansOpen(items[i].options.value, t)
  {
    hide Covers, MeansOpen, ValidAmong, Named, Valid;
    if i :| 0 <= i < |vs| && Covers(vs[i], t) {
      ValidAmongExactly(items, vs[i]);
      var k :| Listed(items, k) && items[k].options.value.(days := Named(items[k].options.value.days)) == vs[i];
      NormalisedCovers(items[k].options.value, t);
    }
    if k :| Listed(items, k) && MeansOpen(items[k].options.value, t) {
      var w := items[k].options.value;
      NormalisedCovers(w, t);
      ValidAmongExactly(items, w.(days := Named(w.days)));
      var i :| 0 <= i < |vs| && vs[i] == w.(days := Named(w.days));
    }
  }
}
