/** What systemctl show prints of a unit's command line, and parseShowExecStart of
    internal/agent/selfupdate/systemd.go, which reads it back. systemd does not quote there. */
module SystemdShow {
  import opened Prelude
  import opened Text

  const PREAMBLE := "{ path="
  const MARKER := "argv[]="
  const STOP := " ;"
  const GAP := " ; "

  // ----- Finding and splitting ------------------------------------------------------------------

  /** strings.Cut: where t first is in s. */
  function Find(s: string, t: string): (r: Option<nat>)
    ensures r.Some? ==> r.value + |t| <= |s|
  {
    if t <= s then Some(0)
    else if s == "" then None
    else match Find(s[1..], t)
      case None => None
      case Some(k) => Some(k + 1)
  }

  function WordLength(s: string): (n: nat)
    ensures n <= |s|
  {
    if s == "" || IsSpace(s[0]) then 0 else 1 + WordLength(s[1..])
  }

  /** strings.Fields. */
  function Fields(s: string): seq<string>
    decreases |s|
  {
    if s == "" then []
    else if IsSpace(s[0]) then Fields(s[1..])
    else
      assert WordLength(s) > 0;
      [s[..WordLength(s)]] + Fields(s[WordLength(s)..])
  }

  function Spaced(argv: seq<string>): string {
    if argv == [] then "" else if |argv| == 1 then argv[0] else Spaced(argv[..|argv| - 1]) + " " + argv[|argv| - 1]
  }

  // ----- Printing and parsing -------------------------------------------------------------------

  /** What systemctl prints, whatever follows the command line. */
  function Shown(argv: seq<string>, tail: string): string
    requires argv != []
  {
    PREAMBLE + (argv[0] + (GAP + (MARKER + (Spaced(argv) + STOP + tail))))
  }

  function ParseShow(out: string): Result<seq<string>> {
    match Find(out, MARKER)
    case None => Err("no ExecStart command line")
    case Some(k) =>
      var rest := out[k + |MARKER|..];
      var line := match Find(rest, STOP) case None => rest case Some(j) => rest[..j];
      if Fields(line) == [] then Err("an empty ExecStart") else Ok(Fields(line))
  }

  predicate Word(a: string) { a != "" && forall i :: 0 <= i < |a| ==> !IsSpace(a[i]) }

  predicate AllWords(argv: seq<string>) { forall i :: 0 <= i < |argv| ==> Word(argv[i]) }

  /** Every word is one, none after the first begins with a semicolon, and the path does not hold the marker. */
  predicate Showable(argv: seq<string>)
    requires argv != []
  {
    AllWords(argv) && NoStop(argv) && Find(argv[0], MARKER).None?
  }

  predicate NoStop(argv: seq<string>) { forall i :: 0 < i < |argv| ==> !(";" <= argv[i]) }

  // ----- Words ------------------------------------------------------------------------------------

  lemma {:induction false} WordLengthOf(a: string, b: string)
    requires (forall i :: 0 <= i < |a| ==> !IsSpace(a[i])) && (b == "" || IsSpace(b[0]))
    ensures WordLength(a + b) == |a|
    decreases |a|
  {
    hide IsSpace;
    if a == "" {
      assert a + b == b;
    } else {
      assert (a + b)[1..] == a[1..] + b;
      WordLengthOf(a[1..], b);
    }
  }

  lemma {:induction false} WordLengthIsWord(s: string)
    ensures forall i :: 0 <= i < WordLength(s) ==> !IsSpace(s[i])
    ensures WordLength(s) < |s| ==> IsSpace(s[WordLength(s)])
    decreases |s|
  {
    hide IsSpace;
    if s != "" && !IsSpace(s[0]) {
      WordLengthIsWord(s[1..]);
    }
  }

  lemma {:induction false} FieldsAreWords(s: string)
    ensures AllWords(Fields(s))
    decreases |s|
  {
    hide IsSpace;
    if s != "" {
      if IsSpace(s[0]) {
        FieldsAreWords(s[1..]);
      } else {
        WordLengthIsWord(s);
        FieldsAreWords(s[WordLength(s)..]);
      }
    }
  }

  lemma FieldsFirst(a: string, b: string)
    requires Word(a) && (b == "" || IsSpace(b[0]))
    ensures Fields(a + b) == [a] + Fields(b)
  {
    hide IsSpace;
    WordLengthOf(a, b);
    assert (a + b)[..|a|] == a && (a + b)[|a|..] == b && (a + b)[0] == a[0];
  }

  lemma SpaceIsSpace()
    ensures IsSpace(' ') && !IsSpace(';')
  {
  }

  /** The words of a line and then one more. */
  lemma {:induction false} FieldsSnoc(s: string, a: string)
    requires Word(a)
    ensures Fields(s + " " + a) == Fields(s) + [a]
    decreases |s|
  {
    SpaceIsSpace();
    hide IsSpace;
    if s == "" {
      assert (s + " " + a)[1..] == a && a + "" == a;
      FieldsFirst(a, "");
    } else if IsSpace(s[0]) {
      assert (s + " " + a)[1..] == s[1..] + " " + a;
      FieldsSnoc(s[1..], a);
    } else {
      var n := WordLength(s);
      var w, rest := s[..n], s[n..];
      WordLengthIsWord(s);
      assert Word(w);
      FieldsSnoc(rest, a);
      FieldsFirst(w, rest + " " + a);
      assert s + " " + a == w + (rest + " " + a);
    }
  }

  lemma {:induction false} FieldsOfSpaced(argv: seq<string>)
    requires AllWords(argv)
    ensures Fields(Spaced(argv)) == argv
    decreases |argv|
  {
    if |argv| == 1 {
      FieldsFirst(argv[0], "");
      assert argv[0] + "" == argv[0];
    } else if argv != [] {
      var n := |argv| - 1;
      FieldsOfSpaced(argv[..n]);
      FieldsSnoc(Spaced(argv[..n]), argv[n]);
      assert argv == argv[..n] + [argv[n]];
    }
  }

  // ----- Finding the marker and the stop ------------------------------------------------------------

  /** The first place t is found, told apart from any before it. */
  lemma {:induction false} FindIs(s: string, t: string, k: nat)
    requires k <= |s| && t <= s[k..] && forall i :: 0 <= i < k ==> !(t <= s[i..])
    ensures Find(s, t) == Some(k)
    decreases k
  {
    if k > 0 {
      assert s[0..] == s && !(t <= s[0..]);
      assert s[1..][k - 1..] == s[k..];
      forall i | 0 <= i < k - 1
        ensures !(t <= s[1..][i..])
      {
        assert s[1..][i..] == s[i + 1..];
      }
      FindIs(s[1..], t, k - 1);
    } else {
      assert s[0..] == s;
    }
  }

  lemma {:induction false} FoundFirst(s: string, t: string)
    ensures Find(s, t).Some? ==> t <= s[Find(s, t).value..] && forall i :: 0 <= i < Find(s, t).value ==> !(t <= s[i..])
    ensures Find(s, t).None? ==> forall i :: 0 <= i <= |s| ==> !(t <= s[i..])
    decreases |s|
  {
    assert s[0..] == s;
    if !(t <= s) && s != "" {
      FoundFirst(s[1..], t);
      forall i | 0 < i <= |s|
        ensures s[i..] == s[1..][i - 1..]
      {
      }
    }
  }

  /** A word is followed by a stop: the stop is found right there. */
  lemma StopAfterWord(a: string, b: string)
    requires forall i :: 0 <= i < |a| ==> !IsSpace(a[i])
    ensures Find(a + STOP + b, STOP) == Some(|a|)
  {
    SpaceIsSpace();
    hide IsSpace;
    var s := a + STOP + b;
    assert s[|a|..] == STOP + b;
    forall i | 0 <= i < |a|
      ensures !(STOP <= s[i..])
    {
      assert s[i..][0] == a[i] != ' ';
    }
    FindIs(s, STOP, |a|);
  }

  /** Nowhere in such a line, with a stop behind it, does an earlier stop begin. */
  lemma {:induction false} NoEarlierStop(argv: seq<string>, b: string, i: nat)
    requires argv != [] && AllWords(argv) && NoStop(argv) && i < |Spaced(argv)|
    ensures !(STOP <= (Spaced(argv) + STOP + b)[i..])
    decreases |argv|
  {
    SpaceIsSpace();
    hide IsSpace;
    var n := |argv| - 1;
    var s := Spaced(argv) + STOP + b;
    if n == 0 {
      assert s[i..][0] == argv[0][i] != ' ';
    } else {
      var before, last := Spaced(argv[..n]), argv[n];
      assert Spaced(argv) == before + " " + last;
      if i < |before| {
        NoEarlierStop(argv[..n], b, i);
        var t := before + STOP + b;
        assert t[i] == before[i] == s[i] && t[i..][0] == t[i] && s[i..][0] == s[i];
        assert i + 1 < |before| ==> t[i..][1] == t[i + 1] == before[i + 1] == s[i + 1] == s[i..][1];
        assert i + 1 == |before| ==> s[i..][1] == s[i + 1] == ' ';
      } else if i == |before| {
        assert s[i..][1] == s[i + 1] == last[0];
      } else {
        assert s[i..][0] == s[i] == last[i - |before| - 1] != ' ';
      }
    }
  }

  lemma StopAfterLine(argv: seq<string>, b: string)
    requires argv != [] && AllWords(argv) && NoStop(argv)
    ensures Find(Spaced(argv) + STOP + b, STOP) == Some(|Spaced(argv)|)
  {
    var s, k := Spaced(argv) + STOP + b, |Spaced(argv)|;
    assert s[k..] == STOP + b;
    forall i | 0 <= i < k
      ensures !(STOP <= s[i..])
    {
      NoEarlierStop(argv, b, i);
    }
    FindIs(s, STOP, k);
  }

  lemma NotInPreamble(t: string, i: nat)
    requires i < |PREAMBLE|
    ensures !(MARKER <= (PREAMBLE + t)[i..])
  {
    var s := PREAMBLE + t;
    assert s[i..][0] == s[i] == PREAMBLE[i];
    assert i == 3 ==> s[i..][1] == s[4] == PREAMBLE[4];
  }

  lemma NotInPath(path: string, more: string, i: nat)
    requires i < |path| && more != "" && more[0] == ' ' && !(MARKER <= path[i..])
    ensures !(MARKER <= (path + more)[i..])
  {
    var t, n := path[i..] + more, |path| - i;
    assert (path + more)[i..] == t;
    if n < |MARKER| {
      assert t[n] == ' ' && MARKER[n] != ' ';
    } else {
      assert t[..|MARKER|] == path[i..][..|MARKER|];
    }
  }

  /** What begins nowhere in a is found in s, if at all. */
  lemma {:induction false} FindPast(a: string, s: string, t: string)
    requires forall i :: 0 <= i < |a| ==> !(t <= (a + s)[i..])
    ensures Find(a + s, t) == match Find(s, t) case None => None case Some(k) => Some(|a| + k)
    decreases |a|
  {
    if a == "" {
      assert a + s == s;
    } else {
      assert (a + s)[0..] == a + s && (a + s)[1..] == a[1..] + s;
      forall i | 0 <= i < |a| - 1
        ensures !(t <= (a[1..] + s)[i..])
      {
        assert (a[1..] + s)[i..] == (a + s)[i + 1..];
      }
      FindPast(a[1..], s, t);
    }
  }

  lemma {:induction false} FindWithin(path: string, more: string)
    requires Find(path, MARKER).Some? && more != "" && more[0] == ' '
    ensures Find(path + more, MARKER) == Find(path, MARKER)
    decreases |path|
  {
    if !(MARKER <= path) {
      assert path[0..] == path && (path + more)[0..] == path + more;
      NotInPath(path, more, 0);
      assert (path + more)[1..] == path[1..] + more;
      FindWithin(path[1..], more);
    }
  }

  lemma PastPreamble(s: string)
    ensures Find(PREAMBLE + s, MARKER) == match Find(s, MARKER) case None => None case Some(k) => Some(|PREAMBLE| + k)
  {
    hide Find;
    forall i | 0 <= i < |PREAMBLE|
      ensures !(MARKER <= (PREAMBLE + s)[i..])
    {
      NotInPreamble(s, i);
    }
    FindPast(PREAMBLE, s, MARKER);
  }

  lemma SliceOf(a: string, b: string, k: nat)
    requires k <= |b|
    ensures (a + b)[|a| + k..] == b[k..]
  {
  }

  /** The marker is where the path holds it, */
  lemma MarkerInside(path: string, more: string, j: nat)
    requires Find(path, MARKER) == Some(j) && more != "" && more[0] == ' '
    ensures Find(PREAMBLE + (path + more), MARKER) == Some(|PREAMBLE| + j)
    ensures (PREAMBLE + (path + more))[|PREAMBLE| + j + |MARKER|..] == path[j + |MARKER|..] + more
  {
    hide Find;
    FindWithin(path, more);
    PastPreamble(path + more);
    SliceOf(PREAMBLE, path + more, j + |MARKER|);
  }

  lemma PastGap(rest: string)
    ensures Find(GAP + (MARKER + rest), MARKER) == Some(|GAP|)
  {
    var s := GAP + (MARKER + rest);
    forall i | 0 <= i < |GAP|
      ensures !(MARKER <= s[i..])
    {
      assert s[i..][0] == s[i] == GAP[i];
    }
    FindPast(GAP, MARKER + rest, MARKER);
  }

  /** or behind it. */
  lemma MarkerBehind(path: string, rest: string)
    requires Find(path, MARKER).None?
    ensures var more := GAP + (MARKER + rest);
            && Find(PREAMBLE + (path + more), MARKER) == Some(|PREAMBLE| + |path| + |GAP|)
            && (PREAMBLE + (path + more))[|PREAMBLE| + |path| + |GAP| + |MARKER|..] == rest
  {
    FoundFirst(path, MARKER);
    hide Find;
    var more := GAP + (MARKER + rest);
    forall i | 0 <= i < |path|
      ensures !(MARKER <= (path + more)[i..])
    {
      NotInPath(path, more, i);
    }
    FindPast(path, more, MARKER);
    PastGap(rest);
    PastPreamble(path + more);
    SliceOf(PREAMBLE, path + more, |path| + |GAP| + |MARKER|);
    SliceOf(path, more, |GAP| + |MARKER|);
    SliceOf(GAP, MARKER + rest, |MARKER|);
    SliceOf(MARKER, rest, 0);
  }

  /** The line before its i-th word, that word, and what follows. */
  lemma {:induction false} SpacedSplit(argv: seq<string>, i: nat) returns (more: string)
    requires 0 < i < |argv|
    ensures Spaced(argv) == Spaced(argv[..i]) + " " + argv[i] + more
    decreases |argv|
  {
    var n := |argv| - 1;
    if i == n {
      more := "";
    } else {
      var before := SpacedSplit(argv[..n], i);
      assert argv[..n][..i] == argv[..i];
      more := before + " " + argv[n];
    }
  }

  lemma ReadsLine(argv: seq<string>, line: seq<string>, tail: string, b: string)
    requires argv != [] && AllWords(argv) && Find(argv[0], MARKER).None?
    requires line != [] && AllWords(line) && NoStop(line) && Spaced(argv) + STOP + tail == Spaced(line) + STOP + b
    ensures ParseShow(Shown(argv, tail)) == Ok(line)
  {
    hide Find, Fields, Spaced, IsSpace;
    var rest := Spaced(argv) + STOP + tail;
    MarkerBehind(argv[0], rest);
    StopAfterLine(line, b);
    assert rest[..|Spaced(line)|] == Spaced(line);
    FieldsOfSpaced(line);
  }

  lemma MarkerInPath(argv: seq<string>, tail: string)
    requires argv != [] && AllWords(argv) && Find(argv[0], MARKER).Some?
    ensures ParseShow(Shown(argv, tail)) != Ok(argv)
  {
    hide Find, Fields, Spaced, IsSpace;
    var j := Find(argv[0], MARKER).value;
    var a := argv[0][j + |MARKER|..];
    var b := " " + (MARKER + (Spaced(argv) + STOP + tail));
    var more := GAP + (MARKER + (Spaced(argv) + STOP + tail));
    MarkerInside(argv[0], more, j);
    assert a + more == a + STOP + b;
    StopAfterWord(a, b);
    assert (a + more)[..|a|] == a;
    FieldsShorter(a);
  }

  /** No word is longer than its line. */
  lemma {:induction false} FieldsShorter(s: string)
    ensures forall i :: 0 <= i < |Fields(s)| ==> |Fields(s)[i]| <= |s|
    decreases |s|
  {
    hide IsSpace;
    if s != "" {
      FieldsShorter(if IsSpace(s[0]) then s[1..] else s[WordLength(s)..]);
    }
  }

  /** What systemctl shows of a command line reads back as it exactly when every word is one, none after the
      first begins with a semicolon, and the path does not hold the marker. */
  lemma ShowReadsBack(argv: seq<string>, tail: string)
    requires argv != []
    ensures ParseShow(Shown(argv, tail)) == Ok(argv) <==> Showable(argv)
  {
    hide IsSpace, Shown, Fields;
    if !AllWords(argv) {
      ParsesWords(Shown(argv, tail));
    } else if Find(argv[0], MARKER).Some? {
      MarkerInPath(argv, tail);
    } else if NoStop(argv) {
      ReadsLine(argv, argv, tail, tail);
    } else {
      var i := FirstStop(argv);
      var more := SpacedSplit(argv, i);
      var b := argv[i][1..] + more + STOP + tail;
      assert Spaced(argv) + STOP + tail == Spaced(argv[..i]) + STOP + b by {
        assert argv[i] == ";" + argv[i][1..];
      }
      ReadsLine(argv, argv[..i], tail, b);
    }
  }

  lemma ParsesWords(out: string)
    ensures ParseShow(out).Ok? ==> AllWords(ParseShow(out).value)
  {
    hide IsSpace, Find, Fields, Word;
    forall s: string
      ensures AllWords(Fields(s))
    {
      FieldsAreWords(s);
    }
  }

  lemma FirstStop(argv: seq<string>) returns (i: nat)
    requires AllWords(argv) && !NoStop(argv)
    ensures 0 < i < |argv| && ";" <= argv[i] && NoStop(argv[..i])
  {
    i := 1;
    while !(";" <= argv[i])
      invariant 0 < i < |argv| && NoStop(argv[..i])
      invariant exists k :: i <= k < |argv| && ";" <= argv[k]
      decreases |argv| - i
    {
      i := i + 1;
    }
  }

  /** An installed argument that holds a space is read as two. */
  lemma SpaceIsLost(tail: string)
    ensures ParseShow(Shown(["/opt/a", "b c"], tail)) != Ok(["/opt/a", "b c"])
  {
    var argv := ["/opt/a", "b c"];
    assert IsSpace(argv[1][1]);
    ShowReadsBack(argv, tail);
  }

  lemma {:induction false} SpacedBegins(argv: seq<string>) returns (more: string)
    requires argv != []
    ensures Spaced(argv) == argv[0] + more && (more != "" ==> more[0] == ' ')
    decreases |argv|
  {
    if |argv| == 1 {
      more := "";
    } else {
      var n := |argv| - 1;
      var before := SpacedBegins(argv[..n]);
      more := before + " " + argv[n];
    }
  }

  lemma StopNotInWord(a: string, b: string)
    requires forall i :: 0 <= i < |a| ==> !IsSpace(a[i])
    ensures Find(a + b, STOP) == match Find(b, STOP) case None => None case Some(k) => Some(|a| + k)
  {
    SpaceIsSpace();
    hide IsSpace, Find;
    forall i | 0 <= i < |a|
      ensures !(STOP <= (a + b)[i..])
    {
      assert (a + b)[i..][0] == a[i] != ' ';
    }
    FindPast(a, b, STOP);
  }

  /** A path that is one word and does not hold the marker is always read right, whatever the arguments. */
  lemma PathReadsBack(argv: seq<string>, tail: string)
    requires argv != [] && Word(argv[0]) && Find(argv[0], MARKER).None?
    ensures ParseShow(Shown(argv, tail)).Ok? && ParseShow(Shown(argv, tail)).value != []
    ensures ParseShow(Shown(argv, tail)).value[0] == argv[0]
  {
    SpaceIsSpace();
    hide Find, Fields, Spaced, IsSpace;
    var rest, path := Spaced(argv) + STOP + tail, argv[0];
    MarkerBehind(path, rest);
    var more := SpacedBegins(argv);
    var b := more + STOP + tail;
    assert rest == path + b && b[0] == ' ';
    StopNotInWord(path, b);
    var k := match Find(b, STOP) case None => |b| case Some(j) => j;
    assert rest[..|path| + k] == path + b[..k];
    assert rest[..|rest|] == rest;
    FieldsFirst(path, b[..k]);
  }
}
