/** The systemd drop-in that self-update writes to repoint its service, and how it is read back:
    internal/agent/selfupdate/systemd.go. Every character the splitter and the quoter treat specially is
    ASCII, so for them a character stands equally for a raw byte; for the reading of whole lines it is a code
    point, because lines are trimmed of Unicode space and the scanner's limit counts the bytes of UTF-8. */
module Systemd {
  import opened Prelude
  import opened Text

  // ----- Writing ------------------------------------------------------------------------------

  predicate Special(c: char) { c in " \t\"'\\$%;" }

  predicate Bare(s: string) { s != "" && forall i :: 0 <= i < |s| ==> !Special(s[i]) }

  function EscapeChar(c: char): string {
    if c == '\\' then "\\\\"
    else if c == '"' then "\\\""
    else if c == '$' then "$$"
    else if c == '%' then "%%"
    else [c]
  }

  function Escape(s: string): string {
    if s == "" then "" else EscapeChar(s[0]) + Escape(s[1..])
  }

  /** systemdQuote. */
  function Quote(s: string): string {
    if Bare(s) then s else "\"" + Escape(s) + "\""
  }

  function JoinQuoted(argv: seq<string>): string {
    if argv == [] then ""
    else if |argv| == 1 then Quote(argv[0])
    else Quote(argv[0]) + " " + JoinQuoted(argv[1..])
  }

  const NOTE1 := "# Written by the Retune agent's self-update." + " Delete this file to run the"
  const NOTE2 := "# binary the unit itself names again."
  const SECTION := "[Service]"
  const EXEC := "ExecStart="

  /** What SetBinPath writes. */
  function DropIn(argv: seq<string>): string {
    NOTE1 + "\n" + (NOTE2 + "\n" + (SECTION + "\n" + (EXEC + "\n" + ((EXEC + JoinQuoted(argv)) + "\n"))))
  }

  // ----- Splitting a command line -------------------------------------------------------------

  datatype Scan = Scan(words: seq<string>, cur: string, inWord: bool, quoted: bool)

  const START := Scan([], "", false, false)

  datatype Move = Move(used: nat, sc: Scan)

  /** One round of systemdSplit's loop: how many characters it takes, and what it has then. */
  function Advance(s: string, sc: Scan): (m: Move)
    requires s != ""
    ensures 1 <= m.used <= |s|
  {
    var ch := s[0];
    if sc.quoted && ch == '\\' && 1 < |s| then Move(2, sc.(cur := sc.cur + [s[1]]))
    else if sc.quoted && ch == '"' then Move(1, sc.(quoted := false))
    else if sc.quoted then
      Move(if (ch == '$' || ch == '%') && 1 < |s| && s[1] == ch then 2 else 1, sc.(cur := sc.cur + [ch]))
    else if ch == '"' then Move(1, sc.(quoted := true, inWord := true))
    else if ch == ' ' || ch == '\t' then
      Move(1, if sc.inWord then Scan(sc.words + [sc.cur], "", false, false) else sc)
    else Move(1, sc.(cur := sc.cur + [ch], inWord := true))
  }

  /** What systemdSplit's loop does with the characters still to come. */
  function ScanFrom(s: string, sc: Scan): Scan
    decreases |s|
  {
    if s == "" then sc else var m := Advance(s, sc); ScanFrom(s[m.used..], m.sc)
  }

  lemma ScanOnce(s: string, sc: Scan)
    requires s != ""
    ensures ScanFrom(s, sc) == ScanFrom(s[Advance(s, sc).used..], Advance(s, sc).sc)
  {
  }

  function Finish(sc: Scan): Result<seq<string>> {
    if sc.quoted then Err("an unterminated quote")
    else Ok(if sc.inWord then sc.words + [sc.cur] else sc.words)
  }

  function SplitWords(s: string): Result<seq<string>> { Finish(ScanFrom(s, START)) }

  /** systemdSplit, as the loop the source runs. */
  method Split(s: string) returns (r: Result<seq<string>>)
    ensures r == SplitWords(s)
    ensures forall argv: seq<string> :: s == JoinQuoted(argv) ==> r == Ok(argv)
  {
    SplitUndoesAnyQuote(s);
    hide ScanFrom, JoinQuoted;
    var sc := START;
    var i := 0;
    assert s[0..] == s;
    while i < |s|
      invariant i <= |s|
      invariant ScanFrom(s[i..], sc) == ScanFrom(s, START)
    {
      var ch := s[i];
      ghost var m, j := Advance(s[i..], sc), i;
      ScanAt(s, i, sc);
      if sc.quoted && ch == '\\' && i + 1 < |s| {
        i := i + 1;
        sc := sc.(cur := sc.cur + [s[i]]);
      } else if sc.quoted && ch == '"' {
        sc := sc.(quoted := false);
      } else if sc.quoted {
        if (ch == '$' || ch == '%') && i + 1 < |s| && s[i + 1] == ch {
          i := i + 1;
        }
        sc := sc.(cur := sc.cur + [ch]);
      } else if ch == '"' {
        sc := sc.(quoted := true, inWord := true);
      } else if ch == ' ' || ch == '\t' {
        if sc.inWord {
          sc := Scan(sc.words + [sc.cur], "", false, false);
        }
      } else {
        sc := sc.(cur := sc.cur + [ch], inWord := true);
      }
      i := i + 1;
      assert Move(i - j, sc) == m;
    }
    assert s[i..] == "";
    ScanEmpty(sc);
    r := Finish(sc);
  }

  lemma ScanAt(s: string, i: nat, sc: Scan)
    requires i < |s|
    ensures var m := Advance(s[i..], sc);
            i + m.used <= |s| && ScanFrom(s[i..], sc) == ScanFrom(s[i + m.used..], m.sc)
    ensures s[i..][0] == s[i] && (i + 1 < |s| ==> s[i..][1] == s[i + 1])
  {
    hide ScanFrom, Advance;
    ScanOnce(s[i..], sc);
    assert s[i..][Advance(s[i..], sc).used..] == s[i + Advance(s[i..], sc).used..];
  }

  lemma SplitUndoesAnyQuote(s: string)
    ensures forall argv: seq<string> :: s == JoinQuoted(argv) ==> SplitWords(s) == Ok(argv)
  {
    forall argv: seq<string> | s == JoinQuoted(argv)
      ensures SplitWords(s) == Ok(argv)
    {
      SplitUndoesQuote(argv);
    }
  }

  lemma ScanEmpty(sc: Scan)
    ensures ScanFrom("", sc) == sc
  {
  }

  lemma ScanEscapedChar(c: char, tail: string, sc: Scan)
    requires sc.quoted
    ensures ScanFrom(EscapeChar(c) + tail, sc) == ScanFrom(tail, sc.(cur := sc.cur + [c]))
  {
    hide ScanFrom;
    var e := EscapeChar(c);
    assert (e + tail)[|e|..] == tail && (e + tail)[0] == e[0];
    assert |e| == 2 ==> (e + tail)[1] == e[1];
    ScanOnce(e + tail, sc);
  }

  lemma {:induction false} ScanEscaped(s: string, rest: string, sc: Scan)
    requires sc.quoted
    ensures ScanFrom(Escape(s) + "\"" + rest, sc) == ScanFrom(rest, sc.(cur := sc.cur + s, quoted := false))
    decreases |s|
  {
    hide ScanFrom, EscapeChar;
    if s == "" {
      assert Escape(s) + "\"" + rest == "\"" + rest;
      ScanOnce("\"" + rest, sc);
      assert ("\"" + rest)[1..] == rest;
      assert sc.cur + s == sc.cur;
    } else {
      var tail := Escape(s[1..]) + "\"" + rest;
      assert Escape(s) + "\"" + rest == EscapeChar(s[0]) + tail;
      ScanEscapedChar(s[0], tail, sc);
      ScanEscaped(s[1..], rest, sc.(cur := sc.cur + [s[0]]));
      assert sc.cur + [s[0]] + s[1..] == sc.cur + s;
    }
  }

  lemma {:induction false} ScanBare(s: string, rest: string, sc: Scan)
    requires !sc.quoted && forall i :: 0 <= i < |s| ==> !Special(s[i])
    ensures ScanFrom(s + rest, sc) == ScanFrom(rest, sc.(cur := sc.cur + s, inWord := sc.inWord || s != ""))
    decreases |s|
  {
    hide ScanFrom;
    if s == "" {
      assert s + rest == rest && sc.cur + s == sc.cur;
    } else {
      assert !Special(s[0]);
      ScanOnce(s + rest, sc);
      assert (s + rest)[1..] == s[1..] + rest;
      ScanBare(s[1..], rest, sc.(cur := sc.cur + [s[0]], inWord := true));
      assert sc.cur + [s[0]] + s[1..] == sc.cur + s;
    }
  }

  lemma ScanQuoted(a: string, rest: string, words: seq<string>)
    ensures ScanFrom(Quote(a) + rest, Scan(words, "", false, false)) == ScanFrom(rest, Scan(words, a, true, false))
  {
    hide ScanFrom, Escape;
    var sc := Scan(words, "", false, false);
    assert "" + a == a;
    if Bare(a) {
      ScanBare(a, rest, sc);
    } else {
      var tail := Escape(a) + "\"" + rest;
      assert Quote(a) + rest == "\"" + tail;
      ScanOnce("\"" + tail, sc);
      assert ("\"" + tail)[1..] == tail;
      ScanEscaped(a, rest, Scan(words, "", true, true));
    }
  }

  lemma ScanWord(a: string, tail: string, words: seq<string>)
    ensures ScanFrom(Quote(a) + " " + tail, Scan(words, "", false, false))
         == ScanFrom(tail, Scan(words + [a], "", false, false))
  {
    hide ScanFrom, Quote;
    ScanQuoted(a, " " + tail, words);
    assert Quote(a) + " " + tail == Quote(a) + (" " + tail);
    ScanOnce(" " + tail, Scan(words, a, true, false));
    assert (" " + tail)[1..] == tail;
  }

  lemma {:induction false} ScanJoined(argv: seq<string>, words: seq<string>)
    requires argv != []
    ensures ScanFrom(JoinQuoted(argv), Scan(words, "", false, false))
         == Scan(words + argv[..|argv| - 1], argv[|argv| - 1], true, false)
    decreases |argv|
  {
    hide ScanFrom, Quote;
    var a := argv[0];
    if |argv| == 1 {
      ScanQuoted(a, "", words);
      ScanEmpty(Scan(words, a, true, false));
      assert Quote(a) + "" == Quote(a);
      assert words + argv[..0] == words;
    } else {
      ScanWord(a, JoinQuoted(argv[1..]), words);
      ScanJoined(argv[1..], words + [a]);
      assert words + [a] + argv[1..][..|argv| - 2] == words + argv[..|argv| - 1];
    }
  }

  /** Splitting the space-joined quoted words of any list gives that list back. */
  lemma SplitUndoesQuote(argv: seq<string>)
    ensures SplitWords(JoinQuoted(argv)) == Ok(argv)
  {
    hide ScanFrom, Quote;
    if argv == [] {
      ScanEmpty(START);
    } else {
      ScanJoined(argv, []);
      var words: seq<string> := [];
      assert words + argv[..|argv| - 1] + [argv[|argv| - 1]] == argv;
    }
  }

  // ----- Reading a unit file ------------------------------------------------------------------

  function Utf8Len(c: char): nat {
    if c < '\U{80}' then 1 else if c < '\U{800}' then 2 else if c <= '\U{FFFF}' then 3 else 4
  }

  function ByteLen(s: string): nat { if s == "" then 0 else Utf8Len(s[0]) + ByteLen(s[1..]) }

  /** bufio.MaxScanTokenSize, less the line break: a longer line stops the scanner. */
  const MAX_LINE := 65535

  function LineEnd(s: string): (n: nat)
    ensures n <= |s| && '\n' !in s[..n] && (n < |s| ==> s[n] == '\n')
  {
    if s == "" || s[0] == '\n' then 0 else 1 + LineEnd(s[1..])
  }

  function DropCR(s: string): (r: string)
    ensures r <= s
  {
    if s != "" && s[|s| - 1] == '\r' then s[..|s| - 1] else s
  }

  /** bufio.ScanLines over a whole file. */
  function ScanLines(text: string): seq<string>
    decreases |text|
  {
    if text == "" then []
    else
      var n := LineEnd(text);
      if ByteLen(text[..n]) > MAX_LINE then []
      else [DropCR(text[..n])] + (if n == |text| then [] else ScanLines(text[n + 1..]))
  }

  /** What one line of a unit contributes: nothing, a command line, or an error. */
  function ExecLine(line: string): Option<Result<seq<string>>> {
    var l := TrimSpace(line);
    if !(EXEC <= l) || TrimSpace(l[|EXEC|..]) == "" then None
    else Some(SplitWords(l[|EXEC|..]))
  }

  function LastArgv(lines: seq<string>, argv: seq<string>): Result<seq<string>> {
    if lines == [] then if argv == [] then Err("no ExecStart command line") else Ok(argv)
    else match ExecLine(lines[0])
      case None => LastArgv(lines[1..], argv)
      case Some(Err(e)) => Err(e)
      case Some(Ok(words)) => LastArgv(lines[1..], words)
  }

  function ReadUnit(text: string): Result<seq<string>> { LastArgv(ScanLines(text), []) }

  /** lastExecStart, as the loop the source runs. */
  method LastExecStart(text: string) returns (r: Result<seq<string>>)
    ensures r == ReadUnit(text)
  {
    var lines := ScanLines(text);
    var argv: seq<string> := [];
    var i := 0;
    while i < |lines|
      invariant i <= |lines|
      invariant LastArgv(lines[i..], argv) == LastArgv(lines, [])
    {
      assert lines[i..][0] == lines[i] && lines[i..][1..] == lines[i + 1..];
      var l := TrimSpace(lines[i]);
      i := i + 1;
      if !(EXEC <= l) || TrimSpace(l[|EXEC|..]) == "" {
        continue;
      }
      var words := Split(l[|EXEC|..]);
      if words.Err? {
        return words;
      }
      argv := words.value;
    }
    assert lines[i..] == [];
    r := if argv == [] then Err("no ExecStart command line") else Ok(argv);
  }

  lemma LineEndOf(l: string, rest: string)
    requires '\n' !in l
    ensures LineEnd(l + "\n" + rest) == |l|
  {
    var s := l + "\n" + rest;
    assert s[|l|] == '\n' && s[..|l|] == l;
    assert forall n :: |l| < n <= |s| ==> s[..n][|l|] == '\n';
  }

  lemma ScanFirstLine(l: string, rest: string)
    requires '\n' !in l && ByteLen(l) <= MAX_LINE
    ensures ScanLines(l + "\n" + rest) == [DropCR(l)] + ScanLines(rest)
  {
    LineEndOf(l, rest);
    assert (l + "\n" + rest)[..|l|] == l;
    assert (l + "\n" + rest)[|l| + 1..] == rest;
  }

  lemma {:induction false} ByteLenBound(s: string)
    ensures ByteLen(s) <= 4 * |s|
  {
    if s != "" { ByteLenBound(s[1..]); }
  }

  /** A line that names no command. */
  predicate Idle(l: string) {
    && '\n' !in l && 0 < |l| <= 100
    && !IsSpace(l[0]) && !IsSpace(l[|l| - 1])
    && (l[0] != EXEC[0] || l == EXEC)
  }

  lemma IdleLine(l: string)
    requires Idle(l)
    ensures DropCR(l) == l && ExecLine(l) == None
  {
    assert TrimSpace(l) == l;
    assert l == EXEC ==> l[|EXEC|..] == "";
  }

  lemma SkipLine(l: string, rest: string, argv: seq<string>)
    requires Idle(l)
    ensures LastArgv(ScanLines(l + "\n" + rest), argv) == LastArgv(ScanLines(rest), argv)
  {
    hide ScanLines, ByteLen;
    ByteLenBound(l);
    ScanFirstLine(l, rest);
    IdleLine(l);
    assert ([l] + ScanLines(rest))[1..] == ScanLines(rest);
  }

  lemma HeaderIsIdle()
    ensures Idle(NOTE1) && Idle(NOTE2) && Idle(SECTION) && Idle(EXEC)
  {
    assert Idle(NOTE1) by { Note1IsIdle(); }
    assert Idle(NOTE2) by { Note2IsIdle(); }
    assert Idle(SECTION) && Idle(EXEC) by { RestIsIdle(); }
  }

  lemma Note1IsIdle()
    ensures Idle(NOTE1)
  {
    var a, b := "# Written by the Retune agent's self-", "update. Delete this file to run the";
    assert a[0] == '#' && b[|b| - 1] == 'e';
    assert '\n' !in a;
    assert '\n' !in b;
    JoinIdle(a, b);
  }

  lemma JoinIdle(a: string, b: string)
    requires '\n' !in a && '\n' !in b && 0 < |a| <= 50 && 0 < |b| <= 50 && a[0] == '#' && !IsSpace(b[|b| - 1])
    ensures Idle(a + b)
  {
  }

  lemma Note2IsIdle() ensures Idle(NOTE2) { }
  lemma RestIsIdle() ensures Idle(SECTION) && Idle(EXEC) { }

  lemma SkipFour(n1: string, n2: string, se: string, ex: string, e: string)
    requires Idle(n1) && Idle(n2) && Idle(se) && Idle(ex)
    ensures LastArgv(ScanLines(n1 + "\n" + (n2 + "\n" + (se + "\n" + (ex + "\n" + e)))), [])
         == LastArgv(ScanLines(e), [])
  {
    SkipLine(n1, n2 + "\n" + (se + "\n" + (ex + "\n" + e)), []);
    SkipLine(n2, se + "\n" + (ex + "\n" + e), []);
    SkipLine(se, ex + "\n" + e, []);
    SkipLine(ex, e, []);
  }

  /** The notes, the section header and the empty ExecStart= before the command contribute nothing. */
  lemma SkipHeader(argv: seq<string>)
    ensures ReadUnit(DropIn(argv)) == LastArgv(ScanLines((EXEC + JoinQuoted(argv)) + "\n"), [])
  {
    HeaderIsIdle();
    SkipFour(NOTE1, NOTE2, SECTION, EXEC, (EXEC + JoinQuoted(argv)) + "\n");
  }

  // ----- What systemd makes of it ---------------------------------------------------------------

  /** The commands a unit starts, once systemd has read these lines after others: in the service section an
      ExecStart adds one, and an empty one takes back all before it. */
  function Commands(lines: seq<string>, inService: bool, before: seq<string>): seq<string> {
    if lines == [] then before
    else
      var l, rest := lines[0], lines[1..];
      if "[" <= l then Commands(rest, l == "[Service]", before)
      else if inService && "ExecStart=" <= l then Commands(rest, inService, if l == "ExecStart=" then [] else before + [l[10..]])
      else Commands(rest, inService, before)
  }

  lemma CommandsStep(l: string, lines: seq<string>, inService: bool, before: seq<string>)
    ensures Commands([l] + lines, inService, before) ==
            if "[" <= l then Commands(lines, l == "[Service]", before)
            else if inService && "ExecStart=" <= l then Commands(lines, inService, if l == "ExecStart=" then [] else before + [l[10..]])
            else Commands(lines, inService, before)
  {
    assert ([l] + lines)[1..] == lines;
  }

  lemma SplitLine(l: string, rest: string)
    requires '\n' !in l
    ensures SplitOn(l + "\n" + rest, '\n') == [l] + SplitOn(rest, '\n')
  {
    var s := l + "\n" + rest;
    assert s[|l|] == '\n' && s[..|l|] == l;
    assert forall n :: |l| < n <= |s| ==> s[..n][|l|] == '\n';
    assert s[|l| + 1..] == rest;
  }

  /** Whatever commands the unit had, of any number, the drop-in leaves it exactly one. */
  lemma DropInReplaces(argv: seq<string>, before: seq<string>)
    requires argv != [] && OneLine(argv)
    ensures Commands(SplitOn(DropIn(argv), '\n'), false, before) == [JoinQuoted(argv)]
  {
    hide Commands, SplitOn, JoinQuoted;
    HeaderIsIdle();
    JoinedLineBreak(argv);
    JoinedLastChar(argv);
    var e := EXEC + JoinQuoted(argv);
    DropInLines(NOTE1, NOTE2, SECTION, EXEC, e);
    NotesAreNotes();
    assert e[..10] == EXEC && e[10..] == JoinQuoted(argv);
    CommandsOf(NOTE1, NOTE2, e, before);
  }

  lemma CommandsOf(n1: string, n2: string, e: string, before: seq<string>)
    requires n1 != "" && n1[0] == '#' && n2 != "" && n2[0] == '#' && EXEC <= e && |e| > 10
    ensures Commands([n1, n2, SECTION, EXEC, e, ""], false, before) == [e[10..]]
  {
    hide Commands;
    assert [n1] + ([n2] + ([SECTION] + ([EXEC] + ([e] + ([""] + []))))) == [n1, n2, SECTION, EXEC, e, ""];
    CommandsStep(n1, [n2] + ([SECTION] + ([EXEC] + ([e] + ([""] + [])))), false, before);
    CommandsStep(n2, [SECTION] + ([EXEC] + ([e] + ([""] + []))), false, before);
    CommandsStep(SECTION, [EXEC] + ([e] + ([""] + [])), false, before);
    CommandsStep(EXEC, [e] + ([""] + []), true, before);
    CommandsStep(e, [""] + [], true, []);
    CommandsStep("", [], true, [e[10..]]);
    NoLines([e[10..]]);
    assert SECTION[0] == '[' && EXEC[0] == 'E' && e[0] == EXEC[0] && |EXEC| == 10;
    assert "[" <= SECTION && !("[" <= n1) && !("[" <= n2) && !("[" <= EXEC) && !("[" <= e) && !("[" <= "");
    assert [] + [e[10..]] == [e[10..]];
  }

  lemma NoLines(before: seq<string>)
    ensures Commands([], true, before) == before
  {
  }

  lemma NotesAreNotes()
    ensures NOTE1[0] == '#' && NOTE2[0] == '#'
  {
    var a, b := "# Written by the Retune agent's self-update.", " Delete this file to run the";
    FirstOf(a, b);
  }

  lemma FirstOf(a: string, b: string)
    requires a != ""
    ensures (a + b)[0] == a[0]
  {
  }

  lemma DropInLines(n1: string, n2: string, se: string, ex: string, e: string)
    requires '\n' !in n1 && '\n' !in n2 && '\n' !in se && '\n' !in ex && '\n' !in e
    ensures SplitOn(n1 + "\n" + (n2 + "\n" + (se + "\n" + (ex + "\n" + (e + "\n")))), '\n')
         == [n1] + [n2, se, ex, e, ""]
    ensures [n1] + [n2, se, ex, e, ""] == [n1, n2, se, ex, e, ""]
  {
    hide SplitOn;
    SplitLine(n1, n2 + "\n" + (se + "\n" + (ex + "\n" + (e + "\n"))));
    SplitLine(n2, se + "\n" + (ex + "\n" + (e + "\n")));
    SplitLine(se, ex + "\n" + (e + "\n"));
    SplitLine(ex, e + "\n");
    SplitLine(e, "");
    assert e + "\n" + "" == e + "\n";
    assert SplitOn("", '\n') == [""] by { SplitNothing(); }
  }

  lemma SplitNothing()
    ensures SplitOn("", '\n') == [""]
  {
  }

  // ----- When the drop-in reads back ----------------------------------------------------------

  function Count(p: char -> bool, s: string): nat {
    if s == "" then 0 else (if p(s[0]) then 1 else 0) + Count(p, s[1..])
  }

  function CountAll(p: char -> bool, ws: seq<string>): nat {
    if ws == [] then 0 else Count(p, ws[0]) + CountAll(p, ws[1..])
  }

  lemma {:induction false} CountConcat(p: char -> bool, a: string, b: string)
    ensures Count(p, a + b) == Count(p, a) + Count(p, b)
    decreases |a|
  {
    if a == "" {
      assert a + b == b;
    } else {
      assert (a + b)[1..] == a[1..] + b;
      CountConcat(p, a[1..], b);
    }
  }

  lemma {:induction false} CountAllConcat(p: char -> bool, a: seq<string>, b: seq<string>)
    ensures CountAll(p, a + b) == CountAll(p, a) + CountAll(p, b)
    decreases |a|
  {
    if a == [] {
      assert a + b == b;
    } else {
      assert (a + b)[1..] == a[1..] + b;
      CountAllConcat(p, a[1..], b);
    }
  }

  ghost function Held(p: char -> bool, sc: Scan): nat { CountAll(p, sc.words) + Count(p, sc.cur) }

  lemma CountSnoc(p: char -> bool, s: string, c: char)
    ensures Count(p, s + [c]) == Count(p, s) + (if p(c) then 1 else 0)
  {
    CountConcat(p, s, [c]);
  }

  lemma CountHead(p: char -> bool, s: string)
    requires s != ""
    ensures Count(p, s) == (if p(s[0]) then 1 else 0) + Count(p, s[1..])
  {
  }

  lemma HeldAfterWord(p: char -> bool, sc: Scan)
    ensures Held(p, Scan(sc.words + [sc.cur], "", false, false)) == Held(p, sc)
  {
    CountAllConcat(p, sc.words, [sc.cur]);
  }

  lemma AdvanceAddsNothing(p: char -> bool, s: string, sc: Scan)
    requires s != ""
    ensures var m := Advance(s, sc); Held(p, m.sc) + Count(p, s[m.used..]) <= Held(p, sc) + Count(p, s)
  {
    hide Count, CountAll;
    CountHead(p, s);
    CountSnoc(p, sc.cur, s[0]);
    if 1 < |s| {
      CountHead(p, s[1..]);
      CountSnoc(p, sc.cur, s[1]);
      assert s[1..][1..] == s[2..];
    }
    HeldAfterWord(p, sc);
  }

  lemma {:induction false} ScanAddsNothing(p: char -> bool, s: string, sc: Scan)
    ensures Held(p, ScanFrom(s, sc)) <= Held(p, sc) + Count(p, s)
    decreases |s|
  {
    hide Count, CountAll, Advance;
    if s != "" {
      AdvanceAddsNothing(p, s, sc);
      var m := Advance(s, sc);
      ScanAddsNothing(p, s[m.used..], m.sc);
    }
  }

  /** Splitting invents no characters. */
  lemma SplitAddsNothing(p: char -> bool, s: string)
    requires SplitWords(s).Ok?
    ensures CountAll(p, SplitWords(s).value) <= Count(p, s)
  {
    ScanAddsNothing(p, s, START);
    var sc := ScanFrom(s, START);
    CountAllConcat(p, sc.words, [sc.cur]);
  }

  /** Whitespace that is neither a space nor a tab: quoting leaves it bare. */
  predicate Odd(c: char) { IsSpace(c) && c != ' ' && c != '\t' }

  lemma {:induction false} CountEscaped(s: string)
    ensures Count(Odd, Escape(s)) == Count(Odd, s)
  {
    if s != "" {
      CountEscaped(s[1..]);
      CountConcat(Odd, EscapeChar(s[0]), Escape(s[1..]));
      var e := EscapeChar(s[0]);
      assert |e| == 2 ==> e[1..][1..] == "";
    }
  }

  lemma {:induction false} CountJoined(argv: seq<string>)
    ensures Count(Odd, JoinQuoted(argv)) == CountAll(Odd, argv)
    decreases |argv|
  {
    if argv != [] {
      var a := argv[0];
      CountEscaped(a);
      CountConcat(Odd, "\"", Escape(a));
      CountConcat(Odd, "\"" + Escape(a), "\"");
      assert Count(Odd, "\"") == 0 && Count(Odd, " ") == 0;
      assert Count(Odd, Quote(a)) == Count(Odd, a);
      if 1 < |argv| {
        CountJoined(argv[1..]);
        CountConcat(Odd, Quote(a), " ");
        CountConcat(Odd, Quote(a) + " ", JoinQuoted(argv[1..]));
      }
    }
  }

  /** What a caller can check of the words it is about to write: no line break in any of them, no
      trailing odd whitespace left bare at the end of the line, and a line the scanner can hold. */
  ghost predicate Readable(argv: seq<string>)
    requires argv != []
  {
    var last := argv[|argv| - 1];
    && (forall i :: 0 <= i < |argv| ==> '\n' !in argv[i])
    && !(Bare(last) && Odd(last[|last| - 1]))
    && ByteLen(EXEC + JoinQuoted(argv)) <= MAX_LINE
  }

  lemma {:induction false} JoinedLastChar(argv: seq<string>)
    requires argv != []
    ensures JoinQuoted(argv) != ""
    ensures var q, last := JoinQuoted(argv), argv[|argv| - 1];
            q[|q| - 1] == if Bare(last) then last[|last| - 1] else '"'
    decreases |argv|
  {
    if 1 < |argv| { JoinedLastChar(argv[1..]); }
  }

  lemma {:induction false} EscapeLineBreak(s: string)
    ensures '\n' in Escape(s) <==> '\n' in s
  {
    if s != "" { EscapeLineBreak(s[1..]); }
  }

  lemma {:induction false} JoinedLineBreak(argv: seq<string>)
    ensures '\n' in JoinQuoted(argv) <==> exists i :: 0 <= i < |argv| && '\n' in argv[i]
    decreases |argv|
  {
    if argv != [] {
      EscapeLineBreak(argv[0]);
      assert '\n' in Quote(argv[0]) <==> '\n' in argv[0];
      if 1 < |argv| {
        JoinedLineBreak(argv[1..]);
        forall i | 0 <= i < |argv| && '\n' in argv[i]
          ensures '\n' in JoinQuoted(argv)
        {
          if 0 < i { assert argv[1..][i - 1] == argv[i]; }
        }
      }
    }
  }

  lemma {:induction false} CountPositive(p: char -> bool, s: string, i: nat)
    requires i < |s| && p(s[i])
    ensures 0 < Count(p, s)
  {
    if 0 < i { CountPositive(p, s[1..], i - 1); }
  }

  lemma {:induction false} CountAllPositive(p: char -> bool, ws: seq<string>, i: nat)
    requires i < |ws| && 0 < Count(p, ws[i])
    ensures 0 < CountAll(p, ws)
  {
    if 0 < i { CountAllPositive(p, ws[1..], i - 1); }
  }

  lemma {:induction false} CountAbsent(s: string)
    requires '\n' !in s
    ensures Count(c => c == '\n', s) == 0
  {
    if s != "" { CountAbsent(s[1..]); }
  }

  predicate OneLine(argv: seq<string>) { forall i :: 0 <= i < |argv| ==> '\n' !in argv[i] }

  lemma SplitKeepsOneLine(s: string)
    requires '\n' !in s && SplitWords(s).Ok?
    ensures OneLine(SplitWords(s).value)
  {
    var nl := c => c == '\n';
    var ws := SplitWords(s).value;
    SplitAddsNothing(nl, s);
    CountAbsent(s);
    forall i | 0 <= i < |ws|
      ensures '\n' !in ws[i]
    {
      if j :| 0 <= j < |ws[i]| && ws[i][j] == '\n' {
        CountPositive(nl, ws[i], j);
        CountAllPositive(nl, ws, i);
      }
    }
  }

  /** Nothing read from a unit holds a line break. */
  lemma ExecLineOneLine(line: string)
    requires '\n' !in line
    ensures match ExecLine(line) case Some(Ok(words)) => OneLine(words) case _ => true
  {
    var t := TrimRight(line);
    var l := TrimSpace(line);
    assert '\n' !in l;
    if ExecLine(line).Some? && ExecLine(line).value.Ok? {
      SplitKeepsOneLine(l[|EXEC|..]);
    }
  }

  lemma {:induction false} ReadsOneLine(lines: seq<string>, argv: seq<string>)
    requires OneLine(argv) && OneLine(lines)
    ensures var r := LastArgv(lines, argv); r.Ok? ==> OneLine(r.value)
    decreases |lines|
  {
    if lines != [] {
      ExecLineOneLine(lines[0]);
      match ExecLine(lines[0])
      case None => ReadsOneLine(lines[1..], argv);
      case Some(Err(_)) =>
      case Some(Ok(words)) => ReadsOneLine(lines[1..], words);
    }
  }

  lemma {:induction false} ScannedOneLine(text: string)
    ensures OneLine(ScanLines(text))
    decreases |text|
  {
    hide ByteLen, LineEnd;
    if text != "" {
      var n := LineEnd(text);
      assert '\n' !in DropCR(text[..n]);
      if n < |text| { ScannedOneLine(text[n + 1..]); }
    }
  }

  lemma {:induction false} TrimRightLoses(s: string)
    requires s != "" && Odd(s[|s| - 1])
    ensures Count(Odd, TrimRight(s)) < Count(Odd, s)
  {
    var t := TrimRight(s[..|s| - 1]);
    var rest := s[|t|..];
    assert t <= s[..|s| - 1];
    assert s == t + rest;
    CountConcat(Odd, t, rest);
    CountPositive(Odd, rest, |rest| - 1);
  }

  lemma TrimRightDropCR(s: string)
    ensures TrimRight(DropCR(s)) == TrimRight(s)
  {
  }

  lemma CommandIsOneLine(argv: seq<string>)
    requires OneLine(argv)
    ensures '\n' !in EXEC + JoinQuoted(argv)
  {
    JoinedLineBreak(argv);
  }

  /** The command line as it comes back: what is left of it once trimmed. */
  lemma ReadCommandLine(argv: seq<string>)
    requires argv != [] && OneLine(argv) && ByteLen(EXEC + JoinQuoted(argv)) <= MAX_LINE
    ensures ReadUnit(DropIn(argv)) == LastArgv([DropCR(EXEC + JoinQuoted(argv))], [])
  {
    SkipHeader(argv);
    CommandIsOneLine(argv);
    ScanOnlyLine(EXEC + JoinQuoted(argv));
  }

  lemma ScanOnlyLine(line: string)
    requires '\n' !in line
    ensures ScanLines(line + "\n") == if ByteLen(line) <= MAX_LINE then [DropCR(line)] else []
  {
    LineEndOf(line, "");
    assert line + "\n" + "" == line + "\n";
    assert (line + "\n")[..|line|] == line && (line + "\n")[|line| + 1..] == "";
  }

  lemma UntrimmedLine(l: string)
    requires l != "" && !IsSpace(l[0]) && !IsSpace(l[|l| - 1])
    ensures TrimSpace(l) == l && DropCR(l) == l
  {
    TrimSame(l);
  }

  lemma ConcatEnds(pre: string, q: string)
    requires pre != "" && q != ""
    ensures (pre + q)[0] == pre[0] && (pre + q)[|pre| + |q| - 1] == q[|q| - 1] && (pre + q)[|pre|..] == q
  {
  }

  lemma ExecLineOf(q: string)
    requires q != "" && !IsSpace(q[|q| - 1])
    ensures DropCR(EXEC + q) == EXEC + q && ExecLine(EXEC + q) == Some(SplitWords(q))
  {
    assert !IsSpace(EXEC[0]);
    hide IsSpace, TrimSpace, SplitWords, DropCR;
    TrimSpaceNonEmpty(q);
    ConcatEnds(EXEC, q);
    UntrimmedLine(EXEC + q);
  }

  lemma LastArgvOne(line: string)
    ensures LastArgv([line], []) == match ExecLine(line)
                                    case None => Err("no ExecStart command line")
                                    case Some(Err(e)) => Err(e)
                                    case Some(Ok(words)) => if words == [] then Err("no ExecStart command line") else Ok(words)
  {
    var lines := [line];
    assert lines[1..] == [];
  }

  lemma ReadBackGood(argv: seq<string>)
    requires argv != [] && Readable(argv)
    ensures ReadUnit(DropIn(argv)) == Ok(argv)
  {
    hide JoinQuoted, DropIn, ReadUnit, ExecLine, DropCR, ByteLen, SplitWords;
    var q := JoinQuoted(argv);
    ReadCommandLine(argv);
    JoinedLastChar(argv);
    var last := argv[|argv| - 1];
    assert Bare(last) ==> !Special(last[|last| - 1]);
    ExecLineOf(q);
    SplitUndoesQuote(argv);
    LastArgvOne(EXEC + q);
  }

  lemma {:induction false} TrimSpaceNonEmpty(s: string)
    requires s != "" && !IsSpace(s[|s| - 1])
    ensures TrimLeft(s) != "" && TrimSpace(s) != ""
  {
    if IsSpace(s[0]) { TrimSpaceNonEmpty(s[1..]); }
  }

  lemma TrimLeftLoses(t: string)
    ensures Count(Odd, TrimLeft(t)) <= Count(Odd, t)
  {
    hide TrimLeft, Count, Odd;
    var r := TrimLeft(t);
    var k := |t| - |r|;
    assert t == t[..k] + r;
    CountConcat(Odd, t[..k], r);
  }

  lemma TrimSpaceLoses(line: string)
    requires line != "" && Odd(line[|line| - 1])
    ensures Count(Odd, TrimSpace(DropCR(line))) < Count(Odd, line)
  {
    TrimRightLoses(line);
    TrimRightDropCR(line);
    TrimLeftLoses(TrimRight(line));
  }

  lemma CountAfterPrefix(l: string, pre: string)
    requires pre <= l
    ensures Count(Odd, l) == Count(Odd, pre) + Count(Odd, l[|pre|..])
  {
    assert l == pre + l[|pre|..];
    CountConcat(Odd, pre, l[|pre|..]);
  }

  lemma CountCommand(q: string)
    ensures Count(Odd, EXEC + q) == Count(Odd, EXEC) + Count(Odd, q)
  {
    CountConcat(Odd, EXEC, q);
  }

  lemma SplitTail(l: string, pre: string)
    requires pre <= l && SplitWords(l[|pre|..]).Ok?
    ensures CountAll(Odd, SplitWords(l[|pre|..]).value) + Count(Odd, pre) <= Count(Odd, l)
  {
    CountAfterPrefix(l, pre);
    SplitAddsNothing(Odd, l[|pre|..]);
  }

  /** A trimmed command line holds strictly fewer odd characters than the words it was made from. */
  lemma TrimmedLineLoses(q: string)
    requires q != "" && Odd(q[|q| - 1])
    ensures match ExecLine(DropCR(EXEC + q)) case Some(Ok(words)) => CountAll(Odd, words) < Count(Odd, q) case _ => true
  {
    hide TrimSpace, DropCR, Count, CountAll, Odd, SplitWords;
    var line := EXEC + q;
    assert line[|line| - 1] == q[|q| - 1];
    TrimSpaceLoses(line);
    var l := TrimSpace(DropCR(line));
    CountCommand(q);
    if EXEC <= l && SplitWords(l[|EXEC|..]).Ok? {
      SplitTail(l, EXEC);
    }
  }

  lemma ReadBackTrimmed(argv: seq<string>)
    requires argv != [] && OneLine(argv) && ByteLen(EXEC + JoinQuoted(argv)) <= MAX_LINE
    requires var last := argv[|argv| - 1]; Bare(last) && Odd(last[|last| - 1])
    ensures ReadUnit(DropIn(argv)) != Ok(argv)
  {
    hide JoinQuoted, DropIn, ReadUnit, ExecLine, DropCR, Count, CountAll, ByteLen;
    ReadCommandLine(argv);
    JoinedLastChar(argv);
    TrimmedLineLoses(JoinQuoted(argv));
    CountJoined(argv);
    LastArgvOne(DropCR(EXEC + JoinQuoted(argv)));
  }

  lemma ReadBackLong(argv: seq<string>)
    requires argv != [] && OneLine(argv) && ByteLen(EXEC + JoinQuoted(argv)) > MAX_LINE
    ensures ReadUnit(DropIn(argv)) != Ok(argv)
  {
    SkipHeader(argv);
    CommandIsOneLine(argv);
    ScanOnlyLine(EXEC + JoinQuoted(argv));
  }

  /** Reading back the drop-in that SetBinPath writes returns the same path and arguments, exactly
      when the words are Readable. */
  lemma DropInReadsBack(argv: seq<string>)
    requires argv != []
    ensures ReadUnit(DropIn(argv)) == Ok(argv) <==> Readable(argv)
  {
    if Readable(argv) {
      ReadBackGood(argv);
    } else if !OneLine(argv) {
      ScannedOneLine(DropIn(argv));
      ReadsOneLine(ScanLines(DropIn(argv)), []);
    } else if ByteLen(EXEC + JoinQuoted(argv)) > MAX_LINE {
      ReadBackLong(argv);
    } else {
      ReadBackTrimmed(argv);
    }
  }

  /** A service argument holding a line break is lost by a repoint. */
  lemma LineBreakIsLost()
    ensures ReadUnit(DropIn(["/opt/retune-agent", "a\nb"])) != Ok(["/opt/retune-agent", "a\nb"])
  {
    var argv := ["/opt/retune-agent", "a\nb"];
    assert argv[1][1] == '\n';
    DropInReadsBack(argv);
  }

  // ----- The controller -----------------------------------------------------------------------

  /** Which of SetBinPath's own calls succeed. */
  datatype WriteCalls = WriteCalls(mkdir: bool, write: bool, rename: bool, reload: bool)

  /** The command line the unit runs: the drop-in's if there is one, what systemd reports if there is not. */
  function CommandOf(dropIn: Option<string>, shown: Result<seq<string>>): Result<seq<string>> {
    if dropIn.Some? then ReadUnit(dropIn.value) else shown
  }

  function Answered(dropIn: Option<string>, shown: Result<seq<string>>): Result<(string, seq<string>)> {
    match CommandOf(dropIn, shown)
    case Err(e) => Err(e)
    case Ok(argv) => if argv == [] then Err("no command") else Ok((argv[0], argv[1..]))
  }

  class SystemdController {
    var dropIn: Option<string>

    constructor ()
      ensures dropIn == None
    {
      dropIn := None;
    }

    /** A failed SetBinPath may still have replaced the drop-in: the reload comes after it. */
    method SetBinPath(binPath: string, args: seq<string>, calls: WriteCalls) returns (ok: bool)
      modifies this
      ensures ok <==> calls.mkdir && calls.write && calls.rename && calls.reload
      ensures dropIn == if calls.mkdir && calls.write && calls.rename
                        then Some(DropIn([binPath] + args)) else old(dropIn)
    {
      if !calls.mkdir || !calls.write || !calls.rename {
        return false;
      }
      var line := Quote(binPath);
      var i := 0;
      assert JoinQuoted([binPath] + args[..0]) == line;
      while i < |args|
        invariant i <= |args|
        invariant line == JoinQuoted([binPath] + args[..i])
      {
        JoinedSnoc([binPath] + args[..i], args[i]);
        assert [binPath] + args[..i] + [args[i]] == [binPath] + args[..i + 1];
        line := line + " " + Quote(args[i]);
        i := i + 1;
      }
      assert args[..i] == args;
      dropIn := Some(NOTE1 + "\n" + (NOTE2 + "\n" + (SECTION + "\n" + (EXEC + "\n" + ((EXEC + line) + "\n")))));
      ok := calls.reload;
    }

    /** Config, given whether a drop-in that is there can be read, and what systemd itself would answer for a
        unit without one. */
    method Config(opens: bool, shown: Result<seq<string>>) returns (r: Result<(string, seq<string>)>)
      requires shown.Ok? ==> shown.value != []
      ensures r.Ok? ==> Answered(dropIn, shown) == r
      ensures r.Err? <==> (dropIn.Some? && !opens) || Answered(dropIn, shown).Err?
      ensures forall argv: seq<string> ::
                argv != [] && Readable(argv) && dropIn == Some(DropIn(argv)) && opens ==> r == Ok((argv[0], argv[1..]))
      ensures dropIn == None && shown.Ok? ==> r == Ok((shown.value[0], shown.value[1..]))
    {
      var argv := shown;
      if dropIn.Some? && !opens {
        return Err("the drop-in cannot be read");
      }
      if dropIn.Some? {
        argv := LastExecStart(dropIn.value);
        forall argv: seq<string> | argv != [] && Readable(argv) && dropIn == Some(DropIn(argv))
          ensures ReadUnit(dropIn.value) == Ok(argv)
        {
          DropInReadsBack(argv);
        }
        ReadNonEmpty(ScanLines(dropIn.value), []);
      }
      r := if argv.Err? then Err(argv.error) else Ok((argv.value[0], argv.value[1..]));
    }
  }

  lemma {:induction false} ReadNonEmpty(lines: seq<string>, argv: seq<string>)
    ensures LastArgv(lines, argv).Ok? ==> LastArgv(lines, argv).value != []
    decreases |lines|
  {
    if lines != [] {
      match ExecLine(lines[0])
      case None => ReadNonEmpty(lines[1..], argv);
      case Some(Err(_)) =>
      case Some(Ok(words)) => ReadNonEmpty(lines[1..], words);
    }
  }

  lemma {:induction false} JoinedSnoc(argv: seq<string>, a: string)
    requires argv != []
    ensures JoinQuoted(argv + [a]) == JoinQuoted(argv) + " " + Quote(a)
    decreases |argv|
  {
    hide Quote;
    if 1 < |argv| {
      JoinedSnoc(argv[1..], a);
      assert (argv + [a])[1..] == argv[1..] + [a];
    } else {
      assert (argv + [a])[1..] == [a];
    }
  }
}
