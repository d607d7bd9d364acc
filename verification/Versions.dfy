/** Versions and their order: ParseVersion, Version.Compare and Newer of internal/release/manifest.go,
    and the server updater's Newer. */
module Versions {
  import opened Prelude
  import opened Text

  datatype Version = Version(major: int, minor: int, patch: int, pre: string)

  // ----- Comparing ----------------------------------------------------------------------------

  function Sign(a: int, b: int): int { if a < b then -1 else if b < a then 1 else 0 }

  /** How Compare ranks two prerelease identifiers. */
  function IdentOrder(a: string, b: string): int {
    if a == b then 0
    else match (Atoi(a), Atoi(b))
      case (Some(x), Some(y)) => if x < y then -1 else 1
      case (Some(_), None) => -1
      case (None, Some(_)) => 1
      case (None, None) => if Less(a, b) then -1 else 1
  }

  function IdentsOrder(a: seq<string>, b: seq<string>): int {
    if a == [] || b == [] then Sign(|a|, |b|)
    else if a[0] == b[0] then IdentsOrder(a[1..], b[1..])
    else IdentOrder(a[0], b[0])
  }

  function PreOrder(p: string, q: string): int {
    if p == q then 0
    else if p == "" then 1
    else if q == "" then -1
    else IdentsOrder(SplitOn(p, '.'), SplitOn(q, '.'))
  }

  function Order(v: Version, w: Version): int {
    if v.major != w.major then Sign(v.major, w.major)
    else if v.minor != w.minor then Sign(v.minor, w.minor)
    else if v.patch != w.patch then Sign(v.patch, w.patch)
    else PreOrder(v.pre, w.pre)
  }

  /** Version.Compare, as the loops the source runs. For the versions SemVer admits, build metadata included,
      its answer is the precedence of section 11 of Semantic Versioning 2.0.0, unless the identifiers that
      decide are misread or there is metadata where they do. */
  method Compare(v: Version, o: Version) returns (r: int)
    ensures r == Order(v, o)
    ensures r == 0 <==> v == o
    ensures SemVerVersion(v) && SemVerVersion(o) && !VersionsMisread(v, o) ==>
              (r < 0 <==> Precedes(v, o)) && (r > 0 <==> Precedes(o, v))
  {
    hide *;
    CompareMeetsSemVer(v, o);
    r := CompareParts(v, o);
  }

  method CompareParts(v: Version, o: Version) returns (r: int)
    ensures r == Order(v, o)
  {
    hide IdentsOrder, SplitOn;
    var core := [(v.major, o.major), (v.minor, o.minor), (v.patch, o.patch)];
    var k := 0;
    while k < 3
      invariant k <= 3
      invariant 0 < k ==> v.major == o.major
      invariant 1 < k ==> v.minor == o.minor
      invariant 2 < k ==> v.patch == o.patch
    {
      if core[k].0 != core[k].1 {
        return if core[k].0 < core[k].1 then -1 else 1;
      }
      k := k + 1;
    }
    if v.pre == o.pre {
      return 0;
    } else if v.pre == "" {
      return 1;
    } else if o.pre == "" {
      return -1;
    }
    r := CompareIdents(SplitOn(v.pre, '.'), SplitOn(o.pre, '.'));
  }

  method CompareIdents(a: seq<string>, b: seq<string>) returns (r: int)
    ensures r == IdentsOrder(a, b)
  {
    hide Atoi, Less;
    var i := 0;
    while i < |a| && i < |b|
      invariant i <= |a| && i <= |b|
      invariant IdentsOrder(a[i..], b[i..]) == IdentsOrder(a, b)
    {
      assert a[i..][1..] == a[i + 1..] && b[i..][1..] == b[i + 1..];
      if a[i] != b[i] {
        var ai, bi := Atoi(a[i]), Atoi(b[i]);
        if ai.Some? && bi.Some? {
          return if ai.value < bi.value then -1 else 1;
        } else if ai.Some? {
          return -1;
        } else if bi.Some? {
          return 1;
        } else {
          return if Less(a[i], b[i]) then -1 else 1;
        }
      }
      i := i + 1;
    }
    r := if |a| < |b| then -1 else if |a| > |b| then 1 else 0;
  }

  // ----- Where the order is total -------------------------------------------------------------

  /** A numeric identifier spelled the one way section 9 of SemVer 2.0.0 allows: no sign that
      changes nothing, no leading zero. */
  predicate CanonicalIdent(x: string) {
    Atoi(x).Some? ==>
      && x[0] != '+' && x != "-0"
      && (|Unsigned(x)| > 1 ==> Unsigned(x)[0] != '0')
  }

  predicate Canonical(v: Version) {
    var ids := SplitOn(v.pre, '.');
    forall i :: 0 <= i < |ids| ==> CanonicalIdent(ids[i])
  }

  lemma {:induction false} DigitsPositive(s: string)
    requires AllDigits(s) && s[0] != '0'
    ensures DigitsValue(s) > 0
  {
    if |s| > 1 {
      assert s[..|s| - 1][0] == s[0];
      DigitsPositive(s[..|s| - 1]);
    }
  }

  lemma DigitsStep(s: string)
    requires AllDigits(s)
    ensures DigitsValue(s) == 10 * DigitsValue(s[..|s| - 1]) + DigitOf(s[|s| - 1])
    ensures |s| > 1 ==> AllDigits(s[..|s| - 1]) && s[..|s| - 1][0] == s[0]
    ensures s == s[..|s| - 1] + [s[|s| - 1]]
  {
    hide *;
    DigitsPrefix(s);
    DigitsUnfold(s);
  }

  lemma DigitsPrefix(s: string)
    requires AllDigits(s)
    ensures var a := s[..|s| - 1]; forall i :: 0 <= i < |a| ==> IsDigit(a[i])
    ensures |s| > 1 ==> AllDigits(s[..|s| - 1]) && s[..|s| - 1][0] == s[0]
    ensures s == s[..|s| - 1] + [s[|s| - 1]] && IsDigit(s[|s| - 1])
  {
    hide IsDigit;
  }

  lemma DigitsUnfold(s: string)
    requires AllDigits(s)
    ensures DigitsValue(s) == 10 * DigitsValue(s[..|s| - 1]) + DigitOf(s[|s| - 1])
  {
    hide IsDigit;
  }

  lemma LastDigit(a: nat, x: nat, b: nat, y: nat)
    requires x < 10 && y < 10 && 10 * a + x == 10 * b + y
    ensures a == b && x == y
  {
  }

  /** Without leading zeros, a number is written in one way only. */
  lemma {:induction false} DigitsUnique(s: string, t: string)
    requires AllDigits(s) && AllDigits(t) && DigitsValue(s) == DigitsValue(t)
    requires |s| > 1 ==> s[0] != '0'
    requires |t| > 1 ==> t[0] != '0'
    ensures s == t
    decreases |s|
  {
    var a, b := s[..|s| - 1], t[..|t| - 1];
    DigitsStep(s);
    DigitsStep(t);
    LastDigit(DigitsValue(a), DigitOf(s[|s| - 1]), DigitsValue(b), DigitOf(t[|t| - 1]));
    if a != "" { DigitsPositive(a); }
    if b != "" { DigitsPositive(b); }
    if a != "" && b != "" { DigitsUnique(a, b); }
  }

  lemma CanonicalUnique(x: string, y: string)
    requires CanonicalIdent(x) && CanonicalIdent(y) && Atoi(x).Some? && Atoi(x) == Atoi(y)
    ensures x == y
  {
    var a, b := Unsigned(x), Unsigned(y);
    ZeroValue(a);
    ZeroValue(b);
    DigitsUnique(a, b);
    assert x == (if x[0] == '-' then "-" + a else a);
    assert y == (if y[0] == '-' then "-" + b else b);
  }

  lemma ZeroValue(a: string)
    requires AllDigits(a) && (|a| > 1 ==> a[0] != '0')
    ensures DigitsValue(a) == 0 <==> a == "0"
  {
    if a[0] != '0' { DigitsPositive(a); } else { assert a == "0" && a[..0] == ""; }
  }

  lemma IdentTotal(a: string, b: string)
    requires CanonicalIdent(a) && CanonicalIdent(b)
    ensures IdentOrder(a, b) == -IdentOrder(b, a) && (IdentOrder(a, b) == 0 <==> a == b)
  {
    LessTotal(a, b);
    if Atoi(a).Some? && Atoi(a) == Atoi(b) { CanonicalUnique(a, b); }
  }

  lemma IdentTransitive(a: string, b: string, c: string)
    requires CanonicalIdent(a) && CanonicalIdent(b) && CanonicalIdent(c)
    requires IdentOrder(a, b) < 0 && IdentOrder(b, c) < 0
    ensures IdentOrder(a, c) < 0
  {
    IdentTotal(a, c);
    IdentTotal(a, b);
    IdentTotal(b, c);
    if Atoi(a).None? && Atoi(b).None? && Atoi(c).None? { LessTransitive(a, b, c); }
  }

  predicate AllCanonical(ids: seq<string>) { forall i :: 0 <= i < |ids| ==> CanonicalIdent(ids[i]) }

  lemma {:induction false} IdentsTotal(a: seq<string>, b: seq<string>)
    requires AllCanonical(a) && AllCanonical(b)
    ensures IdentsOrder(a, b) == -IdentsOrder(b, a) && (IdentsOrder(a, b) == 0 <==> a == b)
    decreases |a|
  {
    hide IdentOrder, CanonicalIdent;
    if a != [] && b != [] {
      IdentTotal(a[0], b[0]);
      if a[0] == b[0] {
        IdentsTotal(a[1..], b[1..]);
        assert a == [a[0]] + a[1..] && b == [b[0]] + b[1..];
      }
    }
  }

  lemma {:induction false} IdentsTransitive(a: seq<string>, b: seq<string>, c: seq<string>)
    requires AllCanonical(a) && AllCanonical(b) && AllCanonical(c)
    requires IdentsOrder(a, b) < 0 && IdentsOrder(b, c) < 0
    ensures IdentsOrder(a, c) < 0
    decreases |a|
  {
    if a != [] && b != [] && c != [] {
      IdentTotal(a[0], b[0]);
      IdentTotal(b[0], c[0]);
      IdentTotal(a[0], c[0]);
      if a[0] == b[0] == c[0] {
        IdentsTransitive(a[1..], b[1..], c[1..]);
      } else if a[0] != b[0] && b[0] != c[0] {
        IdentTransitive(a[0], b[0], c[0]);
      }
    }
  }

  lemma {:induction false} SplitInjective(p: string, q: string)
    requires SplitOn(p, '.') == SplitOn(q, '.')
    ensures p == q
    decreases |p|
  {
    var m, n := IndexOf(p, '.'), IndexOf(q, '.');
    var a, b := SplitOn(p, '.'), SplitOn(q, '.');
    assert a[0] == p[..m] && b[0] == q[..n];
    if m < |p| {
      assert a[1..] == SplitOn(p[m + 1..], '.');
      assert n < |q|;
      assert b[1..] == SplitOn(q[n + 1..], '.');
      SplitInjective(p[m + 1..], q[n + 1..]);
      assert p == p[..m] + "." + p[m + 1..] && q == q[..n] + "." + q[n + 1..];
    } else {
      assert |a| == 1;
      assert n == |q|;
    }
  }

  lemma {:induction false} IdentsZero(a: seq<string>, b: seq<string>)
    ensures IdentsOrder(a, b) == 0 <==> a == b
    decreases |a|
  {
    if a != [] && b != [] && a[0] == b[0] {
      IdentsZero(a[1..], b[1..]);
      assert a == [a[0]] + a[1..] && b == [b[0]] + b[1..];
    }
  }

  /** Compare answers 0 on equal versions only, whatever they are. */
  lemma CompareZero(v: Version, w: Version)
    ensures Order(v, w) == 0 <==> v == w
  {
    hide SplitOn;
    if v.pre != "" && w.pre != "" {
      IdentsZero(SplitOn(v.pre, '.'), SplitOn(w.pre, '.'));
      if SplitOn(v.pre, '.') == SplitOn(w.pre, '.') { SplitInjective(v.pre, w.pre); }
    }
  }

  /** The two answers to a question and its converse are opposite. */
  lemma CompareIsAntisymmetric(v: Version, w: Version)
    requires Canonical(v) && Canonical(w)
    ensures Order(v, w) == -Order(w, v) && Order(v, w) in {-1, 0, 1}
  {
    IdentsTotal(SplitOn(v.pre, '.'), SplitOn(w.pre, '.'));
    IdentsRange(SplitOn(v.pre, '.'), SplitOn(w.pre, '.'));
  }

  lemma {:induction false} IdentsRange(a: seq<string>, b: seq<string>)
    ensures IdentsOrder(a, b) in {-1, 0, 1}
    decreases |a|
  {
    if a != [] && b != [] && a[0] == b[0] { IdentsRange(a[1..], b[1..]); }
  }

  lemma CompareIsTransitive(u: Version, v: Version, w: Version)
    requires Canonical(u) && Canonical(v) && Canonical(w)
    requires Order(u, v) < 0 && Order(v, w) < 0
    ensures Order(u, w) < 0
  {
    if u.pre != "" && v.pre != "" && w.pre != "" {
      var a, b, c := SplitOn(u.pre, '.'), SplitOn(v.pre, '.'), SplitOn(w.pre, '.');
      if IdentsOrder(a, b) < 0 && IdentsOrder(b, c) < 0 {
        IdentsTransitive(a, b, c);
        IdentsTotal(a, c);
      }
    }
  }

  // ----- Where it is not ----------------------------------------------------------------------

  /** The first identifiers to differ are two spellings of one number. */
  predicate Clash(a: seq<string>, b: seq<string>) {
    a != [] && b != [] &&
    if a[0] == b[0] then Clash(a[1..], b[1..]) else Atoi(a[0]).Some? && Atoi(a[0]) == Atoi(b[0])
  }

  predicate VersionsClash(v: Version, w: Version) {
    && v.major == w.major && v.minor == w.minor && v.patch == w.patch
    && v.pre != "" && w.pre != "" && v.pre != w.pre
    && Clash(SplitOn(v.pre, '.'), SplitOn(w.pre, '.'))
  }

  lemma {:induction false} IdentsClash(a: seq<string>, b: seq<string>)
    ensures IdentsOrder(a, b) == -IdentsOrder(b, a) <==> !Clash(a, b)
    decreases |a|
  {
    if a != [] && b != [] {
      if a[0] == b[0] { IdentsClash(a[1..], b[1..]); } else { LessTotal(a[0], b[0]); }
    }
  }

  /** Compare contradicts itself about exactly the pairs that clash. */
  lemma AntisymmetricExactly(v: Version, w: Version)
    ensures Order(v, w) == -Order(w, v) <==> !VersionsClash(v, w)
  {
    IdentsClash(SplitOn(v.pre, '.'), SplitOn(w.pre, '.'));
  }

  /** 1.0.0-01 and 1.0.0-1 are each newer than the other. */
  lemma LeadingZeroClash()
    ensures Order(Version(1, 0, 0, "01"), Version(1, 0, 0, "1")) == 1
    ensures Order(Version(1, 0, 0, "1"), Version(1, 0, 0, "01")) == 1
  {
    assert SplitOn("01", '.') == ["01"] by { assert IndexOf("01", '.') == 2; }
    assert SplitOn("1", '.') == ["1"] by { assert IndexOf("1", '.') == 1; }
    assert "01"[..1] == "0" && "0"[..0] == "" && "1"[..0] == "";
    assert DigitsValue("0") == 0;
    assert DigitsValue("01") == 1 && DigitsValue("1") == 1;
    assert Unsigned("01") == "01" && Unsigned("1") == "1";
    assert Atoi("01") == Some(1) && Atoi("1") == Some(1);
    assert "01" != "1";
  }

  // ----- Section 11 of Semantic Versioning 2.0.0 ----------------------------------------------

  predicate IdentChar(c: char) { IsDigit(c) || 'a' <= c <= 'z' || 'A' <= c <= 'Z' || c == '-' }

  /** An identifier as section 9 allows it. */
  predicate SemVerIdent(x: string) {
    && x != "" && (forall i :: 0 <= i < |x| ==> IdentChar(x[i]))
    && (AllDigits(x) && |x| > 1 ==> x[0] != '0')
  }

  /** One of build metadata, as section 10 allows it. */
  predicate MetadataIdent(x: string) { x != "" && forall i :: 0 <= i < |x| ==> IdentChar(x[i]) }

  /** A prerelease, or one identifier, without the build metadata behind it. ParseVersion leaves that in. */
  function Untagged(p: string): string { p[..IndexOf(p, '+')] }

  predicate AllSemVer(ids: seq<string>) { forall i :: 0 <= i < |ids| ==> SemVerIdent(ids[i]) }

  predicate AllMetadata(ids: seq<string>) { forall i :: 0 <= i < |ids| ==> MetadataIdent(ids[i]) }

  predicate SemVerVersion(v: Version) {
    v.pre == "" ||
    var k := IndexOf(v.pre, '+');
    AllSemVer(SplitOn(Untagged(v.pre), '.')) && (k < |v.pre| ==> AllMetadata(SplitOn(v.pre[k + 1..], '.')))
  }

  /** 11.4.1 to 11.4.3: numbers by value, words in ASCII order, numbers below words. */
  predicate IdentPrecedes(a: string, b: string) {
    if AllDigits(a) && AllDigits(b) then DigitsValue(a) < DigitsValue(b)
    else if AllDigits(a) != AllDigits(b) then AllDigits(a)
    else Less(a, b)
  }

  /** 11.4: the first difference decides, and a longer list outranks its own beginning (11.4.4). */
  ghost predicate FirstDifference(a: seq<string>, b: seq<string>, k: nat) {
    && k <= |a| && k <= |b| && a[..k] == b[..k]
    && ((k == |a| && k < |b|) || (k < |a| && k < |b| && a[k] != b[k] && IdentPrecedes(a[k], b[k])))
  }

  ghost predicate IdentsPrecede(a: seq<string>, b: seq<string>) { exists k :: FirstDifference(a, b, k) }

  /** Build metadata does not figure in precedence. */
  ghost predicate Precedes(v: Version, w: Version) {
    || v.major < w.major
    || (v.major == w.major && v.minor < w.minor)
    || (v.major == w.major && v.minor == w.minor && v.patch < w.patch)
    || (v.major == w.major && v.minor == w.minor && v.patch == w.patch &&
        (if v.pre == "" then false else if w.pre == "" then true
         else IdentsPrecede(SplitOn(Untagged(v.pre), '.'), SplitOn(Untagged(w.pre), '.'))))
  }

  // ----- Where Compare agrees with it -----------------------------------------------------------

  /** Of two numbers without leading zeros, the first is the smaller. */
  predicate SmallerNumber(u: string, v: string) { |u| < |v| || (|u| == |v| && Less(u, v)) }

  /** Two identifiers that are numbers but for metadata: Compare takes one beyond 64 bits, or with metadata
      behind it, for a word. It then comes after any other, and two such go by their text. */
  predicate NumbersMisread(x: string, y: string) {
    var u, v := Untagged(x), Untagged(y);
    match (Atoi(x), Atoi(y))
    case (Some(_), Some(_)) => false
    case (Some(_), None) => SmallerNumber(v, u)
    case (None, Some(_)) => SmallerNumber(u, v)
    case (None, None) => |u| != |v| && (|u| < |v|) != Less(u, v)
  }

  /** A number and a word, of which the number comes first: Compare takes a hyphen and digits for a negative
      number, and may have taken the number for a word. */
  predicate NumberMisread(n: string, x: string) { Atoi(x).Some? || (Atoi(n).None? && Less(Untagged(x), Untagged(n))) }

  /** Two words, which go by their text: those that are a hyphen and digits go by value among themselves and
      before all others instead. */
  predicate WordsMisread(x: string, y: string) {
    match (Atoi(x), Atoi(y))
    case (Some(m), Some(n)) => m == n || (m < n) != Less(x, y)
    case (Some(_), None) => Less(Untagged(y), x)
    case (None, Some(_)) => Less(Untagged(x), y)
    case (None, None) => false
  }

  /** Two identifiers, different but for metadata, that Compare puts in the wrong order at least one way round. */
  predicate Misread(x: string, y: string) {
    if AllDigits(Untagged(x)) && AllDigits(Untagged(y)) then NumbersMisread(x, y)
    else if AllDigits(Untagged(x)) then NumberMisread(x, y)
    else if AllDigits(Untagged(y)) then NumberMisread(y, x)
    else WordsMisread(x, y)
  }

  predicate Tagged(x: string) { '+' in x }

  /** What decides is misread: the first identifiers to differ are, or they differ in metadata alone, or after
      it has begun. */
  predicate FirstMisread(a: seq<string>, b: seq<string>) {
    && a != [] && b != []
    && if a[0] == b[0] then (if Tagged(a[0]) then a[1..] != b[1..] else FirstMisread(a[1..], b[1..]))
       else Untagged(a[0]) == Untagged(b[0]) || Misread(a[0], b[0])
  }

  predicate VersionsMisread(v: Version, w: Version) {
    && v.major == w.major && v.minor == w.minor && v.patch == w.patch
    && v.pre != "" && w.pre != "" && v.pre != w.pre
    && FirstMisread(SplitOn(v.pre, '.'), SplitOn(w.pre, '.'))
  }

  function Pow10(n: nat): nat { if n == 0 then 1 else 10 * Pow10(n - 1) }

  lemma {:induction false} Pow10Grows(m: nat, n: nat)
    requires m <= n
    ensures Pow10(m) <= Pow10(n)
    decreases n
  {
    if m < n { Pow10Grows(m, n - 1); }
  }

  /** A number between the powers of ten its length says. */
  lemma {:induction false} DigitsBounds(s: string)
    requires AllDigits(s)
    ensures DigitsValue(s) < Pow10(|s|)
    ensures s[0] != '0' ==> DigitsValue(s) >= Pow10(|s| - 1)
  {
    if |s| == 1 {
      assert s[..0] == "";
      assert Pow10(1) == 10 * Pow10(0);
    } else {
      DigitsStep(s);
      DigitsBounds(s[..|s| - 1]);
    }
  }

  lemma Tenfold(h: nat, p: nat, u: nat, d: nat)
    ensures 10 * (h * p + u) + d == h * (10 * p) + (10 * u + d)
  {
  }

  lemma {:induction false} HeadValue(s: string)
    requires AllDigits(s)
    ensures |s| > 1 ==> AllDigits(s[1..])
    ensures DigitsValue(s) == DigitOf(s[0]) * Pow10(|s| - 1) + DigitsValue(s[1..])
  {
    hide IsDigit;
    assert forall i :: 0 <= i < |s| - 1 ==> s[1..][i] == s[i + 1];
    if |s| == 1 {
      assert s[..0] == "" && s[1..] == "";
    } else {
      var a, n := s[..|s| - 1], |s| - 1;
      DigitsStep(s);
      HeadValue(a);
      assert s[1..][..n - 1] == a[1..];
      DigitsStep(s[1..]);
      hide DigitsValue, Pow10;
      assert Pow10(n) == 10 * Pow10(n - 1) by { Pow10Step(n); }
      Tenfold(DigitOf(s[0]), Pow10(n - 1), DigitsValue(a[1..]), DigitOf(s[n]));
    }
  }

  lemma Pow10Step(n: nat)
    requires n > 0
    ensures Pow10(n) == 10 * Pow10(n - 1)
  {
  }

  /** The leading digit decides, and the rest if it does not. */
  lemma LeadingDigit(x: nat, y: nat, p: nat, u: nat, v: nat)
    requires u < p && v < p
    ensures x < y ==> x * p + u < y * p + v
    ensures x == y ==> (x * p + u < y * p + v <==> u < v)
  {
    if x < y { assert (x + 1) * p <= y * p; }
  }

  /** Numbers of one length go by their text. */
  lemma {:induction false} SameLengthByText(s: string, t: string)
    requires |s| == |t| && AllDigits(s) && AllDigits(t)
    ensures DigitsValue(s) < DigitsValue(t) <==> Less(s, t)
    decreases |s|
  {
    var p, x, y := Pow10(|s| - 1), DigitOf(s[0]), DigitOf(t[0]);
    HeadValue(s);
    HeadValue(t);
    assert (s[0] < t[0] <==> x < y) && (s[0] == t[0] <==> x == y);
    if |s| > 1 {
      DigitsBounds(s[1..]);
      DigitsBounds(t[1..]);
      SameLengthByText(s[1..], t[1..]);
    } else {
      assert s[1..] == "" && t[1..] == "";
      assert p == 1;
    }
    hide DigitsValue, Pow10;
    LeadingDigit(x, y, p, DigitsValue(s[1..]), DigitsValue(t[1..]));
    LeadingDigit(y, x, p, DigitsValue(t[1..]), DigitsValue(s[1..]));
  }

  /** Numbers without leading zeros go by their length, then by their text. */
  lemma LongerIsLarger(s: string, t: string)
    requires AllDigits(s) && AllDigits(t) && (|s| > 1 ==> s[0] != '0') && (|t| > 1 ==> t[0] != '0')
    ensures DigitsValue(s) < DigitsValue(t) <==> |s| < |t| || (|s| == |t| && Less(s, t))
  {
    DigitsBounds(s);
    DigitsBounds(t);
    if |s| < |t| {
      Pow10Grows(|s|, |t| - 1);
    } else if |t| < |s| {
      Pow10Grows(|t|, |s| - 1);
    } else {
      SameLengthByText(s, t);
    }
  }

  /** What Atoi makes of a section 9 identifier. */
  lemma SemVerAtoi(x: string)
    requires SemVerIdent(x)
    ensures AllDigits(x) ==> Atoi(x) == if DigitsValue(x) <= MAX_INT then Some(DigitsValue(x)) else None
    ensures !AllDigits(x) && Atoi(x).Some? ==> Atoi(x).value <= 0
  {
    assert IdentChar(x[0]);
    if AllDigits(x) { assert IsDigit(x[0]); assert Unsigned(x) == x; }
  }

  lemma NoLeadingZero(x: string)
    requires SemVerIdent(x) && AllDigits(x)
    ensures |x| > 1 ==> x[0] != '0'
  {
  }

  lemma IndexIs(s: string, c: char, n: nat)
    requires n <= |s| && c !in s[..n] && (n < |s| ==> s[n] == c)
    ensures IndexOf(s, c) == n
  {
    hide IndexOf;
    var k := IndexOf(s, c);
    assert forall j :: 0 <= j < n ==> s[..n][j] == s[j];
    assert forall j :: 0 <= j < k ==> s[..k][j] == s[j];
  }

  lemma TaggedIsNoNumber(x: string)
    requires SemVerIdent(Untagged(x)) && Tagged(x)
    ensures Atoi(x).None?
  {
    var k := IndexOf(x, '+');
    assert k < |x| && Untagged(x)[0] == x[0] && IdentChar(x[0]);
    assert Unsigned(x)[|Unsigned(x)| - (|x| - k)] == '+';
  }

  lemma UntaggedSame(x: string)
    ensures Tagged(x) <==> IndexOf(x, '+') < |x|
    ensures !Tagged(x) ==> Untagged(x) == x
    ensures Tagged(x) ==> |Untagged(x)| < |x|
  {
    hide IndexOf;
    assert x[..|x|] == x;
  }

  lemma {:induction false} ShorterFirst(s: string, t: string)
    requires s < t
    ensures Less(s, t) && !Less(t, s)
  {
    if s != "" {
      assert s[1..] < t[1..];
      ShorterFirst(s[1..], t[1..]);
    }
  }

  /** Metadata, which sorts before everything an identifier may hold, does not change how two go by their text. */
  lemma {:induction false} TextIgnoresMetadata(u: string, m: string, v: string, n: string)
    requires (forall i :: 0 <= i < |u| ==> IdentChar(u[i])) && (forall i :: 0 <= i < |v| ==> IdentChar(v[i])) && u != v
    requires (m != "" ==> m[0] == '+') && (n != "" ==> n[0] == '+')
    ensures Less(u + m, v + n) <==> Less(u, v)
    decreases |u|
  {
    if u != "" && v != "" {
      assert (u + m)[1..] == u[1..] + m && (v + n)[1..] == v[1..] + n;
      if u[0] == v[0] {
        assert u == [u[0]] + u[1..] && v == [v[0]] + v[1..];
        TextIgnoresMetadata(u[1..], m, v[1..], n);
      }
    } else {
      assert u == "" ==> u + m == m && v[0] > '+';
      assert v == "" ==> v + n == n && u[0] > '+';
    }
  }

  lemma ByUntaggedText(x: string, y: string)
    requires SemVerIdent(Untagged(x)) && SemVerIdent(Untagged(y)) && Untagged(x) != Untagged(y)
    ensures Less(x, y) <==> Less(Untagged(x), Untagged(y))
  {
    var j, k := IndexOf(x, '+'), IndexOf(y, '+');
    hide IndexOf, Less;
    assert x == x[..j] + x[j..] && y == y[..k] + y[k..];
    TextIgnoresMetadata(x[..j], x[j..], y[..k], y[k..]);
  }

  /** Compare's answer about two identifiers, metadata and all, is section 11's about them without it. */
  predicate IdentRight(x: string, y: string) {
    && (IdentOrder(x, y) < 0 <==> IdentPrecedes(Untagged(x), Untagged(y)))
    && (IdentOrder(x, y) > 0 <==> IdentPrecedes(Untagged(y), Untagged(x)))
  }

  lemma IdentRightExactly(x: string, y: string)
    requires SemVerIdent(Untagged(x)) && SemVerIdent(Untagged(y)) && Untagged(x) != Untagged(y)
    ensures IdentRight(x, y) && IdentRight(y, x) <==> !Misread(x, y)
  {
    var u, v := Untagged(x), Untagged(y);
    UntaggedSame(x);
    UntaggedSame(y);
    hide Untagged, Atoi, Less, SemVerIdent;
    NumberOrNot(x);
    NumberOrNot(y);
    ByUntaggedText(x, y);
    ByUntaggedText(y, x);
    LessTotal(u, v);
    if AllDigits(u) && AllDigits(v) {
      assert (|u| > 1 ==> u[0] != '0') && (|v| > 1 ==> v[0] != '0') by { NoLeadingZero(u); NoLeadingZero(v); }
      LongerIsLarger(u, v);
      LongerIsLarger(v, u);
    }
  }

  /** What Compare takes an identifier for, metadata and all. */
  lemma NumberOrNot(x: string)
    requires SemVerIdent(Untagged(x))
    ensures AllDigits(Untagged(x)) ==> Atoi(x) == if !Tagged(x) && DigitsValue(Untagged(x)) <= MAX_INT then Some(DigitsValue(Untagged(x))) else None
    ensures !AllDigits(Untagged(x)) && Atoi(x).Some? ==> Atoi(x).value <= 0
    ensures Atoi(x).Some? ==> !Tagged(x)
  {
    UntaggedSame(x);
    if Tagged(x) { TaggedIsNoNumber(x); } else { SemVerAtoi(x); }
  }

  /** The prerelease's own identifiers: up to the first with metadata, which it sheds. */
  function PreIdents(full: seq<string>): (ids: seq<string>)
    ensures ids == [] <==> full == []
  {
    if full == [] then []
    else if Tagged(full[0]) then [Untagged(full[0])]
    else [full[0]] + PreIdents(full[1..])
  }

  /** Cutting the metadata off and splitting is splitting and cutting it off. */
  lemma {:induction false} CutThenSplit(p: string)
    ensures SplitOn(Untagged(p), '.') == PreIdents(SplitOn(p, '.'))
    decreases |p|
  {
    var n, m := IndexOf(p, '.'), IndexOf(p, '+');
    if m <= n {
      CutInFirst(p);
    } else {
      var head, rest := p[..n], p[n + 1..];
      CutAfterFirst(p);
      CutThenSplit(rest);
      hide IndexOf, Untagged;
      assert SplitOn(p, '.') == [head] + SplitOn(rest, '.');
    }
  }

  lemma CutInFirst(p: string)
    requires IndexOf(p, '+') <= IndexOf(p, '.')
    ensures SplitOn(Untagged(p), '.') == PreIdents(SplitOn(p, '.'))
  {
    hide IndexOf;
    var n, m := IndexOf(p, '.'), IndexOf(p, '+');
    var q, head := Untagged(p), p[..n];
    assert forall i :: 0 <= i < m ==> q[i] == head[i];
    OneIdent(q);
    assert n == |p| ==> head == p;
    assert head[..m] == q;
    IndexIs(head, '+', m);
    UntaggedSame(head);
    assert SplitOn(p, '.')[0] == head;
    assert m == |p| ==> q == p;
  }

  lemma NotInParts(s: string, c: char, i: nat)
    requires c !in s && i <= |s|
    ensures c !in s[..i] && c !in s[i..]
  {
  }

  lemma CutAfterFirst(p: string)
    requires IndexOf(p, '.') < IndexOf(p, '+')
    ensures var n := IndexOf(p, '.');
            SplitOn(Untagged(p), '.') == [p[..n]] + SplitOn(Untagged(p[n + 1..]), '.') && !Tagged(p[..n])
  {
    hide IndexOf, SplitOn;
    var n, m := IndexOf(p, '.'), IndexOf(p, '+');
    var q, head, rest, k := p[..m], p[..n], p[n + 1..], m - n - 1;
    assert q[..n] == head && q[n + 1..] == rest[..k];
    NotInParts(q, '+', n);
    NotInParts(q, '+', n + 1);
    IndexIs(q, '.', n);
    assert k < |rest| ==> rest[k] == p[m];
    IndexIs(rest, '+', k);
    SplitHere(q, n);
  }

  lemma SplitHere(q: string, n: nat)
    requires n < |q| && IndexOf(q, '.') == n
    ensures SplitOn(q, '.') == [q[..n]] + SplitOn(q[n + 1..], '.')
  {
    hide IndexOf;
  }

  ghost predicate IdentsRight(a: seq<string>, b: seq<string>) {
    && (IdentsOrder(a, b) < 0 <==> IdentsPrecede(PreIdents(a), PreIdents(b)))
    && (IdentsOrder(a, b) > 0 <==> IdentsPrecede(PreIdents(b), PreIdents(a)))
  }

  lemma {:induction false} IdentsRightExactly(a: seq<string>, b: seq<string>)
    requires AllSemVer(PreIdents(a)) && AllSemVer(PreIdents(b))
    ensures IdentsRight(a, b) && IdentsRight(b, a) <==> !FirstMisread(a, b)
    decreases |a|
  {
    var p, q := PreIdents(a), PreIdents(b);
    hide SemVerIdent, Misread, IdentOrder, IdentPrecedes, IdentsPrecede, Tagged, Untagged;
    if a != [] && b != [] {
      if a[0] != b[0] {
        DifferingHeads(a, b);
      } else if Tagged(a[0]) {
        SamePrecede(p);
        IdentsZero(a[1..], b[1..]);
        IdentsZero(b[1..], a[1..]);
      } else {
        assert p[1..] == PreIdents(a[1..]) && q[1..] == PreIdents(b[1..]);
        IdentsRightExactly(a[1..], b[1..]);
        PrecedeTails(p, q);
        PrecedeTails(q, p);
      }
    } else {
      EmptyPrecedes(p, q);
      EmptyPrecedes(q, p);
    }
  }

  lemma DifferingHeads(a: seq<string>, b: seq<string>)
    requires AllSemVer(PreIdents(a)) && AllSemVer(PreIdents(b)) && a != [] && b != [] && a[0] != b[0]
    ensures IdentsRight(a, b) && IdentsRight(b, a) <==> !FirstMisread(a, b)
  {
    var x, y, p, q := a[0], b[0], PreIdents(a), PreIdents(b);
    UntaggedSame(x);
    UntaggedSame(y);
    assert p[0] == Untagged(x) && q[0] == Untagged(y);
    if p[0] != q[0] {
      hide IdentOrder, IdentPrecedes, IdentsPrecede, Untagged, Tagged, SemVerIdent, Misread;
      HeadDecides(p, q);
      HeadDecides(q, p);
      IdentRightExactly(x, y);
    } else if Tagged(x) {
      MetadataIsAWord(a, b);
    } else {
      MetadataIsAWord(b, a);
    }
  }

  /** Where two identifiers differ in metadata alone, Compare is wrong at least one way round. */
  lemma MetadataIsAWord(a: seq<string>, b: seq<string>)
    requires AllSemVer(PreIdents(a)) && AllSemVer(PreIdents(b)) && a != [] && b != [] && a[0] != b[0]
    requires Tagged(a[0]) && Untagged(a[0]) == Untagged(b[0])
    ensures !(IdentsRight(a, b) && IdentsRight(b, a))
  {
    var x, y, p, q := a[0], b[0], PreIdents(a), PreIdents(b);
    UntaggedSame(x);
    UntaggedSame(y);
    assert p == [Untagged(x)] && SemVerIdent(p[0]);
    TaggedIsNoNumber(x);
    hide SemVerIdent, Atoi, Untagged, IdentPrecedes;
    if p == q {
      SamePrecede(p);
    } else {
      assert y < x by { LonePrefix(x, y); }
      ShorterFirst(y, x);
      assert q[0] == p[0] && q[..1] == p[..1] == p;
      assert FirstDifference(p, q, 1);
    }
  }

  lemma LonePrefix(x: string, y: string)
    requires Tagged(x) && !Tagged(y) && Untagged(x) == Untagged(y)
    ensures y < x
  {
    UntaggedSame(x);
    UntaggedSame(y);
  }

  lemma HeadDecides(a: seq<string>, b: seq<string>)
    requires a != [] && b != [] && a[0] != b[0]
    ensures IdentsPrecede(a, b) <==> IdentPrecedes(a[0], b[0])
  {
    hide IdentPrecedes;
    if IdentPrecedes(a[0], b[0]) { assert FirstDifference(a, b, 0); }
    forall k: nat | 0 < k <= |a| && k <= |b|
      ensures a[..k] != b[..k]
    {
      assert a[..k][0] != b[..k][0];
    }
  }

  lemma EmptyPrecedes(a: seq<string>, b: seq<string>)
    requires a == [] || b == []
    ensures IdentsPrecede(a, b) <==> |a| < |b|
  {
    if |a| < |b| { assert FirstDifference(a, b, 0); }
  }

  lemma PrecedeTails(a: seq<string>, b: seq<string>)
    requires a != [] && b != [] && a[0] == b[0]
    ensures IdentsPrecede(a, b) <==> IdentsPrecede(a[1..], b[1..])
  {
    hide IdentPrecedes;
    if k: nat :| FirstDifference(a, b, k) {
      assert k > 0;
      assert a[1..][..k - 1] == a[..k][1..] && b[1..][..k - 1] == b[..k][1..];
      assert FirstDifference(a[1..], b[1..], k - 1);
    }
    if k: nat :| FirstDifference(a[1..], b[1..], k) {
      assert a[..k + 1] == [a[0]] + a[1..][..k] && b[..k + 1] == [b[0]] + b[1..][..k];
      assert FirstDifference(a, b, k + 1);
    }
  }

  ghost predicate Right(v: Version, w: Version) {
    (Order(v, w) < 0 <==> Precedes(v, w)) && (Order(v, w) > 0 <==> Precedes(w, v))
  }

  /** For all versions sections 9 and 10 allow: Compare is the precedence of section 11, asked either way
      round, exactly when what decides is not misread. */
  lemma PrecedenceExactly(v: Version, w: Version)
    requires SemVerVersion(v) && SemVerVersion(w)
    ensures Right(v, w) && Right(w, v) <==> !VersionsMisread(v, w)
  {
    hide SemVerIdent, SplitOn, IdentsOrder, IdentsPrecede, FirstMisread, Untagged, IndexOf, AllMetadata;
    var a, b := SplitOn(v.pre, '.'), SplitOn(w.pre, '.');
    CutThenSplit(v.pre);
    CutThenSplit(w.pre);
    if v.pre != "" && w.pre != "" {
      IdentsRightExactly(a, b);
      if v.pre == w.pre { SamePrecede(PreIdents(a)); }
    }
  }

  lemma CompareMeetsSemVer(v: Version, o: Version)
    ensures Order(v, o) == 0 <==> v == o
    ensures SemVerVersion(v) && SemVerVersion(o) && !VersionsMisread(v, o) ==>
              (Order(v, o) < 0 <==> Precedes(v, o)) && (Order(v, o) > 0 <==> Precedes(o, v))
  {
    hide Order, Precedes, SemVerVersion, VersionsMisread;
    CompareZero(v, o);
    if SemVerVersion(v) && SemVerVersion(o) {
      PrecedenceExactly(v, o);
    }
  }

  lemma SamePrecede(a: seq<string>)
    ensures !IdentsPrecede(a, a)
  {
  }

  lemma OneIdent(x: string)
    requires '.' !in x
    ensures SplitOn(x, '.') == [x]
  {
    assert IndexOf(x, '.') == |x|;
  }

  lemma HyphenOne()
    ensures Atoi("-1") == Some(-1) && Atoi("0") == Some(0)
    ensures SemVerIdent("-1") && SemVerIdent("0") && !AllDigits("-1") && AllDigits("0")
  {
    assert Unsigned("-1") == "1" && Unsigned("0") == "0";
    assert "1"[..0] == "" && "0"[..0] == "";
    assert DigitsValue("1") == 1 && DigitsValue("0") == 0;
    assert !IsDigit("-1"[0]);
  }

  lemma HyphenOneParses()
    ensures Parsed("1.0.0--1") == Some(Version(1, 0, 0, "-1")) && Parsed("1.0.0-0") == Some(Version(1, 0, 0, "0"))
  {
    hide Parsed;
    var v, w := Version(1, 0, 0, "-1"), Version(1, 0, 0, "0");
    assert Digits(1) == "1" && Digits(0) == "0";
    assert Printed(v) == "1.0.0--1" && Printed(w) == "1.0.0-0";
    ParsePrinted(v);
    ParsePrinted(w);
  }

  /** 1.0.0--1 is a version, its identifier a word; Compare puts it before 1.0.0-0, section 11 after. */
  lemma HyphenNumberIsMisread()
    ensures var v, w := Version(1, 0, 0, "-1"), Version(1, 0, 0, "0");
            && Parsed("1.0.0--1") == Some(v) && Parsed("1.0.0-0") == Some(w) && SemVerVersion(v) && SemVerVersion(w)
            && Order(v, w) == -1 && Order(w, v) == 1 && Precedes(w, v) && !Precedes(v, w)
  {
    UntaggedSame("-1");
    UntaggedSame("0");
    hide Parsed, SplitOn, Atoi, SemVerIdent, AllDigits, IdentsPrecede, Untagged, IndexOf;
    HyphenOneParses();
    HyphenOne();
    OneIdent("-1");
    OneIdent("0");
    HeadDecides(["0"], ["-1"]);
    HeadDecides(["-1"], ["0"]);
  }

  lemma MetadataParses()
    ensures Parsed("1.0.0-a+1") == Some(Version(1, 0, 0, "a+1")) && Parsed("1.0.0-a+2") == Some(Version(1, 0, 0, "a+2"))
  {
    hide Parsed;
    var v, w := Version(1, 0, 0, "a+1"), Version(1, 0, 0, "a+2");
    assert Digits(1) == "1" && Digits(0) == "0";
    assert Printed(v) == "1.0.0-a+1" && Printed(w) == "1.0.0-a+2";
    ParsePrinted(v);
    ParsePrinted(w);
  }

  lemma WordAndDigit(x: string, d: char)
    requires IsDigit(d) && x == "a+" + [d]
    ensures Atoi(x).None? && Untagged(x) == "a" && SemVerIdent("a")
    ensures SplitOn(x, '.') == [x] && SemVerVersion(Version(1, 0, 0, x))
  {
    assert x[1] == '+' && x[0] == 'a' && Unsigned(x) == x && !IsDigit(x[0]);
    assert x[..1] == "a" && x[2..] == [d];
    IndexIs(x, '+', 1);
    OneIdent(x);
    OneIdent("a");
    OneIdent([d]);
  }

  lemma OneBeforeTwo()
    ensures Less("a+1", "a+2") && !Less("a+2", "a+1")
  {
    assert "a+1"[1..] == "+1" && "a+2"[1..] == "+2";
    assert "+1"[1..] == "1" && "+2"[1..] == "2";
  }

  /** 1.0.0-a+1 and 1.0.0-a+2 differ in build metadata alone; Compare puts one before the other, section 11
      neither. */
  lemma MetadataIsCompared()
    ensures var v, w := Version(1, 0, 0, "a+1"), Version(1, 0, 0, "a+2");
            && Parsed("1.0.0-a+1") == Some(v) && Parsed("1.0.0-a+2") == Some(w) && SemVerVersion(v) && SemVerVersion(w)
            && Order(v, w) == -1 && !Precedes(v, w) && !Precedes(w, v)
  {
    hide Parsed, SplitOn, Atoi, SemVerVersion, SemVerIdent, Less, IdentsPrecede, Untagged;
    MetadataParses();
    OneBeforeTwo();
    WordAndDigit("a+1", '1');
    WordAndDigit("a+2", '2');
    SamePrecede(SplitOn("a", '.'));
  }

  lemma ZeroPlusOne()
    ensures Part("0+1") == None && '.' !in "0+1"
  {
    assert Unsigned("0+1") == "0+1" && !IsDigit("0+1"[1]);
  }

  lemma PatchRejected(a: string, b: string, c: string)
    requires '.' !in a && '.' !in b && '.' !in c && '-' !in a && '-' !in b && '-' !in c && Part(c) == None
    ensures var s := a + "." + b + "." + c; Core(s) == s ==> Parsed(s) == None
  {
    hide Core, SplitOn, Part;
    var s := a + "." + b + "." + c;
    SplitThree(a, b, c);
    IndexMissing(s, '-');
    assert s[..|s|] == s;
  }

  lemma CoreOfOne()
    ensures Core("1.0.0+1") == "1.0.0+1"
  {
    CoreOf("1.0.0+1");
  }

  /** A release with build metadata is no version to ParseVersion at all. */
  lemma MetadataAloneIsRejected()
    ensures Parsed("1.0.0+1") == None
  {
    hide *;
    CoreOfOne();
    ZeroPlusOne();
    PatchRejected("1", "0", "0+1");
    assert "1" + "." + "0" + "." + "0+1" == "1.0.0+1";
  }

  /** Of two numbers beyond 64 bits Compare takes the longer for the smaller if its text comes first. */
  lemma HugeNumbersAreMisread(a: string, b: string)
    requires SemVerIdent(a) && SemVerIdent(b) && AllDigits(a) && AllDigits(b)
    requires DigitsValue(a) > MAX_INT && DigitsValue(b) > MAX_INT && |a| < |b| && Less(b, a)
    ensures IdentPrecedes(a, b) && IdentOrder(b, a) == -1
  {
    SemVerAtoi(a);
    SemVerAtoi(b);
    LongerIsLarger(a, b);
  }

  // ----- Reading a version --------------------------------------------------------------------

  function Part(p: string): Option<int> {
    match Atoi(p)
    case None => None
    case Some(n) => if n < 0 || (|p| > 1 && p[0] == '0') then None else Some(n)
  }

  function Core(s: string): string {
    var t := TrimSpace(s);
    if t != "" && t[0] == 'v' then t[1..] else t
  }

  function Parsed(s: string): Option<Version> {
    var c := Core(s);
    var cut := IndexOf(c, '-');
    var parts := SplitOn(c[..cut], '.');
    if |parts| != 3 then None
    else match (Part(parts[0]), Part(parts[1]), Part(parts[2]))
      case (Some(x), Some(y), Some(z)) => Some(Version(x, y, z, if cut < |c| then c[cut + 1..] else ""))
      case _ => None
  }

  /** ParseVersion, as the loop the source runs. */
  method ParseVersion(s: string) returns (r: Option<Version>)
    ensures r == Parsed(s)
    ensures forall v: Version :: Printable(v) && s == Printed(v) ==> r == Some(v)
  {
    ParseAnyPrinted(s);
    hide Printed, Printable, Atoi, SplitOn, Core;
    var c := Core(s);
    var cut := IndexOf(c, '-');
    var parts := SplitOn(c[..cut], '.');
    if |parts| != 3 {
      return None;
    }
    var n := new int[3];
    var i := 0;
    while i < 3
      invariant i <= 3
      invariant forall j :: 0 <= j < i ==> Part(parts[j]) == Some(n[j])
    {
      var v := Atoi(parts[i]);
      if v.None? || v.value < 0 || (|parts[i]| > 1 && parts[i][0] == '0') {
        return None;
      }
      n[i] := v.value;
      i := i + 1;
    }
    r := Some(Version(n[0], n[1], n[2], if cut < |c| then c[cut + 1..] else ""));
  }

  function Digits(n: nat): string {
    if n < 10 then [('0' as int + n) as char] else Digits(n / 10) + [('0' as int + n % 10) as char]
  }

  function Printed(v: Version): string
    requires v.major >= 0 && v.minor >= 0 && v.patch >= 0
  {
    Digits(v.major) + "." + Digits(v.minor) + "." + Digits(v.patch) + (if v.pre == "" then "" else "-" + v.pre)
  }

  /** Versions whose text a reader would not trim. */
  predicate Printable(v: Version) {
    && 0 <= v.major <= MAX_INT && 0 <= v.minor <= MAX_INT && 0 <= v.patch <= MAX_INT
    && (v.pre != "" ==> !IsSpace(v.pre[|v.pre| - 1]))
  }

  lemma {:induction false} DigitsBack(n: nat)
    ensures AllDigits(Digits(n)) && DigitsValue(Digits(n)) == n
    ensures Digits(n)[0] == '0' ==> n == 0
    ensures n < 10 ==> |Digits(n)| == 1
  {
    var d := Digits(n);
    if n >= 10 {
      DigitsBack(n / 10);
      assert d[..|d| - 1] == Digits(n / 10);
      assert d[0] == Digits(n / 10)[0];
    } else {
      assert d[..0] == "";
    }
  }

  lemma PartBack(n: nat)
    requires n <= MAX_INT
    ensures Part(Digits(n)) == Some(n) && '.' !in Digits(n) && '-' !in Digits(n)
  {
    DigitsBack(n);
    var d := Digits(n);
    assert IsDigit(d[0]);
    assert Unsigned(d) == d;
  }

  lemma IndexAt(a: string, c: char, rest: string)
    requires c !in a
    ensures IndexOf(a + [c] + rest, c) == |a|
  {
    var s := a + [c] + rest;
    assert s[|a|] == c && s[..|a|] == a;
    assert forall n :: |a| < n <= |s| ==> s[..n][|a|] == c;
  }

  lemma IndexMissing(a: string, c: char)
    requires c !in a
    ensures IndexOf(a, c) == |a|
  {
  }

  lemma SplitFirst(a: string, c: char, rest: string)
    requires c !in a
    ensures SplitOn(a + [c] + rest, c) == [a] + SplitOn(rest, c)
  {
    var s := a + [c] + rest;
    IndexAt(a, c, rest);
    assert s[..|a|] == a && s[|a| + 1..] == rest;
  }

  lemma SplitThree(a: string, b: string, c: string)
    requires '.' !in a && '.' !in b && '.' !in c
    ensures SplitOn(a + "." + b + "." + c, '.') == [a, b, c]
  {
    hide SplitOn;
    SplitFirst(a, '.', b + "." + c);
    assert a + "." + b + "." + c == a + "." + (b + "." + c);
    SplitFirst(b, '.', c);
    assert SplitOn(c, '.') == [c] by { SplitWhole(c, '.'); }
  }

  lemma SplitWhole(a: string, c: char)
    requires c !in a
    ensures SplitOn(a, c) == [a]
  {
    IndexMissing(a, c);
    assert a[..|a|] == a;
  }

  lemma CoreOf(s: string)
    requires s != "" && IsDigit(s[0]) && !IsSpace(s[|s| - 1])
    ensures Core(s) == s
  {
    assert !IsSpace(s[0]);
    hide IsSpace, TrimSpace;
    TrimSame(s);
  }

  lemma CoreOfPrinted(v: Version)
    requires Printable(v)
    ensures Core(Printed(v)) == Printed(v)
  {
    hide Core, Digits;
    var s := Printed(v);
    DigitsBack(v.major);
    DigitsBack(v.patch);
    var d, e := Digits(v.major), Digits(v.patch);
    assert s[0] == d[0];
    assert s[|s| - 1] == if v.pre == "" then e[|e| - 1] else v.pre[|v.pre| - 1];
    CoreOf(s);
  }

  /** A printed version reads back as itself. */
  lemma ParsePrinted(v: Version)
    requires Printable(v)
    ensures Parsed(Printed(v)) == Some(v)
  {
    hide Core, SplitOn, Part, Digits, Parsed;
    CoreOfPrinted(v);
    PartBack(v.major);
    PartBack(v.minor);
    PartBack(v.patch);
    ParseParts(Digits(v.major), Digits(v.minor), Digits(v.patch), v);
  }

  lemma ParseParts(a: string, b: string, c: string, v: Version)
    requires '.' !in a && '.' !in b && '.' !in c && '-' !in a && '-' !in b && '-' !in c
    requires Part(a) == Some(v.major) && Part(b) == Some(v.minor) && Part(c) == Some(v.patch)
    ensures var s := a + "." + b + "." + c + (if v.pre == "" then "" else "-" + v.pre);
            Core(s) == s ==> Parsed(s) == Some(v)
  {
    hide Core, SplitOn, Part;
    var core := a + "." + b + "." + c;
    var s := core + (if v.pre == "" then "" else "-" + v.pre);
    SplitThree(a, b, c);
    if v.pre == "" {
      assert s == core;
      IndexMissing(core, '-');
      assert s[..|s|] == s;
    } else {
      assert s == core + "-" + v.pre;
      IndexAt(core, '-', v.pre);
      assert s[..|core|] == core && s[|core| + 1..] == v.pre;
    }
  }

  /** With or without a leading v, and whatever spaces are around it. */
  lemma SpacesAndPrefix(a: string, v: Version, b: string)
    requires Printable(v) && AllSpaces(a) && AllSpaces(b)
    ensures Parsed(a + Printed(v) + b) == Parsed(a + ("v" + Printed(v)) + b) == Some(v)
  {
    hide Printed, Core;
    var s := Printed(v);
    PrintedEnds(v);
    ParsePrinted(v);
    SpacedCore(a, s, b);
    CoreAlone(s);
    SameCore(s, a + s + b);
    SameCore(s, a + ("v" + s) + b);
  }

  lemma SameCore(s: string, t: string)
    requires Core(s) == Core(t)
    ensures Parsed(s) == Parsed(t)
  {
  }

  lemma CoreAlone(s: string)
    requires s != "" && s[0] != 'v' && !IsSpace(s[0]) && !IsSpace(s[|s| - 1])
    ensures Core(s) == s
  {
    hide IsSpace, TrimSpace;
    TrimSame(s);
  }

  lemma SpacedCore(a: string, s: string, b: string)
    requires AllSpaces(a) && AllSpaces(b)
    requires s != "" && s[0] != 'v' && !IsSpace(s[0]) && !IsSpace(s[|s| - 1])
    ensures Core(a + s + b) == Core(a + ("v" + s) + b) == s
  {
    hide IsSpace, TrimSpace;
    var t := "v" + s;
    assert t[1..] == s && t[0] == 'v' && t[|t| - 1] == s[|s| - 1];
    assert !IsSpace('v') by { NoSpaces(); }
    TrimBetween(a, s, b);
    TrimBetween(a, t, b);
  }

  lemma PrintedEnds(v: Version)
    requires Printable(v)
    ensures var s := Printed(v); s != "" && s[0] != 'v' && !IsSpace(s[0]) && !IsSpace(s[|s| - 1])
  {
    hide Digits;
    var s := Printed(v);
    DigitsBack(v.major);
    DigitsBack(v.patch);
    var d, e := Digits(v.major), Digits(v.patch);
    assert s[0] == d[0];
    assert s[|s| - 1] == if v.pre == "" then e[|e| - 1] else v.pre[|v.pre| - 1];
  }

  lemma ParseAnyPrinted(s: string)
    ensures forall v: Version :: Printable(v) && s == Printed(v) ==> Parsed(s) == Some(v)
  {
    forall v: Version | Printable(v) && s == Printed(v)
      ensures Parsed(s) == Some(v)
    {
      ParsePrinted(v);
    }
  }

  /** A number as section 2 of SemVer 2.0.0 writes it, or with a plus sign in front and then any zeros. */
  predicate Spells(p: string, n: int) {
    0 <= n <= MAX_INT && (p == Digits(n) || (|p| > 1 && p[0] == '+' && AllDigits(p[1..]) && DigitsValue(p[1..]) == n))
  }

  lemma PartExactly(p: string, n: int)
    requires '-' !in p
    ensures Part(p) == Some(n) <==> Spells(p, n)
  {
    hide Digits, DigitsValue;
    if 0 <= n <= MAX_INT && p == Digits(n) {
      PartBack(n);
    }
    if Part(p) == Some(n) && p[0] != '+' {
      DigitsBack(n);
      NoZeroInFront(n);
      DigitsUnique(p, Digits(n));
    }
  }

  lemma NoZeroInFront(n: nat)
    ensures |Digits(n)| > 1 ==> Digits(n)[0] != '0'
  {
    DigitsBack(n);
  }

  /** The first part, and the rest behind a separator if there is one. */
  lemma SplitStep(s: string) returns (first: string, rest: string)
    ensures '.' !in first && SplitOn(s, '.')[0] == first
    ensures if |SplitOn(s, '.')| == 1 then s == first else s == first + "." + rest && SplitOn(s, '.') == [first] + SplitOn(rest, '.')
  {
    var n := IndexOf(s, '.');
    first, rest := s[..n], if n < |s| then s[n + 1..] else "";
    assert n < |s| ==> s == first + "." + rest;
    assert n == |s| ==> s == first;
  }

  lemma SplitThreeBack(core: string)
    requires |SplitOn(core, '.')| == 3
    ensures var parts := SplitOn(core, '.');
            && core == parts[0] + "." + parts[1] + "." + parts[2]
            && '.' !in parts[0] && '.' !in parts[1] && '.' !in parts[2]
  {
    hide SplitOn;
    var a, rest := SplitStep(core);
    var b, last := SplitStep(rest);
    var c, _ := SplitStep(last);
    assert SplitOn(core, '.') == [a] + ([b] + SplitOn(last, '.'));
    assert SplitOn(core, '.')[2] == c;
    assert core == a + "." + (b + "." + c);
  }

  /** The parts of a version, as text. */
  predicate Written(a: string, b: string, c: string, tail: string, s: string, v: Version) {
    && s == a + "." + b + "." + c + tail && Spells(a, v.major) && Spells(b, v.minor) && Spells(c, v.patch)
    && (tail == "-" + v.pre || (tail == "" && v.pre == ""))
  }

  lemma SpelledOnly(p: string, n: int)
    requires Spells(p, n)
    ensures '.' !in p && '-' !in p && Part(p) == Some(n)
  {
    hide Digits, DigitsValue;
    if p == Digits(n) {
      PartBack(n);
    } else {
      assert forall i :: 0 <= i < |p| ==> p[i] == '+' || IsDigit(p[i]) by {
        assert forall i :: 0 < i < |p| ==> p[i] == p[1..][i - 1];
      }
      PartExactly(p, n);
    }
  }

  lemma WrittenIsRead(a: string, b: string, c: string, tail: string, s: string, v: Version)
    requires Written(a, b, c, tail, Core(s), v)
    ensures Parsed(s) == Some(v)
  {
    hide Core, SplitOn, Part, Spells;
    SpelledOnly(a, v.major);
    SpelledOnly(b, v.minor);
    SpelledOnly(c, v.patch);
    var core := a + "." + b + "." + c;
    SplitThree(a, b, c);
    if tail == "" {
      assert Core(s) == core;
      IndexMissing(core, '-');
      assert core[..|core|] == core;
    } else {
      assert Core(s) == core + "-" + v.pre;
      IndexAt(core, '-', v.pre);
      assert Core(s)[..|core|] == core && Core(s)[|core| + 1..] == v.pre;
    }
  }

  lemma ReadIsWritten(s: string, v: Version) returns (a: string, b: string, c: string, tail: string)
    requires Parsed(s) == Some(v)
    ensures Written(a, b, c, tail, Core(s), v)
  {
    hide Core, SplitOn, Part, Spells;
    var core := Core(s);
    var cut := IndexOf(core, '-');
    var parts := SplitOn(core[..cut], '.');
    SplitThreeBack(core[..cut]);
    a, b, c, tail := parts[0], parts[1], parts[2], core[cut..];
    var head := core[..cut];
    assert '-' !in head && head == a + "." + b + "." + c && core == head + tail;
    assert forall x :: x in a || x in b || x in c ==> x in head;
    PartExactly(a, v.major);
    PartExactly(b, v.minor);
    PartExactly(c, v.patch);
    if cut < |core| {
      assert tail == [core[cut]] + core[cut + 1..];
    }
  }

  /** A version is read exactly when, spaces around it and one leading v aside, it is three such numbers with
      dots between and, behind a hyphen, anything at all. */
  lemma ParsedExactly(s: string, v: Version)
    ensures Parsed(s) == Some(v) <==> exists a, b, c, tail :: Written(a, b, c, tail, Core(s), v)
  {
    hide Core, Parsed, Written;
    if Parsed(s) == Some(v) {
      var a, b, c, tail := ReadIsWritten(s, v);
    }
    if a, b, c, tail :| Written(a, b, c, tail, Core(s), v) {
      WrittenIsRead(a, b, c, tail, s, v);
    }
  }

  lemma PlusOne()
    ensures Spells("+1", 1) && Spells("1", 1) && Spells("0", 0)
  {
    assert Digits(1) == "1" && Digits(0) == "0" && "+1"[1..] == Digits(1);
    DigitsBack(1);
  }

  /** So a plus sign is accepted where the format has none, and two spellings are one version. */
  lemma PlusIsAccepted()
    ensures Parsed("+1.0.0") == Parsed("1.0.0") == Some(Version(1, 0, 0, ""))
  {
    hide Parsed, Spells, TrimSpace, IsSpace;
    var v := Version(1, 0, 0, "");
    PlusOne();
    assert !IsSpace('+') && !IsSpace('1') && !IsSpace('0') by { NoSpaces(); }
    TrimSame("+1.0.0");
    TrimSame("1.0.0");
    assert "+1" + "." + "0" + "." + "0" + "" == "+1.0.0" && "1" + "." + "0" + "." + "0" + "" == "1.0.0";
    WrittenIsRead("+1", "0", "0", "", "+1.0.0", v);
    WrittenIsRead("1", "0", "0", "", "1.0.0", v);
  }

  lemma NoSpaces()
    ensures !IsSpace('+') && !IsSpace('1') && !IsSpace('0') && !IsSpace('v')
  {
  }

  // ----- Newer --------------------------------------------------------------------------------

  /** release.Newer. */
  predicate ReleaseNewer(a: string, b: string) {
    match Parsed(a)
    case None => false
    case Some(va) =>
      match Parsed(b)
      case None => true
      case Some(vb) => Order(va, vb) > 0
  }

  const DEV_VERSION := "0.0.0-dev"

  /** serverupdate.Newer: a version that cannot be read counts as a development build. */
  predicate Newer(candidate: string, current: string) {
    ReleaseNewer(candidate, if Parsed(current).None? then DEV_VERSION else current)
  }

  /** What the updater takes an installed version to be. */
  function Effective(s: string): Version {
    match Parsed(s)
    case Some(v) => v
    case None => Version(0, 0, 0, "dev")
  }

  lemma DevParses()
    ensures Parsed(DEV_VERSION) == Some(Version(0, 0, 0, "dev"))
  {
    var v := Version(0, 0, 0, "dev");
    assert Digits(0) == "0";
    assert Printed(v) == "0.0.0-dev";
    ParsePrinted(v);
  }

  lemma NewerIsLater(candidate: string, current: string)
    requires Newer(candidate, current)
    ensures Parsed(candidate).Some? && Order(Effective(candidate), Effective(current)) > 0
  {
    DevParses();
  }

  /** The other way round too: everything readable and later is newer. */
  lemma NewerExactly(candidate: string, current: string)
    ensures Newer(candidate, current) <==> Parsed(candidate).Some? && Order(Effective(candidate), Effective(current)) > 0
  {
    hide Order, Parsed;
    DevParses();
  }

  predicate AllOrdered(vs: seq<string>) { forall i :: 0 <= i < |vs| ==> Canonical(Effective(vs[i])) }

  predicate EachNewer(vs: seq<string>) { forall i :: 0 < i < |vs| ==> Newer(vs[i], vs[i - 1]) }

  /** However many updates follow one another, the versions installed only ever go up, so none of
      them is ever installed again. */
  lemma {:induction false} ChainIncreases(vs: seq<string>, i: nat, j: nat)
    requires AllOrdered(vs) && EachNewer(vs) && i < j < |vs|
    ensures Order(Effective(vs[i]), Effective(vs[j])) < 0 && vs[i] != vs[j]
    decreases j
  {
    hide Order, Canonical, Newer, Effective, Parsed;
    var b, c := Effective(vs[j - 1]), Effective(vs[j]);
    NewerIsLater(vs[j], vs[j - 1]);
    CompareIsAntisymmetric(b, c);
    if i < j - 1 {
      ChainIncreases(vs, i, j - 1);
      CompareIsTransitive(Effective(vs[i]), b, c);
    }
    CompareZero(Effective(vs[i]), c);
  }
}
