/** Release signatures: internal/release/release.go, and the release manifest of
    internal/release/manifest.go. Hashing, signature checking and JSON are functions handed in. */
module Release {
  import opened Prelude
  import opened Text
  import Versions

  type Key = string

  /** SHA-256 in hex, a key's identifier, Ed25519 verification, and the JSON readers. */
  datatype Crypto = Crypto(
    sha256: Bytes -> string,
    keyID: Key -> string,
    verifies: (Key, Bytes, Bytes) -> bool,
    decode: Bytes -> Option<ReleaseManifest>,
    decodeSidecar: Bytes -> Option<Signature>)

  /** The last two lines of what is signed. */
  function Statement(version: string, sum: string): Bytes { version + ("\n" + ("sha256=" + (Lower(sum) + "\n"))) }

  datatype Manifest = Manifest(version: string, sha256: string) {
    function Signed(): Bytes { "retune-agent-manifest/v1\nversion=" + Statement(version, sha256) }
  }

  datatype Signature = Signature(version: string, sha256: string, keyID: string, signature: Bytes)

  // ----- Agent builds -------------------------------------------------------------------------

  /** The first trusted key the signature names decides; later ones are never asked. */
  function Find(c: Crypto, trusted: seq<Key>, id: string): (k: Option<Key>)
    ensures k.Some? ==> k.value in trusted && c.keyID(k.value) == id
    ensures k.None? ==> forall x :: x in trusted ==> c.keyID(x) != id
  {
    if trusted == [] then None
    else if c.keyID(trusted[0]) == id then Some(trusted[0])
    else Find(c, trusted[1..], id)
  }

  /** release.Verify. */
  function Verify(c: Crypto, trusted: seq<Key>, m: Manifest, sig: Signature): (r: Result<()>)
    ensures r.Ok? ==> SignedBy(c, trusted, m.version, m.sha256)
  {
    if trusted == [] then Err("no trusted release keys")
    else if sig.version != m.version || !EqualFold(sig.sha256, m.sha256) then
      Err("signature is for a different version or different bytes")
    else match Find(c, trusted, sig.keyID)
      case None => Err("signature is from a key that is not trusted")
      case Some(k) =>
        if c.verifies(k, m.Signed(), sig.signature)
        then assert SignedWith(c, trusted, m.version, m.sha256, k, sig.signature); Ok(())
        else Err("signature did not verify")
  }

  predicate SignedWith(c: Crypto, trusted: seq<Key>, version: string, sum: string, k: Key, sig: Bytes) {
    k in trusted && c.verifies(k, Manifest(version, sum).Signed(), sig)
  }

  /** Some trusted key signed this version together with this hash. */
  ghost predicate SignedBy(c: Crypto, trusted: seq<Key>, version: string, sum: string) {
    exists k, sig :: SignedWith(c, trusted, version, sum, k, sig)
  }

  /** The letter case of a hash is not part of what was signed. */
  lemma SignedFold(c: Crypto, trusted: seq<Key>, version: string, a: string, b: string)
    requires EqualFold(a, b) && SignedBy(c, trusted, version, a)
    ensures SignedBy(c, trusted, version, b)
  {
    var k, sig :| SignedWith(c, trusted, version, a, k, sig);
    assert SignedWith(c, trusted, version, b, k, sig);
  }

  /** No two trusted keys share an identifier. */
  predicate KeysApart(c: Crypto, trusted: seq<Key>) {
    forall i, j :: 0 <= i < j < |trusted| ==> c.keyID(trusted[i]) != c.keyID(trusted[j])
  }

  /** The key a signature names, and only that one, is asked. */
  ghost predicate Endorsed(c: Crypto, trusted: seq<Key>, keyID: string, message: Bytes, sig: Bytes) {
    exists k :: k in trusted && c.keyID(k) == keyID && c.verifies(k, message, sig)
  }

  lemma FindsTheKey(c: Crypto, trusted: seq<Key>, keyID: string, message: Bytes, sig: Bytes)
    requires KeysApart(c, trusted)
    ensures Endorsed(c, trusted, keyID, message, sig) <==>
              Find(c, trusted, keyID).Some? && c.verifies(Find(c, trusted, keyID).value, message, sig)
  {
    hide Find;
    if k :| k in trusted && c.keyID(k) == keyID && c.verifies(k, message, sig) {
      var f := Find(c, trusted, keyID);
      var i :| 0 <= i < |trusted| && trusted[i] == k;
      var j :| 0 <= j < |trusted| && trusted[j] == f.value;
      assert i == j;
    }
  }

  /** A build is accepted exactly when its signature is for that version and hash and the trusted key it
      names made it. */
  lemma VerifyExactly(c: Crypto, trusted: seq<Key>, m: Manifest, sig: Signature)
    requires KeysApart(c, trusted)
    ensures Verify(c, trusted, m, sig).Ok? <==>
              && sig.version == m.version && EqualFold(sig.sha256, m.sha256)
              && Endorsed(c, trusted, sig.keyID, m.Signed(), sig.signature)
  {
    hide Find, EqualFold;
    FindsTheKey(c, trusted, sig.keyID, m.Signed(), sig.signature);
  }

  // ----- What a signature binds -------------------------------------------------------------------

  /** On one line. */
  predicate OneLine(s: string) { '\n' !in s }

  lemma LowerKeepsLines(s: string)
    ensures OneLine(Lower(s)) <==> OneLine(s)
  {
    var r := Lower(s);
    assert forall i :: 0 <= i < |s| ==> (r[i] == '\n' <==> s[i] == '\n');
    if '\n' in s { var i :| 0 <= i < |s| && s[i] == '\n'; assert r[i] == '\n'; }
  }

  /** The first line break of a text is where its first line ends. */
  lemma FirstLineBinds(a: string, x: string, b: string, y: string)
    requires OneLine(a) && OneLine(b) && a + ("\n" + x) == b + ("\n" + y)
    ensures a == b && x == y
  {
    var s := a + ("\n" + x);
    assert s[|a|] == '\n' && s[|b|] == '\n';
    assert (forall i :: 0 <= i < |a| ==> s[i] == a[i]) && (forall i :: 0 <= i < |b| ==> s[i] == b[i]);
    assert |a| == |b|;
    assert s[..|a|] == a && s[..|b|] == b;
    assert s[|a| + 1..] == x && s[|b| + 1..] == y;
  }

  /** A statement of one version and one hash, each on one line, is no statement of any others. */
  lemma StatementBinds(v: string, s: string, w: string, t: string)
    requires OneLine(v) && OneLine(s)
    ensures Statement(v, s) == Statement(w, t) <==> v == w && EqualFold(s, t)
  {
    if Statement(v, s) == Statement(w, t) {
      LowerKeepsLines(s);
      hide EqualFold;
      var x, y := "sha256=" + (Lower(s) + "\n"), "sha256=" + (Lower(t) + "\n");
      assert x[..|x| - 1] == "sha256=" + Lower(s);
      OneBreakOnly(v, x, w, y);
      FirstLineBinds(v, x, w, y);
      assert x[7..] == Lower(s) + "\n" && y[7..] == Lower(t) + "\n";
      assert (Lower(s) + "\n")[..|Lower(s)|] == Lower(s) && (Lower(t) + "\n")[..|Lower(t)|] == Lower(t);
      assert EqualFold(s, t) by { SameLower(s, t); }
    }
  }

  lemma SameLower(s: string, t: string)
    requires Lower(s) == Lower(t)
    ensures EqualFold(s, t)
  {
  }

  /** In a line that is v and one more that is all of x, the one break before the end is where v ends. */
  lemma OneBreakOnly(v: string, x: string, w: string, y: string)
    requires OneLine(v) && x != "" && OneLine(x[..|x| - 1]) && y != "" && v + ("\n" + x) == w + ("\n" + y)
    ensures OneLine(w)
  {
    var s := v + ("\n" + x);
    assert forall i :: 0 <= i < |v| ==> s[i] == v[i];
    assert forall i :: 0 <= i < |x| - 1 ==> x[i] == x[..|x| - 1][i];
    assert forall i :: |v| < i < |s| - 1 ==> s[i] == x[i - |v| - 1];
    assert s[|w|] == '\n' && |w| < |s| - 1;
    assert |w| == |v|;
    assert s[..|w|] == w && s[..|v|] == v;
  }

  /** So what was signed for one build is what was signed for no other version or hash. */
  lemma SignedBinds(m: Manifest, n: Manifest)
    requires OneLine(m.version) && OneLine(m.sha256)
    ensures m.Signed() == n.Signed() <==> m.version == n.version && EqualFold(m.sha256, n.sha256)
  {
    SamePrefix("retune-agent-manifest/v1\nversion=", Statement(m.version, m.sha256), Statement(n.version, n.sha256));
    StatementBinds(m.version, m.sha256, n.version, n.sha256);
  }

  lemma ReleaseSignedBinds(v: string, s: string, w: string, t: string)
    requires OneLine(v) && OneLine(s)
    ensures ReleaseSigned(v, s) == ReleaseSigned(w, t) <==> v == w && EqualFold(s, t)
  {
    SamePrefix("retune-release-manifest/v1\nversion=", Statement(v, s), Statement(w, t));
    StatementBinds(v, s, w, t);
  }

  lemma SamePrefix(p: string, x: string, y: string)
    ensures p + x == p + y <==> x == y
  {
    assert (p + x)[|p|..] == x && (p + y)[|p|..] == y;
  }

  /** All that was ever signed: agent builds, and server releases by version and hash. */
  datatype Ledger = Ledger(builds: set<Manifest>, releases: set<Manifest>) {
    predicate OnLines() {
      && (forall m :: m in builds ==> OneLine(m.version) && OneLine(m.sha256))
      && (forall m :: m in releases ==> OneLine(m.version) && OneLine(m.sha256))
    }
  }

  /** The trusted keys verify nothing else. */
  ghost predicate SignOnly(c: Crypto, trusted: seq<Key>, signed: Ledger) {
    forall k, message, sig :: k in trusted && c.verifies(k, message, sig) ==>
      || (exists m :: m in signed.builds && message == m.Signed())
      || (exists m :: m in signed.releases && message == ReleaseSigned(m.version, m.sha256))
  }

  /** It is there, in whatever letter case its hash was written. */
  predicate Offers(ms: set<Manifest>, version: string, sum: string) {
    exists m :: m in ms && m.version == version && EqualFold(m.sha256, sum)
  }

  /** Then no build of another version or hash counts as signed, */
  lemma OnlyPublishedIsSigned(c: Crypto, trusted: seq<Key>, signed: Ledger, version: string, sum: string)
    requires SignOnly(c, trusted, signed) && signed.OnLines() && SignedBy(c, trusted, version, sum)
    ensures Offers(signed.builds, version, sum)
  {
    hide EqualFold;
    var n := Manifest(version, sum);
    var k, sig :| SignedWith(c, trusted, version, sum, k, sig);
    if m :| m in signed.builds && n.Signed() == m.Signed() {
      SignedBinds(m, n);
    } else {
      var m :| m in signed.releases && n.Signed() == ReleaseSigned(m.version, m.sha256);
      SignaturesAreSeparate(n, m.version, m.sha256);
    }
  }

  /** nor is one accepted, */
  lemma OnlyPublishedIsAccepted(c: Crypto, trusted: seq<Key>, signed: Ledger, n: Manifest, sig: Signature)
    requires SignOnly(c, trusted, signed) && signed.OnLines()
    ensures Verify(c, trusted, n, sig).Ok? ==> Offers(signed.builds, n.version, n.sha256)
  {
    hide Offers, SignOnly;
    if Verify(c, trusted, n, sig).Ok? {
      OnlyPublishedIsSigned(c, trusted, signed, n.version, n.sha256);
    }
  }

  /** nor a release manifest of another version or other bytes. */
  lemma OnlyReleasedIsAccepted(c: Crypto, trusted: seq<Key>, signed: Ledger, raw: Bytes, sig: Signature)
    requires SignOnly(c, trusted, signed) && signed.OnLines()
    ensures var r := VerifyReleaseManifest(c, trusted, raw, sig); r.Ok? ==> Offers(signed.releases, r.value.version, c.sha256(raw))
  {
    hide EqualFold, Valid, Find;
    var r := VerifyReleaseManifest(c, trusted, raw, sig);
    if r.Ok? {
      var v, sum := r.value.version, c.sha256(raw);
      var k, x :| k in trusted && c.verifies(k, ReleaseSigned(v, sum), x);
      if m :| m in signed.releases && ReleaseSigned(v, sum) == ReleaseSigned(m.version, m.sha256) {
        ReleaseSignedBinds(m.version, m.sha256, v, sum);
      } else {
        var m :| m in signed.builds && ReleaseSigned(v, sum) == m.Signed();
        SignaturesAreSeparate(m, v, sum);
      }
    }
  }

  // ----- Server releases ----------------------------------------------------------------------

  datatype Asset = Asset(name: string, kind: string, os: string, arch: string, sha256: string, image: string, digest: string)

  datatype ReleaseManifest = ReleaseManifest(schema: int, version: string, assets: seq<Asset>)

  const MANIFEST_SCHEMA := 1
  const ASSET_SERVER := "server"
  const ASSET_SERVER_IMAGE := "server-image"

  predicate HexDigit(c: char) { IsDigit(c) || 'a' <= c <= 'f' || 'A' <= c <= 'F' }

  predicate HexSum(s: string) { |s| == 64 && forall i :: 0 <= i < |s| ==> HexDigit(s[i]) }

  /** ReleaseManifest.Validate, without its choice of words. */
  predicate Valid(m: ReleaseManifest) {
    && m.schema == MANIFEST_SCHEMA && Versions.Parsed(m.version).Some?
    && (forall i, j :: 0 <= i < j < |m.assets| ==> m.assets[i].name != m.assets[j].name)
    && (forall i :: 0 <= i < |m.assets| ==>
          m.assets[i].name != "" && Usable(m.assets[i]))
  }

  predicate Usable(a: Asset) {
    if a.kind == ASSET_SERVER_IMAGE then a.image != "" && "sha256:" <= a.digest else HexSum(a.sha256)
  }

  /** The first of them are usable, and of the names seen, each a different one. */
  ghost predicate SoundUpTo(assets: seq<Asset>, i: nat, seen: set<string>) {
    && i <= |assets| && (forall j :: 0 <= j < i ==> assets[j].name != "" && Usable(assets[j]))
    && seen == (set j | 0 <= j < i :: assets[j].name)
    && (forall j, k :: 0 <= j < k < i ==> assets[j].name != assets[k].name)
  }

  lemma SoundOneMore(assets: seq<Asset>, i: nat, seen: set<string>)
    requires i < |assets| && SoundUpTo(assets, i, seen)
    ensures SoundUpTo(assets, i + 1, seen + {assets[i].name}) <==>
            assets[i].name != "" && assets[i].name !in seen && Usable(assets[i])
  {
    hide Usable;
    if assets[i].name in seen {
      var j :| 0 <= j < i && assets[j].name == assets[i].name;
    }
  }

  lemma SoundPrefix(assets: seq<Asset>, i: nat, n: nat, seen: set<string>)
    requires i <= n && SoundUpTo(assets, n, seen)
    ensures SoundUpTo(assets, i, set j | 0 <= j < i :: assets[j].name)
  {
    hide Usable;
  }

  lemma SoundAssets(m: ReleaseManifest)
    requires m.schema == MANIFEST_SCHEMA && Versions.Parsed(m.version).Some?
    ensures Valid(m) <==> SoundUpTo(m.assets, |m.assets|, set j | 0 <= j < |m.assets| :: m.assets[j].name)
  {
    hide Usable, Versions.Parsed;
  }

  /** ReleaseManifest.Validate, as the loop the source runs. */
  method Validate(m: ReleaseManifest) returns (ok: bool)
    ensures ok <==> Valid(m)
  {
    hide Versions.Parsed, Usable, SoundUpTo, Valid, HexSum;
    if m.schema != MANIFEST_SCHEMA || Versions.Parsed(m.version).None? {
      assert !Valid(m) by { ValidNeeds(m); }
      return false;
    }
    SoundAssets(m);
    var seen: set<string> := {};
    assert SoundUpTo(m.assets, 0, seen) by { SoundNone(m.assets); }
    var i := 0;
    while i < |m.assets|
      invariant 0 <= i <= |m.assets|
      invariant SoundUpTo(m.assets, i, seen) && seen == set j | 0 <= j < i :: m.assets[j].name
    {
      var a := m.assets[i];
      SoundOneMore(m.assets, i, seen);
      assert seen + {a.name} == set j | 0 <= j < i + 1 :: m.assets[j].name;
      UsableExactly(a);
      var usable := if a.kind == "server-image" then a.image != "" && "sha256:" <= a.digest else HexSum(a.sha256);
      if a.name == "" || a.name in seen || !usable {
        if Valid(m) {
          SoundPrefix(m.assets, i + 1, |m.assets|, set j | 0 <= j < |m.assets| :: m.assets[j].name);
          assert false;
        }
        return false;
      }
      seen := seen + {a.name};
      i := i + 1;
    }
    return true;
  }

  lemma UsableExactly(a: Asset)
    ensures Usable(a) <==> if a.kind == "server-image" then a.image != "" && "sha256:" <= a.digest else HexSum(a.sha256)
  {
  }

  lemma SoundNone(assets: seq<Asset>)
    ensures SoundUpTo(assets, 0, {})
  {
  }

  lemma ValidNeeds(m: ReleaseManifest)
    ensures Valid(m) ==> m.schema == MANIFEST_SCHEMA && Versions.Parsed(m.version).Some?
  {
  }

  function HexChar(n: nat): char
    requires n < 16
  {
    "0123456789abcdef"[n]
  }

  /** hex.EncodeToString. */
  function Hex(bs: seq<nat>): string
    requires forall i :: 0 <= i < |bs| ==> bs[i] < 256
  {
    seq(2 * |bs|, i requires 0 <= i < 2 * |bs| => HexChar(if i % 2 == 0 then bs[i / 2] / 16 else bs[i / 2] % 16))
  }

  function HexValue(c: char): (n: nat)
    requires HexDigit(c)
    ensures n < 16 && HexChar(n) == LowerChar(c)
  {
    if IsDigit(c) then c as int - '0' as int else LowerChar(c) as int - 'a' as int + 10
  }

  /** Thirty-two bytes, in hex of either case. */
  ghost predicate SpellsSum(s: string, bs: seq<nat>) {
    |bs| == 32 && (forall i :: 0 <= i < |bs| ==> bs[i] < 256) && EqualFold(s, Hex(bs))
  }

  lemma HexSumExactly(s: string)
    ensures HexSum(s) <==> exists bs: seq<nat> :: SpellsSum(s, bs)
  {
    hide HexSum, SpellsSum;
    if HexSum(s) {
      var bs := Unhexed(s);
    }
    if bs: seq<nat> :| SpellsSum(s, bs) {
      SpeltIsHex(s, bs);
    }
  }

  /** hex.DecodeString. */
  lemma Unhexed(s: string) returns (bs: seq<nat>)
    requires HexSum(s)
    ensures SpellsSum(s, bs)
  {
    hide HexValue, HexChar, HexDigit;
    bs := seq(32, i requires 0 <= i < 32 => 16 * HexValue(s[2 * i]) + HexValue(s[2 * i + 1]));
    var h := Hex(bs);
    forall k | 0 <= k < 64
      ensures LowerChar(h[k]) == LowerChar(s[k])
    {
      var i := k / 2;
      assert k == 2 * i + k % 2;
      assert bs[i] / 16 == HexValue(s[2 * i]) && bs[i] % 16 == HexValue(s[2 * i + 1]);
      HexIsLower(HexValue(s[k]));
    }
    SameFold(s, h);
  }

  lemma SameFold(s: string, t: string)
    requires |s| == |t| && forall k :: 0 <= k < |s| ==> LowerChar(t[k]) == LowerChar(s[k])
    ensures EqualFold(s, t)
  {
    assert forall k :: 0 <= k < |s| ==> Lower(s)[k] == Lower(t)[k];
  }

  lemma SpeltIsHex(s: string, bs: seq<nat>)
    requires SpellsSum(s, bs)
    ensures HexSum(s)
  {
    hide HexChar, HexDigit;
    var h := Hex(bs);
    assert |Lower(s)| == |Lower(h)| == 64;
    forall k | 0 <= k < 64
      ensures HexDigit(s[k])
    {
      HexIsLower(if k % 2 == 0 then bs[k / 2] / 16 else bs[k / 2] % 16);
      assert Lower(s)[k] == Lower(h)[k];
    }
  }

  lemma HexIsLower(n: nat)
    requires n < 16
    ensures LowerChar(HexChar(n)) == HexChar(n) && forall c :: LowerChar(c) == HexChar(n) ==> HexDigit(c)
  {
  }

  function FindAsset(assets: seq<Asset>, kind: string, os: string, arch: string): (r: Option<Asset>)
    ensures r.Some? ==> r.value in assets && r.value.kind == kind && r.value.os == os && r.value.arch == arch
    ensures r.None? ==> forall a :: a in assets ==> !(a.kind == kind && a.os == os && a.arch == arch)
  {
    if assets == [] then None
    else if assets[0].kind == kind && assets[0].os == os && assets[0].arch == arch then Some(assets[0])
    else FindAsset(assets[1..], kind, os, arch)
  }

  function ReleaseSigned(version: string, sum: string): Bytes {
    "retune-release-manifest/v1\nversion=" + Statement(version, sum)
  }

  /** These bytes are a release manifest some trusted key signed, and m is what they say. */
  ghost predicate Published(c: Crypto, trusted: seq<Key>, raw: Bytes, m: ReleaseManifest) {
    && (exists k, sig :: k in trusted && c.verifies(k, ReleaseSigned(m.version, c.sha256(raw)), sig))
    && c.decode(raw) == Some(m) && Valid(m)
  }

  /** VerifyReleaseManifest. */
  function VerifyReleaseManifest(c: Crypto, trusted: seq<Key>, raw: Bytes, sig: Signature): (r: Result<ReleaseManifest>)
    ensures r.Ok? ==> Published(c, trusted, raw, r.value) && r.value.version == sig.version
  {
    var sum := c.sha256(raw);
    if trusted == [] then Err("no trusted release keys")
    else if !EqualFold(sig.sha256, sum) then Err("signature is for a different version or different bytes")
    else match Find(c, trusted, sig.keyID)
      case None => Err("signature is from a key that is not trusted")
      case Some(k) =>
        if !c.verifies(k, ReleaseSigned(sig.version, sum), sig.signature) then Err("signature did not verify")
        else match c.decode(raw)
          case None => Err("release manifest")
          case Some(m) =>
            if m.version != sig.version then Err("signature is for a different version or different bytes")
            else if !Valid(m) then Err("release manifest")
            else Ok(m)
  }

  /** A manifest is accepted exactly when the named key signed these bytes and the version they state. */
  lemma ManifestExactly(c: Crypto, trusted: seq<Key>, raw: Bytes, sig: Signature, m: ReleaseManifest)
    requires KeysApart(c, trusted)
    ensures VerifyReleaseManifest(c, trusted, raw, sig) == Ok(m) <==>
              && EqualFold(sig.sha256, c.sha256(raw)) && c.decode(raw) == Some(m) && Valid(m) && m.version == sig.version
              && Endorsed(c, trusted, sig.keyID, ReleaseSigned(m.version, c.sha256(raw)), sig.signature)
  {
    hide Find, EqualFold, Valid, ReleaseSigned;
    FindsTheKey(c, trusted, sig.keyID, ReleaseSigned(sig.version, c.sha256(raw)), sig.signature);
  }

  /** No signature over an agent build is one over a release manifest: their first lines differ. */
  lemma SignaturesAreSeparate(m: Manifest, version: string, sum: string)
    ensures m.Signed() != ReleaseSigned(version, sum)
  {
    assert m.Signed()[7] == 'a' && ReleaseSigned(version, sum)[7] == 'r';
  }
}
