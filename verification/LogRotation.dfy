/** A log with a ceiling: internal/agent/logging/rotate.go. File 0 is the live one, file k is the one
    numbered k; a file is the sequence of the records written to it, each written in one call. */
module LogRotation {
  import opened Prelude

  type File = seq<Bytes>

  type Disk = map<nat, File>

  /** How the operating system answers during one write. */
  datatype Faults = Faults(closes: bool, removes: bool, renames: nat -> bool, opens: bool, written: nat, writes: bool)

  function Size(f: File): nat { if f == [] then 0 else Size(f[..|f| - 1]) + |f[|f| - 1]| }

  function Records(f: File): nat {
    if f == [] then 0 else Records(f[..|f| - 1]) + if f[|f| - 1] == [] then 0 else 1
  }

  function At(d: Disk, k: nat): File { if k in d then d[k] else [] }

  /** Files n down to 0: everything kept, oldest first. */
  function Kept(d: Disk, n: nat): seq<Bytes> {
    if n == 0 then At(d, 0) else At(d, n) + Kept(d, n - 1)
  }

  predicate IsSuffix(part: seq<Bytes>, whole: seq<Bytes>) {
    |part| <= |whole| && whole[|whole| - |part|..] == part
  }

  /** Over the limit only if it is a single record, or was when it was opened. */
  predicate Bounded(f: File, maxBytes: int) { Size(f) <= maxBytes || Records(f) <= 1 }

  predicate AllBounded(d: Disk, maxBytes: int) { forall k :: k in d ==> Bounded(d[k], maxBytes) }

  // ----- One rename ---------------------------------------------------------------------------

  /** os.Rename to the next number; one that is not there is left out without complaint. */
  function Shifted(d: Disk, i: nat): Disk {
    if i in d then (d - {i})[i + 1 := d[i]] else d
  }

  lemma {:induction false} KeptBelow(d: Disk, e: Disk, n: nat)
    requires forall k :: 0 <= k <= n ==> At(d, k) == At(e, k)
    ensures Kept(d, n) == Kept(e, n)
    decreases n
  {
    if n > 0 { KeptBelow(d, e, n - 1); }
  }

  /** Renaming into a free number moves nothing out of order. */
  lemma {:induction false} ShiftKeeps(d: Disk, i: nat, n: nat)
    requires i + 1 <= n && i + 1 !in d
    ensures Kept(Shifted(d, i), n) == Kept(d, n)
    decreases n
  {
    var e := Shifted(d, i);
    if n > i + 1 {
      ShiftKeeps(d, i, n - 1);
      assert At(e, n) == At(d, n);
    } else {
      assert Kept(d, n) == At(d, n) + Kept(d, i);
      assert Kept(e, n) == At(e, n) + Kept(e, i);
      assert At(d, n) == [] && At(e, i) == [] && At(e, n) == At(d, i);
      if i == 0 {
        assert Kept(d, 0) == At(d, 0) && Kept(e, 0) == [];
      } else {
        KeptBelow(d, e, i - 1);
        assert Kept(d, i) == At(d, i) + Kept(d, i - 1);
        assert Kept(e, i) == Kept(d, i - 1);
      }
    }
  }

  /** Up to i every file is where it was, and those from there to keep are one further up. */
  ghost predicate MovedAbove(d: Disk, e: Disk, i: int, keep: int) {
    && (forall k: nat :: k <= i ==> (k in e <==> k in d) && (k in e ==> e[k] == d[k]))
    && (forall k: nat :: i + 1 < k < keep ==> (k in e <==> k - 1 in d) && (k in e ==> e[k] == d[k - 1]))
  }

  lemma StartsUnmoved(d: Disk, keep: int)
    ensures MovedAbove(d, d, keep - 2, keep)
  {
  }

  lemma StillThere(d: Disk, e: Disk, i: nat, keep: int)
    requires MovedAbove(d, e, i, keep)
    ensures i in e <==> i in d
  {
  }

  lemma AllMoved(d: Disk, e: Disk, keep: int)
    requires MovedAbove(d, e, -1, keep)
    ensures forall k: nat :: 0 < k < keep ==> (k in e <==> k - 1 in d) && (k in e ==> e[k] == d[k - 1])
  {
  }

  lemma MovesOne(d: Disk, e: Disk, i: nat, keep: int)
    requires MovedAbove(d, e, i, keep) && i in e && i + 1 !in e
    ensures MovedAbove(d, (e - {i})[i + 1 := e[i]], i - 1, keep)
  {
  }

  lemma MovesNone(d: Disk, e: Disk, i: nat, keep: int)
    requires MovedAbove(d, e, i, keep) && i !in e && i + 1 !in e
    ensures MovedAbove(d, e, i - 1, keep)
  {
  }

  lemma SuffixTrans(a: seq<Bytes>, b: seq<Bytes>, c: seq<Bytes>)
    requires IsSuffix(a, b) && IsSuffix(b, c)
    ensures IsSuffix(a, c)
  {
  }

  /** All that is kept afterwards is what was kept before, without its oldest file. */
  ghost predicate OldestDropped(d: Disk, e: Disk, n: nat) { Kept(d, n) == At(d, n) + Kept(e, n) }

  lemma DropOldest(d: Disk, n: nat)
    ensures OldestDropped(d, d - {n}, n)
    ensures n !in d ==> OldestDropped(d, d, n)
  {
    var e := d - {n};
    assert At(e, n) == [];
    if n > 0 {
      KeptBelow(d, e, n - 1);
      assert Kept(e, n) == Kept(d, n - 1);
    }
    if n !in d { assert At(d, n) == [] && [] + Kept(d, n) == Kept(d, n); }
  }

  lemma DroppedIsSuffix(d: Disk, e: Disk, n: nat, written: seq<Bytes>)
    requires OldestDropped(d, e, n) && IsSuffix(Kept(d, n), written)
    ensures IsSuffix(Kept(e, n), written)
  {
    assert IsSuffix(Kept(e, n), At(d, n) + Kept(e, n));
    SuffixTrans(Kept(e, n), Kept(d, n), written);
  }

  lemma {:induction false} AppendKeeps(d: Disk, p: Bytes, n: nat)
    ensures Kept(d[0 := At(d, 0) + [p]], n) == Kept(d, n) + [p]
    decreases n
  {
    if n > 0 {
      AppendKeeps(d, p, n - 1);
      assert At(d[0 := At(d, 0) + [p]], n) == At(d, n);
    }
  }

  lemma {:induction false} CreateKeeps(d: Disk, n: nat)
    requires 0 !in d
    ensures Kept(d[0 := []], n) == Kept(d, n)
    decreases n
  {
    if n > 0 { CreateKeeps(d, n - 1); }
  }

  lemma SizeSnoc(f: File, p: Bytes)
    ensures Size(f + [p]) == Size(f) + |p| && Records(f + [p]) == Records(f) + if p == [] then 0 else 1
  {
    assert (f + [p])[..|f|] == f;
  }

  lemma {:induction false} EmptyHasNoRecords(f: File)
    requires Size(f) == 0
    ensures Records(f) == 0
    decreases |f|
  {
    if f != [] { EmptyHasNoRecords(f[..|f| - 1]); }
  }

  lemma NothingIsBounded(maxBytes: int)
    ensures Size([]) == 0 && Bounded([], maxBytes)
  {
  }

  lemma OnePiece(f: File)
    requires |f| <= 1
    ensures Records(f) <= 1
  {
    if f != [] { assert f[..|f| - 1] == []; }
  }

  /** Numbers below keep make at most keep files. */
  lemma {:induction false} AtMostKeep(d: Disk, keep: nat)
    requires forall k :: k in d ==> k < keep
    ensures |d| <= keep
    decreases keep
  {
    if keep == 0 {
      assert d == map[];
    } else if keep - 1 in d {
      var e := d - {keep - 1};
      AtMostKeep(e, keep - 1);
      assert e.Keys == d.Keys - {keep - 1};
      assert |d.Keys| == |d| && |e.Keys| == |e|;
    } else {
      AtMostKeep(d, keep - 1);
    }
  }

  class RotatingFile {
    const maxBytes: int
    const keep: int

    /** Whether the handle can be written to. */
    var open: bool
    var size: int
    var disk: Disk

    /** Everything ever written, starting with what was there. */
    ghost var written: seq<Bytes>

    ghost predicate Valid()
      reads this
    {
      && maxBytes > 0 && keep >= 1
      && (open ==> 0 in disk && size == Size(disk[0]))
      && AllBounded(disk, maxBytes)
      && IsSuffix(Kept(disk, keep - 1), written)
    }

    /** Files numbered keep or more, left by a larger keep, are never touched. */
    ghost predicate SameStrays(before: Disk)
      reads this
    {
      forall k :: k >= keep ==> (k in disk <==> k in before) && (k in disk ==> disk[k] == before[k])
    }

    /** No file is numbered keep or more. */
    ghost predicate NoStrays()
      reads this
    {
      forall k :: k in disk ==> k < keep
    }

    constructor (maxBytes: int, keep: int, disk: Disk)
      requires maxBytes > 0 && keep >= 1 && 0 in disk && AllBounded(disk, maxBytes)
      ensures Valid() && open && this.disk == disk && this.maxBytes == maxBytes && this.keep == keep
      ensures written == Kept(disk, keep - 1)
    {
      this.maxBytes, this.keep, this.disk := maxBytes, keep, disk;
      this.open, this.size := true, Size(disk[0]);
      this.written := Kept(disk, keep - 1);
    }

    /** A rotation in which nothing fails. */
    static predicate Smooth(keep: int, w: Faults) { w.closes && w.removes && w.opens && forall i: nat :: i < keep ==> w.renames(i) }

    /** rotate: every file moves up by one, the oldest dropping off. Whatever fails on the way, nothing else is
        lost and nothing is reordered; but the handle stays closed. */
    method Rotate(w: Faults) returns (ok: bool)
      requires Valid()
      modifies this`open, this`size, this`disk
      ensures Valid() && SameStrays(old(disk)) && ok == open
      ensures !old(open) ==> !ok && disk == old(disk)
      ensures ok ==> size == 0 && disk[0] == [] && OldestDropped(old(disk), disk, keep - 1)
      ensures disk == old(disk) || Kept(disk, keep - 1) == Kept(old(disk), keep - 1) || OldestDropped(old(disk), disk, keep - 1)
      ensures old(open) && Smooth(keep, w) ==> ok
      // Nothing is asked of files that are not there.
      ensures ok <==> old(open) && w.closes && w.opens && (keep - 1 in old(disk) ==> w.removes)
                      && forall k: nat :: k < keep - 1 && k in old(disk) ==> w.renames(k)
      ensures ok ==> forall k: nat :: 0 < k < keep ==>
                (k in disk <==> k - 1 in old(disk)) && (k in disk ==> disk[k] == old(disk)[k - 1])
    {
      hide Kept, Bounded, IsSuffix, Size;
      // Closing a file already closed is an error.
      if !open || !w.closes {
        open := false;
        return false;
      }
      open := false;
      var oldest: nat := keep - 1;
      NothingIsBounded(maxBytes);
      DropOldest(disk, oldest);
      DroppedIsSuffix(disk, disk - {oldest}, oldest, written);
      if oldest in disk {
        if !w.removes {
          return false;
        }
        disk := disk - {oldest};
      }
      ghost var dropped := disk;
      assert OldestDropped(old(disk), dropped, oldest);
      if keep > 1 {
        ok := ShiftAll(w);
        if !ok {
          return;
        }
      }
      ok := Open(w.opens);
    }

    /** The renames, oldest first, the live file last. */
    method ShiftAll(w: Faults) returns (ok: bool)
      requires keep > 1 && keep - 1 !in disk
      modifies this`disk
      ensures Kept(disk, keep - 1) == Kept(old(disk), keep - 1) && SameStrays(old(disk))
      ensures AllBounded(old(disk), maxBytes) ==> AllBounded(disk, maxBytes)
      ensures ok ==> 0 !in disk
      ensures ok <==> forall k: nat :: k < keep - 1 && k in old(disk) ==> w.renames(k)
      ensures ok ==> forall k: nat :: 0 < k < keep ==>
                (k in disk <==> k - 1 in old(disk)) && (k in disk ==> disk[k] == old(disk)[k - 1])
    {
      hide Kept, Bounded, MovedAbove;
      StartsUnmoved(disk, keep);
      var i := keep - 2;
      while i >= 0
        invariant -1 <= i <= keep - 2 && i + 1 !in disk
        invariant Kept(disk, keep - 1) == Kept(old(disk), keep - 1) && SameStrays(old(disk))
        invariant AllBounded(old(disk), maxBytes) ==> AllBounded(disk, maxBytes)
        invariant MovedAbove(old(disk), disk, i, keep)
        invariant forall k: nat :: i < k < keep - 1 && k in old(disk) ==> w.renames(k)
      {
        StillThere(old(disk), disk, i, keep);
        if i in disk {
          if !w.renames(i) {
            return false;
          }
          ShiftKeeps(disk, i, keep - 1);
          MovesOne(old(disk), disk, i, keep);
          disk := (disk - {i})[i + 1 := disk[i]];
        } else {
          MovesNone(old(disk), disk, i, keep);
        }
        i := i - 1;
      }
      AllMoved(old(disk), disk, keep);
      return true;
    }

    /** open: the live file is created if it is not there. */
    method Open(opens: bool) returns (ok: bool)
      requires maxBytes > 0 && keep >= 1 && 0 !in disk && !open
      modifies this`open, this`size, this`disk
      ensures ok == open == opens
      ensures ok ==> disk == old(disk)[0 := []] && size == 0
      ensures !ok ==> disk == old(disk)
      ensures Kept(disk, keep - 1) == Kept(old(disk), keep - 1)
    {
      if !opens {
        return false;
      }
      CreateKeeps(disk, keep - 1);
      disk := disk[0 := []];
      open, size := true, 0;
      return true;
    }

    /** Write: rotate first if the record would not fit, so that a record is never split. */
    method Write(p: Bytes, w: Faults) returns (n: nat, ok: bool)
      requires Valid() && w.written <= |p|
      modifies this
      ensures Valid() && SameStrays(old(disk)) && n <= |p|
      // A handle that was ever left closed is closed for good, and then nothing is written.
      ensures !old(open) ==> !ok && n == 0 && !open && disk == old(disk) && written == old(written)
      ensures open ==> 0 in disk && disk[0] != [] && disk[0][|disk[0]| - 1] == p[..n] && written == old(written) + [p[..n]]
      ensures !open ==> n == 0 && !ok && written == old(written)
      ensures ok ==> n == |p|
      ensures old(open) && RotatingFile.Smooth(keep, w) ==> open && n == (if w.writes then |p| else w.written)
      // With no such files found when it was opened, there are never more than keep.
      ensures old(NoStrays()) ==> NoStrays() && |disk| <= keep
      // The live file was left alone unless the record would have taken it past the limit.
      ensures open && (old(size) == 0 || old(size) + |p| <= maxBytes) ==> disk == old(disk)[0 := old(disk)[0] + [p[..n]]]
    {
      n, ok := RotateAndAppend(p, w);
      if old(NoStrays()) {
        StaysWithin(old(disk));
        AtMostKeep(disk, keep);
      }
    }

    lemma StaysWithin(before: Disk)
      requires SameStrays(before) && forall k :: k in before ==> k < keep
      ensures NoStrays()
    {
    }

    method RotateAndAppend(p: Bytes, w: Faults) returns (n: nat, ok: bool)
      requires Valid() && w.written <= |p|
      modifies this
      ensures Valid() && SameStrays(old(disk)) && n <= |p|
      ensures !old(open) ==> !ok && n == 0 && !open && disk == old(disk) && written == old(written)
      ensures open ==> 0 in disk && disk[0] != [] && disk[0][|disk[0]| - 1] == p[..n] && written == old(written) + [p[..n]]
      ensures !open ==> n == 0 && !ok && written == old(written)
      ensures ok ==> n == |p|
      ensures old(open) && RotatingFile.Smooth(keep, w) ==> open && n == (if w.writes then |p| else w.written)
      ensures open && (old(size) == 0 || old(size) + |p| <= maxBytes) ==> disk == old(disk)[0 := old(disk)[0] + [p[..n]]]
    {
      hide Kept, Size, Records;
      if size > 0 && size + |p| > maxBytes {
        ok := Rotate(w);
        if !ok {
          return 0, false;
        }
      }
      if !open {
        return 0, false;
      }
      n := if w.writes then |p| else w.written;
      Append(p[..n]);
      ok := w.writes;
    }

    method Append(c: Bytes)
      requires Valid() && open && (size == 0 || size + |c| <= maxBytes)
      modifies this`size, this`disk, this`written
      ensures Valid() && disk == old(disk)[0 := old(disk)[0] + [c]] && written == old(written) + [c]
    {
      hide Kept, Size, Records;
      AppendKeeps(disk, c, keep - 1);
      SizeSnoc(disk[0], c);
      assert At(disk, 0) == disk[0];
      if size == 0 { EmptyHasNoRecords(disk[0]); }
      disk := disk[0 := disk[0] + [c]];
      size := size + |c|;
      written := written + [c];
    }

    /** Close: from now on nothing is written. */
    method Close()
      requires Valid()
      modifies this`open
      ensures Valid() && !open && disk == old(disk)
    {
      open := false;
    }
  }

  /** The bytes of a file. */
  function Joined(f: File): Bytes { if f == [] then [] else Joined(f[..|f| - 1]) + f[|f| - 1] }

  /** What a directory held before is, file by file, one piece. */
  function Found(found: map<nat, Bytes>): (d: Disk)
    ensures d.Keys == found.Keys && forall k :: k in d ==> Joined(d[k]) == found[k]
  {
    map k | k in found :: if found[k] == [] then [] else [found[k]]
  }

  /** NewRotatingFile. */
  method NewRotatingFile(found: map<nat, Bytes>, maxBytes: int, keep: int, mkdir: bool, opens: bool) returns (r: RotatingFile?)
    ensures r == null <==> maxBytes <= 0 || keep < 1 || !mkdir || !opens
    ensures r != null ==> fresh(r) && r.Valid() && r.open && r.maxBytes == maxBytes && r.keep == keep
    ensures r != null ==> r.disk == if 0 in found then Found(found) else Found(found)[0 := []]
    ensures r != null ==> r.size == (if 0 in found then |found[0]| else 0) && forall k :: k in found ==> Joined(r.disk[k]) == found[k]
    ensures r != null ==> r.written == Kept(r.disk, keep - 1)
    ensures r != null && (forall k :: k in found ==> k < keep) ==> r.NoStrays()
  {
    if maxBytes <= 0 {
      return null;
    }
    if keep < 1 {
      return null;
    }
    if !mkdir || !opens {
      return null;
    }
    var d := Found(found);
    if 0 !in d {
      d := d[0 := []];
    }
    forall k | k in d
      ensures Bounded(d[k], maxBytes)
    {
      assert |d[k]| <= 1;
      OnePiece(d[k]);
    }
    r := new RotatingFile(maxBytes, keep, d);
  }
}
