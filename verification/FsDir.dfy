/**
 Directories of fs.c: a directory is a file of 16-byte entries, searched a
 whole block at a time.  Lookup, insertion and removal are those of a map from
 names to inode numbers.
 */
module FsDir {
  import opened Bytes
  import opened FsLayout
  import opened FsInv
  import opened FsSpace
  import opened FsTrunc
  import opened FsFile

  /** A name buffer: DIRSIZ bytes, NUL-terminated only if shorter. */
  type Name = s: seq<Byte> | |s| == 14 witness seq(14, i => 0)

  datatype Found = Found(inum: nat, off: nat) | Absent

  /** dirlookup: the search result, or the panic "dirlookup not DIR". */
  datatype LookupResult = Searched(f: Found) | NotDir

  /** dirlink: linked, -1 because the name exists, no space, or a panic. */
  datatype LinkResult = Linked | Exists | NoRoom | Panicked

  // ---- Names ------------------------------------------------------------------

  /** The C string in a buffer: the bytes before the first NUL. */
  function CStr(s: seq<Byte>): (t: seq<Byte>)
    ensures |t| <= |s| && t == s[..|t|] && 0 !in t
    ensures |t| < |s| ==> s[|t|] == 0
  {
    if s == [] || s[0] == 0 then [] else [s[0]] + CStr(s[1..])
  }

  /** strncmp(s, t, n) == 0, byte by byte. */
  predicate StrnEq(s: seq<Byte>, t: seq<Byte>)
    requires |s| == |t|
  {
    s == [] || (s[0] == t[0] && (s[0] == 0 || StrnEq(s[1..], t[1..])))
  }

  /** namecmp compares exactly the C strings in the two buffers. */
  lemma {:induction false} NamecmpIsStringEquality(s: seq<Byte>, t: seq<Byte>)
    requires |s| == |t|
    ensures StrnEq(s, t) <==> CStr(s) == CStr(t)
  {
    if s != [] && s[0] == t[0] && s[0] != 0 {
      NamecmpIsStringEquality(s[1..], t[1..]);
      assert CStr(s)[1..] == CStr(s[1..]) && CStr(t)[1..] == CStr(t[1..]);
    }
  }

  /** strncpy(dst, name, DIRSIZ): the C string padded with NULs. */
  function Strncpy(name: Name): (d: Name)
    ensures CStr(d) == CStr(name)
  {
    PaddedCStr(CStr(name), 14 - |CStr(name)|);
    CStr(name) + Nuls(14 - |CStr(name)|)
  }

  function Nuls(n: nat): (s: seq<Byte>)
    ensures |s| == n && forall p: nat :: p < n ==> s[p] == 0
  {
    seq(n, i => 0)
  }

  lemma {:induction false} PaddedCStr(t: seq<Byte>, n: nat)
    requires 0 !in t
    ensures CStr(t + Nuls(n)) == t
  {
    if t != [] {
      PaddedCStr(t[1..], n);
      assert (t + Nuls(n))[1..] == t[1..] + Nuls(n);
    }
  }

  // ---- Entries ------------------------------------------------------------------

  /** struct dirent at byte o of c: inum, little-endian, then the name. */
  function InumAt(c: seq<Byte>, o: nat): (n: nat)
    requires o + 16 <= |c|
    ensures n < 65536
  {
    Word(c[o], c[o + 1], 0, 0)
  }

  function NameAt(c: seq<Byte>, o: nat): Name
    requires o + 16 <= |c|
  {
    c[o + 2..o + 16]
  }

  /** Entry k is in use and carries this name. */
  predicate Matches(c: seq<Byte>, k: nat, name: Name)
    requires 16 * k + 16 <= |c|
  {
    InumAt(c, 16 * k) != 0 && CStr(NameAt(c, 16 * k)) == CStr(name)
  }

  /** The first matching entry among entries from..|c|/16. */
  function FindFrom(c: seq<Byte>, name: Name, from: nat): (f: Found)
    ensures f.Found? ==>
              exists k: nat ::
                from <= k && 16 * k + 16 <= |c| && f.off == 16 * k && Matches(c, k, name) && f.inum == InumAt(c, 16 * k)
    ensures f.Found? ==> forall k: nat :: from <= k && 16 * k < f.off && 16 * k + 16 <= |c| ==> !Matches(c, k, name)
    ensures f.Absent? <==> forall k: nat :: from <= k && 16 * k + 16 <= |c| ==> !Matches(c, k, name)
    decreases |c| - 16 * from
  {
    if 16 * from + 16 > |c| then Absent
    else if Matches(c, from, name) then Found(InumAt(c, 16 * from), 16 * from)
    else FindFrom(c, name, from + 1)
  }

  /** The directory as a map: the inode number under a name, if any. */
  function Lookup(c: seq<Byte>, name: Name): Found {
    FindFrom(c, name, 0)
  }

  /** No two entries in use carry the same name. */
  ghost predicate UniqueNames(c: seq<Byte>) {
    forall j: nat, k: nat, name: Name ::
      16 * j + 16 <= |c| && 16 * k + 16 <= |c| && Matches(c, j, name) && Matches(c, k, name) ==> j == k
  }

  /** The 16 bytes of an entry. */
  function Dirent(inum: nat, name: Name): (s: seq<Byte>)
    ensures |s| == 16 && InumAt(s, 0) == inum % 65536 && NameAt(s, 0) == name
  {
    [inum % 256, inum / 256 % 256] + name
  }

  // ---- The directory as a map from names to inode numbers --------------------------

  /** The entries from..|c|/16 in use, the first one of each name. */
  function EntriesFrom(c: seq<Byte>, from: nat): (m: map<seq<Byte>, nat>)
    ensures forall s <- m :: |s| <= 14 && 0 !in s && m[s] != 0
    decreases |c| - 16 * from
  {
    if 16 * from + 16 > |c| then map[]
    else if InumAt(c, 16 * from) == 0 then EntriesFrom(c, from + 1)
    else EntriesFrom(c, from + 1)[CStr(NameAt(c, 16 * from)) := InumAt(c, 16 * from)]
  }

  function Entries(c: seq<Byte>): (m: map<seq<Byte>, nat>)
    ensures forall s <- m :: |s| <= 14 && 0 !in s && m[s] != 0
  {
    EntriesFrom(c, 0)
  }

  /** A name buffer that holds the string. */
  function Buffer(s: seq<Byte>): (n: Name)
    requires |s| <= 14 && 0 !in s
    ensures CStr(n) == s
  {
    PaddedCStr(s, 14 - |s|);
    s + Nuls(14 - |s|)
  }

  lemma {:induction false} FindIsMap(c: seq<Byte>, name: Name, from: nat)
    ensures FindFrom(c, name, from).Found? <==> CStr(name) in EntriesFrom(c, from)
    ensures FindFrom(c, name, from).Found? ==> FindFrom(c, name, from).inum == EntriesFrom(c, from)[CStr(name)]
    decreases |c| - 16 * from
  {
    hide CStr, NameAt, InumAt;
    if 16 * from + 16 <= |c| {
      FindIsMap(c, name, from + 1);
    }
  }

  /** dirlookup is looking up in the map. */
  lemma LookupIsMap(c: seq<Byte>, name: Name)
    ensures Lookup(c, name).Found? <==> CStr(name) in Entries(c)
    ensures Lookup(c, name).Found? ==> Lookup(c, name).inum == Entries(c)[CStr(name)]
  {
    FindIsMap(c, name, 0);
  }

  /** Directories with the same lookups are the same map. */
  lemma SameLookups(c: seq<Byte>, m: map<seq<Byte>, nat>)
    requires forall s <- m :: |s| <= 14 && 0 !in s
    requires forall n: Name :: Lookup(c, n).Found? <==> CStr(n) in m
    requires forall n: Name :: Lookup(c, n).Found? ==> Lookup(c, n).inum == m[CStr(n)]
    ensures Entries(c) == m
  {
    forall s | s in m || s in Entries(c)
      ensures s in m && s in Entries(c) && m[s] == Entries(c)[s]
    {
      LookupIsMap(c, Buffer(s));
      assert CStr(Buffer(s)) == s;
    }
  }

  // ---- Entries of a changed directory --------------------------------------------

  /** c with entry k replaced, or appended when 16 * k is the end. */
  function PutDirent(c: seq<Byte>, k: nat, inum: nat, name: Name): (e: seq<Byte>)
    requires |c| % 16 == 0 && 16 * k <= |c|
  {
    Splice(c, 16 * k, Dirent(inum, name))
  }

  lemma Mod16(k: nat)
    ensures 16 * k % 16 == 0
  {
  }

  lemma DirentPut(c: seq<Byte>, k: nat, inum: nat, name: Name)
    requires |c| % 16 == 0 && 16 * k <= |c|
    ensures var e := PutDirent(c, k, inum, name);
      && |e| == Max(|c|, 16 * k + 16) && |e| % 16 == 0
      && InumAt(e, 16 * k) == inum % 65536 && NameAt(e, 16 * k) == name
      && (forall j: nat :: 16 * j + 16 <= |e| && j != k ==>
            16 * j + 16 <= |c| && InumAt(e, 16 * j) == InumAt(c, 16 * j) && NameAt(e, 16 * j) == NameAt(c, 16 * j))
  {
    var e := PutDirent(c, k, inum, name);
    var d := Dirent(inum, name);
    Mod16(k + 1);
    assert e[16 * k] == d[0] && e[16 * k + 1] == d[1];
    assert NameAt(e, 16 * k) == d[2..16];
    forall j: nat | 16 * j + 16 <= |e| && j != k
      ensures 16 * j + 16 <= |c| && InumAt(e, 16 * j) == InumAt(c, 16 * j) && NameAt(e, 16 * j) == NameAt(c, 16 * j)
    {
      assert 16 * j + 16 <= 16 * k || 16 * k + 16 <= 16 * j;
    }
  }

  /** A search finds f if f's entry matches and no other does. */
  lemma FoundIs(c: seq<Byte>, name: Name, k: nat)
    requires 16 * k + 16 <= |c| && Matches(c, k, name)
    requires forall j: nat :: j < k ==> !Matches(c, j, name)
    ensures Lookup(c, name) == Found(InumAt(c, 16 * k), 16 * k)
  {
  }

  /**
   dirlink's write into a free entry k: the new name now finds the stored inode
   number, every other name finds what it found before.
   */
  lemma LinkUpdatesMap(c: seq<Byte>, k: nat, inum: nat, name: Name, other: Name)
    requires |c| % 16 == 0 && 16 * k <= |c| && UniqueNames(c)
    requires 16 * k < |c| ==> InumAt(c, 16 * k) == 0
    requires Lookup(c, name).Absent?
    ensures var e := PutDirent(c, k, inum, Strncpy(name));
      && UniqueNames(e)
      && (CStr(other) == CStr(name) ==>
            Lookup(e, other) == if inum % 65536 == 0 then Absent else Found(inum % 65536, 16 * k))
      && (CStr(other) != CStr(name) ==> Lookup(e, other) == Lookup(c, other))
  {
    var e := PutDirent(c, k, inum, Strncpy(name));
    LinkKeepsUnique(c, k, inum, name);
    hide UniqueNames, FindFrom, PutDirent, CStr, Strncpy;
    DirentPut(c, k, inum, Strncpy(name));
    if CStr(other) == CStr(name) {
      forall j: nat | 16 * j + 16 <= |c|
        ensures !Matches(c, j, other)
      {
        assert !Matches(c, j, name);
      }
      forall j: nat | 16 * j + 16 <= |e| && j != k
        ensures !Matches(e, j, other)
      {
        assert !Matches(c, j, other);
      }
      if inum % 65536 != 0 {
        FoundIs(e, other, k);
      }
    } else {
      forall j: nat | 16 * j + 16 <= |e|
        ensures Matches(e, j, other) <==> 16 * j + 16 <= |c| && Matches(c, j, other)
        ensures Matches(e, j, other) ==> InumAt(c, 16 * j) == InumAt(e, 16 * j)
      {
        MatchKept(c, k, inum, Strncpy(name), j, other);
        if j == k && 16 * k + 16 <= |c| {
          assert !Matches(c, k, other);
        }
      }
      SameSearch(c, e, other);
    }
  }

  lemma MatchKept(c: seq<Byte>, k: nat, inum: nat, name: Name, j: nat, n: Name)
    requires |c| % 16 == 0 && 16 * k <= |c| && 16 * j + 16 <= |PutDirent(c, k, inum, name)|
    ensures j != k ==> 16 * j + 16 <= |c| && (Matches(PutDirent(c, k, inum, name), j, n) <==> Matches(c, j, n))
    ensures j == k ==> (Matches(PutDirent(c, k, inum, name), j, n) <==> inum % 65536 != 0 && CStr(n) == CStr(name))
  {
    DirentPut(c, k, inum, name);
  }

  lemma LinkKeepsUnique(c: seq<Byte>, k: nat, inum: nat, name: Name)
    requires |c| % 16 == 0 && 16 * k <= |c| && UniqueNames(c)
    requires Lookup(c, name).Absent?
    ensures UniqueNames(PutDirent(c, k, inum, Strncpy(name)))
  {
    var e := PutDirent(c, k, inum, Strncpy(name));
    forall i: nat, j: nat, n: Name | 16 * i + 16 <= |e| && 16 * j + 16 <= |e| && Matches(e, i, n) && Matches(e, j, n)
      ensures i == j
    {
      MatchKept(c, k, inum, Strncpy(name), i, n);
      MatchKept(c, k, inum, Strncpy(name), j, n);
      if i != j && (i == k || j == k) {
        var q := if i == k then j else i;
        assert Matches(c, q, n) && CStr(n) == CStr(name);
        assert Matches(c, q, name);
      }
    }
  }

  /** If the same entries match at the same places, the search agrees. */
  lemma SameSearch(c: seq<Byte>, e: seq<Byte>, name: Name)
    requires |c| <= |e| && |c| % 16 == 0 && |e| % 16 == 0
    requires forall j: nat :: 16 * j + 16 <= |e| ==>
               (Matches(e, j, name) <==> 16 * j + 16 <= |c| && Matches(c, j, name))
    requires forall j: nat :: 16 * j + 16 <= |e| && Matches(e, j, name) ==> InumAt(c, 16 * j) == InumAt(e, 16 * j)
    ensures Lookup(e, name) == Lookup(c, name)
  {
    var f := Lookup(c, name);
    if f.Found? {
      var k: nat :| 16 * k + 16 <= |c| && f.off == 16 * k && Matches(c, k, name) && f.inum == InumAt(c, 16 * k);
      FoundIs(e, name, k);
    }
  }

  /** Unlinking zeroes the entry found: the name is gone, the others stay. */
  lemma UnlinkUpdatesMap(c: seq<Byte>, name: Name, other: Name)
    requires |c| % 16 == 0 && UniqueNames(c) && Lookup(c, name).Found?
    ensures Lookup(c, name).off % 16 == 0 && Lookup(c, name).off + 16 <= |c|
    ensures var e := Splice(c, Lookup(c, name).off, seq(16, i => 0));
      && UniqueNames(e)
      && (CStr(other) == CStr(name) ==> Lookup(e, other).Absent?)
      && (CStr(other) != CStr(name) ==> Lookup(e, other) == Lookup(c, other))
  {
    hide UniqueNames, Splice, FindFrom, InumAt, Dirent, PutDirent, Matches, CStr;
    var k := FoundEntry(c, name);
    var zero: Name := seq(14, i => 0);
    var e := PutDirent(c, k, 0, zero);
    ZeroedEntry(c, k, zero);
    EntryCleared(c, k, zero);
    if CStr(other) == CStr(name) {
      OnlyEntry(c, k, name, other);
      assert forall j: nat :: 16 * j + 16 <= |e| ==> !Matches(e, j, other);
      NoEntry(e, other);
    } else {
      OtherName(c, k, name, other);
      SameSearch(c, e, other);
    }
  }

  lemma OtherName(c: seq<Byte>, k: nat, name: Name, other: Name)
    requires 16 * k + 16 <= |c| && Matches(c, k, name) && CStr(other) != CStr(name)
    ensures !Matches(c, k, other)
  {
  }

  lemma FoundEntry(c: seq<Byte>, name: Name) returns (k: nat)
    requires |c| % 16 == 0 && Lookup(c, name).Found?
    ensures 16 * k + 16 <= |c| && Lookup(c, name).off == 16 * k && Matches(c, k, name)
  {
    k :| 16 * k + 16 <= |c| && Lookup(c, name).off == 16 * k && Matches(c, k, name);
  }

  lemma NoEntry(e: seq<Byte>, name: Name)
    requires |e| % 16 == 0 && forall j: nat :: 16 * j + 16 <= |e| ==> !Matches(e, j, name)
    ensures Lookup(e, name).Absent?
  {
  }

  lemma OnlyEntry(c: seq<Byte>, k: nat, name: Name, other: Name)
    requires |c| % 16 == 0 && UniqueNames(c) && 16 * k + 16 <= |c| && Matches(c, k, name) && CStr(other) == CStr(name)
    ensures forall j: nat :: 16 * j + 16 <= |c| && j != k ==> !Matches(c, j, other)
  {
    assert forall j: nat :: 16 * j + 16 <= |c| && Matches(c, j, other) ==> Matches(c, j, name);
  }

  lemma ZeroedEntry(c: seq<Byte>, k: nat, zero: Name)
    requires |c| % 16 == 0 && 16 * k + 16 <= |c| && forall i: nat :: i < 14 ==> zero[i] == 0
    ensures PutDirent(c, k, 0, zero) == Splice(c, 16 * k, seq(16, i => 0))
  {
    assert Dirent(0, zero) == seq(16, i => 0);
  }

  lemma EntryCleared(c: seq<Byte>, k: nat, zero: Name)
    requires |c| % 16 == 0 && 16 * k + 16 <= |c| && UniqueNames(c)
    ensures var e := PutDirent(c, k, 0, zero);
      && |e| == |c| && UniqueNames(e)
      && (forall n: Name :: !Matches(e, k, n))
      && (forall j: nat, n: Name :: 16 * j + 16 <= |c| && j != k ==> (Matches(e, j, n) <==> Matches(c, j, n)))
      && (forall j: nat :: 16 * j + 16 <= |c| && j != k ==> InumAt(e, 16 * j) == InumAt(c, 16 * j))
  {
    var e := PutDirent(c, k, 0, zero);
    DirentPut(c, k, 0, zero);
    forall j: nat, n: Name | 16 * j + 16 <= |c|
      ensures j != k ==> (Matches(e, j, n) <==> Matches(c, j, n))
      ensures j == k ==> !Matches(e, j, n)
    {
      MatchKept(c, k, 0, zero, j, n);
    }
    hide Matches, InumAt;
  }

  // ---- Searching a directory on disk -------------------------------------------------

  /** What dirlookup scans: the file up to the end of its last block. */
  ghost function Padded(d: Disk, di: Dinode): (c: seq<Byte>)
    requires di.size <= 71680
    ensures |c| == (di.size + 511) / 512 * 512
    ensures forall p: nat :: p < |c| ==> c[p] == ByteOf(d, di, p)
  {
    seq((di.size + 511) / 512 * 512, p requires 0 <= p < 71680 => ByteOf(d, di, p))
  }

  /** Bytes past the end are zero, so scanning them finds nothing more. */
  lemma WholeEntries(size: nat)
    requires size % 16 == 0
    ensures size == 16 * (size / 16) && (size + 511) / 512 * 512 >= size && (size + 511) / 512 * 512 % 16 == 0
  {
    Mod16(32 * ((size + 511) / 512));
  }

  lemma PaddingHoldsNoEntry(d: Disk, di: Dinode, name: Name)
    requires FileOk(d, di) && di.size % 16 == 0
    ensures Lookup(Padded(d, di), name) == Lookup(Contents(d, di), name)
  {
    var p, c, n := Padded(d, di), Contents(d, di), di.size / 16;
    hide Matches, InumAt, FindFrom;
    WholeEntries(di.size);
    forall j: nat | 16 * j + 16 <= |p|
      ensures Matches(p, j, name) <==> 16 * j + 16 <= |c| && Matches(c, j, name)
      ensures Matches(p, j, name) ==> InumAt(c, 16 * j) == InumAt(p, 16 * j)
    {
      PaddedEntry(d, di, j, n, name);
    }
    hide Padded, Contents, FileOk;
    SameSearch(c, p, name);
  }

  lemma PaddedEntry(d: Disk, di: Dinode, j: nat, n: nat, name: Name)
    requires FileOk(d, di) && di.size == 16 * n && 16 * j + 16 <= |Padded(d, di)|
    ensures Matches(Padded(d, di), j, name) <==> j < n && Matches(Contents(d, di), j, name)
    ensures j < n ==> InumAt(Contents(d, di), 16 * j) == InumAt(Padded(d, di), 16 * j)
  {
    var p, c := Padded(d, di), Contents(d, di);
    if j < n {
      assert p[16 * j] == c[16 * j] && p[16 * j + 1] == c[16 * j + 1];
      assert NameAt(p, 16 * j) == NameAt(c, 16 * j);
    } else {
      assert p[16 * j] == 0 && p[16 * j + 1] == 0;
    }
  }

  lemma WholeBlock(size: nat, bn: nat)
    requires 512 * bn < size
    ensures 512 * bn + 512 <= (size + 511) / 512 * 512
  {
    assert bn < (size + 511) / 512;
  }

  lemma PaddedChunk(sb: Super, d: Disk, ino: seq<Dinode>, own: Owner, i: nat, bn: nat)
    requires Inv(sb, d, ino, own) && i < |ino| && FileOk(d, ino[i]) && 512 * bn < ino[i].size
    ensures bn < 140 && Need(d, ino[i], bn) == 0 && ino[i].size <= 71680
    ensures var b := Slot(d, ino[i], SlotOf(bn));
      && b < |d| && 512 * bn + 512 <= |Padded(d, ino[i])|
      && d[b] == Padded(d, ino[i])[512 * bn..512 * bn + 512]
  {
    BlockOfFile(sb, d, ino, own, i, bn);
    hide Inv, FileOk, ByteOf, Slot;
    var b := Slot(d, ino[i], SlotOf(bn));
    var c := Padded(d, ino[i]);
    WholeBlock(ino[i].size, bn);
    var y := c[512 * bn..512 * bn + 512];
    forall q: nat | q < 512
      ensures d[b][q] == y[q]
    {
      ByteOfBlock(d, ino[i], bn, q);
      assert y[q] == c[512 * bn + q] == ByteOf(d, ino[i], 512 * bn + q);
    }
  }

  lemma EntryOfChunk(c: seq<Byte>, bn: nat, bp: seq<Byte>, e: nat)
    requires 512 * bn + 512 <= |c| && bp == c[512 * bn..512 * bn + 512] && e < 32
    ensures var k := 32 * bn + e;
      InumAt(bp, 16 * e) == InumAt(c, 16 * k) && NameAt(bp, 16 * e) == NameAt(c, 16 * k)
  {
    assert bp[16 * e] == c[512 * bn + 16 * e] && bp[16 * e + 1] == c[512 * bn + 16 * e + 1];
    assert 16 * (32 * bn + e) == 512 * bn + 16 * e;
    var x, y := NameAt(bp, 16 * e), NameAt(c, 16 * (32 * bn + e));
    assert |x| == 14 && |y| == 14;
    forall q: nat | q < 14
      ensures x[q] == y[q]
    {
      assert x[q] == bp[16 * e + 2 + q] == c[512 * bn + 16 * e + 2 + q];
    }
  }

  /** No entry before number k carries the name. */
  ghost predicate NoneBefore(c: seq<Byte>, name: Name, k: nat) {
    forall j: nat :: j < k ==> 16 * j + 16 <= |c| && !Matches(c, j, name)
  }

  /** One block of dirlookup's scan: block bn holds entries 32 * bn up to 32 * bn + 32. */
  method ScanBlock(bp: Block, bn: nat, name: Name, ghost c: seq<Byte>) returns (f: Found)
    requires 512 * bn + 512 <= |c| && bp == c[512 * bn..512 * bn + 512]
    requires NoneBefore(c, name, 32 * bn)
    ensures f.Found? ==> f == Lookup(c, name) && f.inum != 0 && f.off + 16 <= |c| && f.inum == InumAt(c, f.off)
    ensures f.Absent? ==> NoneBefore(c, name, 32 * bn + 32)
  {
    hide FindFrom;
    var e := 0;
    while e < 32
      invariant 0 <= e <= 32
      invariant NoneBefore(c, name, 32 * bn + e)
    {
      EntryOfChunk(c, bn, bp, e);
      NamecmpIsStringEquality(name, NameAt(bp, 16 * e));
      if InumAt(bp, 16 * e) != 0 {
        if StrnEq(name, NameAt(bp, 16 * e)) {
          FoundIs(c, name, 32 * bn + e);
          return Found(InumAt(bp, 16 * e), 512 * bn + 16 * e);
        }
      }
      assert !Matches(c, 32 * bn + e, name);
      e := e + 1;
    }
    f := Absent;
  }

  /** Search dp for name: the first entry in use with that name, or none. */
  method Dirlookup(fs: FileSystem, dp: Inode, name: Name) returns (r: LookupResult)
    requires fs.sb.Valid() && fs.Synced(dp)
    requires dp.typ == T_DIR ==> FileOk(fs.disk, dp.Val())
    modifies fs`disk, fs`own, dp`addrs
    ensures fs.disk == old(fs.disk) && fs.own == old(fs.own) && dp.addrs == old(dp.addrs)
    ensures r.NotDir? <==> dp.typ != T_DIR
    ensures r.Searched? ==> dp.size <= 71680 && r.f == Lookup(Padded(fs.disk, dp.Val()), name)
    ensures r.Searched? && dp.size % 16 == 0 ==> r.f == Lookup(Contents(fs.disk, dp.Val()), name)
    ensures r.Searched? && r.f.Found? ==> r.f.off < dp.size && r.f.inum != 0
  {
    hide Inv, FileOk, Steady, Need, Super.Meta, Contents, HoleFree;
    if dp.typ != T_DIR {
      return NotDir;
    }
    FileOkSize(fs.disk, dp.Val());
    if dp.size % 16 == 0 {
      PaddingHoldsNoEntry(fs.disk, dp.Val(), name);
    }
    var f := SearchBlocks(fs, dp, name);
    r := Searched(f);
  }

  method SearchBlocks(fs: FileSystem, dp: Inode, name: Name) returns (f: Found)
    requires fs.sb.Valid() && fs.Synced(dp) && FileOk(fs.disk, dp.Val()) && dp.size <= 71680
    modifies fs`disk, fs`own, dp`addrs
    ensures fs.disk == old(fs.disk) && fs.own == old(fs.own) && dp.addrs == old(dp.addrs)
    ensures f == Lookup(Padded(fs.disk, dp.Val()), name)
    ensures f.Found? ==> f.off < dp.size && f.inum != 0
  {
    hide Inv, FileOk, Super.Meta, Padded, FindFrom, NoneBefore;
    ghost var c := Padded(fs.disk, dp.Val());
    ghost var bn := 0;
    NoneBeforeZero(c, name);
    var off := 0;
    while off < dp.size
      invariant off == 512 * bn && off <= |c|
      invariant fs.disk == old(fs.disk) && fs.own == old(fs.own) && dp.addrs == old(dp.addrs)
      invariant NoneBefore(c, name, 32 * bn)
    {
      var bp := DirBlock(fs, dp, off / 512);
      f := ScanBlock(bp, off / 512, name, c);
      if f.Found? {
        FoundInUse(f, fs.disk, dp.Val());
        return;
      }
      off := off + 512;
      bn := bn + 1;
    }
    ScannedAll(c, name, bn);
    f := Absent;
  }

  lemma NoneBeforeZero(c: seq<Byte>, name: Name)
    ensures NoneBefore(c, name, 0)
  {
  }

  lemma ScannedAll(c: seq<Byte>, name: Name, bn: nat)
    requires NoneBefore(c, name, 32 * bn) && |c| <= 512 * bn
    ensures Lookup(c, name).Absent?
  {
  }

  lemma FoundInUse(f: Found, d: Disk, di: Dinode)
    requires FileOk(d, di)
    requires f.Found? && f.off + 16 <= |Padded(d, di)| && f.inum == InumAt(Padded(d, di), f.off) != 0
    ensures f.off < di.size
  {
  }

  /** bread of a directory's block bn. */
  method DirBlock(fs: FileSystem, dp: Inode, bn: nat) returns (bp: Block)
    requires fs.sb.Valid() && fs.Synced(dp) && FileOk(fs.disk, dp.Val()) && dp.size <= 71680 && 512 * bn < dp.size
    modifies fs`disk, fs`own, dp`addrs
    ensures fs.disk == old(fs.disk) && fs.own == old(fs.own) && dp.addrs == old(dp.addrs)
    ensures 512 * bn + 512 <= |Padded(fs.disk, dp.Val())|
    ensures bp == Padded(fs.disk, dp.Val())[512 * bn..512 * bn + 512]
  {
    hide Inv, FileOk, Steady, Super.Meta, Padded;
    FreeNonNegative(fs.sb, fs.disk, fs.dinodes, fs.own);
    assert fs.dinodes == fs.View(dp);
    PaddedChunk(fs.sb, fs.disk, fs.dinodes, fs.own, dp.inum, bn);
    var a := fs.Bmap(dp, bn);
    bp := fs.disk[a.b];
  }

  // ---- Inserting ----------------------------------------------------------------------

  /** The first free entry at or after k, or the end of the directory. */
  function FirstFree(c: seq<Byte>, k: nat): (n: nat)
    requires 16 * k <= |c| && |c| % 16 == 0
    ensures k <= n && 16 * n <= |c|
    ensures 16 * n < |c| ==> InumAt(c, 16 * n) == 0
    decreases |c| - 16 * k
  {
    if 16 * k == |c| || InumAt(c, 16 * k) == 0 then k else FirstFree(c, k + 1)
  }

  /** dirlink succeeded on c: name was new, and now maps to inum, as stored in 16 bits. */
  ghost predicate LinkedIn(c: seq<Byte>, e: seq<Byte>, name: Name, inum: nat) {
    && Lookup(c, name).Absent?
    && (UniqueNames(c) ==> UniqueNames(e))
    && (UniqueNames(c) ==> forall other: Name :: CStr(other) != CStr(name) ==> Lookup(e, other) == Lookup(c, other))
    && (UniqueNames(c) ==> if inum % 65536 == 0 then Lookup(e, name).Absent?
          else Lookup(e, name).Found? && Lookup(e, name).inum == inum % 65536)
  }

  /** Linking is adding to the map. */
  lemma LinkedInMap(c: seq<Byte>, e: seq<Byte>, name: Name, inum: nat)
    requires LinkedIn(c, e, name, inum) && UniqueNames(c) && inum % 65536 != 0
    ensures CStr(name) !in Entries(c) && Entries(e) == Entries(c)[CStr(name) := inum % 65536]
  {
    hide UniqueNames, FindFrom, EntriesFrom;
    LookupIsMap(c, name);
    var m := Entries(c)[CStr(name) := inum % 65536];
    forall n: Name
      ensures Lookup(e, n).Found? <==> CStr(n) in m
      ensures Lookup(e, n).Found? ==> Lookup(e, n).inum == m[CStr(n)]
    {
      LookupIsMap(c, n);
      LookupIsMap(e, n);
      LookupIsMap(e, name);
    }
    SameLookups(e, m);
  }

  /** unlink cleared the entry on c: the name is gone, and no other. */
  ghost predicate UnlinkedFrom(c: seq<Byte>, e: seq<Byte>, name: Name) {
    UniqueNames(c) ==>
      && UniqueNames(e)
      && forall other: Name :: Lookup(e, other) == if CStr(other) == CStr(name) then Absent else Lookup(c, other)
  }

  lemma UnlinkedHolds(c: seq<Byte>, name: Name)
    requires |c| % 16 == 0 && Lookup(c, name).Found?
    ensures Lookup(c, name).off + 16 <= |c| && UnlinkedFrom(c, Splice(c, Lookup(c, name).off, Nuls(16)), name)
  {
    var k := FoundEntry(c, name);
    assert Nuls(16) == seq(16, i => 0);
    if UniqueNames(c) {
      var e := Splice(c, Lookup(c, name).off, seq(16, i => 0));
      forall other: Name
        ensures UniqueNames(e) && Lookup(e, other) == if CStr(other) == CStr(name) then Absent else Lookup(c, other)
      {
        UnlinkUpdatesMap(c, name, other);
      }
    }
  }

  /** Unlinking is removing from the map. */
  lemma UnlinkedFromMap(c: seq<Byte>, e: seq<Byte>, name: Name)
    requires UnlinkedFrom(c, e, name) && UniqueNames(c)
    ensures Entries(e) == Entries(c) - {CStr(name)}
  {
    hide UniqueNames, FindFrom, EntriesFrom;
    var m := Entries(c) - {CStr(name)};
    forall n: Name
      ensures Lookup(e, n).Found? <==> CStr(n) in m
      ensures Lookup(e, n).Found? ==> Lookup(e, n).inum == m[CStr(n)]
    {
      LookupIsMap(c, n);
    }
    SameLookups(e, m);
  }

  lemma LinkedHolds(c: seq<Byte>, k: nat, inum: nat, name: Name)
    requires |c| % 16 == 0 && 16 * k <= |c|
    requires 16 * k < |c| ==> InumAt(c, 16 * k) == 0
    requires Lookup(c, name).Absent?
    ensures LinkedIn(c, PutDirent(c, k, inum, Strncpy(name)), name, inum)
  {
    if UniqueNames(c) {
      forall other: Name
        ensures UniqueNames(PutDirent(c, k, inum, Strncpy(name)))
        ensures CStr(other) != CStr(name) ==> Lookup(PutDirent(c, k, inum, Strncpy(name)), other) == Lookup(c, other)
        ensures CStr(other) == CStr(name) ==>
          Lookup(PutDirent(c, k, inum, Strncpy(name)), other) ==
          if inum % 65536 == 0 then Absent else Found(inum % 65536, 16 * k)
      {
        LinkUpdatesMap(c, k, inum, name, other);
      }
    }
  }

  /** The directory with the entry written in the first free place. */
  function Linking(c: seq<Byte>, inum: nat, name: Name): seq<Byte>
    requires |c| % 16 == 0
  {
    PutDirent(c, FirstFree(c, 0), inum, Strncpy(name))
  }

  /**
   How dirlink ends, with free blocks left: it fails for want of room exactly when the directory has to grow
   by more.
   */
  function LinkOutcome(c: seq<Byte>, name: Name, free: int): LinkResult
    requires |c| % 16 == 0
  {
    var end := 16 * FirstFree(c, 0) + 16;
    if Lookup(c, name).Found? then Exists
    else if end > 71680 then Panicked
    else if Blocks(Max(|c|, end)) - Blocks(|c|) > free then NoRoom
    else Linked
  }

  /** Write the entry (name, inum) into dp, in the first free place. */
  method Dirlink(fs: FileSystem, dp: Inode, name: Name, inum: nat) returns (r: LinkResult)
    requires fs.sb.Valid() && fs.Synced(dp)
    requires dp.typ == T_DIR ==> FileOk(fs.disk, dp.Val()) && dp.size % 16 == 0
    modifies fs, dp
    ensures old(dp.typ) == T_DIR ==> old(dp.size) <= 71680
    ensures r == if old(dp.typ) != T_DIR then Panicked else
              LinkOutcome(old(Contents(fs.disk, dp.Val())), name, old(fs.FreeCount()))
    ensures r.Linked? ==>
      && fs.Synced(dp) && FileOk(fs.disk, dp.Val()) && dp.size % 16 == 0
      && Contents(fs.disk, dp.Val()) == Linking(old(Contents(fs.disk, dp.Val())), inum, name)
      && LinkedIn(old(Contents(fs.disk, dp.Val())), Contents(fs.disk, dp.Val()), name, inum)
      && fs.FreeCount() == old(fs.FreeCount()) - (Blocks(dp.size) - Blocks(old(dp.size)))
      && OthersKept(old(fs.disk), old(fs.dinodes), fs.disk, fs.dinodes, dp.inum)
      && (old(FilesOk(fs.disk, fs.dinodes)) ==> FilesOk(fs.disk, fs.dinodes))
      && dp.typ == old(dp.typ) && dp.nlink == old(dp.nlink)
    ensures r.Exists? ==>
              fs.disk == old(fs.disk) && fs.dinodes == old(fs.dinodes) && fs.own == old(fs.own)
              && dp.Val() == old(dp.Val())
  {
    hide Inv, FileOk, Super.Meta, HoleFree, FindFrom, LinkedIn, Blocks, Contents, Padded, Strncpy, Dirent, FirstFree,
        OthersKept, FilesOk, Linking;
    if dp.typ == T_DIR {
      FileOkSize(fs.disk, dp.Val());
    }
    var found := Dirlookup(fs, dp, name);
    if found.NotDir? {
      return Panicked;
    }
    if found.f.Found? {
      return Exists;
    }
    r := AddEntry(fs, dp, name, inum);
  }

  /** dirlink for a name that is not there. */
  method AddEntry(fs: FileSystem, dp: Inode, name: Name, inum: nat) returns (r: LinkResult)
    requires fs.sb.Valid() && fs.Synced(dp) && dp.typ == T_DIR && FileOk(fs.disk, dp.Val())
    requires dp.size <= 71680 && dp.size % 16 == 0 && Lookup(Contents(fs.disk, dp.Val()), name).Absent?
    modifies fs, dp
    ensures r == LinkOutcome(old(Contents(fs.disk, dp.Val())), name, old(fs.FreeCount()))
    ensures r.Linked? ==>
      && fs.Synced(dp) && FileOk(fs.disk, dp.Val()) && dp.size % 16 == 0
      && Contents(fs.disk, dp.Val()) == Linking(old(Contents(fs.disk, dp.Val())), inum, name)
      && LinkedIn(old(Contents(fs.disk, dp.Val())), Contents(fs.disk, dp.Val()), name, inum)
      && fs.FreeCount() == old(fs.FreeCount()) - (Blocks(dp.size) - Blocks(old(dp.size)))
      && OthersKept(old(fs.disk), old(fs.dinodes), fs.disk, fs.dinodes, dp.inum)
      && (old(FilesOk(fs.disk, fs.dinodes)) ==> FilesOk(fs.disk, fs.dinodes))
      && dp.typ == old(dp.typ) && dp.nlink == old(dp.nlink)
  {
    hide Inv, FileOk, Steady, OthersSteady, Super.Meta, HoleFree, FindFrom, LinkedIn, Blocks, Contents, Padded,
        Strncpy, Dirent, FirstFree, OthersKept, FilesOk, SameOthers, UniqueNames, InumAt, NameAt, CStr, Super.Valid;
    FreeNonNegative(fs.sb, fs.disk, fs.dinodes, fs.own);
    ghost var c := Contents(fs.disk, dp.Val());
    var off := FindFree(fs, dp);
    var de := Dirent(inum, Strncpy(name));
    var w := fs.Writei(dp, de, off, 16);
    if w.DiskFull? {
      return NoRoom;
    }
    if w != Count(16) {
      return Panicked;
    }
    assert de[..16] == de;
    Mod16(off / 16);
    LinkedHolds(c, off / 16, inum, name);
    DirentPut(c, off / 16, inum, Strncpy(name));
    r := Linked;
  }

  /** dirlink's search for an entry whose inum is 0. */
  method FindFree(fs: FileSystem, dp: Inode) returns (off: nat)
    requires fs.sb.Valid() && fs.Synced(dp) && dp.typ == T_DIR && FileOk(fs.disk, dp.Val())
    requires dp.size <= 71680 && dp.size % 16 == 0
    modifies fs`disk, fs`own, dp`addrs
    ensures fs.disk == old(fs.disk) && fs.own == old(fs.own) && dp.addrs == old(dp.addrs)
    ensures off == 16 * FirstFree(Contents(fs.disk, dp.Val()), 0)
    ensures off % 16 == 0 && off <= dp.size
    ensures off < dp.size ==> off + 16 <= dp.size && InumAt(Contents(fs.disk, dp.Val()), off) == 0
  {
    hide Inv, FileOk, Super.Meta, Contents, FirstFree, InumAt;
    ghost var c := Contents(fs.disk, dp.Val());
    ghost var k := 0;
    off := 0;
    while off < dp.size
      invariant off == 16 * k && off <= dp.size
      invariant fs.disk == old(fs.disk) && fs.own == old(fs.own) && dp.addrs == old(dp.addrs)
      invariant FirstFree(c, 0) == FirstFree(c, k)
    {
      var r, de := fs.Readi(dp, off, 16);
      assert off + 16 <= dp.size by { Aligned16(off, dp.size); }
      EntrySlice(c, off);
      FirstFreeStep(c, k);
      if InumAt(de, 0) == 0 {
        break;
      }
      off := off + 16;
      k := k + 1;
    }
    Mod16(k);
    FirstFreeStep(c, k);
  }

  lemma FirstFreeStep(c: seq<Byte>, k: nat)
    requires 16 * k <= |c| && |c| % 16 == 0
    ensures 16 * k == |c| || (16 * k + 16 <= |c| && InumAt(c, 16 * k) == 0) ==> FirstFree(c, k) == k
    ensures 16 * k + 16 <= |c| && InumAt(c, 16 * k) != 0 ==> FirstFree(c, k) == FirstFree(c, k + 1)
  {
  }

  lemma Aligned16(off: nat, size: nat)
    requires off % 16 == 0 && size % 16 == 0 && off < size
    ensures off + 16 <= size
  {
  }

  lemma EntrySlice(c: seq<Byte>, off: nat)
    requires off + 16 <= |c|
    ensures |c[off..off + 16]| == 16 && InumAt(c[off..off + 16], 0) == InumAt(c, off)
  {
    var s := c[off..off + 16];
    assert s[0] == c[off] && s[1] == c[off + 1];
  }

  // ---- Removing -----------------------------------------------------------------------

  /** sys_unlink's write: 16 zero bytes over the entry dirlookup found. */
  method ClearEntry(fs: FileSystem, dp: Inode, name: Name, off: nat) returns (r: IoResult)
    requires fs.sb.Valid() && fs.Synced(dp) && dp.typ == T_DIR && FileOk(fs.disk, dp.Val())
    requires dp.size <= 71680 && dp.size % 16 == 0
    requires var f := Lookup(Contents(fs.disk, dp.Val()), name); f.Found? && f.off == off
    modifies fs, dp
    ensures r == Count(16)
    ensures fs.Synced(dp) && FileOk(fs.disk, dp.Val()) && dp.size == old(dp.size)
    ensures dp.typ == old(dp.typ) && dp.nlink == old(dp.nlink)
    ensures OthersKept(old(fs.disk), old(fs.dinodes), fs.disk, fs.dinodes, dp.inum)
    ensures old(FilesOk(fs.disk, fs.dinodes)) ==> FilesOk(fs.disk, fs.dinodes)
    ensures Contents(fs.disk, dp.Val()) == Splice(old(Contents(fs.disk, dp.Val())), off, Nuls(16))
    ensures UnlinkedFrom(old(Contents(fs.disk, dp.Val())), Contents(fs.disk, dp.Val()), name)
    ensures fs.FreeCount() == old(fs.FreeCount())
  {
    hide Inv, FileOk, Steady, OthersSteady, Super.Meta, HoleFree, FindFrom, Blocks, OthersKept, FilesOk, SameOthers,
        UnlinkedFrom;
    ghost var c := Contents(fs.disk, dp.Val());
    FreeNonNegative(fs.sb, fs.disk, fs.dinodes, fs.own);
    var zero := Nuls(16);
    assert zero[..16] == zero;
    UnlinkedHolds(c, name);
    r := fs.Writei(dp, zero, off, 16);
  }

  // ---- Is a directory empty? ----------------------------------------------------------

  /** No entry in use from the third one on. */
  ghost predicate NoneInUse(c: seq<Byte>, from: nat) {
    forall k: nat :: 2 <= k < from && 16 * k + 16 <= |c| ==> InumAt(c, 16 * k) == 0
  }

  /** isdirempty of sysfile.c: the first two entries are skipped by their position. */
  method Isdirempty(fs: FileSystem, dp: Inode) returns (empty: bool)
    requires fs.sb.Valid() && fs.Synced(dp) && dp.typ == T_DIR && FileOk(fs.disk, dp.Val())
    requires dp.size <= 71680 && dp.size % 16 == 0
    modifies fs`disk, fs`own, dp`addrs
    ensures fs.disk == old(fs.disk) && fs.own == old(fs.own) && dp.addrs == old(dp.addrs)
    ensures empty <==> NoneInUse(Contents(fs.disk, dp.Val()), |Contents(fs.disk, dp.Val())|)
  {
    hide Inv, FileOk, Super.Meta, Contents, InumAt;
    ghost var c := Contents(fs.disk, dp.Val());
    ghost var k := 2;
    var off := 32;
    while off < dp.size
      invariant off == 16 * k && k >= 2 && NoneInUse(c, k)
      invariant fs.disk == old(fs.disk) && fs.own == old(fs.own) && dp.addrs == old(dp.addrs)
    {
      Mod16(k);
      Aligned16(off, dp.size);
      var r, de := fs.Readi(dp, off, 16);
      EntrySlice(c, off);
      if InumAt(de, 0) != 0 {
        assert !NoneInUse(c, |c|);
        return false;
      }
      off := off + 16;
      k := k + 1;
    }
    empty := true;
  }

  /** In a directory that starts with "." and "..", that is having no other name. */
  lemma EmptyMeansOnlyDots(c: seq<Byte>)
    requires |c| % 16 == 0 && |c| >= 32 && UniqueNames(c)
    requires InumAt(c, 0) != 0 && CStr(NameAt(c, 0)) == DOT && InumAt(c, 16) != 0
             && CStr(NameAt(c, 16)) == DOTDOT
    ensures NoneInUse(c, |c|) <==> Entries(c).Keys <= {DOT, DOTDOT}
  {
    hide FindFrom, EntriesFrom, CStr, InumAt;
    assert Matches(c, 0, NameAt(c, 0)) && Matches(c, 1, NameAt(c, 16));
    if NoneInUse(c, |c|) {
      forall s | s in Entries(c)
        ensures s in {DOT, DOTDOT}
      {
        LookupIsMap(c, Buffer(s));
        var k := FoundEntry(c, Buffer(s));
        assert k < 2;
      }
    } else {
      var k: nat :| 2 <= k && 16 * k + 16 <= |c| && InumAt(c, 16 * k) != 0;
      var n := NameAt(c, 16 * k);
      assert Matches(c, k, n);
      NotAbsent(c, k, n);
      LookupIsMap(c, n);
      assert CStr(n) in Entries(c).Keys;
      assert Matches(c, 0, n) ==> k == 0;
      assert Matches(c, 1, n) ==> k == 1;
    }
  }

  lemma NotAbsent(c: seq<Byte>, k: nat, name: Name)
    requires 16 * k + 16 <= |c| && Matches(c, k, name)
    ensures Lookup(c, name).Found?
  {
  }
}
