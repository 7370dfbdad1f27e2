/** Directories as byte sequences: entries of 16 bytes, a 16-bit inode number and a 14-byte name. */
module DirState {
  import opened Bytes
  import opened FsWrite

  const DIRSIZ := 14
  const DESIZE := 16
  const USHORT := 0x1_0000

  /** A character of a C string or name field: past its end there is a NUL. */
  function At(s: seq<Byte>, i: nat): Byte {
    if i < |s| then s[i] else 0
  }

  /** How many characters of s count in a name: up to a NUL, and at most DIRSIZ. */
  function Length(s: seq<Byte>, i: nat): (n: nat)
    requires i <= DIRSIZ
    ensures i <= n <= DIRSIZ && (n < DIRSIZ ==> At(s, n) == 0) && forall k :: i <= k < n ==> At(s, k) != 0
    decreases DIRSIZ - i
  {
    if i == DIRSIZ || At(s, i) == 0 then i else Length(s, i + 1)
  }

  /** The name that s stands for under the 14-byte comparison. */
  function Cut(s: seq<Byte>): (r: seq<Byte>)
    ensures |r| <= DIRSIZ && r <= s
  {
    s[..Length(s, 0)]
  }

  lemma CutLength(s: seq<Byte>)
    ensures Length(s, 0) <= |s| && |Cut(s)| == Length(s, 0)
  {
  }

  /** Equal names are equal character by character. */
  lemma CutEqual(s: seq<Byte>, t: seq<Byte>)
    ensures Cut(s) == Cut(t) <==>
      Length(s, 0) == Length(t, 0) && forall k :: 0 <= k < Length(s, 0) ==> At(s, k) == At(t, k)
  {
    CutLength(s);
    CutLength(t);
    hide Length;
    if Cut(s) == Cut(t) {
      forall k | 0 <= k < Length(s, 0) ensures At(s, k) == At(t, k) {
        assert Cut(s)[k] == Cut(t)[k];
      }
    } else if Length(s, 0) == Length(t, 0) {
      var k :| 0 <= k < |Cut(s)| && Cut(s)[k] != Cut(t)[k];
      assert At(s, k) != At(t, k);
    }
  }

  // ----- entries

  function Entries(c: seq<Byte>): nat {
    |c| / DESIZE
  }

  function Inum(c: seq<Byte>, k: nat): nat
    requires k < Entries(c)
  {
    c[DESIZE * k] as int + 256 * (c[DESIZE * k + 1] as int)
  }

  function NameAt(c: seq<Byte>, k: nat): (s: seq<Byte>)
    requires k < Entries(c)
    ensures |s| == DIRSIZ
  {
    c[DESIZE * k + 2..DESIZE * k + DESIZE]
  }

  predicate Hit(c: seq<Byte>, k: nat, name: seq<Byte>)
    requires k < Entries(c)
  {
    Inum(c, k) != 0 && Cut(NameAt(c, k)) == Cut(name)
  }

  /** The first entry from k on for the name, or the number of entries. */
  function FirstHit(c: seq<Byte>, name: seq<Byte>, k: nat): (r: nat)
    requires k <= Entries(c)
    ensures k <= r <= Entries(c) && (r < Entries(c) ==> Hit(c, r, name))
    ensures forall j :: k <= j < r ==> !Hit(c, j, name)
    decreases Entries(c) - k
  {
    if k == Entries(c) || Hit(c, k, name) then k else FirstHit(c, name, k + 1)
  }

  /** What dirlookup finds: an inode number, or 0. */
  function Lookup(c: seq<Byte>, name: seq<Byte>): nat {
    var r := FirstHit(c, name, 0);
    if r < Entries(c) then Inum(c, r) else 0
  }

  function FirstFree(c: seq<Byte>, k: nat): (r: nat)
    requires k <= Entries(c)
    ensures k <= r <= Entries(c) && (r < Entries(c) ==> Inum(c, r) == 0)
    ensures forall j :: k <= j < r ==> Inum(c, j) != 0
    decreases Entries(c) - k
  {
    if k == Entries(c) || Inum(c, k) == 0 then k else FirstFree(c, k + 1)
  }

  /** The bytes of an entry: the inode number cut to 16 bits, the name padded with NULs. */
  function Dirent(name: seq<Byte>, inum: nat): (e: seq<Byte>)
    ensures |e| == DESIZE
  {
    [inum % USHORT % 256, inum % USHORT / 256] + Padded(name)
  }

  function Padded(name: seq<Byte>): (e: seq<Byte>)
    ensures |e| == DIRSIZ
  {
    seq<Byte>(DIRSIZ, i requires 0 <= i < DIRSIZ => if i < Length(name, 0) then At(name, i) else 0)
  }

  /** The directory after dirlink. */
  function Linked(c: seq<Byte>, name: seq<Byte>, inum: nat): seq<Byte>
    requires |c| % DESIZE == 0
  {
    Splice(c, DESIZE * FirstFree(c, 0), Dirent(name, inum))
  }

  ghost predicate NamesDistinct(c: seq<Byte>) {
    forall j, k :: 0 <= j < k < Entries(c) && Inum(c, j) != 0 && Inum(c, k) != 0 ==>
      Cut(NameAt(c, j)) != Cut(NameAt(c, k))
  }

  // ----- what dirlink changes

  lemma PaddedName(name: seq<Byte>)
    ensures Cut(Padded(name)) == Cut(name)
  {
    hide Length, Cut;
    CutEqual(Padded(name), name);
    var n, e := Length(name, 0), Padded(name);
    forall k | 0 <= k < DIRSIZ ensures At(e, k) == if k < n then At(name, k) else 0 {
    }
  }

  /** Entry by entry, the new directory is the old one but for one entry. */
  lemma LinkedEntry(c: seq<Byte>, name: seq<Byte>, inum: nat, k: nat)
    requires |c| % DESIZE == 0 && k < Entries(Linked(c, name, inum))
    ensures var c', f := Linked(c, name, inum), FirstFree(c, 0);
      && |c'| % DESIZE == 0 && Entries(c') == (if f < Entries(c) then Entries(c) else Entries(c) + 1)
      && (k != f ==> k < Entries(c) && Inum(c', k) == Inum(c, k) && NameAt(c', k) == NameAt(c, k))
      && (k == f ==> Inum(c', k) == inum % USHORT && Cut(NameAt(c', k)) == Cut(name))
  {
    var c', f := Linked(c, name, inum), FirstFree(c, 0);
    var off, e := DESIZE * f, Dirent(name, inum);
    PaddedName(name);
    hide Cut, Padded;
    assert |c'| == if |c| < off + DESIZE then off + DESIZE else |c|;
    forall i | 0 <= i < |c'| ensures c'[i] == if off <= i < off + DESIZE then e[i - off] else c[i] {
    }
    hide Splice;
    if k != f {
      assert NameAt(c', k) == NameAt(c, k);
    } else {
      assert NameAt(c', k) == Padded(name);
    }
  }

  lemma LinkedSize(c: seq<Byte>, name: seq<Byte>, inum: nat)
    requires |c| % DESIZE == 0
    ensures var c' := Linked(c, name, inum);
      |c'| % DESIZE == 0 && FirstFree(c, 0) < Entries(c') && Entries(c) <= Entries(c')
  {
  }

  /** Live names stay distinct. */
  lemma LinkKeepsNames(c: seq<Byte>, name: seq<Byte>, inum: nat)
    requires |c| % DESIZE == 0 && NamesDistinct(c) && Lookup(c, name) == 0
    ensures NamesDistinct(Linked(c, name, inum))
  {
    var c' := Linked(c, name, inum);
    assert FirstHit(c, name, 0) == Entries(c);
    forall j, k | 0 <= j < k < Entries(c') && Inum(c', j) != 0 && Inum(c', k) != 0
      ensures Cut(NameAt(c', j)) != Cut(NameAt(c', k))
    {
      LinkedEntry(c, name, inum, j);
      LinkedEntry(c, name, inum, k);
      hide Linked, Cut;
      assert j < Entries(c) ==> !Hit(c, j, name);
      assert k < Entries(c) ==> !Hit(c, k, name);
    }
  }

  /** Which entries of the new directory a name hits. */
  lemma LinkedHit(c: seq<Byte>, name: seq<Byte>, inum: nat, other: seq<Byte>, k: nat)
    requires |c| % DESIZE == 0 && k < Entries(Linked(c, name, inum))
    ensures var c', f := Linked(c, name, inum), FirstFree(c, 0);
      && (k != f ==> k < Entries(c) && Hit(c', k, other) == Hit(c, k, other) && Inum(c', k) == Inum(c, k))
      && (k == f ==> Inum(c', k) == inum % USHORT)
      && (k == f ==> (Hit(c', k, other) <==> inum % USHORT != 0 && Cut(name) == Cut(other)))
  {
    LinkedEntry(c, name, inum, k);
    hide Linked, Cut, FirstFree;
  }

  lemma FreeIsNoHit(c: seq<Byte>, name: seq<Byte>)
    ensures FirstFree(c, 0) < Entries(c) ==> !Hit(c, FirstFree(c, 0), name)
  {
    hide FirstFree;
  }

  /** Lookups of other names are as before. */
  lemma LinkKeepsOthers(c: seq<Byte>, name: seq<Byte>, inum: nat, other: seq<Byte>)
    requires |c| % DESIZE == 0 && Cut(other) != Cut(name)
    ensures Lookup(Linked(c, name, inum), other) == Lookup(c, other)
  {
    hide Linked, Cut, Hit, Inum, FirstFree, FirstHit;
    var c', f := Linked(c, name, inum), FirstFree(c, 0);
    LinkedSize(c, name, inum);
    var r, r' := FirstHit(c, other, 0), FirstHit(c', other, 0);
    FreeIsNoHit(c, other);
    if r < Entries(c) {
      LinkedHit(c, name, inum, other, r);
    }
    if r' < Entries(c') {
      LinkedHit(c, name, inum, other, r');
    }
  }

  /** The new name is found, under the number given, exactly if that fits in 16 bits. */
  lemma LinkFindsOwn(c: seq<Byte>, name: seq<Byte>, inum: nat, other: seq<Byte>)
    requires |c| % DESIZE == 0 && Lookup(c, name) == 0 && Cut(other) == Cut(name)
    ensures Lookup(Linked(c, name, inum), other) == inum % USHORT
    ensures 0 < inum ==> (Lookup(Linked(c, name, inum), other) == inum <==> inum < USHORT)
  {
    hide Linked, Cut, Hit, Inum, FirstFree, FirstHit;
    var c', f := Linked(c, name, inum), FirstFree(c, 0);
    LinkedSize(c, name, inum);
    SameNames(c, name, other);
    var r' := FirstHit(c', other, 0);
    LinkedHit(c, name, inum, other, f);
    if r' < Entries(c') {
      LinkedHit(c, name, inum, other, r');
    }
  }

  lemma SameNames(c: seq<Byte>, name: seq<Byte>, other: seq<Byte>)
    requires Cut(name) == Cut(other) && Lookup(c, name) == 0
    ensures forall k :: 0 <= k < Entries(c) ==> !Hit(c, k, other)
  {
    assert FirstHit(c, name, 0) == Entries(c);
    forall k | 0 <= k < Entries(c) ensures !Hit(c, k, other) {
      assert !Hit(c, k, name);
    }
  }

  /** All entries name inodes below n. */
  ghost predicate InumsBelow(c: seq<Byte>, n: nat) {
    forall k :: 0 <= k < Entries(c) ==> Inum(c, k) < n
  }

  lemma LinkKeepsInums(c: seq<Byte>, name: seq<Byte>, inum: nat, n: nat)
    requires |c| % DESIZE == 0 && InumsBelow(c, n) && inum < n
    ensures InumsBelow(Linked(c, name, inum), n)
  {
    var c' := Linked(c, name, inum);
    forall k | 0 <= k < Entries(c') ensures Inum(c', k) < n {
      LinkedEntry(c, name, inum, k);
    }
  }
}
