/** dirlookup and dirlink on the inode layer. */
module Directory {
  import LogState
  import opened Bytes
  import opened FsState
  import opened FsStep
  import opened FsWrite
  import opened FsShareRun
  import opened DirState
  import opened FileSystem

  /** strncmp with DIRSIZ characters. */
  method Namecmp(s: seq<Byte>, t: seq<Byte>) returns (d: int)
    ensures d == 0 <==> Cut(s) == Cut(t)
  {
    hide Cut, Length;
    CutEqual(s, t);
    var n, i := DIRSIZ, 0;
    while n > 0 && At(s, i) != 0 && At(s, i) == At(t, i)
      invariant 0 <= i <= DIRSIZ && n == DIRSIZ - i
      invariant forall k :: 0 <= k < i ==> At(s, k) == At(t, k) && At(s, k) != 0
    {
      n, i := n - 1, i + 1;
    }
    if n == 0 {
      return 0;
    }
    return At(s, i) as int - At(t, i) as int;
  }

  /** strncpy into a name field. */
  method Strncpy(t: seq<Byte>) returns (e: seq<Byte>)
    ensures e == Padded(t)
  {
    hide Length;
    e := [];
    var n := DIRSIZ;
    while n > 0
      invariant 0 <= n <= DIRSIZ && |e| == DIRSIZ - n && |e| <= Length(t, 0)
      invariant forall k :: 0 <= k < |e| ==> e[k] == At(t, k)
    {
      n := n - 1;
      e := e + [At(t, |e|)];
      if e[|e| - 1] == 0 {
        break;
      }
    }
    while n > 0
      invariant 0 <= n <= DIRSIZ && |e| == DIRSIZ - n
      invariant forall k :: 0 <= k < |e| ==> e[k] == if k < Length(t, 0) then At(t, k) else 0
      invariant n > 0 ==> Length(t, 0) <= |e|
    {
      n := n - 1;
      e := e + [0];
    }
  }

  /** The entry at one offset. */
  method ReadEntry(fs: FileSystem, dp: nat, off: Uint) returns (inum: nat, name: seq<Byte>)
    requires fs.Valid(IDLE) && dp < fs.sb.ninodes && Shape(fs.sb, fs.Abs())
    requires off % DESIZE == 0 && off + DESIZE <= fs.inodes[dp].size
    modifies fs`blocks, fs`inodes, fs`own, fs`ms, fs`logged, fs`trace
    ensures fs.Abs() == old(fs.Abs()) && fs.own == old(fs.own) && fs.ms == old(fs.ms) && fs.logged == old(fs.logged)
    ensures fs.trace == old(fs.trace)
    ensures var c := Content(fs.sb, fs.Abs(), dp);
      off / DESIZE < Entries(c) && inum == Inum(c, off / DESIZE) && name == NameAt(c, off / DESIZE)
  {
    hide Inv, Content, Ptr;
    var r, de := fs.Readi(dp, off, DESIZE);
    assert de == Content(fs.sb, fs.Abs(), dp)[off..off + DESIZE];
    inum := de[0] as int + 256 * (de[1] as int);
    name := de[2..];
  }

  /** dirlookup: the inode number, 0 if the name is not there, and the entry's offset. */
  method Dirlookup(fs: FileSystem, dp: nat, name: seq<Byte>) returns (inum: nat, poff: nat)
    requires fs.Valid(IDLE) && dp < fs.sb.ninodes && Shape(fs.sb, fs.Abs())
    requires fs.inodes[dp].kind == T_DIR && fs.inodes[dp].size % DESIZE == 0
    modifies fs`blocks, fs`inodes, fs`own, fs`ms, fs`logged, fs`trace
    ensures fs.Abs() == old(fs.Abs()) && fs.own == old(fs.own) && fs.ms == old(fs.ms) && fs.logged == old(fs.logged)
    ensures fs.trace == old(fs.trace)
    ensures inum == Lookup(Content(fs.sb, fs.Abs(), dp), name)
    ensures inum != 0 ==> poff == DESIZE * FirstHit(Content(fs.sb, fs.Abs(), dp), name, 0)
  {
    hide Inv, Content, Cut, Inum, NameAt, FirstHit;
    ghost var c := Content(fs.sb, fs.Abs(), dp);
    var off := 0;
    while off < fs.inodes[dp].size
      invariant fs.Abs() == old(fs.Abs()) && fs.own == old(fs.own) && fs.ms == old(fs.ms)
      invariant fs.logged == old(fs.logged) && fs.trace == old(fs.trace)
      invariant off % DESIZE == 0 && off <= fs.inodes[dp].size && off / DESIZE <= Entries(c)
      invariant forall k :: 0 <= k < off / DESIZE ==> !Hit(c, k, name)
    {
      var num, de := ReadEntry(fs, dp, off);
      if num != 0 {
        var d := Namecmp(name, de);
        if d == 0 {
          assert Hit(c, off / DESIZE, name);
          return num, off;
        }
      }
      off := off + DESIZE;
    }
    return 0, 0;
  }

  /** dirlink's second loop: the offset of the first free entry, or the end. */
  method FreeEntry(fs: FileSystem, dp: nat) returns (off: nat)
    requires fs.Valid(IDLE) && dp < fs.sb.ninodes && Shape(fs.sb, fs.Abs()) && fs.inodes[dp].size % DESIZE == 0
    modifies fs`blocks, fs`inodes, fs`own, fs`ms, fs`logged, fs`trace
    ensures fs.Abs() == old(fs.Abs()) && fs.own == old(fs.own) && fs.ms == old(fs.ms) && fs.logged == old(fs.logged)
    ensures fs.trace == old(fs.trace)
    ensures off == DESIZE * FirstFree(Content(fs.sb, fs.Abs(), dp), 0)
  {
    hide Inv, Content, Inum, FirstFree;
    ghost var c := Content(fs.sb, fs.Abs(), dp);
    off := 0;
    while off < fs.inodes[dp].size
      invariant fs.Abs() == old(fs.Abs()) && fs.own == old(fs.own) && fs.ms == old(fs.ms)
      invariant fs.logged == old(fs.logged) && fs.trace == old(fs.trace)
      invariant off % DESIZE == 0 && off <= fs.inodes[dp].size && off / DESIZE <= Entries(c)
      invariant forall k :: 0 <= k < off / DESIZE ==> Inum(c, k) != 0
    {
      var num, de := ReadEntry(fs, dp, off);
      if num == 0 {
        return;
      }
      off := off + DESIZE;
    }
  }

  /** Where dirlink's entry for a new name ends: in the first free slot, or after the last entry. */
  function EntryEnd(c: seq<Byte>): nat {
    DESIZE * FirstFree(c, 0) + DESIZE
  }

  /** The second half of dirlink, for a name that is not there; ok is false for its panic, or balloc's. It
      panics exactly when the directory has no room and cannot grow, for want of blocks or because it
      has its greatest size. */
  method AddEntry(fs: FileSystem, dp: nat, name: seq<Byte>, inum: nat) returns (ok: bool)
    requires fs.Valid(IDLE) && dp < fs.sb.ninodes && Shape(fs.sb, fs.Abs()) && fs.inodes[dp].size % DESIZE == 0
    requires Lookup(Content(fs.sb, fs.Abs(), dp), name) == 0
    modifies fs`blocks, fs`inodes, fs`own, fs`ms, fs`logged, fs`trace
    ensures (old(fs.Traced()) ==> fs.Traced()) && old(fs.logged) <= fs.logged
    ensures ok && old(fs.Starting()) ==>
      Transaction(fs.sb, old(fs.blocks), fs.trace) && Interleaved(fs.sb, old(fs.blocks), fs.trace)
    ensures ok && old(fs.Shares(IDLE)) ==> fs.Shares(IDLE)
    ensures ok ==> |fs.logged - old(fs.logged)| <= LogState.MAXOPBLOCKS
    ensures ok ==> fs.Valid(IDLE) && Shape(fs.sb, fs.Abs())
    ensures ok ==>
      Content(fs.sb, fs.Abs(), dp) == DirState.Linked(Content(fs.sb, old(fs.Abs()), dp), name, inum)
    ensures ok ==> forall j :: 0 <= j < fs.sb.ninodes && j != dp ==>
      Content(fs.sb, fs.Abs(), j) == Content(fs.sb, old(fs.Abs()), j)
    ensures var end := EntryEnd(Content(fs.sb, old(fs.Abs()), dp));
      ok <==> end <= MAXSIZE && Needs(old(fs.inodes)[dp].size, end) <= FreeBlocks(fs.sb, old(fs.Abs()))
    ensures !ok ==> Full(fs.sb, fs.Abs()) || old(fs.inodes)[dp].size == MAXSIZE
  {
    hide Inv, Content, Ptr, Full, FirstFree, FirstHit, Dirent, Splice, Needs, FreeBlocks, Reached, Interleaved;
    ghost var c := Content(fs.sb, fs.Abs(), dp);
    var off := FreeEntry(fs, dp);
    EndInside(c);
    var padded := Strncpy(name);
    var de := [inum % USHORT % 256, inum % USHORT / 256] + padded;
    EntryBytes(name, inum, padded);
    var n;
    ok, n := fs.Writei(dp, de, off);
    ok := ok && n == DESIZE;
  }

  lemma EndInside(c: seq<Byte>)
    ensures FirstFree(c, 0) <= Entries(c) && EntryEnd(c) <= |c| + DESIZE
  {
  }

  lemma EntryBytes(name: seq<Byte>, inum: nat, padded: seq<Byte>)
    requires padded == Padded(name)
    ensures [inum % USHORT % 256, inum % USHORT / 256] + padded == Dirent(name, inum)
  {
  }
}
