/** mkfs: a file system image built block by block, inode by inode. */
module Mkfs {
  import opened Bytes
  import opened Bitmap
  import opened Dinode
  import opened FsState
  import opened FsGrow
  import opened FsData
  import opened FsStep
  import opened FsBytes
  import opened FsWrite
  import opened FsFormat
  import opened MkfsStep
  import opened DirState

  /** A file named on the command line. */
  datatype File = File(name: seq<Byte>, data: seq<Byte>)

  function NewInode(kind: Ushort): Inode {
    EmptyInode().(kind := kind, nlink := 1)
  }

  /** How many blocks a file takes with m blocks mapped: they and, past the direct ones, a table. */
  function Need(m: nat): nat {
    if m <= NDIRECT then m else m + 1
  }

  /** How many blocks can be handed out: the disk and the one bitmap block are the limits. */
  function Limit(sb: Super): nat {
    if sb.size < BPB then sb.size else BPB
  }

  /** A file can grow from `size` to `end` bytes. */
  predicate CanGrow(size: nat, end: nat, free: nat, limit: nat) {
    end <= MAXSIZE && free + Need(Blocks(end)) - Need(Blocks(size)) <= limit
  }

  /** A round of iappend that needs a block needs one that the whole needs. */
  lemma RoomFor(size: nat, end: nat, off: nat, m: nat)
    requires size <= off < end && m == Max(Blocks(size), Blocks(off))
    ensures MAXFILE <= off / BSIZE ==> MAXSIZE < end
    ensures m <= off / BSIZE ==> m == off / BSIZE && Need(m + 1) <= Need(Blocks(end))
    ensures Need(m) <= Need(Blocks(end))
  {
    assert off / BSIZE + 1 <= Blocks(end);
  }

  lemma NoBlocks()
    ensures Blocks(0) == 0
  {
  }

  lemma MoreBlocks(n: nat, end: nat)
    requires n <= end
    ensures Need(Blocks(n)) <= Need(Blocks(end))
  {
  }

  lemma AppendNext(off: nat, m0: nat)
    ensures off / BSIZE <= Max(m0, Blocks(off))
    ensures (off / BSIZE + 1) * BSIZE - off == BSIZE - off % BSIZE
  {
  }

  lemma AppendGrew(size: nat, off: nat)
    requires size <= off
    ensures Max(Blocks(size), Blocks(off)) == Blocks(off)
  {
  }

  /** Every file but the i-th is as before, and so is what kind of file that is. */
  ghost predicate Others(sb: Super, fs: Fs, fs': Fs, i: nat) {
    && Shape(sb, fs) && Shape(sb, fs') && i < sb.ninodes
    && (forall j :: 0 <= j < sb.ninodes && j != i ==>
          fs'.inodes[j] == fs.inodes[j] && Content(sb, fs', j) == Content(sb, fs, j))
    && fs'.inodes[i] == fs.inodes[i].(size := fs'.inodes[i].size, addrs := fs'.inodes[i].addrs)
  }

  // ----- what the image is to hold

  const DOT: seq<Byte> := [46]
  const DOTDOT: seq<Byte> := [46, 46]

  /** The root directory: itself, itself again as its parent, and the files in order. */
  function RootEntries(files: seq<File>): (c: seq<Byte>)
    ensures |c| == DESIZE * (|files| + 2)
  {
    if files == [] then Dirent(DOT, ROOTINO) + Dirent(DOTDOT, ROOTINO)
    else RootEntries(files[..|files| - 1]) + Dirent(files[|files| - 1].name, |files| + 1)
  }

  ghost predicate IsFile(sb: Super, fs: Fs, i: nat, kind: Ushort, data: seq<Byte>)
    requires Shape(sb, fs) && i < sb.ninodes
  {
    fs.inodes[i].kind == kind && fs.inodes[i].nlink == 1 && Content(sb, fs, i) == data
  }

  /** The root directory and the files, each with its contents. */
  ghost predicate Made(sb: Super, fs: Fs, files: seq<File>) {
    && Shape(sb, fs) && |files| + 2 <= sb.ninodes
    && IsFile(sb, fs, ROOTINO, T_DIR, RootEntries(files))
    && forall f :: 0 <= f < |files| ==> IsFile(sb, fs, f + 2, T_FILE, files[f].data)
  }

  function SumNeed(files: seq<File>): nat {
    if files == [] then 0 else SumNeed(files[..|files| - 1]) + Need(Blocks(|files[|files| - 1].data|))
  }

  /** The first free block once the files are in. */
  function Used(sb: Super, files: seq<File>): nat {
    sb.datastart + Need(Blocks(DESIZE * (|files| + 2))) + SumNeed(files)
  }

  /** No file is too long, nor is the root directory, and there are inodes and blocks for all of them. */
  predicate Room(sb: Super, files: seq<File>) {
    && |files| + 2 <= sb.ninodes
    && (forall f :: 0 <= f < |files| ==> |files[f].data| <= MAXSIZE)
    && DESIZE * (|files| + 2) <= MAXSIZE
    && Used(sb, files) <= Limit(sb)
  }

  lemma UsedMore(sb: Super, files: seq<File>, file: File)
    ensures Used(sb, files + [file]) ==
      Used(sb, files) + Need(Blocks(|file.data|))
      + Need(Blocks(DESIZE * (|files| + 3))) - Need(Blocks(DESIZE * (|files| + 2)))
    ensures Need(Blocks(DESIZE * (|files| + 2))) <= Need(Blocks(DESIZE * (|files| + 3)))
  {
    assert (files + [file])[..|files|] == files;
    MoreBlocks(DESIZE * (|files| + 2), DESIZE * (|files| + 3));
  }

  /** Adding a file, by its two conditions. */
  lemma RoomMore(sb: Super, files: seq<File>, file: File)
    requires Room(sb, files)
    ensures var root, more := DESIZE * (|files| + 2), DESIZE * (|files| + 3);
      var free := Used(sb, files) + Need(Blocks(more)) - Need(Blocks(root));
      Room(sb, files + [file]) <==>
        && |files| + 2 < sb.ninodes
        && CanGrow(root, more, Used(sb, files), Limit(sb)) && CanGrow(0, |file.data|, free, Limit(sb))
  {
    hide Blocks;
    UsedMore(sb, files, file);
    NoBlocks();
    var more := files + [file];
    assert more[|files|] == file && forall f :: 0 <= f < |files| ==> more[f] == files[f];
  }

  lemma {:induction false} RoomPrefix(sb: Super, files: seq<File>, k: nat)
    requires k <= |files| && Room(sb, files)
    ensures Room(sb, files[..k])
    decreases |files| - k
  {
    if k < |files| {
      RoomPrefix(sb, files, k + 1);
      assert files[..k + 1] == files[..k] + [files[k]];
      UsedMore(sb, files[..k], files[k]);
      assert forall f :: 0 <= f < k ==> files[..k + 1][f] == files[..k][f];
    } else {
      assert files[..k] == files;
    }
  }

  lemma MadeRoot(sb: Super, fs: Fs, files: seq<File>)
    requires Made(sb, fs, files)
    ensures Shape(sb, fs) && ROOTINO < sb.ninodes && fs.inodes[ROOTINO].size == DESIZE * (|files| + 2)
  {
    assert |Content(sb, fs, ROOTINO)| == |RootEntries(files)|;
  }

  lemma MadeFirst(sb: Super, fs: Fs)
    requires Shape(sb, fs) && 2 <= sb.ninodes
    requires IsFile(sb, fs, ROOTINO, T_DIR, [] + Dirent(DOT, ROOTINO) + Dirent(DOTDOT, ROOTINO))
    ensures Made(sb, fs, [])
  {
    hide Content, Dirent;
    assert [] + Dirent(DOT, ROOTINO) == Dirent(DOT, ROOTINO);
  }

  lemma RoomFails(sb: Super, files: seq<File>, k: nat)
    requires k <= |files| && !Room(sb, files[..k])
    ensures !Room(sb, files)
  {
    if Room(sb, files) {
      RoomPrefix(sb, files, k);
    }
  }

  /** The three changes that add a file. */
  lemma MadeMore(sb: Super, fs: Fs, fs1: Fs, fs2: Fs, fs3: Fs, files: seq<File>, file: File)
    requires Made(sb, fs, files) && |files| + 3 <= sb.ninodes && Shape(sb, fs1) && Shape(sb, fs2) && Shape(sb, fs3)
    requires fs1.inodes == fs.inodes[|files| + 2 := NewInode(T_FILE)]
    requires forall j :: 0 <= j < sb.ninodes && j != |files| + 2 ==> Content(sb, fs1, j) == Content(sb, fs, j)
    requires Others(sb, fs1, fs2, ROOTINO)
    requires Content(sb, fs2, ROOTINO) == Content(sb, fs1, ROOTINO) + Dirent(file.name, |files| + 2)
    requires Others(sb, fs2, fs3, |files| + 2) && Content(sb, fs3, |files| + 2) == file.data
    ensures Made(sb, fs3, files + [file])
  {
    hide Content, Dirent;
    var more := files + [file];
    assert more[..|more| - 1] == files;
    forall f | 0 <= f < |more| ensures IsFile(sb, fs3, f + 2, T_FILE, more[f].data) {
      if f < |files| {
        assert more[f] == files[f] && IsFile(sb, fs, f + 2, T_FILE, files[f].data);
      }
    }
  }

  // ----- the finished image

  lemma OnDiskIs(sb: Super, fs: Fs, own: Owners, ms: seq<nat>, i: nat, ip: Inode)
    requires Inv(sb, fs, own, ms, IDLE) && i < sb.ninodes && |ip.addrs| == NDIRECT + 1
    ensures |PutInode(sb, fs, i, ip).blocks| == sb.size
    ensures OnDisk(sb, PutInode(sb, fs, i, ip).blocks) == PutInode(sb, fs, i, ip)
  {
    hide BitsMatch, Maps, Placed, PutDinode, GetDinode;
    var fs' := PutInode(sb, fs, i, ip);
    forall j | 0 <= j < sb.ninodes ensures GetDinode(fs'.blocks[IBlock(sb, j)], j % IPB) == fs'.inodes[j] {
      assert Settled(sb, fs, j, ms[j]);
      if IBlock(sb, j) == IBlock(sb, i) {
        DinodeRoundTrip(fs.blocks[IBlock(sb, i)], i % IPB, ip, j % IPB);
      }
    }
  }

  function Zeros(n: nat): (z: seq<Byte>)
    ensures |z| == n
  {
    seq<Byte>(n, k => 0)
  }

  /** The root directory as the kernel will read it: the entries, and free entries up to the end of the
      last block. */
  function RootContent(files: seq<File>): (c: seq<Byte>)
    ensures |c| == Rounded(DESIZE * (|files| + 2))
  {
    var off := DESIZE * (|files| + 2);
    RootEntries(files) + Zeros(Rounded(off) - off)
  }

  /** What mkfs promises of the disk it has written. */
  ghost predicate Holds(sb: Super, fs: Fs, files: seq<File>) {
    && Shape(sb, fs) && |files| + 2 <= sb.ninodes
    && IsFile(sb, fs, ROOTINO, T_DIR, RootContent(files))
    && forall f :: 0 <= f < |files| ==> IsFile(sb, fs, f + 2, T_FILE, files[f].data)
  }

  lemma RootPadded(sb: Super, fs: Fs, own: Owners, ms: seq<nat>, ip: Inode, fs': Fs, files: seq<File>)
    requires Inv(sb, fs, own, ms, IDLE) && ZeroTails(sb, fs, ms) && Made(sb, fs, files)
    requires fs.inodes[ROOTINO].size % BSIZE != 0
    requires ip == fs.inodes[ROOTINO].(size := ip.size) && ip.size == Rounded(fs.inodes[ROOTINO].size)
    requires fs' == PutInode(sb, fs, ROOTINO, ip) && Shape(sb, fs') && SameBytes(sb, fs, fs')
    ensures Content(sb, fs', ROOTINO) == RootContent(files)
  {
    hide BitsMatch, Maps, Placed, Blocks, FileByte, PutDinode, Dirent;
    MadeRoot(sb, fs, files);
    var off := fs.inodes[ROOTINO].size;
    RoundedBlocks(off);
    assert Settled(sb, fs, ROOTINO, ms[ROOTINO]) && ZeroFrom(sb, fs, ms[ROOTINO], ROOTINO, off);
    var c, c0, r := Content(sb, fs', ROOTINO), Content(sb, fs, ROOTINO), RootContent(files);
    assert c0 == RootEntries(files);
    forall k | 0 <= k < |c| ensures c[k] == r[k] {
      assert FileByte(sb, fs', ROOTINO, k) == FileByte(sb, fs, ROOTINO, k);
      if k < off {
        assert c0[k] == FileByte(sb, fs, ROOTINO, k);
      }
    }
  }

  lemma RoundedHolds(sb: Super, fs: Fs, own: Owners, ms: seq<nat>, ip: Inode, fs': Fs, files: seq<File>)
    requires Inv(sb, fs, own, ms, IDLE) && ZeroTails(sb, fs, ms) && Made(sb, fs, files)
    requires fs.inodes[ROOTINO].size % BSIZE != 0
    requires ip == fs.inodes[ROOTINO].(size := ip.size) && ip.size == Rounded(fs.inodes[ROOTINO].size)
    requires fs' == PutInode(sb, fs, ROOTINO, ip) && Shape(sb, fs') && SameBytes(sb, fs, fs')
    ensures Holds(sb, fs', files)
  {
    hide Inv, ZeroTails, FileByte, PutDinode, RootContent, RootEntries;
    RootPadded(sb, fs, own, ms, ip, fs', files);
    forall f | 0 <= f < |files| ensures IsFile(sb, fs', f + 2, T_FILE, files[f].data) {
      assert IsFile(sb, fs, f + 2, T_FILE, files[f].data);
      assert Content(sb, fs', f + 2) == Content(sb, fs, f + 2);
    }
  }

  /** What rounding the root's size leaves on the disk. */
  lemma Finished(sb: Super, fs: Fs, own: Owners, ms: seq<nat>, ip: Inode, fs': Fs, files: seq<File>)
    requires Inv(sb, fs, own, ms, IDLE) && ZeroTails(sb, fs, ms) && Made(sb, fs, files)
    requires ip == fs.inodes[ROOTINO].(size := ip.size) && ip.size == Rounded(fs.inodes[ROOTINO].size)
    requires fs' == PutInode(sb, fs, ROOTINO, ip)
    ensures |fs'.blocks| == sb.size && OnDisk(sb, fs'.blocks) == fs'
    ensures Consistent(sb, fs') <==> DESIZE * (|files| + 2) % BSIZE != 0
    ensures DESIZE * (|files| + 2) % BSIZE != 0 ==> Holds(sb, fs', files)
  {
    hide ZeroTails, Holds, PutInode, SameBytes, BitsMatch, Maps, Placed, Settled;
    MadeRoot(sb, fs, files);
    OnDiskIs(sb, fs, own, ms, ROOTINO, ip);
    RootSizeExactly(sb, fs, own, ms, ROOTINO, ip);
    if DESIZE * (|files| + 2) % BSIZE != 0 {
      RoundedHolds(sb, fs, own, ms, ip, fs', files);
    }
  }

  /** With 30 files the root directory has 32 entries, which is one block exactly, and rounding its size
      leaves a disk that is no consistent file system. */
  lemma ThirtyFiles(sb: Super, fs: Fs, own: Owners, ms: seq<nat>, ip: Inode, files: seq<File>)
    requires Inv(sb, fs, own, ms, IDLE) && Made(sb, fs, files) && |files| == 30
    requires ip == fs.inodes[ROOTINO].(size := ip.size) && ip.size == Rounded(fs.inodes[ROOTINO].size)
    ensures !Consistent(sb, PutInode(sb, fs, ROOTINO, ip))
  {
    hide Inv, Consistent, PutInode;
    MadeRoot(sb, fs, files);
    RootSizeExactly(sb, fs, own, ms, ROOTINO, ip);
  }

  // ----- the code

  /** balloc: the first `used` bits of a bitmap block. */
  method Balloc(used: nat) returns (buf: Block)
    requires used <= BPB
    ensures buf == UsedBits(used)
  {
    buf := ZeroBlock();
    var i := 0;
    while i < used
      invariant i <= used && buf == UsedBits(i)
    {
      buf := SetBlockBit(buf, i);
      i := i + 1;
    }
  }

  /** The first loop of mkfs: an image of n zero blocks. */
  method Zeroes(n: nat) returns (blocks: seq<Block>)
    ensures |blocks| == n && forall b :: 0 <= b < n ==> blocks[b] == ZeroBlock()
  {
    blocks := [];
    while |blocks| < n
      invariant |blocks| <= n && forall b :: 0 <= b < |blocks| ==> blocks[b] == ZeroBlock()
    {
      blocks := blocks + [ZeroBlock()];
    }
  }

  /** An image under construction. mkfs keeps nothing but the blocks and two counters in memory; the
      inodes, and who owns which block, are kept beside it for the proof. */
  class Image {
    const sb: Super
    var blocks: seq<Block>
    var freeinode: nat
    var freeblock: nat
    ghost var inodes: seq<Inode>
    ghost var own: Owners
    ghost var ms: seq<nat>

    /** The file system made so far. */
    ghost function Abs(): Fs
      requires Counts(sb, blocks, freeblock)
      reads this
    {
      Marked(sb, blocks, freeblock, inodes)
    }

    ghost predicate Valid(busy: int)
      reads this
    {
      && Counts(sb, blocks, freeblock) && Blank(sb, blocks, freeblock)
      && Inv(sb, Abs(), own, ms, busy)
      && freeinode <= sb.ninodes
      && forall j :: freeinode <= j < sb.ninodes ==> inodes[j] == EmptyInode()
    }

    /** The superblock is written and everything else zeroed. */
    constructor (sb: Super, super: Block)
      requires Layout(sb) && 1 < sb.inodestart && sb.datastart <= BPB && 1 <= sb.ninodes
      ensures this.sb == sb && freeinode == 1 && freeblock == sb.datastart && Valid(IDLE) && ZeroTails(sb, Abs(), ms)
    {
      this.sb := sb;
      var zeroes := Zeroes(sb.size);
      blocks := zeroes[1 := super];
      freeinode, freeblock := 1, sb.datastart;
      inodes, own, ms := seq(sb.ninodes, i => EmptyInode()), map[], seq(sb.ninodes, i => 0);
      new;
      FormattedInv(sb, super);
      assert blocks[sb.bmapstart := UsedBits(freeblock)] == Formatted(sb, super).blocks;
    }

    /** rinode */
    method Rinode(i: nat) returns (din: Inode)
      requires Valid(IDLE) && i < sb.ninodes
      ensures din == inodes[i]
    {
      assert Settled(sb, Abs(), i, ms[i]) && IBlock(sb, i) < sb.bmapstart;
      din := GetDinode(blocks[IBlock(sb, i)], i % IPB);
    }

    /** winode */
    method Winode(i: nat, din: Inode)
      requires Counts(sb, blocks, freeblock) && Shape(sb, Abs()) && i < sb.ninodes && |din.addrs| == NDIRECT + 1
      modifies this`blocks, this`inodes
      ensures Counts(sb, blocks, freeblock) && Abs() == PutInode(sb, old(Abs()), i, din)
      ensures inodes == old(inodes)[i := din]
      ensures old(Blank(sb, blocks, freeblock)) ==> Blank(sb, blocks, freeblock)
    {
      hide PutDinode;
      var ib := IBlock(sb, i);
      assert ib < sb.bmapstart;
      blocks := blocks[ib := PutDinode(blocks[ib], i % IPB, din)];
      inodes := inodes[i := din];
      assert Abs().blocks == PutInode(sb, old(Abs()), i, din).blocks;
    }

    /** ialloc: the next inode, when the superblock allows for one more. */
    method Ialloc(kind: Ushort) returns (ok: bool, inum: nat)
      requires Valid(IDLE) && ZeroTails(sb, Abs(), ms)
      modifies this`blocks, this`inodes, this`freeinode
      ensures ok <==> old(freeinode) < sb.ninodes
      ensures Valid(IDLE) && ZeroTails(sb, Abs(), ms)
      ensures ok ==> inum == old(freeinode) && freeinode == inum + 1 && inodes == old(inodes)[inum := NewInode(kind)]
      ensures ok ==> forall j :: 0 <= j < sb.ninodes && j != inum ==>
        Content(sb, Abs(), j) == Content(sb, old(Abs()), j)
      ensures ok ==> Content(sb, Abs(), inum) == []
    {
      hide BitsMatch, Maps, Placed, Ptr, PutInode, FileByte;
      inum := freeinode;
      ok := inum < sb.ninodes;
      if ok {
        freeinode := inum + 1;
        ghost var fs := Abs();
        assert Settled(sb, fs, inum, ms[inum]);
        Busy(sb, fs, own, ms, inum);
        PutInodeKeeps(sb, fs, own, ms, inum, NewInode(kind));
        Winode(inum, NewInode(kind));
      }
    }

    /** The next free block, when the bitmap block and the disk have room for it. */
    method Take() returns (ok: bool, r: nat)
      requires Counts(sb, blocks, freeblock) && Blank(sb, blocks, freeblock) && Shape(sb, Abs())
      modifies this`freeblock
      ensures ok <==> old(freeblock) < Limit(sb)
      ensures !ok ==> freeblock == old(freeblock)
      ensures Counts(sb, blocks, freeblock) && Blank(sb, blocks, freeblock)
      ensures ok ==> r == old(freeblock) && Abs() == Alloc(sb, old(Abs()), r) && !Allocated(sb, old(Abs()), r)
      ensures ok ==> blocks[r] == ZeroBlock() && freeblock == r + 1
    {
      hide Alloc, Marked, Allocated;
      r := freeblock;
      ok := r < sb.size && r < BPB;
      if ok {
        MarkedTake(sb, blocks, freeblock, inodes);
        freeblock := r + 1;
      }
    }

    /** A direct block. */
    method MapDirect(i: nat, din0: Inode, bn: nat) returns (ok: bool, x: nat, din: Inode)
      requires Valid(i) && i < freeinode && inodes[i] == din0 && bn == ms[i] < NDIRECT
      modifies this`freeblock, this`inodes, this`own, this`ms
      ensures ok <==> old(freeblock) < Limit(sb)
      ensures ok ==> Valid(i) && inodes[i] == din && freeblock == old(freeblock) + 1
      ensures ok ==> Step(sb, old(Abs()), old(own), old(ms), Abs(), own, ms, i) && ms == old(ms)[i := bn + 1]
      ensures ok ==> x == Ptr(sb, Abs(), i, bn) < sb.size && Abs().blocks[x] == ZeroBlock()
      ensures ok ==> TableOf(sb, Abs(), i) == TableOf(sb, old(Abs()), i)
    {
      hide BitsMatch, Maps, Placed, Settled, Allocated, Alloc, Kept, Only, Ptr, Blank;
      ghost var fs := Abs();
      din := din0;
      ok, x := Take();
      if ok {
        DirectStep(sb, fs, own, ms, i, x);
        TakeBlock(sb, fs, own, ms, i, x);
        din := din.(addrs := din.addrs[bn := x]);
        inodes, own, ms := inodes[i := din], own[x := Data(i, bn)], ms[i := bn + 1];
      }
    }

    /** The indirect block, taken if there is none. */
    method MapTable(i: nat, din0: Inode) returns (ok: bool, t: nat, din: Inode)
      requires Valid(i) && i < freeinode && inodes[i] == din0
      modifies this`freeblock, this`inodes, this`own
      ensures ok <==> TableOf(sb, old(Abs()), i) != 0 || old(freeblock) < Limit(sb)
      ensures ok ==> Valid(i) && inodes[i] == din
      ensures ok ==> freeblock == old(freeblock) + if TableOf(sb, old(Abs()), i) != 0 then 0 else 1
      ensures ok ==> Step(sb, old(Abs()), old(own), ms, Abs(), own, ms, i) && t == TableOf(sb, Abs(), i) != 0
      ensures ok && TableOf(sb, old(Abs()), i) != 0 ==> Abs() == old(Abs()) && own == old(own)
    {
      hide BitsMatch, Maps, Placed, Settled, Allocated, Alloc, Kept, Only, Ptr, Blank;
      ghost var fs := Abs();
      ok, t, din := true, din0.addrs[NDIRECT], din0;
      StepNone(sb, fs, own, ms, i);
      if t == 0 {
        ok, t := Take();
        if ok {
          TableStep(sb, fs, own, ms, i, t);
          din := din.(addrs := din.addrs[NDIRECT := t]);
          inodes, own := inodes[i := din], own[t := Table(i)];
        }
      }
    }

    /** An entry of the indirect block. */
    method MapEntry(i: nat, bn: nat, t: nat) returns (ok: bool, x: nat)
      requires Valid(i) && i < freeinode && NDIRECT <= bn == ms[i] < MAXFILE && t == TableOf(sb, Abs(), i) != 0
      modifies this`blocks, this`freeblock, this`own, this`ms
      ensures ok <==> old(freeblock) < Limit(sb)
      ensures ok ==> Valid(i) && freeblock == old(freeblock) + 1
      ensures ok ==> Step(sb, old(Abs()), old(own), old(ms), Abs(), own, ms, i) && ms == old(ms)[i := bn + 1]
      ensures ok ==>
        x == Ptr(sb, Abs(), i, bn) < sb.size && Abs().blocks[x] == ZeroBlock() && TableOf(sb, Abs(), i) == t
    {
      hide BitsMatch, Maps, Placed, Settled, Allocated, Alloc, Kept, Only, Ptr, PutWord, Blank, UsedBits, ZeroBlock;
      ghost var fs := Abs();
      TableTaken(sb, blocks, freeblock, inodes, own, ms, i);
      ok, x := Take();
      if ok {
        EntryStep(sb, fs, own, ms, i, x);
        TakeBlock(sb, fs, own, ms, i, x);
        PutTaken(sb, blocks, freeblock, inodes, t, PutWord(blocks[t], bn - NDIRECT, x));
        blocks := blocks[t := PutWord(blocks[t], bn - NDIRECT, x)];
        own, ms := own[x := Data(i, bn)], ms[i := bn + 1];
      }
    }

    /** The fbn-th block of inode i past the direct ones, taken if the file is being extended by it. */
    method MapIndirect(i: nat, din0: Inode, fbn: nat) returns (ok: bool, x: nat, din: Inode)
      requires Valid(i) && i < freeinode && inodes[i] == din0 && NDIRECT <= fbn <= ms[i] && fbn < MAXFILE
      requires ms[i] <= NDIRECT ==> TableOf(sb, Abs(), i) == 0
      modifies this`blocks, this`freeblock, this`inodes, this`own, this`ms
      ensures ok <==> fbn < old(ms)[i] || old(freeblock) + Need(fbn + 1) - Need(fbn) <= Limit(sb)
      ensures ok ==> Valid(i) && inodes[i] == din && freeblock == old(freeblock) + Need(ms[i]) - Need(old(ms)[i])
      ensures ok ==> Step(sb, old(Abs()), old(own), old(ms), Abs(), own, ms, i) && x == Ptr(sb, Abs(), i, fbn) < sb.size
      ensures ok && fbn < old(ms)[i] ==> Abs() == old(Abs()) && own == old(own) && ms == old(ms)
      ensures ok && fbn == old(ms)[i] ==> ms == old(ms)[i := fbn + 1] && Abs().blocks[x] == ZeroBlock()
      ensures ok ==> NDIRECT < ms[i]
    {
      hide BitsMatch, Maps, Placed, Settled, Allocated, Kept, Only, Blank, UsedBits, ZeroBlock;
      ghost var fs, own0 := Abs(), own;
      PtrMapped(sb, fs, own, ms, i, i, fbn);
      var t;
      ok, t, din := MapTable(i, din0);
      x := 0;
      if ok {
        ghost var fs1, own1, ms1 := Abs(), own, ms;
        PtrMapped(sb, fs1, own, ms, i, i, fbn);
        TableOwned(sb, fs1, own, ms, i, i);
        x := Word(blocks[t], fbn - NDIRECT);
        if x == 0 {
          ok, x := MapEntry(i, fbn, t);
          if ok {
            StepTwice(sb, fs, own0, ms1, fs1, own1, Abs(), own, ms, i);
          }
        }
      }
    }

    /** The fbn-th block of inode i, taken if the file is being extended by it. */
    method MapBlock(i: nat, din0: Inode, fbn: nat) returns (ok: bool, x: nat, din: Inode)
      requires Valid(i) && i < freeinode && inodes[i] == din0 && fbn <= ms[i] && fbn < MAXFILE
      requires ms[i] <= NDIRECT ==> TableOf(sb, Abs(), i) == 0
      modifies this`blocks, this`freeblock, this`inodes, this`own, this`ms
      ensures ok <==> fbn < old(ms)[i] || old(freeblock) + Need(fbn + 1) - Need(fbn) <= Limit(sb)
      ensures ok ==> Valid(i) && inodes[i] == din && freeblock == old(freeblock) + Need(ms[i]) - Need(old(ms)[i])
      ensures ok ==> Step(sb, old(Abs()), old(own), old(ms), Abs(), own, ms, i) && x == Ptr(sb, Abs(), i, fbn) < sb.size
      ensures ok && fbn < old(ms)[i] ==> Abs() == old(Abs()) && own == old(own) && ms == old(ms)
      ensures ok && fbn == old(ms)[i] ==> ms == old(ms)[i := fbn + 1] && Abs().blocks[x] == ZeroBlock()
      ensures ok ==> (ms[i] <= NDIRECT ==> TableOf(sb, Abs(), i) == 0)
    {
      hide BitsMatch, Maps, Placed, Settled, Allocated, Kept, Only, Blank, UsedBits, ZeroBlock;
      StepNone(sb, Abs(), own, ms, i);
      PtrMapped(sb, Abs(), own, ms, i, i, fbn);
      ok, din := true, din0;
      if fbn < NDIRECT {
        x := din.addrs[fbn];
        if x == 0 {
          ok, x, din := MapDirect(i, din, fbn);
        }
      } else {
        ok, x, din := MapIndirect(i, din, fbn);
      }
    }

    /** One round of iappend's loop. */
    method AppendPiece(i: nat, din0: Inode, src: seq<Byte>, off0: nat, off: nat, m: nat,
                       ghost fs0: Fs, ghost own0: Owners, ghost ms0: seq<nat>)
        returns (ok: bool, din: Inode)
      requires Valid(i) && i < freeinode && inodes[i] == din0 && off / BSIZE <= ms[i]
      requires Writing(sb, fs0, own0, ms0, Abs(), own, ms, i, src, off0, off) && ZeroFrom(sb, Abs(), ms[i], i, off)
      requires 0 < m && off % BSIZE + m <= BSIZE && off + m <= off0 + |src| && off + m <= MAXSIZE
      modifies this`blocks, this`freeblock, this`inodes, this`own, this`ms
      ensures ok <==> off / BSIZE < old(ms)[i] || old(freeblock) + Need(old(ms)[i] + 1) - Need(old(ms)[i]) <= Limit(sb)
      ensures ok ==> Valid(i) && inodes[i] == din && freeblock == old(freeblock) + Need(ms[i]) - Need(old(ms)[i])
      ensures ok ==> Writing(sb, fs0, own0, ms0, Abs(), own, ms, i, src, off0, off + m)
      ensures ok ==> ZeroFrom(sb, Abs(), ms[i], i, off + m)
    {
      hide Inv, Wrote, Only, Kept, Ptr, Overwrite, Blocks, ZeroFrom, Marked, ZeroBlock, Blank, PutBlock;
      ghost var fs, own1, ms1 := Abs(), own, ms;
      var x;
      ok, x, din := MapBlock(i, din0, off / BSIZE);
      if ok {
        ghost var fs1 := Abs();
        var y := src[off - off0..off - off0 + m];
        ShapeOf(sb, fs1, own, ms, i);
        WritingStep(sb, fs0, own0, ms0, fs, own1, ms1, fs1, own, ms, i, src, off0, off, m);
        ZeroMapped(sb, fs, own1, ms1, fs1, own, ms, i, off);
        ZeroPut(sb, fs1, own, ms, i, off, y);
        MappedTaken(sb, blocks, freeblock, inodes, own, ms, i, off / BSIZE);
        PutTaken(sb, blocks, freeblock, inodes, x, Overwrite(blocks[x], off % BSIZE, y));
        blocks := blocks[x := Overwrite(blocks[x], off % BSIZE, y)];
      }
    }

    /** iappend: src is added at the end of inode i, which mkfs's assertion allows up to MAXFILE
        blocks; every other file is as before. */
    method Iappend(i: nat, src: seq<Byte>) returns (ok: bool)
      requires Valid(IDLE) && i < freeinode && ZeroTails(sb, Abs(), ms) && src != []
      modifies this`blocks, this`freeblock, this`inodes, this`own, this`ms
      ensures ok <==> CanGrow(old(inodes[i]).size, old(inodes[i]).size + |src|, old(freeblock), Limit(sb))
      ensures ok ==> Valid(IDLE) && ZeroTails(sb, Abs(), ms)
      ensures ok ==> freeblock == old(freeblock) + Need(Blocks(inodes[i].size)) - Need(Blocks(old(inodes[i]).size))
      ensures ok ==> Content(sb, Abs(), i) == old(Content(sb, Abs(), i)) + src
      ensures ok ==> Others(sb, old(Abs()), Abs(), i)
    {
      hide Inv, Wrote, Only, Kept, Ptr, Blocks, UsedBits, Content, PutInode, Blank, Stored, FileByte;
      ghost var fs0, own0, ms0, free0 := Abs(), own, ms, freeblock;
      var din := Rinode(i);
      var off0 := din.size;
      ShapeOf(sb, fs0, own, ms, IDLE);
      Busy(sb, fs0, own, ms, i);
      WritingStarts(sb, fs0, own, ms, i, src, off0);
      var n, off := 0, off0;
      while n < |src|
        invariant n <= |src| && off == off0 + n <= MAXSIZE && Valid(i)
        invariant Writing(sb, fs0, own0, ms0, Abs(), own, ms, i, src, off0, off)
        invariant inodes[i] == din && freeblock == free0 + Need(ms[i]) - Need(ms0[i])
        invariant ZeroFrom(sb, Abs(), ms[i], i, off)
      {
        var fbn := off / BSIZE;
        RoomFor(off0, off0 + |src|, off, ms[i]);
        if fbn >= MAXFILE {
          return false;
        }
        var n1 := Min(|src| - n, (fbn + 1) * BSIZE - off);
        AppendNext(off, ms0[i]);
        ok, din := AppendPiece(i, din, src, off0, off, n1, fs0, own0, ms0);
        if !ok {
          return;
        }
        n, off := n + n1, off + n1;
      }
      ghost var fs1 := Abs();
      ghost var ip := din.(size := off);
      AppendGrew(fs0.inodes[i].size, off);
      GrowEnds(sb, fs0, own0, ms0, fs1, own, ms, i, src, off0);
      StoredIsPut(sb, fs1, i, ip);
      PutInodeKeeps(sb, fs1, own, ms, i, ip);
      Winode(i, din.(size := off));
      ZeroEnds(sb, fs0, own0, ms0, fs1, own, ms, Abs(), i, src, off0);
      AppendIsSplice(sb, fs0, Abs(), i, src);
      ok := true;
    }

    /** The loop that copies a file of the host, a block at a time, into a new inode. */
    method CopyIn(i: nat, data: seq<Byte>) returns (ok: bool)
      requires Valid(IDLE) && i < freeinode && ZeroTails(sb, Abs(), ms) && inodes[i].size == 0
      modifies this`blocks, this`freeblock, this`inodes, this`own, this`ms
      ensures ok <==> CanGrow(0, |data|, old(freeblock), Limit(sb))
      ensures ok ==> Valid(IDLE) && ZeroTails(sb, Abs(), ms) && Content(sb, Abs(), i) == data
      ensures ok ==> freeblock == old(freeblock) + Need(Blocks(|data|))
      ensures ok ==> Others(sb, old(Abs()), Abs(), i)
    {
      hide Inv, UsedBits, Blank, FileByte, ZeroTails, Blocks;
      ghost var fs0, free0 := Abs(), freeblock;
      var n := 0;
      NoBlocks();
      ShapeOf(sb, fs0, own, ms, IDLE);
      while n < |data|
        invariant n <= |data| && n <= MAXSIZE && Valid(IDLE) && i < sb.ninodes && Shape(sb, Abs())
        invariant |ms| == sb.ninodes && ZeroTails(sb, Abs(), ms) && Content(sb, Abs(), i) == data[..n]
        invariant freeblock == free0 + Need(Blocks(n))
        invariant Others(sb, fs0, Abs(), i)
      {
        var cc := Min(|data| - n, BSIZE);
        MoreBlocks(n + cc, |data|);
        ok := Iappend(i, data[n..n + cc]);
        if !ok {
          return;
        }
        ShapeOf(sb, Abs(), own, ms, IDLE);
        assert data[..n] + data[n..n + cc] == data[..n + cc];
        n := n + cc;
      }
      assert data[..n] == data;
      ok := true;
    }

    /** One file of the command line. */
    method AddFile(file: File, ghost files: seq<File>) returns (ok: bool)
      requires Valid(IDLE) && ZeroTails(sb, Abs(), ms) && Made(sb, Abs(), files)
      requires freeinode == |files| + 2 && freeblock == Used(sb, files) && Room(sb, files)
      modifies this`blocks, this`freeblock, this`freeinode, this`inodes, this`own, this`ms
      ensures ok <==> Room(sb, files + [file])
      ensures ok ==> Valid(IDLE) && ZeroTails(sb, Abs(), ms) && Made(sb, Abs(), files + [file])
      ensures ok ==> freeinode == |files| + 3 && freeblock == Used(sb, files + [file])
    {
      hide Inv, UsedBits, Blank, FileByte, ZeroTails, Blocks, Content, Made, Dirent, Room, Used;
      ghost var fs := Abs();
      RoomMore(sb, files, file);
      UsedMore(sb, files, file);
      MadeRoot(sb, fs, files);
      var inum;
      ok, inum := Ialloc(T_FILE);
      if ok {
        ghost var fs1 := Abs();
        ok := Iappend(ROOTINO, Dirent(file.name, inum));
        if ok {
          ghost var fs2 := Abs();
          ok := CopyIn(inum, file.data);
          if ok {
            MadeMore(sb, fs, fs1, fs2, Abs(), files, file);
          }
        }
      }
    }

    /** The root directory with its first two entries. */
    method AddRoot() returns (ok: bool)
      requires Valid(IDLE) && ZeroTails(sb, Abs(), ms) && freeinode == ROOTINO
      requires freeblock == sb.datastart
      modifies this`blocks, this`freeblock, this`freeinode, this`inodes, this`own, this`ms
      ensures ok <==> Room(sb, [])
      ensures ok ==> Valid(IDLE) && ZeroTails(sb, Abs(), ms) && Made(sb, Abs(), [])
      ensures ok ==> freeinode == 2 && freeblock == Used(sb, [])
    {
      hide Inv, UsedBits, Blank, FileByte, ZeroTails, Content, Dirent;
      ShapeOf(sb, Abs(), own, ms, IDLE);
      var rootino;
      ok, rootino := Ialloc(T_DIR);
      if ok {
        ok := Iappend(rootino, Dirent(DOT, rootino));
        if ok {
          ok := Iappend(rootino, Dirent(DOTDOT, rootino));
          if ok {
            MadeFirst(sb, Abs());
          }
        }
      }
    }

    /** The end of mkfs: the root directory's size is rounded up, and the bitmap is written. mkfs
        asserts that the bitmap block has a bit to spare. */
    method Finish(ghost files: seq<File>) returns (ok: bool)
      requires Valid(IDLE) && ZeroTails(sb, Abs(), ms) && Made(sb, Abs(), files)
      modifies this`blocks, this`inodes
      ensures ok <==> freeblock < BPB
      ensures ok ==> |blocks| == sb.size && OnDisk(sb, blocks).inodes == inodes
      ensures ok ==> forall b :: 1 < b < sb.inodestart ==> blocks[b] == ZeroBlock()
      ensures ok ==> (Consistent(sb, OnDisk(sb, blocks)) <==> DESIZE * (|files| + 2) % BSIZE != 0)
      ensures ok && DESIZE * (|files| + 2) % BSIZE != 0 ==> Holds(sb, OnDisk(sb, blocks), files)
    {
      hide Inv, ZeroTails, FileByte, Content, PutInode, Made, Holds, Consistent, OnDisk, ZeroBlock;
      ghost var fs := Abs();
      ShapeOf(sb, fs, own, ms, IDLE);
      MadeRoot(sb, fs, files);
      var din := Rinode(ROOTINO);
      var off := (din.size / BSIZE + 1) * BSIZE;
      Finished(sb, fs, own, ms, din.(size := off), PutInode(sb, fs, ROOTINO, din.(size := off)), files);
      Winode(ROOTINO, din.(size := off));
      ok := freeblock < BPB;
      if ok {
        var buf := Balloc(freeblock);
        blocks := blocks[sb.bmapstart := buf];
      }
    }
  }

  /** mkfs. It succeeds exactly when the files fit. The log is left empty. The disk is a consistent file
      system if and only if the root directory's entries do not fill its blocks exactly, and then it holds
      the root directory and every file. */
  method MakeFs(sb: Super, super: Block, files: seq<File>) returns (ok: bool, blocks: seq<Block>)
    requires Layout(sb) && 1 < sb.inodestart && sb.datastart <= BPB && 1 <= sb.ninodes
    ensures ok <==> Room(sb, files) && Used(sb, files) < BPB
    ensures ok ==> |blocks| == sb.size && forall b :: 1 < b < sb.inodestart ==> blocks[b] == ZeroBlock()
    ensures ok ==> (Consistent(sb, OnDisk(sb, blocks)) <==> DESIZE * (|files| + 2) % BSIZE != 0)
    ensures ok && DESIZE * (|files| + 2) % BSIZE != 0 ==> Holds(sb, OnDisk(sb, blocks), files)
  {
    hide Inv, ZeroTails, Made, Holds, Consistent, OnDisk, Room, Used, Blank;
    blocks := [];
    var image := new Image(sb, super);
    ok := image.AddRoot();
    assert files[..0] == [];
    if ok {
      ShapeOf(sb, image.Abs(), image.own, image.ms, IDLE);
    }
    var k := 0;
    while ok && k < |files|
      invariant k <= |files| && (ok <==> Room(sb, files[..k]))
      invariant ok ==> image.Valid(IDLE) && |image.ms| == sb.ninodes && Shape(sb, image.Abs())
      invariant ok ==> ZeroTails(sb, image.Abs(), image.ms) && Made(sb, image.Abs(), files[..k])
      invariant ok ==> image.freeinode == k + 2 && image.freeblock == Used(sb, files[..k])
    {
      assert files[..k] + [files[k]] == files[..k + 1];
      ok := image.AddFile(files[k], files[..k]);
      if ok {
        ShapeOf(sb, image.Abs(), image.own, image.ms, IDLE);
      }
      k := k + 1;
    }
    if ok {
      assert files[..k] == files;
      ok := image.Finish(files);
      blocks := image.blocks;
    } else {
      RoomFails(sb, files, k);
    }
  }
}
