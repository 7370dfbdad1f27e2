/** The steps of mkfs on the image it is building. mkfs hands out data blocks by counting up and
    writes the bitmap last, so the file system it has made so far is the image with the bitmap as it
    would be written now. */
module MkfsStep {
  import opened Bytes
  import opened Bitmap
  import opened Dinode
  import opened FsState
  import opened FsGrow
  import opened FsData
  import opened FsStep
  import opened FsBytes
  import opened FsWrite
  import opened FsFormat

  /** The image with the bitmap that balloc would write when `free` is the next free block. */
  function Marked(sb: Super, blocks: seq<Block>, free: nat, inodes: seq<Inode>): Fs
    requires sb.bmapstart < |blocks| && free <= BPB
  {
    Fs(blocks[sb.bmapstart := UsedBits(free)], inodes)
  }

  /** The log, the bitmap blocks and the data blocks not handed out yet are as wsect first wrote them. */
  predicate Blank(sb: Super, blocks: seq<Block>, free: nat) {
    forall b :: 0 <= b < |blocks| && (1 < b < sb.inodestart || sb.bmapstart <= b < sb.datastart || free <= b) ==>
      blocks[b] == ZeroBlock()
  }

  predicate Counts(sb: Super, blocks: seq<Block>, free: nat) {
    Layout(sb) && |blocks| == sb.size && sb.datastart <= free <= sb.size && free <= BPB
  }

  /** A block is marked used exactly when it has been handed out. */
  lemma MarkedBits(sb: Super, blocks: seq<Block>, free: nat, inodes: seq<Inode>, b: nat)
    requires Counts(sb, blocks, free) && Blank(sb, blocks, free) && Shape(sb, Marked(sb, blocks, free, inodes))
    requires b < sb.size
    ensures Allocated(sb, Marked(sb, blocks, free, inodes), b) <==> b < free
  {
    if b < BPB {
      UsedBitsAre(free, b);
    } else {
      assert sb.bmapstart < BBlock(sb, b) < sb.datastart;
      NoBits(b % BPB % 8);
    }
  }

  /** Counting up takes the next block as balloc in the kernel would. */
  lemma MarkedTake(sb: Super, blocks: seq<Block>, free: nat, inodes: seq<Inode>)
    requires Counts(sb, blocks, free) && Blank(sb, blocks, free) && free < sb.size && free < BPB
    requires Shape(sb, Marked(sb, blocks, free, inodes))
    ensures Marked(sb, blocks, free + 1, inodes) == Alloc(sb, Marked(sb, blocks, free, inodes), free)
    ensures !Allocated(sb, Marked(sb, blocks, free, inodes), free)
    ensures Blank(sb, blocks, free + 1)
  {
    MarkedBits(sb, blocks, free, inodes, free);
    assert BBlock(sb, free) == sb.bmapstart && free % BPB == free;
    hide ZeroBlock, SetBlockBit;
    var fs, fs' := Marked(sb, blocks, free, inodes), Marked(sb, blocks, free + 1, inodes);
    var alloc := Alloc(sb, fs, free);
    assert alloc.blocks[free] == ZeroBlock() == blocks[free];
    forall b | 0 <= b < sb.size ensures fs'.blocks[b] == alloc.blocks[b] {
    }
    assert fs'.blocks == alloc.blocks;
  }

  lemma MarkedPut(sb: Super, blocks: seq<Block>, free: nat, inodes: seq<Inode>, a: nat, x: Block)
    requires Counts(sb, blocks, free) && a < sb.size && a != sb.bmapstart
    requires Shape(sb, Marked(sb, blocks, free, inodes))
    ensures Marked(sb, blocks[a := x], free, inodes) == PutBlock(sb, Marked(sb, blocks, free, inodes), a, x)
    ensures Marked(sb, blocks, free, inodes).blocks[a] == blocks[a]
  {
  }

  /** A mapped block has been handed out. */
  lemma MappedTaken(sb: Super, blocks: seq<Block>, free: nat, inodes: seq<Inode>, own: Owners, ms: seq<nat>,
                    i: nat, bn: nat)
    requires Counts(sb, blocks, free) && Blank(sb, blocks, free)
    requires Inv(sb, Marked(sb, blocks, free, inodes), own, ms, i)
    requires i < sb.ninodes && bn < ms[i] && bn < MAXFILE
    ensures sb.datastart <= Ptr(sb, Marked(sb, blocks, free, inodes), i, bn) < free
  {
    hide BitsMatch, Maps, Placed, Settled, Ptr, Allocated, Marked, Blank;
    var fs := Marked(sb, blocks, free, inodes);
    PtrMapped(sb, fs, own, ms, i, i, bn);
    PointersDistinct(sb, fs, own, ms, i, i, bn, i, bn);
    MarkedBits(sb, blocks, free, inodes, Ptr(sb, fs, i, bn));
  }

  /** Writing a block that has been handed out. */
  lemma PutTaken(sb: Super, blocks: seq<Block>, free: nat, inodes: seq<Inode>, a: nat, x: Block)
    requires Counts(sb, blocks, free) && Blank(sb, blocks, free) && sb.datastart <= a < free
    requires Shape(sb, Marked(sb, blocks, free, inodes))
    ensures Counts(sb, blocks[a := x], free) && Blank(sb, blocks[a := x], free)
    ensures Marked(sb, blocks[a := x], free, inodes) == PutBlock(sb, Marked(sb, blocks, free, inodes), a, x)
    ensures Marked(sb, blocks, free, inodes).blocks[a] == blocks[a]
  {
    MarkedPut(sb, blocks, free, inodes, a, x);
  }

  lemma TableTaken(sb: Super, blocks: seq<Block>, free: nat, inodes: seq<Inode>, own: Owners, ms: seq<nat>, i: nat)
    requires Counts(sb, blocks, free) && Blank(sb, blocks, free)
    requires Inv(sb, Marked(sb, blocks, free, inodes), own, ms, i)
    requires i < sb.ninodes && TableOf(sb, Marked(sb, blocks, free, inodes), i) != 0
    ensures sb.datastart <= TableOf(sb, Marked(sb, blocks, free, inodes), i) < free
  {
    hide Maps, Placed, Settled, Allocated, Marked, Blank;
    var fs := Marked(sb, blocks, free, inodes);
    TableOwned(sb, fs, own, ms, i, i);
    MarkedBits(sb, blocks, free, inodes, TableOf(sb, fs, i));
  }

  // ----- the size of the root directory

  /** mkfs rounds the root directory's size up to whole blocks, and always up. */
  function Rounded(off: nat): nat {
    (off / BSIZE + 1) * BSIZE
  }

  /** Rounding adds a block to a size that fills its blocks exactly, and none to any other. */
  lemma RoundedBlocks(off: nat)
    ensures Blocks(Rounded(off)) == off / BSIZE + 1
    ensures Blocks(Rounded(off)) == Blocks(off) <==> off % BSIZE != 0
    ensures off % BSIZE == 0 ==> Blocks(off) == off / BSIZE
  {
  }

  lemma LastMapped(sb: Super, fs: Fs, own: Owners, ms: seq<nat>, i: nat, bn: nat)
    requires Inv(sb, fs, own, ms, IDLE) && i < sb.ninodes && Blocks(fs.inodes[i].size) == bn + 1
    ensures bn < MAXFILE && Ptr(sb, fs, i, bn) != 0
  {
    assert Settled(sb, fs, i, ms[i]) && Maps(sb, fs, own, i, ms[i]);
    PtrMapped(sb, fs, own, ms, IDLE, i, bn);
  }

  lemma ResizeBreaks(sb: Super, fs: Fs, own: Owners, ms: seq<nat>, i: nat, ip: Inode, own': Owners, ms': seq<nat>)
    requires Inv(sb, fs, own, ms, IDLE) && i < sb.ninodes && fs.inodes[i].size % BSIZE == 0
    requires ip == fs.inodes[i].(size := ip.size) && ip.size == Rounded(fs.inodes[i].size)
    ensures !Inv(sb, PutInode(sb, fs, i, ip), own', ms', IDLE)
  {
    hide BitsMatch, Maps, Placed, Ptr, Blocks;
    var bn := fs.inodes[i].size / BSIZE;
    RoundedBlocks(fs.inodes[i].size);
    assert Settled(sb, fs, i, ms[i]);
    if Inv(sb, PutInode(sb, fs, i, ip), own', ms', IDLE) {
      LastMapped(sb, PutInode(sb, fs, i, ip), own', ms', i, bn);
      Busy(sb, fs, own, ms, i);
      PutInodeKeeps(sb, fs, own, ms, i, ip);
      PtrMapped(sb, fs, own, ms, IDLE, i, bn);
    }
  }

  /** The exact condition: rounding the size of directory i leaves a consistent file system if and only
      if its entries did not fill its blocks exactly. */
  lemma RootSizeExactly(sb: Super, fs: Fs, own: Owners, ms: seq<nat>, i: nat, ip: Inode)
    requires Inv(sb, fs, own, ms, IDLE) && i < sb.ninodes
    requires ip == fs.inodes[i].(size := ip.size) && ip.size == Rounded(fs.inodes[i].size)
    ensures Consistent(sb, PutInode(sb, fs, i, ip)) <==> fs.inodes[i].size % BSIZE != 0
    ensures fs.inodes[i].size % BSIZE != 0 ==>
      Inv(sb, PutInode(sb, fs, i, ip), own, ms, IDLE) && SameBytes(sb, fs, PutInode(sb, fs, i, ip))
  {
    hide BitsMatch, Maps, Placed, Ptr, Blocks, PutInode;
    RoundedBlocks(fs.inodes[i].size);
    assert Settled(sb, fs, i, ms[i]);
    if fs.inodes[i].size % BSIZE != 0 {
      RoundedFits(fs.inodes[i].size);
      Busy(sb, fs, own, ms, i);
      PutInodeKeeps(sb, fs, own, ms, i, ip);
    } else {
      forall own': Owners, ms': seq<nat> ensures !Inv(sb, PutInode(sb, fs, i, ip), own', ms', IDLE) {
        ResizeBreaks(sb, fs, own, ms, i, ip, own', ms');
      }
    }
  }

  lemma RoundedFits(off: nat)
    requires off <= MAXSIZE && off % BSIZE != 0
    ensures Rounded(off) <= MAXSIZE
  {
  }

  // ----- what lies past the end of a file

  /** The rest of the mapped blocks of file i, from off on, is zero. */
  ghost predicate ZeroFrom(sb: Super, fs: Fs, m: nat, i: nat, off: nat)
    requires Shape(sb, fs) && i < sb.ninodes
  {
    forall k :: off <= k < MAXSIZE && k / BSIZE < m ==> FileByte(sb, fs, i, k) == 0
  }

  ghost predicate ZeroTails(sb: Super, fs: Fs, ms: seq<nat>)
    requires Shape(sb, fs) && |ms| == sb.ninodes
  {
    forall j :: 0 <= j < sb.ninodes ==> ZeroFrom(sb, fs, ms[j], j, fs.inodes[j].size)
  }

  /** Mapping the next block, which is blank. */
  lemma ZeroMapped(sb: Super, fs: Fs, own: Owners, ms: seq<nat>, fs1: Fs, own1: Owners, ms1: seq<nat>, i: nat, off: nat)
    requires Shape(sb, fs) && Step(sb, fs, own, ms, fs1, own1, ms1, i) && ZeroFrom(sb, fs, ms[i], i, off)
    requires off / BSIZE < ms[i] ==> ms1 == ms
    requires off / BSIZE == ms[i] ==> ms1 == ms[i := ms[i] + 1]
    requires off / BSIZE <= ms[i] && off / BSIZE < MAXFILE
    requires off / BSIZE == ms[i] ==> var p := Ptr(sb, fs1, i, ms[i]); p < sb.size && fs1.blocks[p] == ZeroBlock()
    ensures ZeroFrom(sb, fs1, ms1[i], i, off)
  {
    hide BitsMatch, Maps, Placed, Settled, Ptr, Only;
    forall k | off <= k < MAXSIZE && k / BSIZE < ms1[i] ensures FileByte(sb, fs1, i, k) == 0 {
      if k / BSIZE < ms[i] {
        assert FileByte(sb, fs1, i, k) == FileByte(sb, fs, i, k);
      }
    }
  }

  /** Overwriting a piece of it. */
  lemma ZeroPut(sb: Super, fs: Fs, own: Owners, ms: seq<nat>, i: nat, off: nat, piece: seq<Byte>)
    requires i < sb.ninodes && Inv(sb, fs, own, ms, i) && off / BSIZE < ms[i] && ZeroFrom(sb, fs, ms[i], i, off)
    requires 0 < |piece| && off % BSIZE + |piece| <= BSIZE && off + |piece| <= MAXSIZE
    ensures var a := Ptr(sb, fs, i, off / BSIZE);
      && sb.datastart <= a < sb.size
      && var fs' := PutBlock(sb, fs, a, Overwrite(fs.blocks[a], off % BSIZE, piece));
      && Shape(sb, fs') && ZeroFrom(sb, fs', ms[i], i, off + |piece|)
  {
    hide BitsMatch, Maps, Placed, Settled, FileByte, Overwrite, Ptr;
    PutPiece(sb, fs, own, ms, i, off, piece);
  }

  /** The tails of all files after src was appended to file i. */
  lemma ZeroEnds(sb: Super, fs0: Fs, own0: Owners, ms0: seq<nat>, fs: Fs, own: Owners, ms: seq<nat>, fs': Fs,
                 i: nat, src: seq<Byte>, off: nat)
    requires Writing(sb, fs0, own0, ms0, fs, own, ms, i, src, off, off + |src|) && ZeroTails(sb, fs0, ms0)
    requires ZeroFrom(sb, fs, ms[i], i, off + |src|) && Shape(sb, fs') && SameBytes(sb, fs, fs')
    requires fs'.inodes[i].size == off + |src|
    requires forall j :: 0 <= j < sb.ninodes && j != i ==> fs'.inodes[j] == fs.inodes[j]
    ensures ZeroTails(sb, fs', ms)
  {
    hide Inv, FileByte, Blocks;
    forall j | 0 <= j < sb.ninodes ensures ZeroFrom(sb, fs', ms[j], j, fs'.inodes[j].size) {
      forall k | fs'.inodes[j].size <= k < MAXSIZE && k / BSIZE < ms[j] ensures FileByte(sb, fs', j, k) == 0 {
        assert FileByte(sb, fs', j, k) == FileByte(sb, fs, j, k);
        if j != i {
          assert ZeroFrom(sb, fs0, ms0[j], j, fs0.inodes[j].size);
        }
      }
    }
  }

  /** Appending is writing at the end. */
  lemma AppendIsSplice(sb: Super, fs0: Fs, fs: Fs, i: nat, src: seq<Byte>)
    requires Shape(sb, fs0) && i < sb.ninodes && Spliced(sb, fs0, fs, i, src, fs0.inodes[i].size)
    ensures Content(sb, fs, i) == Content(sb, fs0, i) + src
  {
    hide FileByte;
    var c := Content(sb, fs0, i);
    assert c[..|c|] == c;
  }
}
