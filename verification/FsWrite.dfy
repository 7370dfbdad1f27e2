/** writei round by round, and what the finished loop means for the contents of all files. */
module FsWrite {
  import opened Bytes
  import opened Dinode
  import opened FsState
  import opened FsData
  import opened FsStep
  import opened FsBytes

  function Min(a: int, b: int): int {
    if a < b then a else b
  }

  /** The tests at the head of readi, in 32-bit arithmetic. */
  predicate ReadRefused(size: nat, off: Uint, n: Uint) {
    off > size || (off + n) % UINT_MOD < off
  }

  /** The tests at the head of writei. */
  predicate WriteRefused(size: nat, off: Uint, n: Uint) {
    off > size || (off + n) % UINT_MOD < off || off + n > MAXSIZE
  }

  lemma JoinSlices<T>(s: seq<T>, a: nat, b: nat, c: nat)
    requires a <= b <= c <= |s|
    ensures s[a..b] + s[b..c] == s[a..c]
  {
  }

  lemma ShapeOf(sb: Super, fs: Fs, own: Owners, ms: seq<nat>, busy: int)
    requires Inv(sb, fs, own, ms, busy)
    ensures Shape(sb, fs) && |ms| == sb.ninodes
  {
  }

  /** An idle inode can be handed to bmap. */
  lemma Ready(sb: Super, fs: Fs, own: Owners, ms: seq<nat>, i: nat)
    requires Inv(sb, fs, own, ms, IDLE) && i < sb.ninodes
    ensures Inv(sb, fs, own, ms, i) && ms[i] == Blocks(fs.inodes[i].size) <= MAXFILE
    ensures ms[i] <= NDIRECT ==> TableOf(sb, fs, i) == 0
  {
    assert Settled(sb, fs, i, ms[i]) && Maps(sb, fs, own, i, ms[i]);
  }

  function Max(a: int, b: int): int {
    if a < b then b else a
  }

  /** The loop of writei, with off bytes of the file reached: what has been written, what else may
      have changed, and how much is mapped. */
  ghost predicate Writing(sb: Super, fs0: Fs, own0: Owners, ms0: seq<nat>, fs: Fs, own: Owners, ms: seq<nat>,
                          i: nat, src: seq<Byte>, off0: nat, off: nat) {
    && Shape(sb, fs0) && Shape(sb, fs) && |ms0| == sb.ninodes && i < sb.ninodes && off0 <= off <= off0 + |src|
    && Wrote(sb, fs0, ms0, fs, i, src, off0, off) && Inv(sb, fs, own, ms, i) && Only(sb, fs0, own0, fs, own, i)
    && ms == ms0[i := Max(ms0[i], Blocks(off))]
    && (ms[i] <= NDIRECT ==> TableOf(sb, fs, i) == 0)
    && (Blocks(off) <= ms0[i] ==> fs.inodes == fs0.inodes && own == own0)
  }

  lemma WritingStarts(sb: Super, fs: Fs, own: Owners, ms: seq<nat>, i: nat, src: seq<Byte>, off: nat)
    requires Inv(sb, fs, own, ms, IDLE) && i < sb.ninodes && off <= fs.inodes[i].size
    ensures Writing(sb, fs, own, ms, fs, own, ms, i, src, off, off) && ms[i] == Blocks(fs.inodes[i].size)
  {
    hide BitsMatch, Maps, Placed, Settled, Ptr, FileByte;
    Ready(sb, fs, own, ms, i);
    assert ms == ms[i := Max(ms[i], Blocks(off))];
  }

  lemma WritingStep(sb: Super, fs0: Fs, own0: Owners, ms0: seq<nat>, fs: Fs, own: Owners, ms: seq<nat>,
                    fs1: Fs, own1: Owners, ms1: seq<nat>, i: nat, src: seq<Byte>, off0: nat, off: nat, m: nat)
    requires Writing(sb, fs0, own0, ms0, fs, own, ms, i, src, off0, off)
    requires Step(sb, fs, own, ms, fs1, own1, ms1, i)
    requires off / BSIZE < ms[i] ==> fs1 == fs && own1 == own && ms1 == ms
    requires off / BSIZE == ms[i] ==> ms1 == ms[i := off / BSIZE + 1]
    requires off / BSIZE <= ms[i] && (ms1[i] <= NDIRECT ==> TableOf(sb, fs1, i) == 0)
    requires 0 < m && off % BSIZE + m <= BSIZE && off + m <= off0 + |src| && off + m <= MAXSIZE
    ensures var a := Ptr(sb, fs1, i, off / BSIZE);
      && sb.datastart <= a < sb.size
      && var fs2 := PutBlock(sb, fs1, a, Overwrite(fs1.blocks[a], off % BSIZE, src[off - off0..off - off0 + m]));
      && Writing(sb, fs0, own0, ms0, fs2, own1, ms1, i, src, off0, off + m)
  {
    hide Inv, Wrote, Kept, Only, Overwrite, Ptr, Blocks;
    MappedAfter(off, m, ms0, ms, ms1, i);
    WroteStep(sb, fs0, ms0, fs, ms, fs1, own1, ms1, i, src, off0, off, m);
    PutOnly(sb, fs0, own0, fs, own, fs1, own1, ms1, i, off, src[off - off0..off - off0 + m]);
  }

  lemma PutOnly(sb: Super, fs0: Fs, own0: Owners, fs: Fs, own: Owners, fs1: Fs, own1: Owners, ms1: seq<nat>,
                i: nat, off: nat, piece: seq<Byte>)
    requires i < sb.ninodes && Shape(sb, fs0) && Shape(sb, fs) && Inv(sb, fs1, own1, ms1, i) && off < MAXSIZE
    requires Only(sb, fs0, own0, fs, own, i) && Only(sb, fs, own, fs1, own1, i)
    requires sb.datastart <= Ptr(sb, fs1, i, off / BSIZE) < sb.size && off % BSIZE + |piece| <= BSIZE
    ensures var a := Ptr(sb, fs1, i, off / BSIZE);
      var fs2 := PutBlock(sb, fs1, a, Overwrite(fs1.blocks[a], off % BSIZE, piece));
      Shape(sb, fs2) && Only(sb, fs0, own0, fs2, own1, i)
  {
    hide Only, Overwrite, Ptr, BitsMatch, Maps, Placed, Settled;
    var a := Ptr(sb, fs1, i, off / BSIZE);
    var x := Overwrite(fs1.blocks[a], off % BSIZE, piece);
    OnlyTrans(sb, fs0, own0, fs, own, fs1, own1, i);
    OnlyPut(sb, fs1, own1, a, x, i);
    OnlyTrans(sb, fs0, own0, fs1, own1, PutBlock(sb, fs1, a, x), own1, i);
  }

  /** How much is mapped after one more round. */
  lemma MappedAfter(off: nat, m: nat, ms0: seq<nat>, ms: seq<nat>, ms1: seq<nat>, i: nat)
    requires i < |ms0| && ms == ms0[i := Max(ms0[i], Blocks(off))] && off / BSIZE <= ms[i]
    requires off / BSIZE < ms[i] ==> ms1 == ms
    requires off / BSIZE == ms[i] ==> ms1 == ms[i := off / BSIZE + 1]
    requires 0 < m && off % BSIZE + m <= BSIZE
    ensures ms1 == ms0[i := Max(ms0[i], Blocks(off + m))] && off / BSIZE < ms1[i] && Blocks(off) <= ms[i]
    ensures Blocks(off + m) <= ms0[i] ==> off / BSIZE < ms[i] && Blocks(off) <= ms0[i]
  {
    assert Blocks(off + m) == off / BSIZE + 1 && off / BSIZE <= Blocks(off) <= off / BSIZE + 1;
    hide Blocks;
  }

  /** c with src written over it at off, extended if src reaches past its end. */
  function Splice<T>(c: seq<T>, off: nat, src: seq<T>): (r: seq<T>)
    requires off <= |c|
    ensures |r| == if |c| < off + |src| then off + |src| else |c|
  {
    c[..off] + src + (if off + |src| < |c| then c[off + |src|..] else [])
  }

  /** Writing src at off changed file i like a splice of its bytes, and no other file. */
  ghost predicate Spliced(sb: Super, fs0: Fs, fs: Fs, i: nat, src: seq<Byte>, off: nat) {
    && Shape(sb, fs0) && Shape(sb, fs) && i < sb.ninodes && off <= fs0.inodes[i].size
    && Content(sb, fs, i) == Splice(Content(sb, fs0, i), off, src)
    && (forall j :: 0 <= j < sb.ninodes && j != i ==>
          fs.inodes[j] == fs0.inodes[j] && Content(sb, fs, j) == Content(sb, fs0, j))
    && fs.inodes[i] == fs0.inodes[i].(size := fs.inodes[i].size, addrs := fs.inodes[i].addrs)
  }

  lemma ContentSpliced(sb: Super, fs0: Fs, ms0: seq<nat>, fs: Fs, i: nat, src: seq<Byte>, off: nat)
    requires Wrote(sb, fs0, ms0, fs, i, src, off, off + |src|)
    requires off <= fs0.inodes[i].size && ms0[i] == Blocks(fs0.inodes[i].size)
    requires fs.inodes[i].size == if fs0.inodes[i].size < off + |src| then off + |src| else fs0.inodes[i].size
    ensures Content(sb, fs, i) == Splice(Content(sb, fs0, i), off, src)
  {
    hide FileByte, Blocks;
    var c0, c := Content(sb, fs0, i), Content(sb, fs, i);
    var r := Splice(c0, off, src);
    forall k | 0 <= k < |c| ensures c[k] == r[k] {
      assert c[k] == FileByte(sb, fs, i, k);
      if k < fs0.inodes[i].size {
        InBlocks(k, fs0.inodes[i].size);
      }
    }
  }

  lemma ContentKept(sb: Super, fs0: Fs, ms0: seq<nat>, fs: Fs, i: nat, src: seq<Byte>, off: nat, end: nat, j: nat)
    requires Wrote(sb, fs0, ms0, fs, i, src, off, end) && j < sb.ninodes && j != i
    requires fs.inodes[j] == fs0.inodes[j] && ms0[j] == Blocks(fs0.inodes[j].size)
    ensures Content(sb, fs, j) == Content(sb, fs0, j)
  {
    hide FileByte, Blocks;
    forall k | 0 <= k < fs0.inodes[j].size ensures FileByte(sb, fs, j, k) == FileByte(sb, fs0, j, k) {
      InBlocks(k, fs0.inodes[j].size);
    }
  }

  lemma SplicedFromWrote(sb: Super, fs0: Fs, own0: Owners, ms0: seq<nat>, fs: Fs, i: nat, src: seq<Byte>, off: nat)
    requires Inv(sb, fs0, own0, ms0, IDLE) && Wrote(sb, fs0, ms0, fs, i, src, off, off + |src|)
    requires off <= fs0.inodes[i].size
    requires forall j :: 0 <= j < sb.ninodes && j != i ==> fs.inodes[j] == fs0.inodes[j]
    requires fs.inodes[i] == fs0.inodes[i].(size := fs.inodes[i].size, addrs := fs.inodes[i].addrs)
    requires fs.inodes[i].size == if fs0.inodes[i].size < off + |src| then off + |src| else fs0.inodes[i].size
    ensures Spliced(sb, fs0, fs, i, src, off)
  {
    hide BitsMatch, Maps, Placed, Wrote, Content;
    WroteShape(sb, fs0, ms0, fs, i, src, off, off + |src|);
    forall j | 0 <= j < sb.ninodes ensures ms0[j] == Blocks(fs0.inodes[j].size) {
      assert Settled(sb, fs0, j, ms0[j]);
    }
    hide Settled, Blocks;
    ContentSpliced(sb, fs0, ms0, fs, i, src, off);
    forall j | 0 <= j < sb.ninodes && j != i ensures Content(sb, fs, j) == Content(sb, fs0, j) {
      ContentKept(sb, fs0, ms0, fs, i, src, off, off + |src|, j);
    }
  }

  lemma WroteShape(sb: Super, fs0: Fs, ms0: seq<nat>, fs: Fs, i: nat, src: seq<Byte>, off: nat, end: nat)
    requires Wrote(sb, fs0, ms0, fs, i, src, off, end)
    ensures Shape(sb, fs0) && Shape(sb, fs) && i < sb.ninodes && |ms0| == sb.ninodes
  {
  }

  /** Changing the size and storing the inode leave the bytes alone. */
  lemma WroteSame(sb: Super, fs0: Fs, ms0: seq<nat>, fs: Fs, fs': Fs, i: nat, src: seq<Byte>, off: nat, end: nat)
    requires Wrote(sb, fs0, ms0, fs, i, src, off, end) && Shape(sb, fs')
    requires forall j, bm :: 0 <= j < sb.ninodes && 0 <= bm < MAXFILE ==> Ptr(sb, fs', j, bm) == Ptr(sb, fs, j, bm)
    requires forall j, bm :: 0 <= j < sb.ninodes && 0 <= bm < MAXFILE && 0 < Ptr(sb, fs, j, bm) < sb.size ==>
      fs'.blocks[Ptr(sb, fs, j, bm)] == fs.blocks[Ptr(sb, fs, j, bm)]
    ensures Wrote(sb, fs0, ms0, fs', i, src, off, end)
  {
    hide Ptr;
    forall j, k | 0 <= j < sb.ninodes && 0 <= k < MAXSIZE ensures FileByte(sb, fs', j, k) == FileByte(sb, fs, j, k) {
      assert Ptr(sb, fs', j, k / BSIZE) == Ptr(sb, fs, j, k / BSIZE);
    }
  }

  /** Recording the new size and storing the inode. */
  lemma GrowEnds(sb: Super, fs0: Fs, own0: Owners, ms0: seq<nat>, fs: Fs, own: Owners, ms: seq<nat>,
                 i: nat, src: seq<Byte>, off: nat)
    requires Inv(sb, fs0, own0, ms0, IDLE) && Inv(sb, fs, own, ms, i) && i < sb.ninodes
    requires Wrote(sb, fs0, ms0, fs, i, src, off, off + |src|) && Only(sb, fs0, own0, fs, own, i)
    requires off <= fs0.inodes[i].size < off + |src| <= MAXSIZE
    requires ms[i] == Blocks(off + |src|) && (ms[i] <= NDIRECT ==> TableOf(sb, fs, i) == 0)
    ensures Shape(sb, SetSize(sb, fs, i, off + |src|))
    ensures var fs2 := Stored(sb, SetSize(sb, fs, i, off + |src|), i);
      Inv(sb, fs2, own, ms, IDLE) && Spliced(sb, fs0, fs2, i, src, off)
  {
    hide BitsMatch, Maps, Placed, Wrote, Content, Ptr, Stored, PutDinode, Blocks;
    var fs1 := SetSize(sb, fs, i, off + |src|);
    SetSizeKeeps(sb, fs, own, ms, i, off + |src|);
    var fs2 := Stored(sb, fs1, i);
    StoredKeeps(sb, fs1, own, ms, i);
    StoredEffect(sb, fs1, i);
    WroteShape(sb, fs0, ms0, fs, i, src, off, off + |src|);
    forall j, bm | 0 <= j < sb.ninodes && 0 <= bm < MAXFILE && 0 < Ptr(sb, fs, j, bm) < sb.size
      ensures fs2.blocks[Ptr(sb, fs, j, bm)] == fs.blocks[Ptr(sb, fs, j, bm)]
    {
      PtrMapped(sb, fs, own, ms, i, j, bm);
    }
    hide StoredInode;
    WroteSame(sb, fs0, ms0, fs, fs2, i, src, off, off + |src|);
    SplicedFromWrote(sb, fs0, own0, ms0, fs2, i, src, off);
    Idle(sb, fs2, own, ms, i);
  }

  /** Nothing to record: the write stayed inside the file. */
  lemma StayEnds(sb: Super, fs0: Fs, own0: Owners, ms0: seq<nat>, fs: Fs, own: Owners,
                 i: nat, src: seq<Byte>, off: nat)
    requires Inv(sb, fs0, own0, ms0, IDLE) && Inv(sb, fs, own, ms0, i) && i < sb.ninodes
    requires Wrote(sb, fs0, ms0, fs, i, src, off, off + |src|) && Only(sb, fs0, own0, fs, own, i)
    requires off <= fs0.inodes[i].size && off + |src| <= fs0.inodes[i].size && fs.inodes == fs0.inodes
    ensures Inv(sb, fs, own, ms0, IDLE) && Spliced(sb, fs0, fs, i, src, off)
  {
    assert Settled(sb, fs0, i, ms0[i]);
    assert IBlock(sb, i) < sb.bmapstart;
    assert Settled(sb, fs, i, ms0[i]);
    hide BitsMatch, Maps, Placed, Settled, Wrote, Content;
    SplicedFromWrote(sb, fs0, own0, ms0, fs, i, src, off);
    Idle(sb, fs, own, ms0, i);
  }

  // ----- how many blocks a write logs

  /** The most that filewrite writes in one transaction: half of what MAXOPBLOCKS leaves after the inode,
      the indirect block and two blocks of slop, in blocks. */
  const CHUNK := 1536

  function Tables(sb: Super, fs: Fs, i: nat): set<nat>
    requires Shape(sb, fs) && i < sb.ninodes
  {
    if TableOf(sb, fs, i) == 0 then {} else {TableOf(sb, fs, i)}
  }

  /** The blocks logged so far: data blocks d, one a round; bitmap blocks b, one an allocation; and
      the indirect block. */
  ghost predicate Charged(sb: Super, fs0: Fs, ms0: seq<nat>, fs: Fs, ms: seq<nat>, i: nat, off0: nat, off: nat,
                          before: set<nat>, logged: set<nat>, d: set<nat>, b: set<nat>)
    requires Shape(sb, fs0) && Shape(sb, fs) && i < sb.ninodes == |ms| == |ms0|
  {
    && logged <= before + d + b + Tables(sb, fs, i)
    && |d| <= (if off == off0 then 0 else Blocks(off) - off0 / BSIZE)
    && |b| <= ms[i] - ms0[i] + |Tables(sb, fs, i)| - |Tables(sb, fs0, i)|
    && (TableOf(sb, fs0, i) != 0 ==> TableOf(sb, fs, i) == TableOf(sb, fs0, i))
  }

  lemma ChargeRound(sb: Super, fs0: Fs, ms0: seq<nat>, fs: Fs, ms: seq<nat>, fs': Fs, ms': seq<nat>, i: nat,
                    off0: nat, off: nat, m: nat, before: set<nat>, logged: set<nat>, logged': set<nat>,
                    d: set<nat>, b: set<nat>, a: nat, bits: set<nat>)
    requires Shape(sb, fs0) && Shape(sb, fs) && Shape(sb, fs') && i < sb.ninodes == |ms| == |ms0| == |ms'|
    requires Charged(sb, fs0, ms0, fs, ms, i, off0, off, before, logged, d, b)
    requires off0 <= off && (off0 < off ==> off % BSIZE == 0) && 0 < m && off % BSIZE + m <= BSIZE
    requires logged' <= logged + {a} + bits + Tables(sb, fs', i)
    requires TableOf(sb, fs, i) != 0 ==> TableOf(sb, fs', i) == TableOf(sb, fs, i)
    requires |bits| <= ms'[i] - ms[i] + |Tables(sb, fs', i)| - |Tables(sb, fs, i)|
    ensures Charged(sb, fs0, ms0, fs', ms', i, off0, off + m, before, logged', d + {a}, b + bits)
  {
    hide Blocks;
    RoundCount(off0, off, m);
    UnionSize(b, bits);
    UnionSize(d, {a});
    assert logged <= before + d + b + Tables(sb, fs', i);
    assert logged' <= before + (d + {a}) + (b + bits) + Tables(sb, fs', i);
  }

  lemma RoundCount(off0: nat, off: nat, m: nat)
    requires off0 <= off && (off0 < off ==> off % BSIZE == 0) && 0 < m && off % BSIZE + m <= BSIZE
    ensures Blocks(off + m) - off0 / BSIZE == 1 + if off == off0 then 0 else Blocks(off) - off0 / BSIZE
  {
  }

  lemma UnionSize<T>(x: set<T>, y: set<T>)
    ensures |x + y| <= |x| + |y|
  {
    assert x + y == x + (y - x);
  }

  /** With nothing written past the end unmapped, and at most CHUNK bytes, the data blocks touched
      and the blocks newly mapped are at most seven together. A write that touches four blocks
      starts inside a block that is already mapped. */
  lemma ChunkTouches(size: nat, off: nat, n: nat)
    requires off <= size && n <= CHUNK
    ensures var touched := if n == 0 then 0 else Blocks(off + n) - off / BSIZE;
      touched + (Max(Blocks(size), Blocks(off + n)) - Blocks(size)) <= 7
  {
  }

  lemma LoggedAtMost(before: set<nat>, logged: set<nat>, d: set<nat>, b: set<nat>, t: set<nat>)
    requires logged <= before + d + b + t
    ensures |logged - before| <= |d| + |b| + |t|
  {
    SubsetSize(logged - before, d + b + t);
    UnionSize(d + b, t);
    UnionSize(d, b);
  }

  lemma SubsetSize<T>(x: set<T>, y: set<T>)
    requires x <= y
    ensures |x| <= |y|
  {
    assert y == x + (y - x);
  }

  /** The whole bill of a write of at most CHUNK bytes, with the inode's block included. */
  lemma ChunkBill(sb: Super, fs0: Fs, ms0: seq<nat>, fs: Fs, ms: seq<nat>, i: nat, off: nat, n: nat,
                  before: set<nat>, logged: set<nat>, d: set<nat>, b: set<nat>)
    requires Shape(sb, fs0) && Shape(sb, fs) && i < sb.ninodes == |ms| == |ms0|
    requires Charged(sb, fs0, ms0, fs, ms, i, off, off + n, before, logged, d, b)
    requires ms0[i] == Blocks(fs0.inodes[i].size) && ms[i] == Max(ms0[i], Blocks(off + n))
    requires off <= fs0.inodes[i].size && n <= CHUNK
    ensures |logged - before| <= 9 && |logged + {IBlock(sb, i)} - before| <= 10
  {
    ChunkTouches(fs0.inodes[i].size, off, n);
    hide Blocks;
    LoggedAtMost(before, logged, d, b, Tables(sb, fs, i));
    SubsetSize(logged + {IBlock(sb, i)} - before, (logged - before) + {IBlock(sb, i)});
    UnionSize(logged - before, {IBlock(sb, i)});
  }

  lemma OnlySize(sb: Super, fs0: Fs, own0: Owners, fs: Fs, own: Owners, i: nat)
    requires Shape(sb, fs0) && Shape(sb, fs) && i < sb.ninodes && Only(sb, fs0, own0, fs, own, i)
    ensures fs.inodes[i].size == fs0.inodes[i].size
  {
  }
}
