/** The steps of bmap, each with what it keeps: the invariant, and every byte already there. */
module FsStep {
  import opened Bytes
  import opened Dinode
  import opened FsState
  import opened FsGrow
  import opened FsData

  /** Every byte of every mapped block is as before. */
  ghost predicate Kept(sb: Super, fs: Fs, ms: seq<nat>, fs': Fs)
    requires Shape(sb, fs) && Shape(sb, fs') && |ms| == sb.ninodes
  {
    forall j, k :: 0 <= j < sb.ninodes && 0 <= k < MAXSIZE && k / BSIZE < ms[j] ==>
      FileByte(sb, fs', j, k) == FileByte(sb, fs, j, k)
  }

  lemma KeptByPtrs(sb: Super, fs: Fs, own: Owners, ms: seq<nat>, busy: int, fs': Fs)
    requires Inv(sb, fs, own, ms, busy) && Shape(sb, fs') && SameData(fs, fs', own)
    requires forall j, bn :: 0 <= j < sb.ninodes && 0 <= bn < ms[j] && bn < MAXFILE ==>
      Ptr(sb, fs', j, bn) == Ptr(sb, fs, j, bn)
    ensures Kept(sb, fs, ms, fs')
  {
    forall j, k | 0 <= j < sb.ninodes && 0 <= k < MAXSIZE && k / BSIZE < ms[j]
      ensures FileByte(sb, fs', j, k) == FileByte(sb, fs, j, k)
    {
      assert Maps(sb, fs, own, j, ms[j]);
      hide BitsMatch, Placed, Settled, Ptr;
    }
  }

  /** No bit is clear: the state in which balloc panics. */
  ghost predicate Full(sb: Super, fs: Fs) {
    Shape(sb, fs) && forall b :: 0 <= b < sb.size ==> Allocated(sb, fs, b)
  }

  /** How many bits are clear. */
  ghost function FreeBlocks(sb: Super, fs: Fs): nat
    requires Shape(sb, fs)
  {
    |FreeSet(sb, fs)|
  }

  ghost function FreeSet(sb: Super, fs: Fs): set<nat>
    requires Shape(sb, fs)
  {
    set b: nat | b < sb.size && !Allocated(sb, fs, b)
  }

  function Taken(own: Owners): nat {
    |own.Keys|
  }

  /** The blocks that can be allocated. */
  function Capacity(sb: Super): int {
    sb.size - sb.datastart
  }

  /** The blocks that a file with m mapped blocks takes: those and, past NDIRECT, the indirect block. */
  function Cost(m: nat): nat {
    if m <= NDIRECT then m else m + 1
  }

  /** The blocks that extending a file from size to end takes. */
  function Needs(size: nat, end: nat): int {
    Cost(Blocks(if size < end then end else size)) - Cost(Blocks(size))
  }

  lemma {:induction false} Interval(lo: nat, n: nat, a: set<nat>)
    requires forall b :: b in a <==> lo <= b < lo + n
    ensures |a| == n
  {
    if n > 0 {
      Interval(lo, n - 1, a - {lo + n - 1});
    } else {
      assert a == {};
    }
  }

  /** The bitmap and the owners count the same blocks. */
  lemma FreeCount(sb: Super, fs: Fs, own: Owners, ms: seq<nat>, busy: int)
    requires Inv(sb, fs, own, ms, busy)
    ensures Shape(sb, fs) && FreeBlocks(sb, fs) == Capacity(sb) - Taken(own)
    ensures Full(sb, fs) <==> Taken(own) == Capacity(sb)
  {
    hide Maps, Placed, Settled, Allocated;
    var free := FreeSet(sb, fs);
    Interval(sb.datastart, sb.size - sb.datastart, free + own.Keys);
    assert free !! own.Keys;
    if !Full(sb, fs) {
      var b: nat :| b < sb.size && !Allocated(sb, fs, b);
      assert b in free;
    } else {
      assert free == {};
    }
  }

  lemma CostGrows(m: nat, n: nat)
    requires m <= n
    ensures Cost(m) <= Cost(n)
  {
  }

  /** What bmap may change besides block contents: pointers of inode i; and owners are only added. */
  ghost predicate Only(sb: Super, fs: Fs, own: Owners, fs': Fs, own': Owners, i: nat)
    requires Shape(sb, fs) && Shape(sb, fs') && i < sb.ninodes
  {
    && (forall j :: 0 <= j < sb.ninodes && j != i ==> fs'.inodes[j] == fs.inodes[j])
    && fs'.inodes[i] == fs.inodes[i].(addrs := fs'.inodes[i].addrs)
    && (forall b :: 0 <= b < sb.bmapstart ==> fs'.blocks[b] == fs.blocks[b])
    && (forall b :: b in own ==> b in own' && own'[b] == own[b])
  }

  /** One step of bmap, as a step on the state: the invariant, and what stayed. */
  ghost predicate Step(sb: Super, fs: Fs, own: Owners, ms: seq<nat>, fs': Fs, own': Owners, ms': seq<nat>, i: nat) {
    && i < sb.ninodes && |ms| == sb.ninodes && Shape(sb, fs)
    && Inv(sb, fs', own', ms', i)
    && Kept(sb, fs, ms, fs') && Only(sb, fs, own, fs', own', i)
  }

  lemma DirectStep(sb: Super, fs: Fs, own: Owners, ms: seq<nat>, i: nat, r: nat)
    requires i < sb.ninodes && Inv(sb, fs, own, ms, i) && ms[i] < NDIRECT
    requires sb.datastart <= r < sb.size && !Allocated(sb, fs, r)
    ensures Shape(sb, Alloc(sb, fs, r))
    ensures var fs' := SetAddr(sb, Alloc(sb, fs, r), i, ms[i], r);
      && Step(sb, fs, own, ms, fs', own[r := Data(i, ms[i])], ms[i := ms[i] + 1], i)
      && Ptr(sb, fs', i, ms[i]) == r && TableOf(sb, fs', i) == TableOf(sb, fs, i)
  {
    hide BitsMatch, Maps, Placed, Settled, Allocated, Alloc;
    MapDirect(sb, fs, own, ms, i, r);
    TakeBlock(sb, fs, own, ms, i, r);
    KeptByPtrs(sb, fs, own, ms, i, SetAddr(sb, Alloc(sb, fs, r), i, ms[i], r));
    assert Took(sb, fs, Alloc(sb, fs, r), i, r);
  }

  lemma TableStep(sb: Super, fs: Fs, own: Owners, ms: seq<nat>, i: nat, r: nat)
    requires i < sb.ninodes && Inv(sb, fs, own, ms, i) && TableOf(sb, fs, i) == 0
    requires sb.datastart <= r < sb.size && !Allocated(sb, fs, r)
    ensures Shape(sb, Alloc(sb, fs, r))
    ensures var fs' := SetAddr(sb, Alloc(sb, fs, r), i, NDIRECT, r);
      Step(sb, fs, own, ms, fs', own[r := Table(i)], ms, i) && TableOf(sb, fs', i) == r
  {
    hide BitsMatch, Maps, Placed, Settled, Allocated, Alloc;
    MapTable(sb, fs, own, ms, i, r);
    TakeBlock(sb, fs, own, ms, i, r);
    KeptByPtrs(sb, fs, own, ms, i, SetAddr(sb, Alloc(sb, fs, r), i, NDIRECT, r));
    assert Took(sb, fs, Alloc(sb, fs, r), i, r);
  }

  lemma EntryStep(sb: Super, fs: Fs, own: Owners, ms: seq<nat>, i: nat, r: nat)
    requires i < sb.ninodes && Inv(sb, fs, own, ms, i) && NDIRECT <= ms[i] < MAXFILE && TableOf(sb, fs, i) != 0
    requires sb.datastart <= r < sb.size && !Allocated(sb, fs, r)
    ensures Shape(sb, Alloc(sb, fs, r)) && TableOf(sb, fs, i) < sb.size
    ensures Alloc(sb, fs, r).blocks[TableOf(sb, fs, i)] == fs.blocks[TableOf(sb, fs, i)]
    ensures var fs' := SetEntry(sb, Alloc(sb, fs, r), TableOf(sb, fs, i), ms[i] - NDIRECT, r);
      && Step(sb, fs, own, ms, fs', own[r := Data(i, ms[i])], ms[i := ms[i] + 1], i)
      && Ptr(sb, fs', i, ms[i]) == r && TableOf(sb, fs', i) == TableOf(sb, fs, i)
  {
    hide BitsMatch, Maps, Placed, Settled, Allocated, Alloc;
    MapEntry(sb, fs, own, ms, i, r);
    TakeBlock(sb, fs, own, ms, i, r);
    TableOwned(sb, fs, own, ms, i, i);
    KeptByPtrs(sb, fs, own, ms, i, SetEntry(sb, Alloc(sb, fs, r), TableOf(sb, fs, i), ms[i] - NDIRECT, r));
    assert Took(sb, fs, Alloc(sb, fs, r), i, r);
  }

  lemma PtrMapped(sb: Super, fs: Fs, own: Owners, ms: seq<nat>, busy: int, i: nat, bn: nat)
    requires i < sb.ninodes && Inv(sb, fs, own, ms, busy) && bn < MAXFILE
    ensures Ptr(sb, fs, i, bn) != 0 <==> bn < ms[i]
    ensures bn < ms[i] ==> sb.datastart <= Ptr(sb, fs, i, bn) < sb.size
    ensures NDIRECT < ms[i] ==> TableOf(sb, fs, i) != 0
  {
    assert Maps(sb, fs, own, i, ms[i]);
  }

  lemma StepNone(sb: Super, fs: Fs, own: Owners, ms: seq<nat>, i: nat)
    requires i < sb.ninodes && Inv(sb, fs, own, ms, i)
    ensures Step(sb, fs, own, ms, fs, own, ms, i)
  {
  }

  /** Two steps in a row. */
  lemma StepTwice(sb: Super, fs: Fs, own: Owners, ms: seq<nat>, fs1: Fs, own1: Owners,
                  fs2: Fs, own2: Owners, ms2: seq<nat>, i: nat)
    requires Step(sb, fs, own, ms, fs1, own1, ms, i) && Step(sb, fs1, own1, ms, fs2, own2, ms2, i)
    ensures Step(sb, fs, own, ms, fs2, own2, ms2, i)
  {
    hide BitsMatch, Maps, Placed, Settled, FileByte;
    forall j, k | 0 <= j < sb.ninodes && 0 <= k < MAXSIZE && k / BSIZE < ms[j]
      ensures FileByte(sb, fs2, j, k) == FileByte(sb, fs, j, k)
    {
      assert FileByte(sb, fs1, j, k) == FileByte(sb, fs, j, k);
    }
  }

  lemma OnlyTrans(sb: Super, fs: Fs, own: Owners, fs1: Fs, own1: Owners, fs2: Fs, own2: Owners, i: nat)
    requires Shape(sb, fs) && Shape(sb, fs1) && Shape(sb, fs2) && i < sb.ninodes
    requires Only(sb, fs, own, fs1, own1, i) && Only(sb, fs1, own1, fs2, own2, i)
    ensures Only(sb, fs, own, fs2, own2, i)
  {
  }

  lemma OnlyPut(sb: Super, fs: Fs, own: Owners, a: nat, x: Block, i: nat)
    requires Shape(sb, fs) && i < sb.ninodes && sb.datastart <= a < sb.size
    ensures Shape(sb, PutBlock(sb, fs, a, x)) && Only(sb, fs, own, PutBlock(sb, fs, a, x), own, i)
  {
  }

  // ----- writing an inode

  /** winode: inode i becomes ip, on the disk too. */
  function PutInode(sb: Super, fs: Fs, i: nat, ip: Inode): Fs
    requires Shape(sb, fs) && i < sb.ninodes && |ip.addrs| == NDIRECT + 1
  {
    var ib := IBlock(sb, i);
    Fs(fs.blocks[ib := PutDinode(fs.blocks[ib], i % IPB, ip)], fs.inodes[i := ip])
  }

  /** Every byte of every file, mapped or not. */
  ghost predicate SameBytes(sb: Super, fs: Fs, fs': Fs)
    requires Shape(sb, fs) && Shape(sb, fs')
  {
    forall j, k :: 0 <= j < sb.ninodes && 0 <= k < MAXSIZE ==> FileByte(sb, fs', j, k) == FileByte(sb, fs, j, k)
  }

  lemma SetInodeKeeps(sb: Super, fs: Fs, own: Owners, ms: seq<nat>, i: nat, ip: Inode)
    requires i < sb.ninodes && Inv(sb, fs, own, ms, i) && ip.addrs == fs.inodes[i].addrs && ip.size <= MAXSIZE
    ensures var fs' := fs.(inodes := fs.inodes[i := ip]);
      && Inv(sb, fs', own, ms, i)
      && (forall j, bm :: 0 <= j < sb.ninodes && 0 <= bm < MAXFILE ==> Ptr(sb, fs', j, bm) == Ptr(sb, fs, j, bm))
  {
    var fs' := fs.(inodes := fs.inodes[i := ip]);
    assert forall j :: 0 <= j < sb.ninodes ==> fs'.inodes[j].addrs == fs.inodes[j].addrs;
    hide BitsMatch, Maps, Placed, Settled;
    forall j, bm | 0 <= j < sb.ninodes && 0 <= bm < MAXFILE ensures Ptr(sb, fs', j, bm) == Ptr(sb, fs, j, bm) {
    }
    forall b | 0 <= b < sb.size ensures Allocated(sb, fs', b) == Allocated(sb, fs, b) {
    }
    hide Inv, Ptr, Allocated;
    SamePtrsKeep(sb, fs, fs', own, ms, i);
  }

  /** Writing an inode with the same pointers changes no byte; when its size says how much is mapped,
      the work on it is done. */
  lemma PutInodeKeeps(sb: Super, fs: Fs, own: Owners, ms: seq<nat>, i: nat, ip: Inode)
    requires i < sb.ninodes && Inv(sb, fs, own, ms, i) && ip.addrs == fs.inodes[i].addrs && ip.size <= MAXSIZE
    ensures var fs' := PutInode(sb, fs, i, ip);
      && Inv(sb, fs', own, ms, i) && SameBytes(sb, fs, fs')
      && (forall bm :: 0 <= bm < MAXFILE ==> Ptr(sb, fs', i, bm) == Ptr(sb, fs, i, bm))
      && (Blocks(ip.size) == ms[i] && (ms[i] <= NDIRECT ==> TableOf(sb, fs, i) == 0) ==> Inv(sb, fs', own, ms, IDLE))
  {
    hide BitsMatch, Maps, Placed, Ptr, Blocks, Stored;
    var fs1 := fs.(inodes := fs.inodes[i := ip]);
    var fs' := PutInode(sb, fs, i, ip);
    SetInodeKeeps(sb, fs, own, ms, i, ip);
    StoredKeeps(sb, fs1, own, ms, i);
    StoredIsPut(sb, fs, i, ip);
    StoredEffect(sb, fs1, i);
    forall j, k | 0 <= j < sb.ninodes && 0 <= k < MAXSIZE ensures FileByte(sb, fs', j, k) == FileByte(sb, fs, j, k) {
      PtrMapped(sb, fs, own, ms, i, j, k / BSIZE);
    }
    if Blocks(ip.size) == ms[i] && (ms[i] <= NDIRECT ==> TableOf(sb, fs, i) == 0) {
      Idle(sb, fs', own, ms, i);
    }
  }

  lemma StoredIsPut(sb: Super, fs: Fs, i: nat, ip: Inode)
    requires Shape(sb, fs) && i < sb.ninodes && |ip.addrs| == NDIRECT + 1 && ip.size <= MAXSIZE
    ensures Shape(sb, fs.(inodes := fs.inodes[i := ip]))
    ensures PutInode(sb, fs, i, ip) == Stored(sb, fs.(inodes := fs.inodes[i := ip]), i)
  {
  }
}
