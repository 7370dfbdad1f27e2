/** Giving a file's blocks back: bfree and itrunc. */
module FsTrunc {
  import opened Bytes
  import opened Bitmap
  import opened Dinode
  import opened FsState
  import opened FsGrow
  import opened FsData
  import opened FsStep

  /** bfree's effect: clear the bit of block b. */
  function FreeBlock(sb: Super, fs: Fs, b: nat): Fs
    requires Shape(sb, fs) && b < sb.size
  {
    var bb := BBlock(sb, b);
    fs.(blocks := fs.blocks[bb := ClearBlockBit(fs.blocks[bb], b % BPB)])
  }

  /** The blocks that inode i points to, directly or not. */
  function Held(sb: Super, fs: Fs, i: nat): set<nat>
    requires Shape(sb, fs) && i < sb.ninodes
  {
    (set bn | 0 <= bn < MAXFILE && Ptr(sb, fs, i, bn) != 0 :: Ptr(sb, fs, i, bn))
    + (if TableOf(sb, fs, i) != 0 then {TableOf(sb, fs, i)} else {})
  }

  /** Those blocks are exactly the ones that inode i owns. */
  lemma HeldIsOwned(sb: Super, fs: Fs, own: Owners, ms: seq<nat>, busy: int, i: nat, b: nat)
    requires Inv(sb, fs, own, ms, busy) && i < sb.ninodes
    ensures b in Held(sb, fs, i) <==> b in own && own[b].inum == i
  {
    assert Maps(sb, fs, own, i, ms[i]);
    if b in own && own[b].inum == i {
      assert Placed(sb, fs, own, b);
    }
  }

  /** From fs0, only bits of blocks in `gone` were cleared and only inode i's fields changed. */
  ghost predicate Freed(sb: Super, fs0: Fs, fs: Fs, i: nat, gone: set<nat>)
    requires Shape(sb, fs0)
  {
    && Shape(sb, fs)
    && (forall b :: 0 <= b < sb.bmapstart || sb.datastart <= b < sb.size ==> fs.blocks[b] == fs0.blocks[b])
    && (forall b :: 0 <= b < sb.size ==> (Allocated(sb, fs, b) <==> Allocated(sb, fs0, b) && b !in gone))
    && (forall j :: 0 <= j < sb.ninodes && j != i ==> fs.inodes[j] == fs0.inodes[j])
  }

  lemma FreeEffect(sb: Super, fs0: Fs, fs: Fs, i: nat, gone: set<nat>, r: nat)
    requires Shape(sb, fs0) && Freed(sb, fs0, fs, i, gone) && r < sb.size
    ensures Freed(sb, fs0, FreeBlock(sb, fs, r), i, gone + {r})
  {
    var fs' := FreeBlock(sb, fs, r);
    var bb := BBlock(sb, r);
    forall b | 0 <= b < sb.size ensures Allocated(sb, fs', b) <==> Allocated(sb, fs, b) && b != r {
      if BBlock(sb, b) == bb {
        BlockBitOfSet(fs.blocks[bb], r % BPB, b % BPB);
        assert b / BPB == r / BPB;
      }
    }
  }

  lemma ClearAddrFreed(sb: Super, fs0: Fs, fs: Fs, i: nat, gone: set<nat>, n: nat)
    requires Shape(sb, fs0) && Freed(sb, fs0, fs, i, gone) && i < sb.ninodes && n <= NDIRECT
    ensures Freed(sb, fs0, SetAddr(sb, fs, i, n, 0), i, gone)
  {
    var fs' := SetAddr(sb, fs, i, n, 0);
    forall b | 0 <= b < sb.size ensures Allocated(sb, fs', b) <==> Allocated(sb, fs, b) {
    }
  }

  lemma FreedPtr(sb: Super, fs0: Fs, fs: Fs, own: Owners, ms: seq<nat>, i: nat, gone: set<nat>, j: nat, bm: nat)
    requires Inv(sb, fs0, own, ms, i) && Freed(sb, fs0, fs, i, gone) && i < sb.ninodes && j < sb.ninodes && bm < MAXFILE
    requires forall n :: 0 <= n <= NDIRECT ==> fs.inodes[i].addrs[n] == 0
    ensures Ptr(sb, fs, j, bm) == if j == i then 0 else Ptr(sb, fs0, j, bm)
  {
    hide BitsMatch, Maps, Placed, Settled;
    TableOwned(sb, fs0, own, ms, i, j);
  }

  lemma TruncMaps(sb: Super, fs0: Fs, fs: Fs, own: Owners, own': Owners, i: nat, j: nat, m: nat)
    requires Shape(sb, fs0) && Shape(sb, fs) && j < sb.ninodes && j != i && Maps(sb, fs0, own, j, m)
    requires forall b :: b in own' <==> b in own && own[b].inum != i
    requires forall b :: b in own' ==> own'[b] == own[b]
    requires forall bm :: 0 <= bm < MAXFILE ==> Ptr(sb, fs, j, bm) == Ptr(sb, fs0, j, bm)
    requires TableOf(sb, fs, j) == TableOf(sb, fs0, j)
    ensures Maps(sb, fs, own', j, m)
  {
    hide Ptr;
  }

  /** Once all of inode i's blocks are free and its pointers zero, the invariant holds without them. */
  lemma TruncKeeps(sb: Super, fs0: Fs, fs: Fs, own: Owners, ms: seq<nat>, i: nat)
    requires i < sb.ninodes && Inv(sb, fs0, own, ms, i) && Freed(sb, fs0, fs, i, Held(sb, fs0, i))
    requires forall n :: 0 <= n <= NDIRECT ==> fs.inodes[i].addrs[n] == 0
    ensures Inv(sb, fs, own - Held(sb, fs0, i), ms[i := 0], i)
    ensures forall j, bm :: 0 <= j < sb.ninodes && 0 <= bm < MAXFILE && j != i ==>
      Ptr(sb, fs, j, bm) == Ptr(sb, fs0, j, bm)
  {
    var gone := Held(sb, fs0, i);
    var own', ms' := own - gone, ms[i := 0];
    hide Maps, Placed, Settled;
    forall b ensures b in gone ==> b in own
             ensures b in own' <==> b in own && own[b].inum != i {
      HeldIsOwned(sb, fs0, own, ms, i, i, b);
    }
    forall j, bm | 0 <= j < sb.ninodes && 0 <= bm < MAXFILE
      ensures Ptr(sb, fs, j, bm) == if j == i then 0 else Ptr(sb, fs0, j, bm)
    {
      FreedPtr(sb, fs0, fs, own, ms, i, gone, j, bm);
    }
    hide Held, Ptr, Allocated;
    TruncBits(sb, fs0, fs, own, gone, i);
    TruncPlaced(sb, fs0, fs, own, own', i);
    forall j | 0 <= j < sb.ninodes ensures Maps(sb, fs, own', j, ms'[j]) {
      if j == i {
        EmptyMaps(sb, fs, own', i);
      } else {
        TruncMaps(sb, fs0, fs, own, own', i, j, ms[j]);
      }
    }
    forall j | 0 <= j < sb.ninodes && j != i ensures Settled(sb, fs, j, ms'[j]) {
      FreedSettled(sb, fs0, fs, i, gone, j, ms[j]);
    }
  }

  lemma TruncBits(sb: Super, fs0: Fs, fs: Fs, own: Owners, gone: set<nat>, i: nat)
    requires Shape(sb, fs0) && Freed(sb, fs0, fs, i, gone) && BitsMatch(sb, fs0, own)
    requires forall b :: b in gone ==> b in own
    ensures BitsMatch(sb, fs, own - gone)
  {
    hide Allocated;
  }

  lemma EmptyMaps(sb: Super, fs: Fs, own: Owners, i: nat)
    requires Shape(sb, fs) && i < sb.ninodes && TableOf(sb, fs, i) == 0
    requires forall bm :: 0 <= bm < MAXFILE ==> Ptr(sb, fs, i, bm) == 0
    ensures Maps(sb, fs, own, i, 0)
  {
    hide Ptr;
  }

  lemma TruncPlaced(sb: Super, fs0: Fs, fs: Fs, own: Owners, own': Owners, i: nat)
    requires Shape(sb, fs0) && Shape(sb, fs) && i < sb.ninodes
    requires forall b :: b in own ==> Placed(sb, fs0, own, b)
    requires forall b :: b in own' ==> b in own && own'[b] == own[b] && own[b].inum != i
    requires forall j, bm :: 0 <= j < sb.ninodes && 0 <= bm < MAXFILE && j != i ==>
      Ptr(sb, fs, j, bm) == Ptr(sb, fs0, j, bm)
    requires forall j :: 0 <= j < sb.ninodes && j != i ==> TableOf(sb, fs, j) == TableOf(sb, fs0, j)
    ensures forall b :: b in own' ==> Placed(sb, fs, own', b)
  {
    hide Ptr;
    forall b | b in own' ensures Placed(sb, fs, own', b) {
      assert Placed(sb, fs0, own, b);
    }
  }

  lemma FreedSettled(sb: Super, fs0: Fs, fs: Fs, i: nat, gone: set<nat>, j: nat, m: nat)
    requires Shape(sb, fs0) && Freed(sb, fs0, fs, i, gone) && j < sb.ninodes && j != i && Settled(sb, fs0, j, m)
    ensures Settled(sb, fs, j, m)
  {
    assert IBlock(sb, j) < sb.bmapstart;
  }

  // ----- itrunc pointer by pointer

  function HeldUpTo(sb: Super, fs: Fs, i: nat, n: nat): set<nat>
    requires Shape(sb, fs) && i < sb.ninodes && n <= MAXFILE
  {
    set bn | 0 <= bn < n && Ptr(sb, fs, i, bn) != 0 :: Ptr(sb, fs, i, bn)
  }

  /** Going through the first n pointers of inode i, each one that is set was freed once. */
  ghost predicate Freeing(sb: Super, fs0: Fs, own: Owners, ms: seq<nat>, fs: Fs, i: nat, n: nat)
  {
    && i < sb.ninodes && n <= MAXFILE && Inv(sb, fs0, own, ms, IDLE)
    && Freed(sb, fs0, fs, i, HeldUpTo(sb, fs0, i, n))
    && (forall k :: 0 <= k <= NDIRECT ==>
      fs.inodes[i].addrs[k] == if k < n && k < NDIRECT then 0 else fs0.inodes[i].addrs[k])
    && fs.inodes[i] == fs0.inodes[i].(addrs := fs.inodes[i].addrs)
  }

  /** The next pointer names a block that is still allocated: "freeing free block" cannot happen. */
  lemma NextIsHeld(sb: Super, fs0: Fs, own: Owners, ms: seq<nat>, fs: Fs, i: nat, n: nat)
    requires Freeing(sb, fs0, own, ms, fs, i, n) && n < MAXFILE && Ptr(sb, fs0, i, n) != 0
    ensures Shape(sb, fs) && Ptr(sb, fs0, i, n) < sb.size && Allocated(sb, fs, Ptr(sb, fs0, i, n))
    ensures HeldUpTo(sb, fs0, i, n + 1) == HeldUpTo(sb, fs0, i, n) + {Ptr(sb, fs0, i, n)}
  {
    var p := Ptr(sb, fs0, i, n);
    PointersDistinct(sb, fs0, own, ms, IDLE, i, n, i, n);
    if p in HeldUpTo(sb, fs0, i, n) {
      var bn :| 0 <= bn < n && Ptr(sb, fs0, i, bn) == p;
      PointersDistinct(sb, fs0, own, ms, IDLE, i, n, i, bn);
    }
  }

  lemma NextIsFree(sb: Super, fs0: Fs, i: nat, n: nat)
    requires Shape(sb, fs0) && i < sb.ninodes && n < MAXFILE && Ptr(sb, fs0, i, n) == 0
    ensures HeldUpTo(sb, fs0, i, n + 1) == HeldUpTo(sb, fs0, i, n)
  {
  }

  /** bfree of a direct pointer, and clearing it. */
  lemma FreeDirect(sb: Super, fs0: Fs, own: Owners, ms: seq<nat>, fs: Fs, i: nat, n: nat)
    requires Freeing(sb, fs0, own, ms, fs, i, n) && n < NDIRECT && Ptr(sb, fs0, i, n) != 0
    requires Shape(sb, fs) && Ptr(sb, fs0, i, n) < sb.size && Shape(sb, FreeBlock(sb, fs, Ptr(sb, fs0, i, n)))
    ensures Freeing(sb, fs0, own, ms, SetAddr(sb, FreeBlock(sb, fs, Ptr(sb, fs0, i, n)), i, n, 0), i, n + 1)
  {
    hide Inv;
    NextIsHeld(sb, fs0, own, ms, fs, i, n);
    hide HeldUpTo, Ptr;
    ShapeIs(sb, fs0, own, ms);
    FreeEffect(sb, fs0, fs, i, HeldUpTo(sb, fs0, i, n), Ptr(sb, fs0, i, n));
    ClearAddrFreed(sb, fs0, FreeBlock(sb, fs, Ptr(sb, fs0, i, n)), i, HeldUpTo(sb, fs0, i, n + 1), n);
  }

  lemma ShapeIs(sb: Super, fs: Fs, own: Owners, ms: seq<nat>)
    requires Inv(sb, fs, own, ms, IDLE)
    ensures Shape(sb, fs)
  {
  }

  /** bfree of an entry of the indirect block. */
  lemma FreeEntry(sb: Super, fs0: Fs, own: Owners, ms: seq<nat>, fs: Fs, i: nat, n: nat)
    requires Freeing(sb, fs0, own, ms, fs, i, n) && NDIRECT <= n < MAXFILE && Ptr(sb, fs0, i, n) != 0
    requires Shape(sb, fs) && Ptr(sb, fs0, i, n) < sb.size
    ensures Freeing(sb, fs0, own, ms, FreeBlock(sb, fs, Ptr(sb, fs0, i, n)), i, n + 1)
  {
    hide Inv;
    NextIsHeld(sb, fs0, own, ms, fs, i, n);
    hide HeldUpTo, Ptr;
    ShapeIs(sb, fs0, own, ms);
    FreeEffect(sb, fs0, fs, i, HeldUpTo(sb, fs0, i, n), Ptr(sb, fs0, i, n));
  }

  lemma FreeNone(sb: Super, fs0: Fs, own: Owners, ms: seq<nat>, fs: Fs, i: nat, n: nat)
    requires Freeing(sb, fs0, own, ms, fs, i, n) && n < MAXFILE && Shape(sb, fs0) && Ptr(sb, fs0, i, n) == 0
    ensures Freeing(sb, fs0, own, ms, fs, i, n + 1)
  {
    NextIsFree(sb, fs0, i, n);
  }

  /** Without an indirect block the direct pointers are all there is. */
  lemma HeldDirect(sb: Super, fs: Fs, i: nat)
    requires Shape(sb, fs) && i < sb.ninodes && TableOf(sb, fs, i) == 0
    ensures HeldUpTo(sb, fs, i, NDIRECT) == Held(sb, fs, i)
  {
    assert forall bn :: NDIRECT <= bn < MAXFILE ==> Ptr(sb, fs, i, bn) == 0;
  }

  lemma TableIsHeld(sb: Super, fs0: Fs, own: Owners, ms: seq<nat>, fs: Fs, i: nat)
    requires Freeing(sb, fs0, own, ms, fs, i, MAXFILE) && Shape(sb, fs0) && TableOf(sb, fs0, i) != 0
    ensures Shape(sb, fs) && TableOf(sb, fs0, i) < sb.size && Allocated(sb, fs, TableOf(sb, fs0, i))
    ensures HeldUpTo(sb, fs0, i, MAXFILE) + {TableOf(sb, fs0, i)} == Held(sb, fs0, i)
  {
    var t := TableOf(sb, fs0, i);
    TableOwned(sb, fs0, own, ms, IDLE, i);
    if t in HeldUpTo(sb, fs0, i, MAXFILE) {
      var bn :| 0 <= bn < MAXFILE && Ptr(sb, fs0, i, bn) == t;
      PointersDistinct(sb, fs0, own, ms, IDLE, i, bn, i, bn);
    }
  }

  /** What itrunc promises: exactly the blocks of inode i are free now, its size is 0, its other fields are
      as they were, and no other inode, and no other file's content, has changed. */
  ghost predicate Truncated(sb: Super, fs0: Fs, fs: Fs, i: nat) {
    && Shape(sb, fs0) && Shape(sb, fs) && i < sb.ninodes
    && (forall b :: 0 <= b < sb.size ==> (Allocated(sb, fs, b) <==> Allocated(sb, fs0, b) && b !in Held(sb, fs0, i)))
    && fs.inodes[i] == fs0.inodes[i].(size := 0, addrs := fs.inodes[i].addrs)
    && (forall n :: 0 <= n <= NDIRECT ==> fs.inodes[i].addrs[n] == 0)
    && (forall j :: 0 <= j < sb.ninodes && j != i ==>
          fs.inodes[j] == fs0.inodes[j] && Content(sb, fs, j) == Content(sb, fs0, j))
  }

  lemma SameContent(sb: Super, fs0: Fs, fs: Fs, own: Owners, ms: seq<nat>, j: nat)
    requires Inv(sb, fs0, own, ms, IDLE) && Shape(sb, fs) && j < sb.ninodes && fs.inodes[j] == fs0.inodes[j]
    requires forall bm :: 0 <= bm < MAXFILE ==> Ptr(sb, fs, j, bm) == Ptr(sb, fs0, j, bm)
    requires forall b :: sb.datastart <= b < sb.size ==> fs.blocks[b] == fs0.blocks[b]
    ensures Content(sb, fs, j) == Content(sb, fs0, j)
  {
    assert Settled(sb, fs0, j, ms[j]) && Maps(sb, fs0, own, j, ms[j]);
    forall k | 0 <= k < MAXSIZE ensures FileByte(sb, fs, j, k) == FileByte(sb, fs0, j, k) {
      PointersDistinct(sb, fs0, own, ms, IDLE, j, k / BSIZE, j, k / BSIZE);
      assert Ptr(sb, fs, j, k / BSIZE) == Ptr(sb, fs0, j, k / BSIZE);
      assert 0 < Ptr(sb, fs0, j, k / BSIZE) ==> Ptr(sb, fs0, j, k / BSIZE) in own;
      hide Inv, Ptr, Maps;
    }
    hide FileByte;
  }

  lemma TruncEnds(sb: Super, fs0: Fs, own: Owners, ms: seq<nat>, fs: Fs, i: nat)
    requires i < sb.ninodes && Inv(sb, fs0, own, ms, IDLE) && Freed(sb, fs0, fs, i, Held(sb, fs0, i))
    requires forall n :: 0 <= n <= NDIRECT ==> fs.inodes[i].addrs[n] == 0
    requires fs.inodes[i] == fs0.inodes[i].(addrs := fs.inodes[i].addrs)
    ensures Shape(sb, SetSize(sb, fs, i, 0))
    ensures var fs2 := Stored(sb, SetSize(sb, fs, i, 0), i);
      Inv(sb, fs2, own - Held(sb, fs0, i), ms[i := 0], IDLE) && Truncated(sb, fs0, fs2, i)
  {
    hide BitsMatch, Maps, Placed, Settled, Ptr, Content, Stored, Held;
    var own', ms' := own - Held(sb, fs0, i), ms[i := 0];
    Busy(sb, fs0, own, ms, i);
    TruncKeeps(sb, fs0, fs, own, ms, i);
    var fs1 := SetSize(sb, fs, i, 0);
    SetSizeKeeps(sb, fs, own', ms', i, 0);
    var fs2 := Stored(sb, fs1, i);
    StoredKeeps(sb, fs1, own', ms', i);
    StoredEffect(sb, fs1, i);
    SizeBits(sb, fs, i, 0);
    NowSettled(sb, fs2, i);
    Idle(sb, fs2, own', ms', i);
    hide Allocated, StoredInode;
    forall j | 0 <= j < sb.ninodes && j != i ensures Content(sb, fs2, j) == Content(sb, fs0, j) {
      SameContent(sb, fs0, fs2, own, ms, j);
    }
  }

  lemma SizeBits(sb: Super, fs: Fs, i: nat, size: Uint)
    requires Shape(sb, fs) && i < sb.ninodes && size <= MAXSIZE
    ensures Shape(sb, SetSize(sb, fs, i, size))
    ensures forall b :: 0 <= b < sb.size ==> Allocated(sb, SetSize(sb, fs, i, size), b) == Allocated(sb, fs, b)
  {
  }

  lemma NowSettled(sb: Super, fs: Fs, i: nat)
    requires Shape(sb, fs) && i < sb.ninodes && fs.inodes[i].size == 0 && TableOf(sb, fs, i) == 0
    requires StoredInode(sb, fs, i) == fs.inodes[i]
    ensures Settled(sb, fs, i, 0)
  {
  }

  /** What iput does to an inode without links: nothing is left of it, and every other file is as before. */
  ghost predicate Gone(sb: Super, fs0: Fs, fs: Fs, i: nat) {
    && Shape(sb, fs0) && Shape(sb, fs) && i < sb.ninodes
    && (forall b :: 0 <= b < sb.size ==> (Allocated(sb, fs, b) <==> Allocated(sb, fs0, b) && b !in Held(sb, fs0, i)))
    && fs.inodes[i] == fs0.inodes[i].(kind := 0, size := 0, addrs := fs.inodes[i].addrs)
    && (forall n :: 0 <= n <= NDIRECT ==> fs.inodes[i].addrs[n] == 0)
    && (forall j :: 0 <= j < sb.ninodes && j != i ==>
          fs.inodes[j] == fs0.inodes[j] && Content(sb, fs, j) == Content(sb, fs0, j))
  }

  /** Clearing the type of a truncated inode and storing it. */
  lemma GoneEnds(sb: Super, fs0: Fs, fs: Fs, own: Owners, ms: seq<nat>, i: nat, ip: Inode)
    requires Inv(sb, fs, own, ms, IDLE) && Truncated(sb, fs0, fs, i) && ip == fs.inodes[i].(kind := 0)
    ensures Shape(sb, fs.(inodes := fs.inodes[i := ip]))
    ensures var fs' := Stored(sb, fs.(inodes := fs.inodes[i := ip]), i);
      Inv(sb, fs', own, ms, IDLE) && Gone(sb, fs0, fs', i)
  {
    hide BitsMatch, Maps, Placed, Ptr, Stored, Held, FileByte, PutInode, Blocks;
    var fs' := Stored(sb, fs.(inodes := fs.inodes[i := ip]), i);
    assert Settled(sb, fs, i, ms[i]);
    Busy(sb, fs, own, ms, i);
    PutInodeKeeps(sb, fs, own, ms, i, ip);
    StoredIsPut(sb, fs, i, ip);
    StoredEffect(sb, fs.(inodes := fs.inodes[i := ip]), i);
    KindBits(sb, fs, i, ip);
    hide Settled, Allocated;
    forall j | 0 <= j < sb.ninodes && j != i ensures Content(sb, fs', j) == Content(sb, fs, j) {
    }
  }

  lemma KindBits(sb: Super, fs: Fs, i: nat, ip: Inode)
    requires Shape(sb, fs) && i < sb.ninodes && |ip.addrs| == NDIRECT + 1 && ip.size <= MAXSIZE
    ensures Shape(sb, fs.(inodes := fs.inodes[i := ip]))
    ensures forall b :: 0 <= b < sb.size ==>
      Allocated(sb, fs.(inodes := fs.inodes[i := ip]), b) == Allocated(sb, fs, b)
  {
  }

  // ----- what itrunc logs

  /** The bitmap blocks with the bits of the blocks in `held`. */
  function Bits(sb: Super, held: set<nat>): set<nat> {
    set b | b in held :: BBlock(sb, b)
  }

  lemma BitsAdd(sb: Super, held: set<nat>, p: nat)
    ensures Bits(sb, held + {p}) == Bits(sb, held) + {BBlock(sb, p)}
  {
  }

  /** The blocks that itrunc logs: those bitmap blocks and the inode's block. */
  function TruncLog(sb: Super, fs: Fs, i: nat): set<nat>
    requires Shape(sb, fs) && i < sb.ninodes
  {
    Bits(sb, Held(sb, fs, i)) + {IBlock(sb, i)}
  }

  lemma {:induction false} Spread(a: set<nat>, lo: nat, n: nat)
    requires forall x :: x in a ==> lo <= x < lo + n
    ensures |a| <= n
  {
    if n > 0 {
      Spread(a - {lo + n - 1}, lo, n - 1);
    } else {
      assert a == {};
    }
  }

  /** However long the file, they are at most the bitmap and one block more. */
  lemma TruncBill(sb: Super, fs: Fs, own: Owners, ms: seq<nat>, busy: int, i: nat)
    requires Inv(sb, fs, own, ms, busy) && i < sb.ninodes
    ensures |TruncLog(sb, fs, i)| <= sb.size / BPB + 2
  {
    var held := Held(sb, fs, i);
    forall b | b in held ensures b < sb.size {
      HeldIsOwned(sb, fs, own, ms, busy, i, b);
    }
    hide Inv, Held;
    Spread(Bits(sb, held), sb.bmapstart, sb.size / BPB + 1);
  }
}
