/** Growing a file by one block: what balloc and bmap do to the blocks and the inode. */
module FsGrow {
  import opened Bytes
  import opened Bitmap
  import opened Dinode
  import opened FsState

  // ----- the state changes

  /** balloc's effect for block r: set its bit, zero it. */
  function Alloc(sb: Super, fs: Fs, r: nat): Fs
    requires Shape(sb, fs) && r < sb.size
  {
    var bb := BBlock(sb, r);
    fs.(blocks := fs.blocks[bb := SetBlockBit(fs.blocks[bb], r % BPB)][r := ZeroBlock()])
  }

  /** The n-th block pointer of inode i becomes r. */
  function SetAddr(sb: Super, fs: Fs, i: nat, n: nat, r: Uint): Fs
    requires Shape(sb, fs) && i < sb.ninodes && n <= NDIRECT
  {
    var ip := fs.inodes[i];
    fs.(inodes := fs.inodes[i := ip.(addrs := ip.addrs[n := r])])
  }

  /** The n-th entry of the indirect block t becomes r. */
  function SetEntry(sb: Super, fs: Fs, t: nat, n: nat, r: Uint): Fs
    requires Shape(sb, fs) && t < sb.size && n < NINDIRECT
  {
    fs.(blocks := fs.blocks[t := PutWord(fs.blocks[t], n, r)])
  }

  // ----- their effects

  lemma AllocEffect(sb: Super, fs: Fs, r: nat)
    requires Shape(sb, fs) && sb.datastart <= r < sb.size
    ensures var fs' := Alloc(sb, fs, r);
      && Shape(sb, fs') && fs'.inodes == fs.inodes
      && fs'.blocks[r] == ZeroBlock()
      && (forall b :: sb.datastart <= b < sb.size && b != r ==> fs'.blocks[b] == fs.blocks[b])
      && (forall b :: 0 <= b < sb.bmapstart ==> fs'.blocks[b] == fs.blocks[b])
      && (forall b :: 0 <= b < sb.size ==> (Allocated(sb, fs', b) <==> Allocated(sb, fs, b) || b == r))
  {
    var fs' := Alloc(sb, fs, r);
    var bb := BBlock(sb, r);
    forall b | 0 <= b < sb.size ensures Allocated(sb, fs', b) <==> Allocated(sb, fs, b) || b == r {
      if BBlock(sb, b) == bb {
        BlockBitOfSet(fs.blocks[bb], r % BPB, b % BPB);
        assert b / BPB == r / BPB;
      }
    }
  }

  /** The bits and the metadata after a block was allocated and then only data blocks or the
      pointers of inode i were changed. */
  ghost predicate Took(sb: Super, fs: Fs, fs': Fs, i: nat, r: nat)
    requires Shape(sb, fs)
  {
    && Shape(sb, fs')
    && (forall b :: 0 <= b < sb.size ==> (Allocated(sb, fs', b) <==> Allocated(sb, fs, b) || b == r))
    && (forall b :: 0 <= b < sb.bmapstart ==> fs'.blocks[b] == fs.blocks[b])
    && (forall j :: 0 <= j < sb.ninodes && j != i ==> fs'.inodes[j] == fs.inodes[j])
  }

  /** Exactly one pointer differs: the bn-th of inode i is now r. */
  ghost predicate OnePtr(sb: Super, fs: Fs, fs': Fs, i: nat, bn: nat, r: nat)
    requires Shape(sb, fs) && Shape(sb, fs')
  {
    forall j, bm :: 0 <= j < sb.ninodes && 0 <= bm < MAXFILE ==>
      Ptr(sb, fs', j, bm) == if j == i && bm == bn then r else Ptr(sb, fs, j, bm)
  }

  ghost predicate SameTables(sb: Super, fs: Fs, fs': Fs)
    requires Shape(sb, fs) && Shape(sb, fs')
  {
    forall j :: 0 <= j < sb.ninodes ==> TableOf(sb, fs', j) == TableOf(sb, fs, j)
  }

  lemma TookSettled(sb: Super, fs: Fs, fs': Fs, i: nat, r: nat, j: nat, m: nat)
    requires Shape(sb, fs) && Took(sb, fs, fs', i, r) && j < sb.ninodes && j != i && Settled(sb, fs, j, m)
    ensures Settled(sb, fs', j, m)
  {
    assert IBlock(sb, j) < sb.bmapstart;
  }

  lemma GrowMaps(sb: Super, fs: Fs, fs': Fs, own: Owners, j: nat, m: nat, i: nat, bn: nat, r: nat)
    requires Shape(sb, fs) && Shape(sb, fs') && j < sb.ninodes && i < sb.ninodes && bn < MAXFILE && sb.datastart <= r
    requires OnePtr(sb, fs, fs', i, bn, r) && SameTables(sb, fs, fs') && r !in own
    requires Maps(sb, fs, own, j, m) && (j == i ==> m == bn && (NDIRECT <= bn ==> TableOf(sb, fs, i) != 0))
    ensures Maps(sb, fs', own[r := Data(i, bn)], j, if j == i then bn + 1 else m)
  {
    var own', m' := own[r := Data(i, bn)], if j == i then bn + 1 else m;
    forall bm | 0 <= bm < m' ensures Ptr(sb, fs', j, bm) in own' && own'[Ptr(sb, fs', j, bm)] == Data(j, bm) {
      assert Ptr(sb, fs', j, bm) == if j == i && bm == bn then r else Ptr(sb, fs, j, bm);
    }
  }

  lemma GrowPlaced(sb: Super, fs: Fs, fs': Fs, own: Owners, i: nat, bn: nat, r: nat, b: nat)
    requires Shape(sb, fs) && Shape(sb, fs') && i < sb.ninodes && bn < MAXFILE
    requires OnePtr(sb, fs, fs', i, bn, r) && SameTables(sb, fs, fs') && r !in own
    requires Ptr(sb, fs, i, bn) == 0 && b in own && sb.datastart <= b && Placed(sb, fs, own, b)
    ensures Placed(sb, fs', own[r := Data(i, bn)], b)
  {
  }

  lemma NewPlaced(sb: Super, fs: Fs, fs': Fs, own: Owners, i: nat, bn: nat, r: nat)
    requires Shape(sb, fs) && Shape(sb, fs') && i < sb.ninodes && bn < MAXFILE && OnePtr(sb, fs, fs', i, bn, r)
    ensures Placed(sb, fs', own[r := Data(i, bn)], r)
  {
    assert Ptr(sb, fs', i, bn) == r;
  }

  /** A free block is nobody's; once taken and recorded, the bits match again. */
  lemma GrowBits(sb: Super, fs: Fs, fs': Fs, own: Owners, i: nat, r: nat, o: Owner)
    requires Shape(sb, fs) && BitsMatch(sb, fs, own) && Took(sb, fs, fs', i, r)
    requires sb.datastart <= r < sb.size && !Allocated(sb, fs, r)
    ensures r !in own && BitsMatch(sb, fs', own[r := o])
  {
    hide Allocated;
  }

  lemma GrowAllPlaced(sb: Super, fs: Fs, fs': Fs, own: Owners, own': Owners, i: nat, bn: nat, r: nat)
    requires Shape(sb, fs) && Shape(sb, fs') && i < sb.ninodes && bn < MAXFILE && Ptr(sb, fs, i, bn) == 0
    requires OnePtr(sb, fs, fs', i, bn, r) && SameTables(sb, fs, fs') && r !in own
    requires forall b :: b in own ==> sb.datastart <= b && Placed(sb, fs, own, b)
    requires own' == own[r := Data(i, bn)]
    ensures forall b :: b in own' ==> Placed(sb, fs', own', b)
  {
    hide Placed, Ptr, OnePtr, SameTables, Shape;
    forall b | b in own' ensures Placed(sb, fs', own', b) {
      if b != r {
        GrowPlaced(sb, fs, fs', own, i, bn, r, b);
      } else {
        NewPlaced(sb, fs, fs', own, i, bn, r);
      }
    }
  }

  lemma GrowAllMaps(sb: Super, fs: Fs, fs': Fs, own: Owners, ms: seq<nat>, own': Owners, ms': seq<nat>, i: nat, r: nat)
    requires Shape(sb, fs) && Shape(sb, fs') && |ms| == sb.ninodes && i < sb.ninodes && ms[i] < MAXFILE
    requires sb.datastart <= r
    requires OnePtr(sb, fs, fs', i, ms[i], r) && SameTables(sb, fs, fs') && r !in own
    requires forall j :: 0 <= j < sb.ninodes ==> Maps(sb, fs, own, j, ms[j])
    requires NDIRECT <= ms[i] ==> TableOf(sb, fs, i) != 0
    requires own' == own[r := Data(i, ms[i])] && ms' == ms[i := ms[i] + 1]
    ensures forall j :: 0 <= j < sb.ninodes ==> Maps(sb, fs', own', j, ms'[j])
  {
    hide Maps, Ptr, OnePtr, SameTables, Shape;
    forall j | 0 <= j < sb.ninodes ensures Maps(sb, fs', own', j, ms'[j]) {
      GrowMaps(sb, fs, fs', own, j, ms[j], i, ms[i], r);
    }
  }

  lemma TookAllSettled(sb: Super, fs: Fs, fs': Fs, ms: seq<nat>, i: nat, r: nat)
    requires Shape(sb, fs) && Took(sb, fs, fs', i, r) && |ms| == sb.ninodes
    requires forall j :: 0 <= j < sb.ninodes && j != i ==> Settled(sb, fs, j, ms[j])
    ensures forall j :: 0 <= j < sb.ninodes && j != i ==> Settled(sb, fs', j, ms[j])
  {
    hide Settled;
    forall j | 0 <= j < sb.ninodes && j != i ensures Settled(sb, fs', j, ms[j]) {
      TookSettled(sb, fs, fs', i, r, j, ms[j]);
    }
  }

  /** One more mapped block keeps the invariant. */
  lemma GrowKeeps(sb: Super, fs: Fs, fs': Fs, own: Owners, ms: seq<nat>, i: nat, r: nat)
    requires i < sb.ninodes && Inv(sb, fs, own, ms, i) && ms[i] < MAXFILE
    requires sb.datastart <= r < sb.size && !Allocated(sb, fs, r) && Took(sb, fs, fs', i, r)
    requires OnePtr(sb, fs, fs', i, ms[i], r) && SameTables(sb, fs, fs')
    requires NDIRECT <= ms[i] ==> TableOf(sb, fs, i) != 0
    ensures Inv(sb, fs', own[r := Data(i, ms[i])], ms[i := ms[i] + 1], i)
  {
    hide Maps, Settled, Allocated, Ptr, Placed, OnePtr, SameTables, Shape;
    var own', ms' := own[r := Data(i, ms[i])], ms[i := ms[i] + 1];
    GrowBits(sb, fs, fs', own, i, r, Data(i, ms[i]));
    PtrZero(sb, fs, own, i, ms[i]);
    GrowAllPlaced(sb, fs, fs', own, own', i, ms[i], r);
    GrowAllMaps(sb, fs, fs', own, ms, own', ms', i, r);
    TookAllSettled(sb, fs, fs', ms, i, r);
  }

  lemma PtrZero(sb: Super, fs: Fs, own: Owners, i: nat, bn: nat)
    requires Shape(sb, fs) && i < sb.ninodes && bn < MAXFILE && Maps(sb, fs, own, i, bn)
    ensures Ptr(sb, fs, i, bn) == 0
  {
  }

  // ----- the indirect block

  lemma TableMaps(sb: Super, fs: Fs, fs': Fs, own: Owners, j: nat, m: nat, i: nat, r: nat)
    requires Shape(sb, fs) && Shape(sb, fs') && j < sb.ninodes && i < sb.ninodes && sb.datastart <= r && r !in own
    requires forall k, bm :: 0 <= k < sb.ninodes && 0 <= bm < MAXFILE ==> Ptr(sb, fs', k, bm) == Ptr(sb, fs, k, bm)
    requires forall k :: 0 <= k < sb.ninodes ==> TableOf(sb, fs', k) == if k == i then r else TableOf(sb, fs, k)
    requires Maps(sb, fs, own, j, m)
    ensures Maps(sb, fs', own[r := Table(i)], j, m)
  {
    var own' := own[r := Table(i)];
    forall bm | 0 <= bm < m ensures Ptr(sb, fs', j, bm) in own' && own'[Ptr(sb, fs', j, bm)] == Data(j, bm) {
      assert Ptr(sb, fs', j, bm) == Ptr(sb, fs, j, bm);
    }
  }

  lemma TablePlaced(sb: Super, fs: Fs, fs': Fs, own: Owners, i: nat, r: nat, b: nat)
    requires Shape(sb, fs) && Shape(sb, fs') && i < sb.ninodes && r !in own && TableOf(sb, fs, i) == 0
    requires forall k, bm :: 0 <= k < sb.ninodes && 0 <= bm < MAXFILE ==> Ptr(sb, fs', k, bm) == Ptr(sb, fs, k, bm)
    requires forall k :: 0 <= k < sb.ninodes ==> TableOf(sb, fs', k) == if k == i then r else TableOf(sb, fs, k)
    requires b in own && sb.datastart <= b && Placed(sb, fs, own, b)
    ensures Placed(sb, fs', own[r := Table(i)], b)
  {
  }

  /** A fresh indirect block keeps the invariant, with as many blocks mapped as before. */
  lemma TableKeeps(sb: Super, fs: Fs, fs': Fs, own: Owners, ms: seq<nat>, i: nat, r: nat)
    requires i < sb.ninodes && Inv(sb, fs, own, ms, i) && TableOf(sb, fs, i) == 0
    requires sb.datastart <= r < sb.size && !Allocated(sb, fs, r) && Took(sb, fs, fs', i, r)
    requires forall k, bm :: 0 <= k < sb.ninodes && 0 <= bm < MAXFILE ==> Ptr(sb, fs', k, bm) == Ptr(sb, fs, k, bm)
    requires forall k :: 0 <= k < sb.ninodes ==> TableOf(sb, fs', k) == if k == i then r else TableOf(sb, fs, k)
    ensures Inv(sb, fs', own[r := Table(i)], ms, i)
  {
    var own' := own[r := Table(i)];
    hide Maps, Settled, Allocated, Ptr;
    GrowBits(sb, fs, fs', own, i, r, Table(i));
    forall b | b in own' ensures Placed(sb, fs', own', b) {
      if b != r {
        TablePlaced(sb, fs, fs', own, i, r, b);
      }
    }
    forall j | 0 <= j < sb.ninodes ensures Maps(sb, fs', own', j, ms[j]) {
      TableMaps(sb, fs, fs', own, j, ms[j], i, r);
    }
    TookAllSettled(sb, fs, fs', ms, i, r);
  }

  // ----- the three steps of bmap

  /** The contents of all blocks that hold file data are as before. */
  ghost predicate SameData(fs: Fs, fs': Fs, own: Owners) {
    forall b :: b in own && own[b].Data? && b < |fs.blocks| ==> b < |fs'.blocks| && fs'.blocks[b] == fs.blocks[b]
  }

  /** A table is an owned block, different from a block just taken. */
  lemma TableOwned(sb: Super, fs: Fs, own: Owners, ms: seq<nat>, busy: int, j: nat)
    requires Inv(sb, fs, own, ms, busy) && j < sb.ninodes
    ensures var t := TableOf(sb, fs, j); t != 0 ==> t in own && own[t] == Table(j) && sb.datastart <= t < sb.size
  {
    assert Maps(sb, fs, own, j, ms[j]);
  }

  /** Taking a free block changes no pointer. */
  lemma AllocPtr(sb: Super, fs: Fs, own: Owners, ms: seq<nat>, busy: int, r: nat, j: nat, bm: nat)
    requires Inv(sb, fs, own, ms, busy) && sb.datastart <= r < sb.size && r !in own && j < sb.ninodes && bm < MAXFILE
    ensures Shape(sb, Alloc(sb, fs, r)) && Ptr(sb, Alloc(sb, fs, r), j, bm) == Ptr(sb, fs, j, bm)
  {
    hide BitsMatch, Maps, Placed, Settled;
    TableOwned(sb, fs, own, ms, busy, j);
    AllocEffect(sb, fs, r);
  }

  /** Taking a free block for inode i: what GrowKeeps and TableKeeps need to know of it. */
  lemma TakeBlock(sb: Super, fs: Fs, own: Owners, ms: seq<nat>, busy: int, r: nat)
    requires Inv(sb, fs, own, ms, busy) && sb.datastart <= r < sb.size && !Allocated(sb, fs, r)
    ensures r !in own && Shape(sb, Alloc(sb, fs, r)) && Alloc(sb, fs, r).inodes == fs.inodes
    ensures Alloc(sb, fs, r).blocks[r] == ZeroBlock()
    ensures forall i :: Took(sb, fs, Alloc(sb, fs, r), i, r)
    ensures forall b :: b in own ==> b < sb.size && Alloc(sb, fs, r).blocks[b] == fs.blocks[b]
    ensures forall j, bm :: 0 <= j < sb.ninodes && 0 <= bm < MAXFILE ==>
      Ptr(sb, Alloc(sb, fs, r), j, bm) == Ptr(sb, fs, j, bm)
  {
    AllocEffect(sb, fs, r);
    assert r !in own;
    hide Maps, Placed, Settled, Ptr, Allocated;
    forall j, bm | 0 <= j < sb.ninodes && 0 <= bm < MAXFILE
      ensures Ptr(sb, Alloc(sb, fs, r), j, bm) == Ptr(sb, fs, j, bm)
    {
      AllocPtr(sb, fs, own, ms, busy, r, j, bm);
    }
  }

  lemma SetAddrTook(sb: Super, fs: Fs, fs1: Fs, i: nat, n: nat, r: Uint)
    requires Shape(sb, fs) && i < sb.ninodes && n <= NDIRECT && Took(sb, fs, fs1, i, r)
    ensures Took(sb, fs, SetAddr(sb, fs1, i, n, r), i, r)
  {
    var fs' := SetAddr(sb, fs1, i, n, r);
    forall b | 0 <= b < sb.size ensures Allocated(sb, fs', b) <==> Allocated(sb, fs1, b) {
    }
  }

  lemma SetAddrPtr(sb: Super, fs: Fs, i: nat, n: nat, r: Uint, j: nat, bm: nat)
    requires Shape(sb, fs) && i < sb.ninodes && n < NDIRECT && j < sb.ninodes && bm < MAXFILE
    ensures Shape(sb, SetAddr(sb, fs, i, n, r))
    ensures Ptr(sb, SetAddr(sb, fs, i, n, r), j, bm) == if j == i && bm == n then r else Ptr(sb, fs, j, bm)
  {
  }

  /** A new direct block. */
  lemma MapDirect(sb: Super, fs: Fs, own: Owners, ms: seq<nat>, i: nat, r: nat)
    requires i < sb.ninodes && Inv(sb, fs, own, ms, i) && ms[i] < NDIRECT
    requires sb.datastart <= r < sb.size && !Allocated(sb, fs, r)
    ensures Shape(sb, Alloc(sb, fs, r))
    ensures var fs' := SetAddr(sb, Alloc(sb, fs, r), i, ms[i], r);
      && Inv(sb, fs', own[r := Data(i, ms[i])], ms[i := ms[i] + 1], i)
      && OnePtr(sb, fs, fs', i, ms[i], r) && SameData(fs, fs', own) && fs'.blocks[r] == ZeroBlock()
  {
    hide BitsMatch, Maps, Placed, Settled, Ptr, Allocated, Alloc, Took;
    var bn := ms[i];
    TakeBlock(sb, fs, own, ms, i, r);
    var fs1 := Alloc(sb, fs, r);
    var fs' := SetAddr(sb, fs1, i, bn, r);
    forall j, bm | 0 <= j < sb.ninodes && 0 <= bm < MAXFILE
      ensures Ptr(sb, fs', j, bm) == if j == i && bm == bn then r else Ptr(sb, fs, j, bm)
    {
      SetAddrPtr(sb, fs1, i, bn, r, j, bm);
    }
    SetAddrTook(sb, fs, fs1, i, bn, r);
    GrowKeeps(sb, fs, fs', own, ms, i, r);
  }

  /** A new indirect block. */
  lemma MapTable(sb: Super, fs: Fs, own: Owners, ms: seq<nat>, i: nat, r: nat)
    requires i < sb.ninodes && Inv(sb, fs, own, ms, i) && TableOf(sb, fs, i) == 0
    requires sb.datastart <= r < sb.size && !Allocated(sb, fs, r)
    ensures Shape(sb, Alloc(sb, fs, r))
    ensures var fs' := SetAddr(sb, Alloc(sb, fs, r), i, NDIRECT, r);
      && Inv(sb, fs', own[r := Table(i)], ms, i) && TableOf(sb, fs', i) == r && SameData(fs, fs', own)
      && forall j, bm :: 0 <= j < sb.ninodes && 0 <= bm < MAXFILE ==> Ptr(sb, fs', j, bm) == Ptr(sb, fs, j, bm)
  {
    hide BitsMatch, Maps, Placed, Settled, Allocated, Alloc, Took;
    TakeBlock(sb, fs, own, ms, i, r);
    var fs1 := Alloc(sb, fs, r);
    var fs' := SetAddr(sb, fs1, i, NDIRECT, r);
    forall j, bm | 0 <= j < sb.ninodes && 0 <= bm < MAXFILE ensures Ptr(sb, fs', j, bm) == Ptr(sb, fs, j, bm) {
      if j == i && NDIRECT <= bm {
        WordOfZero(bm - NDIRECT);
      } else {
        assert Ptr(sb, fs1, j, bm) == Ptr(sb, fs, j, bm);
      }
    }
    hide Ptr;
    SetAddrTook(sb, fs, fs1, i, NDIRECT, r);
    TableKeeps(sb, fs, fs', own, ms, i, r);
  }

  lemma SetEntryPtr(sb: Super, fs: Fs, i: nat, n: nat, r: Uint, j: nat, bm: nat)
    requires Shape(sb, fs) && i < sb.ninodes && n < NINDIRECT && j < sb.ninodes && bm < MAXFILE
    requires 0 < TableOf(sb, fs, i) < sb.size && (j != i ==> TableOf(sb, fs, j) != TableOf(sb, fs, i))
    ensures var fs' := SetEntry(sb, fs, TableOf(sb, fs, i), n, r);
      Shape(sb, fs') && Ptr(sb, fs', j, bm) == if j == i && bm == NDIRECT + n then r else Ptr(sb, fs, j, bm)
  {
    if j == i && NDIRECT <= bm {
      WordOfPutWord(fs.blocks[TableOf(sb, fs, i)], n, r, bm - NDIRECT);
    }
  }

  lemma SetEntryTook(sb: Super, fs: Fs, fs1: Fs, i: nat, t: nat, n: nat, r: Uint)
    requires Shape(sb, fs) && Took(sb, fs, fs1, i, r) && n < NINDIRECT && sb.datastart <= t < sb.size
    ensures Took(sb, fs, SetEntry(sb, fs1, t, n, r), i, r)
  {
    var fs' := SetEntry(sb, fs1, t, n, r);
    forall b | 0 <= b < sb.size ensures Allocated(sb, fs', b) <==> Allocated(sb, fs1, b) {
    }
  }

  /** A new block, recorded in the indirect block. */
  lemma MapEntry(sb: Super, fs: Fs, own: Owners, ms: seq<nat>, i: nat, r: nat)
    requires i < sb.ninodes && Inv(sb, fs, own, ms, i) && NDIRECT <= ms[i] < MAXFILE && TableOf(sb, fs, i) != 0
    requires sb.datastart <= r < sb.size && !Allocated(sb, fs, r)
    ensures Shape(sb, Alloc(sb, fs, r)) && TableOf(sb, fs, i) < sb.size
    ensures var fs' := SetEntry(sb, Alloc(sb, fs, r), TableOf(sb, fs, i), ms[i] - NDIRECT, r);
      && Inv(sb, fs', own[r := Data(i, ms[i])], ms[i := ms[i] + 1], i)
      && OnePtr(sb, fs, fs', i, ms[i], r) && SameData(fs, fs', own) && fs'.blocks[r] == ZeroBlock()
  {
    hide BitsMatch, Maps, Placed, Settled, Ptr, Allocated, Alloc, Took;
    var bn, t := ms[i], TableOf(sb, fs, i);
    TakeBlock(sb, fs, own, ms, i, r);
    TableOwned(sb, fs, own, ms, i, i);
    var fs1 := Alloc(sb, fs, r);
    var fs' := SetEntry(sb, fs1, t, bn - NDIRECT, r);
    forall j, bm | 0 <= j < sb.ninodes && 0 <= bm < MAXFILE
      ensures Ptr(sb, fs', j, bm) == if j == i && bm == bn then r else Ptr(sb, fs, j, bm)
    {
      TableOwned(sb, fs, own, ms, i, j);
      SetEntryPtr(sb, fs1, i, bn - NDIRECT, r, j, bm);
    }
    SetEntryTook(sb, fs, fs1, i, t, bn - NDIRECT, r);
    GrowKeeps(sb, fs, fs', own, ms, i, r);
  }
}
