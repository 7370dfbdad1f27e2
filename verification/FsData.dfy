/** Changing a file's bytes, its inode, and giving its blocks back. */
module FsData {
  import opened Bytes
  import opened Dinode
  import opened FsState
  import opened FsGrow

  // ----- when one inode starts and ends being worked on

  lemma Busy(sb: Super, fs: Fs, own: Owners, ms: seq<nat>, i: nat)
    requires Inv(sb, fs, own, ms, IDLE)
    ensures Inv(sb, fs, own, ms, i)
  {
  }

  lemma Idle(sb: Super, fs: Fs, own: Owners, ms: seq<nat>, i: nat)
    requires Inv(sb, fs, own, ms, i) && i < sb.ninodes && Settled(sb, fs, i, ms[i])
    ensures Inv(sb, fs, own, ms, IDLE)
  {
  }

  // ----- file data

  function PutBlock(sb: Super, fs: Fs, a: nat, x: Block): Fs
    requires Shape(sb, fs) && a < sb.size
  {
    fs.(blocks := fs.blocks[a := x])
  }

  /** Writing a block that holds file data changes those bytes of that file and nothing else. */
  lemma PutBlockKeeps(sb: Super, fs: Fs, own: Owners, ms: seq<nat>, busy: int, i: nat, bn: nat, x: Block)
    requires Inv(sb, fs, own, ms, busy) && i < sb.ninodes && bn < ms[i] <= MAXFILE
    ensures var a := Ptr(sb, fs, i, bn);
      && sb.datastart <= a < sb.size
      && Inv(sb, PutBlock(sb, fs, a, x), own, ms, busy)
      && (forall j, bm :: 0 <= j < sb.ninodes && 0 <= bm < MAXFILE ==>
            Ptr(sb, PutBlock(sb, fs, a, x), j, bm) == Ptr(sb, fs, j, bm))
  {
    var a := Ptr(sb, fs, i, bn);
    assert Maps(sb, fs, own, i, ms[i]);
    var fs' := PutBlock(sb, fs, a, x);
    forall j, bm | 0 <= j < sb.ninodes && 0 <= bm < MAXFILE ensures Ptr(sb, fs', j, bm) == Ptr(sb, fs, j, bm) {
      hide BitsMatch, Maps, Placed, Settled;
      TableOwned(sb, fs, own, ms, busy, j);
    }
    forall b | 0 <= b < sb.size ensures Allocated(sb, fs', b) == Allocated(sb, fs, b) {
    }
    SamePtrsKeep(sb, fs, fs', own, ms, busy);
  }

  /** The invariant depends on the blocks only through the pointers, the bits and the dinodes. */
  lemma SamePtrsKeep(sb: Super, fs: Fs, fs': Fs, own: Owners, ms: seq<nat>, busy: int)
    requires Inv(sb, fs, own, ms, busy) && Shape(sb, fs')
    requires forall j, bm :: 0 <= j < sb.ninodes && 0 <= bm < MAXFILE ==> Ptr(sb, fs', j, bm) == Ptr(sb, fs, j, bm)
    requires forall j :: 0 <= j < sb.ninodes ==> TableOf(sb, fs', j) == TableOf(sb, fs, j)
    requires forall b :: 0 <= b < sb.size ==> Allocated(sb, fs', b) == Allocated(sb, fs, b)
    requires forall j :: 0 <= j < sb.ninodes && j != busy ==>
      fs'.inodes[j] == fs.inodes[j] && StoredInode(sb, fs', j) == StoredInode(sb, fs, j)
    ensures Inv(sb, fs', own, ms, busy)
  {
    hide Ptr, Allocated, TableOf, StoredInode;
    assert BitsMatch(sb, fs', own);
    forall b | b in own ensures Placed(sb, fs', own, b) {
      assert Placed(sb, fs, own, b);
    }
    forall j | 0 <= j < sb.ninodes ensures Maps(sb, fs', own, j, ms[j]) {
      MapsSame(sb, fs, fs', own, j, ms[j]);
    }
    forall j | 0 <= j < sb.ninodes && j != busy ensures Settled(sb, fs', j, ms[j]) {
      assert Settled(sb, fs, j, ms[j]);
    }
  }

  lemma MapsSame(sb: Super, fs: Fs, fs': Fs, own: Owners, j: nat, m: nat)
    requires Shape(sb, fs) && Shape(sb, fs') && j < sb.ninodes && Maps(sb, fs, own, j, m)
    requires forall bm :: 0 <= bm < MAXFILE ==> Ptr(sb, fs', j, bm) == Ptr(sb, fs, j, bm)
    requires TableOf(sb, fs', j) == TableOf(sb, fs, j)
    ensures Maps(sb, fs', own, j, m)
  {
    hide Ptr;
  }

  // ----- the inode's own fields

  function SetSize(sb: Super, fs: Fs, i: nat, size: Uint): Fs
    requires Shape(sb, fs) && i < sb.ninodes && size <= MAXSIZE
  {
    fs.(inodes := fs.inodes[i := fs.inodes[i].(size := size)])
  }

  /** iupdate: copy the inode into its slot on disk. */
  function Stored(sb: Super, fs: Fs, i: nat): Fs
    requires Shape(sb, fs) && i < sb.ninodes
  {
    var ib := IBlock(sb, i);
    fs.(blocks := fs.blocks[ib := PutDinode(fs.blocks[ib], i % IPB, fs.inodes[i])])
  }

  lemma SetSizeKeeps(sb: Super, fs: Fs, own: Owners, ms: seq<nat>, i: nat, size: Uint)
    requires i < sb.ninodes && Inv(sb, fs, own, ms, i) && size <= MAXSIZE
    ensures Inv(sb, SetSize(sb, fs, i, size), own, ms, i)
    ensures forall j, bm :: 0 <= j < sb.ninodes && 0 <= bm < MAXFILE ==>
      Ptr(sb, SetSize(sb, fs, i, size), j, bm) == Ptr(sb, fs, j, bm)
  {
    var fs' := SetSize(sb, fs, i, size);
    assert forall j :: 0 <= j < sb.ninodes ==> fs'.inodes[j].addrs == fs.inodes[j].addrs;
    hide BitsMatch, Maps, Placed, Settled;
    forall j, bm | 0 <= j < sb.ninodes && 0 <= bm < MAXFILE ensures Ptr(sb, fs', j, bm) == Ptr(sb, fs, j, bm) {
    }
    forall b | 0 <= b < sb.size ensures Allocated(sb, fs', b) == Allocated(sb, fs, b) {
    }
    hide Inv, Ptr, Allocated;
    SamePtrsKeep(sb, fs, fs', own, ms, i);
  }

  lemma StoredEffect(sb: Super, fs: Fs, i: nat)
    requires Shape(sb, fs) && i < sb.ninodes
    ensures var fs' := Stored(sb, fs, i);
      && Shape(sb, fs') && fs'.inodes == fs.inodes
      && (forall j :: 0 <= j < sb.ninodes ==>
            StoredInode(sb, fs', j) == if j == i then fs.inodes[i] else StoredInode(sb, fs, j))
      && (forall b :: 0 <= b < sb.size ==> Allocated(sb, fs', b) == Allocated(sb, fs, b))
      && (forall b :: sb.datastart <= b < sb.size ==> fs'.blocks[b] == fs.blocks[b])
  {
    var fs' := Stored(sb, fs, i);
    forall j | 0 <= j < sb.ninodes
      ensures StoredInode(sb, fs', j) == if j == i then fs.inodes[i] else StoredInode(sb, fs, j)
    {
      if IBlock(sb, j) == IBlock(sb, i) {
        DinodeRoundTrip(fs.blocks[IBlock(sb, i)], i % IPB, fs.inodes[i], j % IPB);
      }
    }
    forall b | 0 <= b < sb.size ensures Allocated(sb, fs', b) == Allocated(sb, fs, b) {
    }
  }

  /** Storing inode i makes its dinode agree and disturbs no other. */
  lemma StoredKeeps(sb: Super, fs: Fs, own: Owners, ms: seq<nat>, i: nat)
    requires i < sb.ninodes && Inv(sb, fs, own, ms, i)
    ensures var fs' := Stored(sb, fs, i);
      && Inv(sb, fs', own, ms, i) && StoredInode(sb, fs', i) == fs.inodes[i]
      && (forall j, bm :: 0 <= j < sb.ninodes && 0 <= bm < MAXFILE ==> Ptr(sb, fs', j, bm) == Ptr(sb, fs, j, bm))
  {
    hide BitsMatch, Maps, Placed, Settled, Stored;
    var fs' := Stored(sb, fs, i);
    StoredEffect(sb, fs, i);
    forall j, bm | 0 <= j < sb.ninodes && 0 <= bm < MAXFILE ensures Ptr(sb, fs', j, bm) == Ptr(sb, fs, j, bm) {
      TableOwned(sb, fs, own, ms, i, j);
    }
    hide Inv, Ptr, Allocated, StoredInode;
    SamePtrsKeep(sb, fs, fs', own, ms, i);
  }
}
