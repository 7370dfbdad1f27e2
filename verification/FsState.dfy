/** The file system as the inode layer sees it: the contents of every disk block as bread returns
    them, and the inodes. Who owns which block is kept beside it, so that "no two pointers name the
    same block" is the statement that ownership is a function. */
module FsState {
  import opened Bytes
  import opened Bitmap
  import opened Dinode

  /** The superblock fields that matter here; data blocks start at `datastart`. */
  datatype Super = Super(size: nat, ninodes: nat, inodestart: nat, bmapstart: nat, datastart: nat)

  const MAXSIZE := 71680        // MAXFILE * BSIZE

  const T_DIR: Ushort := 1
  const T_FILE: Ushort := 2
  const ROOTINO: nat := 1

  datatype Fs = Fs(blocks: seq<Block>, inodes: seq<Inode>)

  /** What a data block is used for: the bn-th block of a file, or a file's indirect block. */
  datatype Owner = Data(inum: nat, bn: nat) | Table(inum: nat)

  type Owners = map<nat, Owner>

  /** The layout that mkfs computes: inode blocks, then bitmap blocks, then data. */
  predicate Layout(sb: Super) {
    && 0 < sb.inodestart
    && sb.inodestart + sb.ninodes / IPB + 1 <= sb.bmapstart
    && sb.bmapstart + sb.size / BPB + 1 <= sb.datastart <= sb.size < UINT_MOD
  }

  function BBlock(sb: Super, b: nat): nat {
    b / BPB + sb.bmapstart
  }

  function IBlock(sb: Super, inum: nat): nat {
    inum / IPB + sb.inodestart
  }

  predicate Shape(sb: Super, fs: Fs) {
    && Layout(sb)
    && |fs.blocks| == sb.size
    && |fs.inodes| == sb.ninodes
    && forall i :: 0 <= i < |fs.inodes| ==> |fs.inodes[i].addrs| == NDIRECT + 1 && fs.inodes[i].size <= MAXSIZE
  }

  // ----- reading the state

  predicate Allocated(sb: Super, fs: Fs, b: nat)
    requires Shape(sb, fs) && b < sb.size
  {
    BlockBit(fs.blocks[BBlock(sb, b)], b % BPB)
  }

  function TableOf(sb: Super, fs: Fs, i: nat): nat
    requires Shape(sb, fs) && i < sb.ninodes
  {
    fs.inodes[i].addrs[NDIRECT]
  }

  /** The block number recorded for the bn-th block of inode i; 0 when there is none. */
  function Ptr(sb: Super, fs: Fs, i: nat, bn: nat): nat
    requires Shape(sb, fs) && i < sb.ninodes && bn < MAXFILE
  {
    if bn < NDIRECT then fs.inodes[i].addrs[bn]
    else
      var t := TableOf(sb, fs, i);
      if 0 < t < sb.size then Word(fs.blocks[t], bn - NDIRECT) else 0
  }

  /** Byte k of inode i's content. */
  function FileByte(sb: Super, fs: Fs, i: nat, k: nat): Byte
    requires Shape(sb, fs) && i < sb.ninodes && k < MAXSIZE
  {
    var p := Ptr(sb, fs, i, k / BSIZE);
    if 0 < p < sb.size then fs.blocks[p].bytes[k % BSIZE] else 0
  }

  function Blocks(size: nat): nat {
    (size + BSIZE - 1) / BSIZE
  }

  function Content(sb: Super, fs: Fs, i: nat): (c: seq<Byte>)
    requires Shape(sb, fs) && i < sb.ninodes
    ensures |c| == fs.inodes[i].size
  {
    seq<Byte>(fs.inodes[i].size, k requires 0 <= k < MAXSIZE => FileByte(sb, fs, i, k))
  }

  function StoredInode(sb: Super, fs: Fs, i: nat): Inode
    requires Shape(sb, fs) && i < sb.ninodes
  {
    GetDinode(fs.blocks[IBlock(sb, i)], i % IPB)
  }

  // ----- invariants

  /** A block's bit is set exactly when it is metadata or owned. */
  ghost predicate BitsMatch(sb: Super, fs: Fs, own: Owners)
    requires Shape(sb, fs)
  {
    && (forall b :: b in own ==> sb.datastart <= b < sb.size)
    && (forall b :: 0 <= b < sb.size ==> (Allocated(sb, fs, b) <==> b < sb.datastart || b in own))
  }

  /** Exactly the first m blocks of inode i are mapped, each to a block owned by just that position. */
  ghost predicate Maps(sb: Super, fs: Fs, own: Owners, i: nat, m: nat)
    requires Shape(sb, fs) && i < sb.ninodes
  {
    && m <= MAXFILE
    && (forall bn :: 0 <= bn < m ==> Ptr(sb, fs, i, bn) in own && own[Ptr(sb, fs, i, bn)] == Data(i, bn))
    && (forall bn :: m <= bn < MAXFILE ==> Ptr(sb, fs, i, bn) == 0)
    && (TableOf(sb, fs, i) != 0 ==> TableOf(sb, fs, i) in own && own[TableOf(sb, fs, i)] == Table(i))
    && (NDIRECT < m ==> TableOf(sb, fs, i) != 0)
  }

  /** Every owned block is where its owner says it is. */
  ghost predicate Placed(sb: Super, fs: Fs, own: Owners, b: nat)
    requires Shape(sb, fs) && b in own
  {
    match own[b]
    case Data(i, bn) => i < sb.ninodes && bn < MAXFILE && Ptr(sb, fs, i, bn) == b
    case Table(i) => i < sb.ninodes && TableOf(sb, fs, i) == b
  }

  /** Between operations the size tells how much is mapped, and the disk has the inode's fields. */
  ghost predicate Settled(sb: Super, fs: Fs, i: nat, m: nat)
    requires Shape(sb, fs) && i < sb.ninodes
  {
    && m == Blocks(fs.inodes[i].size)
    && (m <= NDIRECT ==> TableOf(sb, fs, i) == 0)
    && StoredInode(sb, fs, i) == fs.inodes[i]
  }

  /** The whole invariant; `busy` is the inode an operation is working on, if any. */
  ghost predicate Inv(sb: Super, fs: Fs, own: Owners, ms: seq<nat>, busy: int) {
    && Shape(sb, fs) && |ms| == sb.ninodes
    && BitsMatch(sb, fs, own)
    && (forall b :: b in own ==> Placed(sb, fs, own, b))
    && (forall i :: 0 <= i < sb.ninodes ==> Maps(sb, fs, own, i, ms[i]))
    && (forall i :: 0 <= i < sb.ninodes && i != busy ==> Settled(sb, fs, i, ms[i]))
  }

  const IDLE: int := -1

  /** The file system that a disk holds: the inodes are the ones stored on it. */
  function OnDisk(sb: Super, blocks: seq<Block>): Fs
    requires Layout(sb) && |blocks| == sb.size
  {
    Fs(blocks, seq(sb.ninodes, i requires 0 <= i < sb.ninodes => GetDinode(blocks[IBlock(sb, i)], i % IPB)))
  }

  /** Some assignment of owners satisfies the invariant. */
  ghost predicate Consistent(sb: Super, fs: Fs) {
    exists own: Owners, ms: seq<nat> :: Inv(sb, fs, own, ms, IDLE)
  }

  /** Between operations the inode layer's state is the file system that the blocks hold. */
  lemma IdleIsConsistent(sb: Super, fs: Fs, own: Owners, ms: seq<nat>)
    requires Inv(sb, fs, own, ms, IDLE)
    ensures OnDisk(sb, fs.blocks) == fs && Consistent(sb, OnDisk(sb, fs.blocks))
  {
    forall i | 0 <= i < sb.ninodes ensures OnDisk(sb, fs.blocks).inodes[i] == fs.inodes[i] {
      assert Settled(sb, fs, i, ms[i]);
    }
  }

  // ----- transactions

  /** The calls of log_write in an operation, in order: which block, and its contents then. */
  type Trace = seq<(nat, Block)>

  /** The blocks after those changes. */
  function Replay(d: seq<Block>, tr: Trace): (e: seq<Block>)
    ensures |e| == |d|
  {
    if tr == [] then d else
      var (b, x) := tr[|tr| - 1];
      var e := Replay(d, tr[..|tr| - 1]);
      if b < |d| then e[b := x] else e
  }

  /** The changes tr take the inode layer from one idle state to another. */
  lemma IsTransaction(sb: Super, fs0: Fs, own0: Owners, ms0: seq<nat>, fs: Fs, own: Owners, ms: seq<nat>, tr: Trace)
    requires Inv(sb, fs0, own0, ms0, IDLE) && Inv(sb, fs, own, ms, IDLE) && fs.blocks == Replay(fs0.blocks, tr)
    ensures Transaction(sb, fs0.blocks, tr)
  {
    hide Inv, Replay;
    ShapeOnly(sb, fs0, own0, ms0);
    IdleIsConsistent(sb, fs0, own0, ms0);
    IdleIsConsistent(sb, fs, own, ms);
  }

  lemma ShapeOnly(sb: Super, fs: Fs, own: Owners, ms: seq<nat>)
    requires Inv(sb, fs, own, ms, IDLE)
    ensures Shape(sb, fs)
  {
  }

  /** An operation that finds a consistent file system on d and makes the changes tr leaves a consistent
      file system. */
  ghost predicate Transaction(sb: Super, d: seq<Block>, tr: Trace) {
    && Layout(sb) && |d| == sb.size
    && Consistent(sb, OnDisk(sb, d)) && Consistent(sb, OnDisk(sb, Replay(d, tr)))
  }

  /** Pairwise distinctness, from ownership: two positions that hold the same nonzero block number
      are the same position. */
  lemma PointersDistinct(sb: Super, fs: Fs, own: Owners, ms: seq<nat>, busy: int, i: nat, bn: nat, j: nat, bm: nat)
    requires Inv(sb, fs, own, ms, busy) && i < sb.ninodes && j < sb.ninodes && bn < MAXFILE && bm < MAXFILE
    ensures Ptr(sb, fs, i, bn) != 0 && Ptr(sb, fs, i, bn) == Ptr(sb, fs, j, bm) ==> i == j && bn == bm
    ensures TableOf(sb, fs, i) != 0 ==> TableOf(sb, fs, i) != Ptr(sb, fs, j, bm)
    ensures TableOf(sb, fs, i) != 0 && TableOf(sb, fs, i) == TableOf(sb, fs, j) ==> i == j
    ensures Ptr(sb, fs, i, bn) != 0 ==> Ptr(sb, fs, i, bn) < sb.size && Allocated(sb, fs, Ptr(sb, fs, i, bn))
    ensures Allocated(sb, fs, 0)
  {
    assert Maps(sb, fs, own, i, ms[i]) && Maps(sb, fs, own, j, ms[j]);
  }
}
