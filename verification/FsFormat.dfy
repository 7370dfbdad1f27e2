/** The image that mkfs starts from, and that it satisfies the inode layer's invariant. */
module FsFormat {
  import opened Bytes
  import opened Bitmap
  import opened Dinode
  import opened FsState

  /** mkfs's balloc: the first `used` bits set. */
  function UsedBits(used: nat): Block
    requires used <= BPB
  {
    if used == 0 then ZeroBlock() else SetBlockBit(UsedBits(used - 1), used - 1)
  }

  lemma {:induction false} UsedBitsAre(used: nat, k: nat)
    requires used <= BPB && k < BPB
    ensures BlockBit(UsedBits(used), k) <==> k < used
  {
    if used == 0 {
      NoBits(k % 8);
    } else {
      UsedBitsAre(used - 1, k);
      BlockBitOfSet(UsedBits(used - 1), used - 1, k);
    }
  }

  lemma {:induction false} NoBits(i: nat)
    ensures !Bit(0, i)
  {
    if i > 0 {
      NoBits(i - 1);
    }
  }

  function EmptyInode(): Inode {
    Inode(0, 0, 0, 0, 0, seq<Uint>(NDIRECT + 1, k => 0))
  }

  /** All blocks zero but the superblock and the one bitmap block; all inodes free. */
  function Formatted(sb: Super, super: Block): Fs
    requires Layout(sb) && sb.datastart <= BPB
  {
    Fs(seq(sb.size, b => FormattedBlock(sb, super, b)), seq(sb.ninodes, i => EmptyInode()))
  }

  function FormattedBlock(sb: Super, super: Block, b: int): Block
    requires sb.datastart <= BPB
  {
    if b == 1 then super else if b == sb.bmapstart then UsedBits(sb.datastart) else ZeroBlock()
  }

  lemma EmptyStored(slot: nat)
    requires slot < IPB
    ensures GetDinode(ZeroBlock(), slot) == EmptyInode()
  {
    forall k | 0 <= k < DINODE_WORDS ensures Slot(ZeroBlock(), slot)[k] == 0 {
      WordOfZero(slot * DINODE_WORDS + k);
    }
  }

  /** A new file system satisfies the invariant, with nothing owned. */
  lemma FormattedInv(sb: Super, super: Block)
    requires Layout(sb) && 1 < sb.inodestart && sb.datastart <= BPB
    ensures Inv(sb, Formatted(sb, super), map[], seq(sb.ninodes, i => 0), IDLE)
  {
    var fs := Formatted(sb, super);
    forall b | 0 <= b < sb.size ensures Allocated(sb, fs, b) <==> b < sb.datastart {
      UsedBitsAre(sb.datastart, b % BPB);
      NoBits(b % BPB % 8);
    }
    forall i | 0 <= i < sb.ninodes ensures Settled(sb, fs, i, 0) {
      EmptyStored(i % IPB);
      assert IBlock(sb, i) < sb.bmapstart;
    }
    forall i | 0 <= i < sb.ninodes ensures Maps(sb, fs, map[], i, 0) {
    }
  }
}
