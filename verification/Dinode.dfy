/** The on-disk inode: 64 bytes, eight to a block, written field by field by iupdate. */
module Dinode {
  import opened Bytes

  const NDIRECT := 12
  const NINDIRECT := 128
  const MAXFILE := 140          // NDIRECT + NINDIRECT
  const IPB := 8                // inodes in a block
  const DINODE_WORDS := 16

  type Ushort = x: int | 0 <= x < 0x10000

  /** An inode as far as it lives on disk. */
  datatype Inode = Inode(kind: Ushort, major: Ushort, minor: Ushort, nlink: Ushort, size: Uint, addrs: seq<Uint>)

  /** The 16 words of a dinode. */
  function Words(ip: Inode): (ws: seq<Uint>)
    requires |ip.addrs| == NDIRECT + 1
    ensures |ws| == DINODE_WORDS
  {
    var (kind: int, major: int, minor: int, nlink: int) := (ip.kind, ip.major, ip.minor, ip.nlink);
    [kind + 0x10000 * major, minor + 0x10000 * nlink, ip.size] + ip.addrs
  }

  function OfWords(ws: seq<Uint>): (ip: Inode)
    requires |ws| == DINODE_WORDS
  {
    Inode(ws[0] % 0x10000, ws[0] / 0x10000, ws[1] % 0x10000, ws[1] / 0x10000, ws[2], ws[3..])
  }

  lemma WordsRoundTrip(ip: Inode)
    requires |ip.addrs| == NDIRECT + 1
    ensures OfWords(Words(ip)) == ip
  {
    assert Words(ip)[3..] == ip.addrs;
  }

  /** Words k.. of the dinode at slot of block b. */
  function Slot(b: Block, slot: nat): (ws: seq<Uint>)
    requires slot < IPB
    ensures |ws| == DINODE_WORDS
  {
    seq<Uint>(DINODE_WORDS, k requires 0 <= k < DINODE_WORDS => Word(b, slot * DINODE_WORDS + k))
  }

  function GetDinode(b: Block, slot: nat): Inode
    requires slot < IPB
  {
    OfWords(Slot(b, slot))
  }

  /** The block after the first k words of a dinode were stored. */
  function PutWords(b: Block, slot: nat, ws: seq<Uint>, k: nat): Block
    requires slot < IPB && k <= |ws| == DINODE_WORDS
  {
    if k == 0 then b else PutWord(PutWords(b, slot, ws, k - 1), slot * DINODE_WORDS + k - 1, ws[k - 1])
  }

  function PutDinode(b: Block, slot: nat, ip: Inode): Block
    requires slot < IPB && |ip.addrs| == NDIRECT + 1
  {
    PutWords(b, slot, Words(ip), DINODE_WORDS)
  }

  lemma {:induction false} WordOfPutWords(b: Block, slot: nat, ws: seq<Uint>, k: nat, j: nat)
    requires slot < IPB && k <= |ws| == DINODE_WORDS && j < WORDS
    ensures Word(PutWords(b, slot, ws, k), j) ==
      if slot * DINODE_WORDS <= j < slot * DINODE_WORDS + k then ws[j - slot * DINODE_WORDS] else Word(b, j)
  {
    if k > 0 {
      WordOfPutWords(b, slot, ws, k - 1, j);
      WordOfPutWord(PutWords(b, slot, ws, k - 1), slot * DINODE_WORDS + k - 1, ws[k - 1], j);
    }
  }

  /** Storing a dinode is read back, and leaves the block's other dinodes alone. */
  lemma DinodeRoundTrip(b: Block, slot: nat, ip: Inode, other: nat)
    requires slot < IPB && other < IPB && |ip.addrs| == NDIRECT + 1
    ensures GetDinode(PutDinode(b, slot, ip), other) == if other == slot then ip else GetDinode(b, other)
  {
    var r := PutDinode(b, slot, ip);
    forall k | 0 <= k < DINODE_WORDS
      ensures Slot(r, other)[k] == if other == slot then Words(ip)[k] else Slot(b, other)[k]
    {
      WordOfPutWords(b, slot, Words(ip), DINODE_WORDS, other * DINODE_WORDS + k);
    }
    if other == slot {
      assert Slot(r, other) == Words(ip);
      WordsRoundTrip(ip);
    } else {
      assert Slot(r, other) == Slot(b, other);
    }
  }
}
