/** Disk blocks as byte sequences, with the little-endian 32-bit view that the kernel
    gets by casting a buffer to `uint *` or to a structure of integers. */
module Bytes {

  const BSIZE := 512
  const WORDS := 128           // BSIZE / sizeof(uint)
  const UINT_MOD := 0x1_0000_0000

  type Byte = x: int | 0 <= x < 256
  type Uint = x: int | 0 <= x < UINT_MOD
  datatype RawBlock = RawBlock(bytes: seq<Byte>)
  type Block = b: RawBlock | |b.bytes| == BSIZE witness RawBlock(seq(BSIZE, i => 0))

  function ZeroBlock(): Block {
    RawBlock(seq(BSIZE, i => 0))
  }

  /** The i-th 32-bit word of a block. */
  function Word(b: Block, i: nat): (w: Uint)
    requires i < WORDS
  {
    var (b0: int, b1: int, b2: int, b3: int) := 
      (b.bytes[4 * i], b.bytes[4 * i + 1], b.bytes[4 * i + 2], b.bytes[4 * i + 3]);
    b0 + 0x100 * b1 + 0x10000 * b2 + 0x1000000 * b3
  }

  /** The block with its i-th word replaced. */
  function PutWord(b: Block, i: nat, w: Uint): (r: Block)
    requires i < WORDS
  {
    RawBlock(b.bytes[4 * i := w % 0x100][4 * i + 1 := w / 0x100 % 0x100]
                    [4 * i + 2 := w / 0x10000 % 0x100][4 * i + 3 := w / 0x1000000])
  }

  lemma SplitWord(w: Uint)
    ensures w % 0x100 + 0x100 * (w / 0x100 % 0x100) + 0x10000 * (w / 0x10000 % 0x100) + 0x1000000 * (w / 0x1000000) == w
  {
    assert w / 0x10000 == w / 0x100 / 0x100;
    assert w / 0x1000000 == w / 0x10000 / 0x100;
  }

  /** Writing one word changes that word and no other. */
  lemma WordOfPutWord(b: Block, i: nat, w: Uint, j: nat)
    requires i < WORDS && j < WORDS
    ensures Word(PutWord(b, i, w), j) == if i == j then w else Word(b, j)
  {
    SplitWord(w);
  }

  lemma WordOfZero(i: nat)
    requires i < WORDS
    ensures Word(ZeroBlock(), i) == 0
  {
  }

  predicate Distinct<T(==)>(s: seq<T>) {
    forall i, j :: 0 <= i < j < |s| ==> s[i] != s[j]
  }

  /** The first position of an element of a sequence. */
  function IndexOf<T(==)>(s: seq<T>, x: T): (i: nat)
    requires x in s
    ensures i < |s| && s[i] == x
    ensures forall j :: 0 <= j < i ==> s[j] != x
  {
    if s[0] == x then 0 else 1 + IndexOf(s[1..], x)
  }
}
