/** The free-block bitmap: the bit operations that fs.c does on the bytes of a bitmap block. */
module Bitmap {
  import opened Bytes

  const BPB := 4096            // BSIZE * 8

  function Exp2(n: nat): nat {
    if n == 0 then 1 else 2 * Exp2(n - 1)
  }

  /** Bit i of x is set. */
  predicate Bit(x: nat, i: nat) {
    if i == 0 then x % 2 == 1 else Bit(x / 2, i - 1)
  }

  /** x with bit i set, for an x of n bits. */
  function SetBit(x: nat, i: nat, n: nat): (r: nat)
    requires i < n && x < Exp2(n)
    ensures r < Exp2(n)
  {
    if i == 0 then x / 2 * 2 + 1 else 2 * SetBit(x / 2, i - 1, n - 1) + x % 2
  }

  /** x with bit i cleared, for an x of n bits. */
  function ClearBit(x: nat, i: nat, n: nat): (r: nat)
    requires i < n && x < Exp2(n)
    ensures r < Exp2(n)
  {
    if i == 0 then x / 2 * 2 else 2 * ClearBit(x / 2, i - 1, n - 1) + x % 2
  }

  lemma Halve(y: nat, p: nat)
    requires p < 2
    ensures (2 * y + p) / 2 == y && (2 * y + p) % 2 == p
  {
  }

  lemma {:induction false} BitOfSet(x: nat, i: nat, n: nat, j: nat)
    requires i < n && x < Exp2(n)
    ensures Bit(SetBit(x, i, n), j) <==> i == j || Bit(x, j)
  {
    if i == 0 {
      Halve(x / 2, 1);
    } else {
      Halve(SetBit(x / 2, i - 1, n - 1), x % 2);
      if j > 0 {
        BitOfSet(x / 2, i - 1, n - 1, j - 1);
      }
    }
  }

  lemma {:induction false} BitOfClear(x: nat, i: nat, n: nat, j: nat)
    requires i < n && x < Exp2(n)
    ensures Bit(ClearBit(x, i, n), j) <==> i != j && Bit(x, j)
  {
    if i == 0 {
      Halve(x / 2, 0);
    } else {
      Halve(ClearBit(x / 2, i - 1, n - 1), x % 2);
      if j > 0 {
        BitOfClear(x / 2, i - 1, n - 1, j - 1);
      }
    }
  }

  /** Bit k of a block: byte k / 8, bit k % 8. */
  predicate BlockBit(b: Block, k: nat)
    requires k < BPB
  {
    Bit(b.bytes[k / 8], k % 8)
  }

  function SetBlockBit(b: Block, k: nat): Block
    requires k < BPB
  {
    assert Exp2(8) == 256;
    RawBlock(b.bytes[k / 8 := SetBit(b.bytes[k / 8], k % 8, 8)])
  }

  function ClearBlockBit(b: Block, k: nat): Block
    requires k < BPB
  {
    assert Exp2(8) == 256;
    RawBlock(b.bytes[k / 8 := ClearBit(b.bytes[k / 8], k % 8, 8)])
  }

  lemma BlockBitOfSet(b: Block, k: nat, j: nat)
    requires k < BPB && j < BPB
    ensures BlockBit(SetBlockBit(b, k), j) <==> j == k || BlockBit(b, j)
    ensures BlockBit(ClearBlockBit(b, k), j) <==> j != k && BlockBit(b, j)
  {
    assert Exp2(8) == 256;
    if k / 8 == j / 8 {
      BitOfSet(b.bytes[k / 8], k % 8, 8, j % 8);
      BitOfClear(b.bytes[k / 8], k % 8, 8, j % 8);
    }
  }
}
