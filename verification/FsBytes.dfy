/** Inode content as bytes: what reading and writing one piece of one block means for the file. */
module FsBytes {
  import opened Bytes
  import opened Dinode
  import opened FsState
  import opened FsData
  import opened FsStep

  lemma InBlocks(k: nat, size: nat)
    requires k < size
    ensures k / BSIZE < Blocks(size)
  {
  }

  lemma SameBlock(off: nat, m: nat, k: nat)
    requires off % BSIZE + m <= BSIZE && off <= k < off + m
    ensures k / BSIZE == off / BSIZE && k % BSIZE == off % BSIZE + (k - off)
  {
  }

  /** A position within the file lies in a mapped block. */
  lemma WithinMapped(sb: Super, fs: Fs, own: Owners, ms: seq<nat>, i: nat, off: nat)
    requires Inv(sb, fs, own, ms, IDLE) && i < sb.ninodes && off < fs.inodes[i].size
    ensures off / BSIZE < ms[i] && sb.datastart <= Ptr(sb, fs, i, off / BSIZE) < sb.size
  {
    assert Settled(sb, fs, i, ms[i]);
    InBlocks(off, fs.inodes[i].size);
    PtrMapped(sb, fs, own, ms, IDLE, i, off / BSIZE);
  }

  /** The bytes [off, off + m) of a file that lie in one block. */
  lemma PieceOfBlock(sb: Super, fs: Fs, own: Owners, ms: seq<nat>, i: nat, off: nat, m: nat)
    requires Inv(sb, fs, own, ms, IDLE) && i < sb.ninodes
    requires off + m <= fs.inodes[i].size && 0 < m && off % BSIZE + m <= BSIZE
    ensures var a := Ptr(sb, fs, i, off / BSIZE);
      && off / BSIZE < ms[i] && sb.datastart <= a < sb.size
      && fs.blocks[a].bytes[off % BSIZE..off % BSIZE + m] == Content(sb, fs, i)[off..off + m]
  {
    hide BitsMatch, Maps, Placed, Settled, Ptr;
    WithinMapped(sb, fs, own, ms, i, off);
    var piece := fs.blocks[Ptr(sb, fs, i, off / BSIZE)].bytes[off % BSIZE..off % BSIZE + m];
    forall k | off <= k < off + m ensures FileByte(sb, fs, i, k) == piece[k - off] {
      SameBlock(off, m, k);
    }
    hide FileByte;
    SeqSlice(sb, fs, i, off, m, piece);
  }

  lemma SeqSlice(sb: Super, fs: Fs, i: nat, off: nat, m: nat, piece: seq<Byte>)
    requires Shape(sb, fs) && i < sb.ninodes && off + m <= fs.inodes[i].size && |piece| == m
    requires forall k :: off <= k < off + m ==> FileByte(sb, fs, i, k) == piece[k - off]
    ensures piece == Content(sb, fs, i)[off..off + m]
  {
    hide FileByte;
  }

  /** Replacing part of a block. */
  function Overwrite(b: Block, at: nat, src: seq<Byte>): Block
    requires at + |src| <= BSIZE
  {
    RawBlock(b.bytes[..at] + src + b.bytes[at + |src|..])
  }

  /** Rewriting the bn-th block of file i changes the bytes of that block of that file only. */
  lemma PutBytes(sb: Super, fs: Fs, own: Owners, ms: seq<nat>, busy: int, i: nat, bn: nat, x: Block, j: nat, k: nat)
    requires Inv(sb, fs, own, ms, busy) && i < sb.ninodes && bn < ms[i] && bn < MAXFILE
    requires j < sb.ninodes && k < MAXSIZE && Ptr(sb, fs, i, bn) < sb.size
    requires Shape(sb, PutBlock(sb, fs, Ptr(sb, fs, i, bn), x))
    requires Ptr(sb, PutBlock(sb, fs, Ptr(sb, fs, i, bn), x), j, k / BSIZE) == Ptr(sb, fs, j, k / BSIZE)
    ensures FileByte(sb, PutBlock(sb, fs, Ptr(sb, fs, i, bn), x), j, k) ==
      if j == i && k / BSIZE == bn then x.bytes[k % BSIZE] else FileByte(sb, fs, j, k)
  {
    PtrMapped(sb, fs, own, ms, busy, i, bn);
    PointersDistinct(sb, fs, own, ms, busy, i, bn, j, k / BSIZE);
    hide Inv, Ptr;
  }

  /** From fs0, exactly the bytes [off0, off) of file i were written, with src. */
  ghost predicate Wrote(sb: Super, fs0: Fs, ms0: seq<nat>, fs: Fs, i: nat, src: seq<Byte>, off0: nat, off: nat) {
    && Shape(sb, fs0) && Shape(sb, fs) && |ms0| == sb.ninodes && i < sb.ninodes
    && off0 <= off <= off0 + |src| && off <= MAXSIZE
    && (forall j, k :: 0 <= j < sb.ninodes && 0 <= k < MAXSIZE && k / BSIZE < ms0[j] && !(j == i && off0 <= k < off) ==>
          FileByte(sb, fs, j, k) == FileByte(sb, fs0, j, k))
    && (forall k :: off0 <= k < off ==> FileByte(sb, fs, i, k) == src[k - off0])
  }

  /** Writing a piece into the block that a position lies in. */
  lemma PutPiece(sb: Super, fs: Fs, own: Owners, ms: seq<nat>, i: nat, off: nat, piece: seq<Byte>)
    requires i < sb.ninodes && Inv(sb, fs, own, ms, i) && off / BSIZE < ms[i]
    requires 0 < |piece| && off % BSIZE + |piece| <= BSIZE && off + |piece| <= MAXSIZE
    ensures var a := Ptr(sb, fs, i, off / BSIZE);
      && sb.datastart <= a < sb.size
      && var fs' := PutBlock(sb, fs, a, Overwrite(fs.blocks[a], off % BSIZE, piece));
      && Inv(sb, fs', own, ms, i)
      && forall j, k :: 0 <= j < sb.ninodes && 0 <= k < MAXSIZE ==>
           FileByte(sb, fs', j, k) ==
             if j == i && off <= k < off + |piece| then piece[k - off] else FileByte(sb, fs, j, k)
  {
    hide BitsMatch, Maps, Placed, Settled;
    var bn := off / BSIZE;
    PtrMapped(sb, fs, own, ms, i, i, bn);
    MappedBound(sb, fs, own, ms, i, i);
    var a := Ptr(sb, fs, i, bn);
    var x := Overwrite(fs.blocks[a], off % BSIZE, piece);
    PutBlockKeeps(sb, fs, own, ms, i, i, bn, x);
    var fs' := PutBlock(sb, fs, a, x);
    hide Ptr;
    forall j, k | 0 <= j < sb.ninodes && 0 <= k < MAXSIZE
      ensures FileByte(sb, fs', j, k) ==
        if j == i && off <= k < off + |piece| then piece[k - off] else FileByte(sb, fs, j, k)
    {
      PutBytes(sb, fs, own, ms, i, i, bn, x, j, k);
      if off <= k < off + |piece| {
        SameBlock(off, |piece|, k);
      }
    }
  }

  lemma MappedBound(sb: Super, fs: Fs, own: Owners, ms: seq<nat>, busy: int, i: nat)
    requires i < sb.ninodes && Inv(sb, fs, own, ms, busy)
    ensures ms[i] <= MAXFILE
  {
    assert Maps(sb, fs, own, i, ms[i]);
  }

  /** One round of writei's loop. */
  lemma WroteStep(sb: Super, fs0: Fs, ms0: seq<nat>, fs: Fs, ms: seq<nat>, fs1: Fs, own1: Owners, ms1: seq<nat>,
                  i: nat, src: seq<Byte>, off0: nat, off: nat, m: nat)
    requires Wrote(sb, fs0, ms0, fs, i, src, off0, off)
    requires |ms| == sb.ninodes && (forall j :: 0 <= j < sb.ninodes ==> ms0[j] <= ms[j]) && Blocks(off) <= ms[i]
    requires Inv(sb, fs1, own1, ms1, i) && Kept(sb, fs, ms, fs1) && off / BSIZE < ms1[i]
    requires 0 < m && off % BSIZE + m <= BSIZE && off + m <= off0 + |src| && off + m <= MAXSIZE
    ensures var a := Ptr(sb, fs1, i, off / BSIZE);
      && sb.datastart <= a < sb.size
      && var fs2 := PutBlock(sb, fs1, a, Overwrite(fs1.blocks[a], off % BSIZE, src[off - off0..off - off0 + m]));
      && Inv(sb, fs2, own1, ms1, i)
      && Wrote(sb, fs0, ms0, fs2, i, src, off0, off + m)
  {
    hide BitsMatch, Maps, Placed, Settled, FileByte, Overwrite, Ptr;
    var piece := src[off - off0..off - off0 + m];
    PutPiece(sb, fs1, own1, ms1, i, off, piece);
    var a := Ptr(sb, fs1, i, off / BSIZE);
    var fs2 := PutBlock(sb, fs1, a, Overwrite(fs1.blocks[a], off % BSIZE, piece));
    forall j, k | 0 <= j < sb.ninodes && 0 <= k < MAXSIZE && k / BSIZE < ms0[j] && !(j == i && off0 <= k < off + m)
      ensures FileByte(sb, fs2, j, k) == FileByte(sb, fs0, j, k)
    {
      assert FileByte(sb, fs1, j, k) == FileByte(sb, fs, j, k);
    }
    forall k | off0 <= k < off + m ensures FileByte(sb, fs2, i, k) == src[k - off0] {
      if k < off {
        InBlocks(k, off);
        assert FileByte(sb, fs1, i, k) == FileByte(sb, fs, i, k);
      }
    }
  }
}
