/** Open files on inodes: filewrite cuts a write into transactions, fileread advances the offset. */
module File {
  import LogState
  import opened Bytes
  import opened FsState
  import opened FsStep
  import opened FsWrite
  import opened FsShareRun
  import opened FileSystem

  /** How many bytes filewrite gets through: all of them, or as many whole chunks as fit below the
      size limit, or none when the offset lies past the end of the file. */
  function Accepted(size: nat, off: nat, n: nat): (k: nat)
    ensures k <= n
  {
    if size < off then 0
    else if off + n <= MAXSIZE then n
    else if MAXSIZE < off then 0
    else
      WholeChunks(MAXSIZE - off, n);
      (MAXSIZE - off) / CHUNK * CHUNK
  }

  lemma WholeChunks(room: nat, n: nat)
    requires room < n
    ensures room / CHUNK * CHUNK <= n
  {
  }

  /** How many transactions filewrite makes: one a chunk, and one for the chunk that is refused. */
  function Rounds(n: nat, k: nat): nat {
    if k == n then (n + CHUNK - 1) / CHUNK else k / CHUNK + 1
  }

  lemma OneMoreRound(n: nat, i: nat)
    requires i < n && i % CHUNK == 0
    ensures (i + Min(n - i, CHUNK) + CHUNK - 1) / CHUNK == (i + CHUNK - 1) / CHUNK + 1 == i / CHUNK + 1
  {
  }

  /** The blocks in the bills. */
  function Union(bills: seq<set<nat>>): set<nat> {
    set k, b | 0 <= k < |bills| && b in bills[k] :: b
  }

  lemma UnionAppend(bills: seq<set<nat>>, x: set<nat>)
    ensures Union(bills + [x]) == Union(bills) + x
  {
    forall b ensures b in Union(bills + [x]) <==> b in Union(bills) + x {
      if b in Union(bills) {
        var k :| 0 <= k < |bills| && b in bills[k];
        assert b in (bills + [x])[k];
      }
      if b in x {
        assert b in (bills + [x])[|bills|];
      }
    }
  }

  /** Two transactions together log what each of them changes. */
  lemma BothLogged(a: seq<Block>, b: seq<Block>, c: seq<Block>, x: set<nat>, y: set<nat>)
    requires AllLogged(a, b, x) && AllLogged(b, c, y)
    ensures AllLogged(a, c, x + y)
  {
  }

  /** Writing the next piece right after a spliced one is one longer splice. */
  lemma SpliceTwice<T>(c: seq<T>, off: nat, a: seq<T>, b: seq<T>)
    requires off <= |c|
    ensures off + |a| <= |Splice(c, off, a)|
    ensures Splice(Splice(c, off, a), off + |a|, b) == Splice(c, off, a + b)
  {
  }

  lemma SplicedTwice(sb: Super, fs0: Fs, fs1: Fs, fs2: Fs, i: nat, a: seq<Byte>, b: seq<Byte>, off: nat)
    requires Spliced(sb, fs0, fs1, i, a, off) && Spliced(sb, fs1, fs2, i, b, off + |a|)
    ensures Spliced(sb, fs0, fs2, i, a + b, off)
  {
    SpliceTwice(Content(sb, fs0, i), off, a, b);
    hide Content, Splice;
  }

  lemma SplicedSize(sb: Super, fs0: Fs, fs: Fs, i: nat, a: seq<Byte>, off: nat)
    requires Spliced(sb, fs0, fs, i, a, off)
    ensures fs.inodes[i].size == Max(fs0.inodes[i].size, off + |a|)
  {
    assert |Content(sb, fs, i)| == |Splice(Content(sb, fs0, i), off, a)|;
  }

  /** The blocks that a write of k bytes at off takes. */
  function Grows(size: nat, off: nat, k: nat): int {
    if k == 0 then 0 else Needs(size, off + k)
  }

  /** So many blocks have gone since fs0. */
  ghost predicate Spent(sb: Super, fs0: Fs, fs: Fs, inum: nat, k: nat, off: nat) {
    && Shape(sb, fs0) && Shape(sb, fs) && inum < sb.ninodes
    && FreeBlocks(sb, fs) == FreeBlocks(sb, fs0) - Grows(fs0.inodes[inum].size, off, k)
  }

  lemma SpentNone(sb: Super, fs: Fs, inum: nat, off: nat)
    requires Shape(sb, fs) && inum < sb.ninodes
    ensures Spent(sb, fs, fs, inum, 0, off)
  {
  }

  /** Extending a file in two steps takes what extending it in one does. */
  lemma GrowsOn(size0: nat, size: nat, off: nat, i: nat, m: nat)
    requires if i == 0 then size == size0 else off <= size0 && size == Max(size0, off + i)
    requires 0 < m
    ensures Grows(size0, off, i) + Needs(size, off + i + m) == Grows(size0, off, i + m)
  {
    hide Cost, Blocks;
  }

  lemma GrowsMore(size: nat, off: nat, k: nat, n: nat)
    requires k <= n && (k == 0 ==> 0 == n || off <= size)
    ensures Grows(size, off, k) <= Grows(size, off, n)
  {
    if 0 < k {
      CostGrows(Blocks(if size < off + k then off + k else size), Blocks(if size < off + n then off + n else size));
    } else if 0 < n {
      CostGrows(Blocks(size), Blocks(if size < off + n then off + n else size));
    }
  }

  lemma SpentFits(sb: Super, fs0: Fs, fs: Fs, inum: nat, k: nat, off: nat)
    requires Spent(sb, fs0, fs, inum, k, off)
    ensures Shape(sb, fs0) && inum < sb.ninodes
    ensures Grows(fs0.inodes[inum].size, off, k) <= FreeBlocks(sb, fs0)
  {
  }

  class OpenFile {
    const fs: FileSystem
    const inum: nat
    const readable: bool
    const writable: bool
    var off: Uint

    ghost predicate Valid()
      reads this, fs
    {
      fs.Valid(IDLE) && inum < fs.sb.ninodes
    }

    constructor (fs: FileSystem, inum: nat, readable: bool, writable: bool)
      requires fs.Valid(IDLE) && inum < fs.sb.ninodes
      ensures Valid() && this.fs == fs && this.inum == inum && off == 0
      ensures this.readable == readable && this.writable == writable
    {
      this.fs, this.inum, this.readable, this.writable, off := fs, inum, readable, writable, 0;
    }

    /** fileread on an inode: the slice at the offset, which moves past it. */
    method Read(n: int) returns (r: int, dst: seq<Byte>)
      requires Valid()
      modifies this`off, fs
      ensures fs.Abs() == old(fs.Abs()) && Valid()
      ensures !readable || ReadRefused(fs.inodes[inum].size, old(off), n % UINT_MOD) ==>
        r == -1 && dst == [] && off == old(off)
      ensures readable && !ReadRefused(fs.inodes[inum].size, old(off), n % UINT_MOD) ==>
        && var end := Min(old(off) + n % UINT_MOD, fs.inodes[inum].size);
        && r == end - old(off) && off == end && dst == Content(fs.sb, fs.Abs(), inum)[old(off)..end]
    {
      hide Inv, Content;
      ShapeOf(fs.sb, fs.Abs(), fs.own, fs.ms, IDLE);
      if !readable {
        return -1, [];
      }
      r, dst := fs.Readi(inum, off, n % UINT_MOD);
      if r > 0 {
        off := off + r;
      }
    }

    /** filewrite on an inode. Each round is one transaction, and logs at most MAXOPBLOCKS blocks; between
        them the rounds log every block that is changed. No result means that the disk is full.
        The result is n exactly when every byte was accepted; otherwise it is -1 although the bytes
        of the chunks before the refused one are in the file. */
    method Write(addr: seq<Byte>, n: int) returns (ok: bool, r: int, ghost bills: seq<set<nat>>)
      requires Valid() && n <= |addr| < UINT_MOD
      modifies this`off, fs
      ensures forall k :: 0 <= k < |bills| ==> |bills[k]| <= LogState.MAXOPBLOCKS
      ensures !ok ==> Full(fs.sb, fs.Abs())
      ensures Shape(fs.sb, old(fs.Abs()))
      ensures ok <==>
        || !writable || n < 0
        || var size := old(fs.inodes)[inum].size;
           Grows(size, old(off), Accepted(size, old(off), n)) <= FreeBlocks(fs.sb, old(fs.Abs()))
      ensures ok ==> Valid() && AllLogged(old(fs.blocks), fs.blocks, Union(bills))
      ensures ok && (!writable || n < 0) ==> r == -1 && fs.Abs() == old(fs.Abs()) && off == old(off) && bills == []
      ensures ok && writable && 0 <= n ==>
        && var k := Accepted(old(fs.inodes)[inum].size, old(off), n);
        && off == old(off) + k && r == (if k == n then n else -1) && |bills| == Rounds(n, k)
        && (k == 0 ==> fs.Abs() == old(fs.Abs()))
        && (k != 0 ==> Spliced(fs.sb, old(fs.Abs()), fs.Abs(), inum, addr[..k], old(off)))
    {
      hide Inv, AllLogged, Union, Full, Written, Accepted, Rounds, Spent, Grows, FreeBlocks;
      hide Transaction, Interleaved, Replay, Spliced, FileSystem.Traced;
      ghost var fs0, off0 := fs.Abs(), off;
      ShapeOf(fs.sb, fs0, fs.own, fs.ms, IDLE);
      bills, ok := [], true;
      NothingToLog(fs.blocks, Union(bills));
      if !writable {
        r := -1;
        return;
      }
      ghost var size0 := fs.inodes[inum].size;
      WrittenNone(fs.sb, fs0, inum, addr, off0);
      SpentNone(fs.sb, fs0, inum, off0);
      var i := 0;
      r := 0;
      while i < n && r >= 0
        invariant 0 <= i <= Max(n, 0) && ok && Valid() && off == off0 + i && -1 <= r
        invariant forall k :: 0 <= k < |bills| ==> |bills[k]| <= LogState.MAXOPBLOCKS
        invariant AllLogged(fs0.blocks, fs.blocks, Union(bills)) && Written(fs.sb, fs0, fs.Abs(), inum, addr, i, off0)
        invariant Spent(fs.sb, fs0, fs.Abs(), inum, i, off0)
        invariant |bills| == if r >= 0 then (i + CHUNK - 1) / CHUNK else i / CHUNK + 1
        invariant r >= 0 && i < n ==> i % CHUNK == 0
        invariant r < 0 ==> 0 <= n && i == Accepted(size0, off0, n) < n
        decreases r >= 0, n - i
      {
        ghost var blocks1 := fs.blocks;
        ghost var bill;
        ok, r, bill := WriteChunk(addr, n, i, fs0, off0);
        if !ok {
          return;
        }
        UnionAppend(bills, bill);
        BothLogged(fs0.blocks, blocks1, fs.blocks, Union(bills), bill);
        OneMoreRound(n, i);
        bills := bills + [bill];
        if r >= 0 {
          i := i + r;
        }
      }
      WrittenAll(fs.sb, fs0, fs.Abs(), inum, addr, i, off0);
      if i == n {
        AllAccepted(size0, off0, n);
      }
      RoundsAre(Max(n, 0), i);
      SpentFits(fs.sb, fs0, fs.Abs(), inum, i, off0);
      r := if i == n then n else -1;
    }

    /** One round: a transaction around writei. */
    method WriteChunk(addr: seq<Byte>, n: nat, i: nat, ghost fs0: Fs, ghost off0: Uint)
        returns (ok: bool, r: int, ghost bill: set<nat>)
      requires Valid() && i < n <= |addr| < UINT_MOD && i % CHUNK == 0 && off == off0 + i
      requires Written(fs.sb, fs0, fs.Abs(), inum, addr, i, off0) && Spent(fs.sb, fs0, fs.Abs(), inum, i, off0)
      modifies this`off, fs
      ensures !ok ==> Full(fs.sb, fs.Abs())
      ensures Shape(fs.sb, fs0)
      ensures var size := fs0.inodes[inum].size;
        !ok ==> FreeBlocks(fs.sb, fs0) < Grows(size, off0, Accepted(size, off0, n))
      ensures ok ==> Spent(fs.sb, fs0, fs.Abs(), inum, i + Max(r, 0), off0)
      ensures ok ==> Valid() && AllLogged(old(fs.blocks), fs.blocks, bill) && |bill| <= LogState.MAXOPBLOCKS
      ensures ok ==> Transaction(fs.sb, old(fs.blocks), fs.trace) && Interleaved(fs.sb, old(fs.blocks), fs.trace)
      ensures ok ==> fs.Traced() && fs.base == old(fs.blocks) && bill == fs.logged
      ensures ok ==> (r < 0 <==> i == Accepted(fs0.inodes[inum].size, off0, n))
      ensures ok ==> r == if r < 0 then -1 else Min(n - i, CHUNK)
      ensures ok ==> off == off0 + i + Max(r, 0) && Written(fs.sb, fs0, fs.Abs(), inum, addr, i + Max(r, 0), off0)
    {
      hide Inv, Content, Spliced, AllLogged, Full, Accepted, Transaction, Interleaved, Grows, FreeBlocks, Needs;
      hide Replay, FileSystem.Traced, FileSystem.Shares;
      var n1 := Min(n - i, CHUNK);
      fs.BeginOp();
      ghost var fs1 := fs.Abs();
      ShapeOf(fs.sb, fs1, fs.own, fs.ms, IDLE);
      if i != 0 {
        SplicedSize(fs.sb, fs0, fs1, inum, addr[..i], off0);
      }
      Round(fs0.inodes[inum].size, fs.inodes[inum].size, off0, i, n);
      GrowsOn(fs0.inodes[inum].size, fs.inodes[inum].size, off0, i, n1);
      ok, r := fs.Writei(inum, addr[i..i + n1], off);
      if !ok {
        WholeChunk(fs0.inodes[inum].size, fs1.inodes[inum].size, off0, i, n);
        GrowsMore(fs0.inodes[inum].size, off0, i + n1, Accepted(fs0.inodes[inum].size, off0, n));
      }
      bill := fs.logged;
      if ok {
        ShapeOf(fs.sb, fs.Abs(), fs.own, fs.ms, IDLE);
      }
      if ok && r >= 0 {
        off := off + r;
        Onward(fs.sb, fs0, fs1, fs.Abs(), inum, addr, i, n1, off0);
      }
    }
  }

  /** The first i bytes of addr are in the file at off. */
  ghost predicate Written(sb: Super, fs0: Fs, fs: Fs, inum: nat, addr: seq<Byte>, i: nat, off: nat) {
    && i <= |addr| && Shape(sb, fs0) && inum < sb.ninodes
    && (i == 0 ==> fs == fs0)
    && (i != 0 ==> off <= fs0.inodes[inum].size && off + i <= MAXSIZE && Spliced(sb, fs0, fs, inum, addr[..i], off))
  }

  lemma WrittenNone(sb: Super, fs: Fs, inum: nat, addr: seq<Byte>, off: nat)
    requires Shape(sb, fs) && inum < sb.ninodes
    ensures Written(sb, fs, fs, inum, addr, 0, off)
  {
  }

  lemma WrittenAll(sb: Super, fs0: Fs, fs: Fs, inum: nat, addr: seq<Byte>, i: nat, off: nat)
    requires Written(sb, fs0, fs, inum, addr, i, off)
    ensures i == 0 ==> fs == fs0
    ensures i != 0 ==> i <= |addr| && Spliced(sb, fs0, fs, inum, addr[..i], off)
    ensures i != 0 ==> inum < |fs0.inodes| && off <= fs0.inodes[inum].size && off + i <= MAXSIZE
  {
    hide Spliced;
  }

  lemma AllAccepted(size: nat, off: nat, n: nat)
    requires n != 0 ==> off <= size && off + n <= MAXSIZE
    ensures Accepted(size, off, n) == n
  {
  }

  lemma RoundsAre(n: nat, i: nat)
    requires i <= n
    ensures Rounds(n, i) == if i == n then (i + CHUNK - 1) / CHUNK else i / CHUNK + 1
  {
  }

  /** When the chunk at i is refused, i is what filewrite accepts in all. */
  lemma Round(size0: nat, size: nat, off0: Uint, i: nat, n: nat)
    requires i < n < UINT_MOD && i % CHUNK == 0 && size <= MAXSIZE && off0 + i < UINT_MOD
    requires if i == 0 then size == size0 else off0 <= size0 && size == Max(size0, off0 + i) && off0 + i <= MAXSIZE
    ensures WriteRefused(size, off0 + i, Min(n - i, CHUNK)) <==> i == Accepted(size0, off0, n)
  {
  }

  /** When the chunk at i is not refused, all of it is among what filewrite accepts. */
  lemma WholeChunk(size0: nat, size: nat, off0: Uint, i: nat, n: nat)
    requires i < n < UINT_MOD && i % CHUNK == 0 && size <= MAXSIZE && off0 + i < UINT_MOD
    requires if i == 0 then size == size0 else off0 <= size0 && size == Max(size0, off0 + i) && off0 + i <= MAXSIZE
    requires !WriteRefused(size, off0 + i, Min(n - i, CHUNK))
    ensures i + Min(n - i, CHUNK) <= Accepted(size0, off0, n)
  {
  }

  lemma Onward(sb: Super, fs0: Fs, fs1: Fs, fs2: Fs, i: nat, addr: seq<Byte>, at: nat, m: nat, off: nat)
    requires at + m <= |addr| && Spliced(sb, fs1, fs2, i, addr[at..at + m], off + at)
    requires if at == 0 then fs1 == fs0 else Spliced(sb, fs0, fs1, i, addr[..at], off)
    ensures Spliced(sb, fs0, fs2, i, addr[..at + m], off)
  {
    hide Spliced;
    if at == 0 {
      assert addr[0..m] == addr[..m];
    } else {
      SplicedTwice(sb, fs0, fs1, fs2, i, addr[..at], addr[at..at + m], off);
      assert addr[..at] + addr[at..at + m] == addr[..at + m];
    }
  }
}
