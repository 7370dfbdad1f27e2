/** The inode layer of fs.c: block allocation, block mapping, reading and writing inode content. */
module FileSystem {
  import LogState
  import opened Bytes
  import opened Bitmap
  import opened Dinode
  import opened FsState
  import opened FsGrow
  import opened FsData
  import opened FsStep
  import opened FsBytes
  import opened FsTrunc
  import opened FsWrite
  import opened FsShareRun
  import opened FsShareSteps

  lemma FreeingStarts(sb: Super, fs: Fs, own: Owners, ms: seq<nat>, i: nat)
    requires Inv(sb, fs, own, ms, IDLE) && i < sb.ninodes
    ensures Freeing(sb, fs, own, ms, fs, i, 0)
  {
  }

  /** Bit bi of the bitmap block whose first bit is b's. */
  lemma SameBitmapBlock(sb: Super, b: nat, bi: nat)
    requires Layout(sb) && b % BPB == 0 && bi < BPB && b + bi < sb.size
    ensures BBlock(sb, b + bi) == BBlock(sb, b) < sb.size && (b + bi) % BPB == bi
  {
  }

  lemma NoBits(sb: Super, fs: Fs, own: Owners, ms: seq<nat>, i: nat)
    requires Inv(sb, fs, own, ms, IDLE) && i < sb.ninodes
    ensures Shape(sb, fs) && Bits(sb, HeldUpTo(sb, fs, i, 0)) == {}
  {
  }

  /** Freeing direct blocks leaves the indirect block alone. */
  lemma TableSame(sb: Super, fs0: Fs, own: Owners, ms: seq<nat>, fs: Fs, i: nat)
    requires Freeing(sb, fs0, own, ms, fs, i, NDIRECT) && Shape(sb, fs0) && i < sb.ninodes && TableOf(sb, fs0, i) != 0
    ensures Shape(sb, fs) && TableOf(sb, fs0, i) < sb.size
    ensures fs.blocks[TableOf(sb, fs0, i)] == fs0.blocks[TableOf(sb, fs0, i)]
  {
    hide Inv, HeldUpTo;
    TableOwned(sb, fs0, own, ms, IDLE, i);
  }

  lemma NextBlock(off: nat, m0: nat)
    ensures off / BSIZE <= Max(m0, Blocks(off))
  {
  }

  lemma PieceBlocks(off: nat, m: nat)
    requires 0 < m && off % BSIZE + m <= BSIZE
    ensures Blocks(off + m) == off / BSIZE + 1
  {
  }

  /** What does not fit now does not fit at the end. */
  lemma NoSpace(m0: nat, off: nat, next: nat, end: nat)
    requires off <= next <= end
    ensures Max(Max(m0, Blocks(off)), Blocks(next)) == Max(m0, Blocks(next))
    ensures Cost(Max(m0, Blocks(next))) <= Cost(Max(m0, Blocks(end)))
  {
  }

  lemma NeedsIs(sb: Super, fs: Fs, own: Owners, ms: seq<nat>, i: nat, end: nat)
    requires Inv(sb, fs, own, ms, IDLE) && i < sb.ninodes
    ensures Needs(fs.inodes[i].size, end) == Cost(Max(ms[i], Blocks(end))) - Cost(ms[i])
  {
    hide Cost;
    assert Settled(sb, fs, i, ms[i]);
  }

  lemma GrownBlocks(size: nat, off: nat)
    requires size <= off
    ensures Max(Blocks(size), Blocks(off)) == Blocks(off)
  {
  }

  lemma StayedBlocks(size: nat, off: nat)
    requires off <= size
    ensures Blocks(off) <= Blocks(size)
  {
  }

  /** Every block that was changed has been passed to log_write. */
  ghost predicate AllLogged(before: seq<Block>, after: seq<Block>, logged: set<nat>) {
    |after| == |before| && forall b :: 0 <= b < |after| && after[b] != before[b] ==> b in logged
  }

  lemma NothingToLog(blocks: seq<Block>, logged: set<nat>)
    ensures AllLogged(blocks, blocks, logged)
  {
  }

  lemma StillLogged(a: seq<Block>, b: seq<Block>, c: seq<Block>, logged: set<nat>, logged': set<nat>)
    requires AllLogged(a, b, logged) && AllLogged(b, c, logged') && logged <= logged'
    ensures AllLogged(a, c, logged')
  {
  }

  lemma OneOwner(own: Owners, r: nat, o: Owner)
    requires r !in own
    ensures Taken(own[r := o]) == Taken(own) + 1
  {
    assert own[r := o].Keys == own.Keys + {r};
  }

  /** All blocks of inode i are free and its pointers are zero. */
  ghost predicate Emptied(sb: Super, fs0: Fs, fs: Fs, i: nat)
    requires Shape(sb, fs0) && i < sb.ninodes
  {
    && Freed(sb, fs0, fs, i, Held(sb, fs0, i))
    && (forall n :: 0 <= n <= NDIRECT ==> fs.inodes[i].addrs[n] == 0)
    && fs.inodes[i] == fs0.inodes[i].(addrs := fs.inodes[i].addrs)
  }

  class FileSystem {
    const sb: Super
    var blocks: seq<Block>        // what bread returns for each block
    var inodes: seq<Inode>        // the in-memory inodes
    ghost var own: Owners         // who owns which data block
    ghost var ms: seq<nat>        // how many blocks of each inode are mapped
    ghost var logged: set<nat>    // the blocks passed to log_write
    ghost var base: seq<Block>    // the blocks when the transaction began
    ghost var trace: Trace        // the calls of log_write since then

    ghost function Abs(): Fs
      reads this
    {
      Fs(blocks, inodes)
    }

    ghost predicate Valid(busy: int)
      reads this
    {
      Inv(sb, Abs(), own, ms, busy)
    }

    /** The blocks are what the transaction's calls of log_write make of those it began with. */
    ghost predicate Traced()
      reads this`blocks, this`logged, this`base, this`trace
    {
      && blocks == Replay(base, trace)
      && forall k :: 0 <= k < |trace| ==> trace[k].0 in logged && trace[k].0 < |base|
    }

    /** A transaction has just begun. */
    ghost predicate Starting()
      reads this`blocks, this`base, this`trace
    {
      base == blocks && trace == []
    }

    /** What was done since the transaction began, in steps of the shared layer; inode i is locked. */
    ghost predicate Shares(i: int)
      reads this
    {
      Reached(sb, base, trace, Alone(Abs(), own, ms, i))
    }

    /** The same while itrunc is at the n-th pointer of inode i; it began with fs0. */
    ghost predicate Frees(fs0: Fs, i: nat, n: nat)
      requires Shape(sb, fs0) && i < sb.ninodes && n <= MAXFILE
      reads this
    {
      Reached(sb, base, trace, AtPtr(Abs(), Rest(sb, fs0, own, i, n), ms, i, n))
    }

    constructor (sb: Super, blocks: seq<Block>, inodes: seq<Inode>, ghost own: Owners, ghost ms: seq<nat>)
      requires Inv(sb, Fs(blocks, inodes), own, ms, IDLE)
      ensures Valid(IDLE) && this.sb == sb && Abs() == Fs(blocks, inodes) && this.own == own && logged == {} && Traced()
    {
      this.sb, this.blocks, this.inodes := sb, blocks, inodes;
      this.own, this.ms, logged := own, ms, {};
      base, trace := blocks, [];
    }

    /** A transaction starts with nothing logged. */
    ghost method BeginOp()
      modifies this`logged, this`base, this`trace
      ensures logged == {} && Starting() && Traced()
    {
      logged, base, trace := {}, blocks, [];
    }

    lemma TracesNothing()
      ensures Starting() ==> Traced()
    {
    }

    /** From the start of a transaction to an idle state. */
    lemma WasTransaction(fs0: Fs, own0: Owners, ms0: seq<nat>, started: bool)
      requires Inv(sb, fs0, own0, ms0, IDLE) && Valid(IDLE) && (started ==> Traced() && base == fs0.blocks)
      ensures started ==> Transaction(sb, fs0.blocks, trace)
    {
      hide Inv, Replay, Transaction;
      if started {
        IsTransaction(sb, fs0, own0, ms0, Abs(), own, ms, trace);
      }
    }

    lemma SharesNothing()
      requires Valid(IDLE)
      ensures Starting() ==> Shares(IDLE)
    {
      hide Inv;
      if Starting() {
        ReachedFirst(sb, Alone(Abs(), own, ms, IDLE));
      }
    }

    lemma Locks(i: nat)
      requires i < sb.ninodes
      ensures Shares(IDLE) ==> Shares(i)
    {
      hide Reached;
      if Shares(IDLE) {
        LockSteps(sb, base, trace, Abs(), own, ms, i);
      }
    }

    lemma Unlocks(i: nat)
      requires i < sb.ninodes && Valid(IDLE)
      ensures Shares(i) ==> Shares(IDLE)
    {
      hide Reached, Inv;
      if Shares(i) {
        UnlockSteps(sb, base, trace, Abs(), own, ms, i);
      }
    }

    lemma WasInterleaved(started: bool)
      requires started ==> Shares(IDLE)
      ensures started ==> Interleaved(sb, base, trace)
    {
      hide Reached;
    }

    /** log_write of a buffer whose contents were changed to x. */
    method LogWrite(b: nat, x: Block)
      requires b < |blocks|
      modifies this`blocks, this`logged, this`trace
      ensures AllLogged(old(blocks), blocks, logged) && old(logged) <= logged && (old(Traced()) ==> Traced())
      ensures blocks == old(blocks)[b := x] && logged == old(logged) + {b} && trace == old(trace) + [(b, x)]
    {
      blocks := blocks[b := x];
      logged := logged + {b};
      trace := trace + [(b, x)];
      assert trace[..|trace| - 1] == old(trace);
    }

    /** The scan of one bitmap block, from bit 0. */
    method ScanBlock(b: nat) returns (found: bool, bi: nat)
      requires Shape(sb, Abs()) && b % BPB == 0 && b < sb.size
      ensures found ==> bi < BPB && b + bi < sb.size && !Allocated(sb, Abs(), b + bi)
      ensures forall k :: b <= k < (if found then b + bi else b + BPB) && k < sb.size ==> Allocated(sb, Abs(), k)
    {
      hide BlockBit;
      var bp := blocks[BBlock(sb, b)];
      bi := 0;
      while bi < BPB && b + bi < sb.size
        invariant bi <= BPB
        invariant forall k :: b <= k < b + bi && k < sb.size ==> Allocated(sb, Abs(), k)
      {
        SameBitmapBlock(sb, b, bi);
        if !BlockBit(bp, bi) {
          return true, bi;
        }
        bi := bi + 1;
      }
      found := false;
    }

    /** balloc: the first block whose bit is clear, marked used and zeroed; no result means panic. */
    method Balloc() returns (ok: bool, r: nat)
      requires Shape(sb, Abs())
      modifies this`blocks, this`logged, this`trace
      ensures AllLogged(old(blocks), blocks, logged) && old(logged) <= logged && (old(Traced()) ==> Traced())
      ensures ok <==> !Full(sb, old(Abs()))
      ensures ok ==> r < sb.size && !Allocated(sb, old(Abs()), r)
      ensures ok ==> forall b :: 0 <= b < r ==> Allocated(sb, old(Abs()), b)
      ensures ok ==> Abs() == Alloc(sb, old(Abs()), r) && logged == old(logged) + {BBlock(sb, r), r}
      ensures ok ==> trace == old(trace) + AllocLog(sb, old(Abs()), r)
      ensures !ok ==> Abs() == old(Abs()) && logged == old(logged) && trace == old(trace)
    {
      hide Allocated, SetBlockBit, BBlock, ZeroBlock;
      r := 0;
      var b := 0;
      while b < sb.size
        invariant b % BPB == 0 && Abs() == old(Abs()) && logged == old(logged) && trace == old(trace)
        invariant forall k :: 0 <= k < b && k < sb.size ==> Allocated(sb, Abs(), k)
      {
        var found, bi := ScanBlock(b);
        if found {
          r := b + bi;
          SameBitmapBlock(sb, b, bi);
          LogWrite(BBlock(sb, b), SetBlockBit(blocks[BBlock(sb, b)], bi));
          LogWrite(r, ZeroBlock());
          return true, r;
        }
        b := b + BPB;
      }
      ok := false;
    }

    /** bfree: clear the bit; panics when it is already clear. */
    method Bfree(b: nat) returns (panics: bool)
      requires Shape(sb, Abs()) && b < sb.size
      modifies this`blocks, this`logged, this`trace
      ensures AllLogged(old(blocks), blocks, logged) && old(logged) <= logged && (old(Traced()) ==> Traced())
      ensures panics <==> !Allocated(sb, old(Abs()), b)
      ensures panics ==> Abs() == old(Abs()) && logged == old(logged) && trace == old(trace)
      ensures !panics && b != 0 ==> trace == old(trace) + FreedLog(sb, old(Abs()), b)
      ensures !panics ==> Abs() == FreeBlock(sb, old(Abs()), b) && logged == old(logged) + {BBlock(sb, b)}
    {
      var bp, bi := blocks[BBlock(sb, b)], b % BPB;
      if !BlockBit(bp, bi) {
        return true;
      }
      LogWrite(BBlock(sb, b), ClearBlockBit(bp, bi));
      panics := false;
    }

    /** A block for inode i; the bits of metadata blocks are set, so it is a data block. */
    method TakeFor(ghost i: nat) returns (ok: bool, r: nat)
      requires Valid(i)
      modifies this`blocks, this`logged, this`trace
      ensures AllLogged(old(blocks), blocks, logged) && old(logged) <= logged && (old(Traced()) ==> Traced())
      ensures ok <==> Taken(own) < Capacity(sb)
      ensures !ok ==> Full(sb, Abs())
      ensures ok ==> r !in own
      ensures ok ==> sb.datastart <= r < sb.size && !Allocated(sb, old(Abs()), r)
      ensures ok ==> Abs() == Alloc(sb, old(Abs()), r) && logged == old(logged) + {BBlock(sb, r), r}
      ensures ok ==> trace == old(trace) + AllocLog(sb, old(Abs()), r)
      ensures !ok ==> Abs() == old(Abs()) && logged == old(logged) && trace == old(trace)
    {
      FreeCount(sb, Abs(), own, ms, i);
      hide Full, Taken, AllocLog;
      ok, r := Balloc();
    }

    /** bmap for bn < NDIRECT, when the pointer is 0. */
    method BmapDirect(i: nat, bn: nat) returns (ok: bool, addr: nat)
      requires Valid(i) && i < sb.ninodes && bn == ms[i] < NDIRECT
      modifies this`blocks, this`inodes, this`own, this`ms, this`logged, this`trace
      ensures AllLogged(old(blocks), blocks, logged) && old(logged) <= logged && (old(Traced()) ==> Traced())
      ensures !ok ==> Full(sb, Abs())
      ensures ok <==> Taken(old(own)) < Capacity(sb)
      ensures ok ==> Taken(own) == Taken(old(own)) + 1
      ensures ok ==> Step(sb, old(Abs()), old(own), old(ms), Abs(), own, ms, i) && ms == old(ms)[i := bn + 1]
      ensures ok ==> addr == Ptr(sb, Abs(), i, bn) && TableOf(sb, Abs(), i) == TableOf(sb, old(Abs()), i)
      ensures ok && old(Shares(i)) ==> Shares(i)
      ensures ok ==> logged == old(logged) + {BBlock(sb, addr), addr}
    {
      hide BitsMatch, Maps, Placed, Settled, Allocated, Alloc, Kept, Only, Ptr, Taken, Full, AllocLog, Reached;
      ghost var fs, shared := Abs(), Shares(i);
      ok, addr := TakeFor(i);
      if ok {
        DirectStep(sb, fs, own, ms, i, addr);
        if shared {
          DirectSteps(sb, base, old(trace), fs, own, ms, i, addr);
        }
        inodes := inodes[i := inodes[i].(addrs := inodes[i].addrs[bn := addr])];
        OneOwner(own, addr, Data(i, bn));
        own, ms := own[addr := Data(i, bn)], ms[i := bn + 1];
      }
    }

    /** Loading the indirect block, allocating it if there is none. */
    method BmapTable(i: nat) returns (ok: bool, t: nat, ghost bits: set<nat>)
      requires Valid(i) && i < sb.ninodes
      modifies this`blocks, this`inodes, this`own, this`logged, this`trace
      ensures AllLogged(old(blocks), blocks, logged) && old(logged) <= logged && (old(Traced()) ==> Traced())
      ensures !ok ==> Full(sb, Abs())
      ensures !ok ==> TableOf(sb, old(Abs()), i) == 0
      ensures ok <==> TableOf(sb, old(Abs()), i) != 0 || Taken(old(own)) < Capacity(sb)
      ensures ok ==> Taken(own) == Taken(old(own)) + if TableOf(sb, old(Abs()), i) == 0 then 1 else 0
      ensures ok ==> Step(sb, old(Abs()), old(own), ms, Abs(), own, ms, i)
      ensures ok && old(Shares(i)) ==> Shares(i)
      ensures ok ==> t == TableOf(sb, Abs(), i) != 0 && logged <= old(logged) + bits + {t}
      ensures ok && TableOf(sb, old(Abs()), i) == 0 ==> |bits| == 1
      ensures ok && TableOf(sb, old(Abs()), i) != 0 ==>
        bits == {} && Abs() == old(Abs()) && own == old(own) && logged == old(logged) && trace == old(trace)
    {
      hide BitsMatch, Maps, Placed, Settled, Allocated, Alloc, Kept, Only, Ptr, Taken, Full, AllocLog, Reached;
      ghost var fs, own0, shared := Abs(), own, Shares(i);
      t := inodes[i].addrs[NDIRECT];
      bits := {};
      ok := true;
      StepNone(sb, fs, own, ms, i);
      if t == 0 {
        ok, t := TakeFor(i);
        if ok {
          TableStep(sb, fs, own, ms, i, t);
          if shared {
            TableSteps(sb, base, old(trace), fs, own, ms, i, t);
          }
          inodes := inodes[i := inodes[i].(addrs := inodes[i].addrs[NDIRECT := t])];
          OneOwner(own, t, Table(i));
          own, bits := own[t := Table(i)], {BBlock(sb, t)};
        }
      }
    }

    /** bmap for the entry of the indirect block t, when it is 0. */
    method BmapEntry(i: nat, bn: nat, t: nat) returns (ok: bool, addr: nat)
      requires Valid(i) && i < sb.ninodes && NDIRECT <= bn == ms[i] < MAXFILE && t == TableOf(sb, Abs(), i) != 0
      modifies this`blocks, this`inodes, this`own, this`ms, this`logged, this`trace
      ensures AllLogged(old(blocks), blocks, logged) && old(logged) <= logged && (old(Traced()) ==> Traced())
      ensures !ok ==> Full(sb, Abs())
      ensures ok <==> Taken(old(own)) < Capacity(sb)
      ensures ok ==> Taken(own) == Taken(old(own)) + 1
      ensures ok ==> Step(sb, old(Abs()), old(own), old(ms), Abs(), own, ms, i) && ms == old(ms)[i := bn + 1]
      ensures ok ==> addr == Ptr(sb, Abs(), i, bn) && TableOf(sb, Abs(), i) == t
      ensures ok && old(Shares(i)) ==> Shares(i)
      ensures ok ==> logged == old(logged) + {BBlock(sb, addr), addr, t}
    {
      hide BitsMatch, Maps, Placed, Settled, Allocated, Alloc, Kept, Only, Ptr, Taken, Full, AllLogged, Traced,
        AllocLog, Reached;
      ghost var fs, shared := Abs(), Shares(i);
      TableOwned(sb, fs, own, ms, i, i);
      ok, addr := TakeFor(i);
      if ok {
        EntryStep(sb, fs, own, ms, i, addr);
        if shared {
          EntrySteps(sb, base, old(trace), fs, own, ms, i, addr);
        }
        ghost var blocks1, logged1 := blocks, logged;
        LogWrite(t, PutWord(blocks[t], bn - NDIRECT, addr));
        StillLogged(fs.blocks, blocks1, blocks, logged1, logged);
        OneOwner(own, addr, Data(i, bn));
        own, ms := own[addr := Data(i, bn)], ms[i := bn + 1];
      }
    }

    /** bmap: the block number of the bn-th block of inode i, allocated if the file is being
        extended by it. No result means that balloc panicked on a full disk. */
    method Bmap(i: nat, bn: nat) returns (ok: bool, addr: nat, ghost bits: set<nat>)
      requires Valid(i) && i < sb.ninodes && bn <= ms[i] && bn < MAXFILE
      requires ms[i] <= NDIRECT ==> TableOf(sb, Abs(), i) == 0
      modifies this`blocks, this`inodes, this`own, this`ms, this`logged, this`trace
      ensures AllLogged(old(blocks), blocks, logged) && old(logged) <= logged && (old(Traced()) ==> Traced())
      ensures !ok ==> Full(sb, Abs()) && bn == old(ms)[i]
      ensures ok <==> bn < old(ms)[i] || Taken(old(own)) + Cost(bn + 1) - Cost(bn) <= Capacity(sb)
      ensures ok ==> Step(sb, old(Abs()), old(own), old(ms), Abs(), own, ms, i) && addr == Ptr(sb, Abs(), i, bn)
      ensures ok && old(Shares(i)) ==> Shares(i)
      ensures ok && bn < old(ms)[i] ==>
        Abs() == old(Abs()) && own == old(own) && ms == old(ms) && logged == old(logged) && trace == old(trace)
          && bits == {}
      ensures ok && bn == old(ms)[i] ==> ms == old(ms)[i := bn + 1]
      ensures ok ==> Taken(own) == Taken(old(own)) + Cost(ms[i]) - Cost(old(ms)[i])
      ensures ok ==> (ms[i] <= NDIRECT ==> TableOf(sb, Abs(), i) == 0)
      ensures ok ==> logged <= old(logged) + {addr} + bits + Tables(sb, Abs(), i)
      ensures ok ==> (TableOf(sb, old(Abs()), i) != 0 ==> TableOf(sb, Abs(), i) == TableOf(sb, old(Abs()), i))
      ensures ok ==> |bits| <= ms[i] - old(ms)[i] + |Tables(sb, Abs(), i)| - |Tables(sb, old(Abs()), i)|
    {
      hide BitsMatch, Maps, Placed, Settled, Allocated, Kept, Only, AllLogged, Traced, Taken, Full, Reached;
      ghost var fs, own0 := Abs(), own;
      NothingToLog(blocks, logged);
      StepNone(sb, fs, own, ms, i);
      PtrMapped(sb, fs, own, ms, i, i, bn);
      bits := {};
      if bn < NDIRECT {
        addr := inodes[i].addrs[bn];
        ok := true;
        if addr == 0 {
          ok, addr := BmapDirect(i, bn);
          bits := {BBlock(sb, addr)};
        }
      } else {
        var t;
        ok, t, bits := BmapTable(i);
        addr := 0;
        if ok {
          ghost var fs1, own1, ms1 := Abs(), own, ms;
          PtrMapped(sb, fs1, own, ms, i, i, bn);
          TableOwned(sb, fs1, own, ms, i, i);
          addr := Word(blocks[t], bn - NDIRECT);
          if addr == 0 {
            ghost var logged1 := logged;
            ok, addr := BmapEntry(i, bn, t);
            StillLogged(fs.blocks, fs1.blocks, blocks, logged1, logged);
            bits := bits + {BBlock(sb, addr)};
            if ok {
              StepTwice(sb, fs, own0, ms1, fs1, own1, Abs(), own, ms, i);
            }
          }
        }
      }
    }

    /** One round of readi's loop; the block is mapped, so bmap changes nothing. */
    method ReadPiece(i: nat, off: nat, m: nat) returns (piece: seq<Byte>)
      requires Valid(IDLE) && i < sb.ninodes && off + m <= inodes[i].size && 0 < m && off % BSIZE + m <= BSIZE
      modifies this`blocks, this`inodes, this`own, this`ms, this`logged, this`trace
      ensures Abs() == old(Abs()) && own == old(own) && ms == old(ms) && logged == old(logged) && trace == old(trace)
      ensures piece == Content(sb, Abs(), i)[off..off + m]
    {
      hide Inv, Ptr, Content, Step;
      ghost var fs := Abs();
      ShapeOf(sb, fs, own, ms, IDLE);
      Ready(sb, fs, own, ms, i);
      PieceOfBlock(sb, fs, own, ms, i, off, m);
      var ok, a, _ := Bmap(i, off / BSIZE);
      piece := blocks[a].bytes[off % BSIZE..off % BSIZE + m];
    }

    /** readi: the slice of the file, cut at its end; nothing is allocated on the way. */
    method Readi(i: nat, off0: Uint, n0: Uint) returns (r: int, dst: seq<Byte>)
      requires Valid(IDLE) && i < sb.ninodes
      modifies this`blocks, this`inodes, this`own, this`ms, this`logged, this`trace
      ensures Abs() == old(Abs()) && own == old(own) && ms == old(ms) && logged == old(logged) && trace == old(trace)
      ensures ReadRefused(inodes[i].size, off0, n0) ==> r == -1 && dst == []
      ensures !ReadRefused(inodes[i].size, off0, n0) ==>
        && var end := Min(off0 + n0, inodes[i].size);
        && r == end - off0 == |dst| && dst == Content(sb, Abs(), i)[off0..end]
    {
      hide Inv, Ptr, Content, Step;
      ghost var fs := Abs();
      ShapeOf(sb, fs, own, ms, IDLE);
      if off0 > inodes[i].size || (off0 + n0) % UINT_MOD < off0 {
        return -1, [];
      }
      var n := n0;
      if off0 + n > inodes[i].size {
        n := inodes[i].size - off0;
      }
      dst := [];
      var tot, off := 0, off0;
      while tot < n
        invariant tot <= n && off == off0 + tot && |dst| == tot && off0 + n <= fs.inodes[i].size
        invariant Abs() == fs && own == old(own) && ms == old(ms) && logged == old(logged) && trace == old(trace)
        invariant dst == Content(sb, fs, i)[off0..off]
      {
        var m := Min(n - tot, BSIZE - off % BSIZE);
        var piece := ReadPiece(i, off, m);
        dst := dst + piece;
        JoinSlices(Content(sb, fs, i), off0, off, off + m);
        tot, off := tot + m, off + m;
      }
      r := n;
    }

    /** One round of writei's loop: map the block, copy the piece into it, log it. */
    method WritePiece(i: nat, src: seq<Byte>, off0: nat, off: nat, m: nat,
                      ghost fs0: Fs, ghost own0: Owners, ghost ms0: seq<nat>)
        returns (ok: bool, a: nat, ghost bits: set<nat>)
      requires Writing(sb, fs0, own0, ms0, Abs(), own, ms, i, src, off0, off) && off / BSIZE <= ms[i]
      requires 0 < m && off % BSIZE + m <= BSIZE && off + m <= off0 + |src| && off + m <= MAXSIZE
      modifies this`blocks, this`inodes, this`own, this`ms, this`logged, this`trace
      ensures AllLogged(old(blocks), blocks, logged) && old(logged) <= logged && (old(Traced()) ==> Traced())
      ensures !ok ==> Full(sb, Abs())
      ensures ok <==>
        Taken(old(own)) + Cost(Max(old(ms)[i], Blocks(off + m))) - Cost(old(ms)[i]) <= Capacity(sb)
      ensures ok ==> Writing(sb, fs0, own0, ms0, Abs(), own, ms, i, src, off0, off + m)
      ensures ok ==> Taken(own) == Taken(old(own)) + Cost(ms[i]) - Cost(old(ms)[i])
      ensures ok && old(Shares(i)) ==> Shares(i)
      ensures ok ==> logged <= old(logged) + {a} + bits + Tables(sb, Abs(), i)
      ensures ok ==> TableOf(sb, old(Abs()), i) != 0 ==> TableOf(sb, Abs(), i) == TableOf(sb, old(Abs()), i)
      ensures ok ==> |bits| <= ms[i] - old(ms)[i] + |Tables(sb, Abs(), i)| - |Tables(sb, old(Abs()), i)|
    {
      hide Inv, Wrote, Only, Kept, Ptr, Overwrite, Blocks, Cost, Full, AllLogged, Traced, Taken, Reached;
      PieceBlocks(off, m);
      FreeCount(sb, Abs(), own, ms, i);
      ghost var fs, own1, ms1 := Abs(), own, ms;
      ok, a, bits := Bmap(i, off / BSIZE);
      if ok {
        ShapeOf(sb, Abs(), own, ms, i);
        WritingStep(sb, fs0, own0, ms0, fs, own1, ms1, Abs(), own, ms, i, src, off0, off, m);
        ghost var blocks1, logged1, trace1, fs1 := blocks, logged, trace, Abs();
        LogWrite(a, Overwrite(blocks[a], off % BSIZE, src[off - off0..off - off0 + m]));
        StillLogged(fs.blocks, blocks1, blocks, logged1, logged);
        if old(Shares(i)) {
          PutSteps(sb, base, trace1, fs1, own, ms, i, off / BSIZE, blocks[a]);
        }
      }
    }

    /** The loop of writei. */
    method WriteAll(i: nat, src: seq<Byte>, off0: nat) returns (ok: bool, ghost d: set<nat>, ghost b: set<nat>)
      requires Valid(IDLE) && i < sb.ninodes && off0 <= inodes[i].size && off0 + |src| <= MAXSIZE
      modifies this`blocks, this`inodes, this`own, this`ms, this`logged, this`trace
      ensures AllLogged(old(blocks), blocks, logged) && old(logged) <= logged && (old(Traced()) ==> Traced())
      ensures !ok ==> Full(sb, Abs())
      ensures ok <==> Taken(old(own)) + Cost(Max(old(ms)[i], Blocks(off0 + |src|))) - Cost(old(ms)[i]) <= Capacity(sb)
      ensures ok ==> Writing(sb, old(Abs()), old(own), old(ms), Abs(), own, ms, i, src, off0, off0 + |src|)
      ensures ok && old(Shares(IDLE)) ==> Shares(i)
      ensures ok ==> Taken(own) == Taken(old(own)) + Cost(ms[i]) - Cost(old(ms)[i])
      ensures ok ==> Charged(sb, old(Abs()), old(ms), Abs(), ms, i, off0, off0 + |src|, old(logged), logged, d, b)
    {
      hide Inv, Wrote, Only, Kept, Ptr, Blocks, Cost, Full, AllLogged, Traced, Taken, Shares;
      ghost var fs0, own0, ms0, logged0 := Abs(), own, ms, logged;
      d, b, ok := {}, {}, true;
      NothingToLog(blocks, logged);
      ShapeOf(sb, fs0, own, ms, IDLE);
      WritingStarts(sb, fs0, own, ms, i, src, off0);
      Locks(i);
      var tot, off := 0, off0;
      while tot < |src|
        invariant tot <= |src| && off == off0 + tot && (0 < tot < |src| ==> off % BSIZE == 0)
        invariant Writing(sb, fs0, own0, ms0, Abs(), own, ms, i, src, off0, off)
        invariant AllLogged(fs0.blocks, blocks, logged) && logged0 <= logged && (old(Traced()) ==> Traced())
        invariant Charged(sb, fs0, ms0, Abs(), ms, i, off0, off, logged0, logged, d, b)
        invariant old(Shares(IDLE)) ==> Shares(i)
        invariant Taken(own) == Taken(own0) + Cost(ms[i]) - Cost(ms0[i])
      {
        ghost var fs, ms1, logged1 := Abs(), ms, logged;
        var m := Min(|src| - tot, BSIZE - off % BSIZE);
        NextBlock(off, ms0[i]);
        var a;
        ghost var bits;
        ok, a, bits := WritePiece(i, src, off0, off, m, fs0, own0, ms0);
        StillLogged(fs0.blocks, fs.blocks, blocks, logged1, logged);
        NoSpace(ms0[i], off, off + m, off0 + |src|);
        if !ok {
          return;
        }
        ChargeRound(sb, fs0, ms0, fs, ms1, Abs(), ms, i, off0, off, m, logged0, logged1, logged, d, b, a, bits);
        d, b := d + {a}, b + bits;
        tot, off := tot + m, off + m;
      }
      FreeCount(sb, Abs(), own, ms, i);
    }

    /** iupdate */
    method Iupdate(i: nat)
      requires Shape(sb, Abs()) && i < sb.ninodes
      modifies this`blocks, this`logged, this`trace
      ensures AllLogged(old(blocks), blocks, logged) && old(logged) <= logged && (old(Traced()) ==> Traced())
      ensures trace == old(trace) + [(IBlock(sb, i), blocks[IBlock(sb, i)])]
      ensures Abs() == Stored(sb, old(Abs()), i) && logged == old(logged) + {IBlock(sb, i)}
    {
      var bp, ws := blocks[IBlock(sb, i)], Words(inodes[i]);
      var k := 0;
      while k < DINODE_WORDS
        invariant k <= DINODE_WORDS && bp == PutWords(blocks[IBlock(sb, i)], i % IPB, ws, k)
        invariant Abs() == old(Abs()) && logged == old(logged) && trace == old(trace)
      {
        bp := PutWord(bp, (i % IPB) * DINODE_WORDS + k, ws[k]);
        k := k + 1;
      }
      LogWrite(IBlock(sb, i), bp);
    }

    /** A change of the inode's fields, and iupdate. */
    method StoreInode(i: nat, ip: Inode)
      requires Shape(sb, Abs()) && i < sb.ninodes && |ms| == sb.ninodes
      requires ip.addrs == inodes[i].addrs && ip.size <= MAXSIZE
      modifies this`blocks, this`inodes, this`logged, this`trace
      ensures AllLogged(old(blocks), blocks, logged) && old(logged) <= logged && (old(Traced()) ==> Traced())
      ensures var fs1 := old(Abs()).(inodes := old(inodes)[i := ip]); Shape(sb, fs1) && Abs() == Stored(sb, fs1, i)
      ensures logged == old(logged) + {IBlock(sb, i)}
      ensures old(Shares(i)) ==> Shares(i)
    {
      hide AllLogged, Traced, Stored, Reached;
      if Shares(i) {
        StoreSteps(sb, base, trace, Abs(), own, ms, i, ip);
      }
      inodes := inodes[i := ip];
      Iupdate(i);
    }

    /** writei: -1 and no change when the tests refuse; otherwise the file is spliced, the disk
        inode agrees with the one in memory, and a chunk logs no more than MAXOPBLOCKS blocks. No
        result means that balloc panicked on a full disk. */
    method Writei(i: nat, src: seq<Byte>, off0: Uint) returns (ok: bool, r: int)
      requires Valid(IDLE) && i < sb.ninodes && |src| < UINT_MOD
      modifies this`blocks, this`inodes, this`own, this`ms, this`logged, this`trace
      ensures AllLogged(old(blocks), blocks, logged) && old(logged) <= logged && (old(Traced()) ==> Traced())
      ensures !ok ==> Full(sb, Abs())
      ensures Shape(sb, old(Abs()))
      ensures ok <==>
        || WriteRefused(old(inodes)[i].size, off0, |src|)
        || Needs(old(inodes)[i].size, off0 + |src|) <= FreeBlocks(sb, old(Abs()))
      ensures ok ==> Valid(IDLE)
      ensures ok && old(Starting()) ==> Transaction(sb, old(blocks), trace) && Interleaved(sb, old(blocks), trace)
      ensures ok && old(Shares(IDLE)) ==> Shares(IDLE)
      ensures WriteRefused(old(inodes)[i].size, off0, |src|) ==>
        ok && r == -1 && Abs() == old(Abs()) && own == old(own) && logged == old(logged) && trace == old(trace)
      ensures ok && !WriteRefused(old(inodes)[i].size, off0, |src|) ==>
        && r == |src| && Spliced(sb, old(Abs()), Abs(), i, src, off0)
        && FreeBlocks(sb, Abs()) == FreeBlocks(sb, old(Abs())) - Needs(old(inodes)[i].size, off0 + |src|)
      ensures ok && |src| <= CHUNK ==> |logged - old(logged)| <= LogState.MAXOPBLOCKS
    {
      hide Inv, Wrote, Only, Kept, Ptr, Blocks, Spliced, Charged, Stored, AllLogged, Traced, Transaction, Cost, Needs;
      hide FreeBlocks, Full, Taken, Shares, Interleaved;
      ghost var fs0, own0, ms0, logged0 := Abs(), own, ms, logged;
      NothingToLog(blocks, logged);
      TracesNothing();
      ShapeOf(sb, fs0, own, ms, IDLE);
      Ready(sb, fs0, own, ms, i);
      WasTransaction(fs0, own0, ms0, Starting());
      SharesNothing();
      WasInterleaved(Starting());
      FreeCount(sb, fs0, own, ms, IDLE);
      NeedsIs(sb, fs0, own, ms, i, off0 + |src|);
      if off0 > inodes[i].size || (off0 + |src|) % UINT_MOD < off0 {
        return true, -1;
      }
      if off0 + |src| > MAXSIZE {
        return true, -1;
      }
      ghost var d, b;
      ok, d, b := WriteAll(i, src, off0);
      r := |src|;
      if !ok {
        return;
      }
      OnlySize(sb, fs0, own0, Abs(), own, i);
      if |src| <= CHUNK {
        ChunkBill(sb, fs0, ms0, Abs(), ms, i, off0, |src|, logged0, logged, d, b);
      }
      var off := off0 + |src|;
      if |src| > 0 && off > inodes[i].size {
        GrownBlocks(fs0.inodes[i].size, off);
        GrowEnds(sb, fs0, own0, ms0, Abs(), own, ms, i, src, off0);
        ghost var blocks1, logged1 := blocks, logged;
        StoreInode(i, inodes[i].(size := off));
        StillLogged(fs0.blocks, blocks1, blocks, logged1, logged);
      } else {
        StayedBlocks(fs0.inodes[i].size, off);
        assert ms == ms0;
        StayEnds(sb, fs0, own0, ms0, Abs(), own, i, src, off0);
      }
      FreeCount(sb, Abs(), own, ms, IDLE);
      Unlocks(i);
      WasInterleaved(old(Starting()));
      WasTransaction(fs0, own0, ms0, old(Starting()));
    }

    /** One round of itrunc's first loop. */
    method FreeOne(i: nat, n: nat, ghost fs0: Fs, ghost logged0: set<nat>) returns (panics: bool)
      requires Freeing(sb, fs0, own, ms, Abs(), i, n) && n < NDIRECT && Shape(sb, fs0)
      requires logged == logged0 + Bits(sb, HeldUpTo(sb, fs0, i, n))
      modifies this`blocks, this`inodes, this`logged, this`trace
      ensures AllLogged(old(blocks), blocks, logged) && old(logged) <= logged && (old(Traced()) ==> Traced())
      ensures !panics && Freeing(sb, fs0, own, ms, Abs(), i, n + 1)
      ensures old(Frees(fs0, i, n)) ==> Frees(fs0, i, n + 1)
      ensures logged == logged0 + Bits(sb, HeldUpTo(sb, fs0, i, n + 1))
    {
      hide Inv, Bits, AllLogged, Traced, Reached, Rest, FreedLog, HeldUpTo;
      NothingToLog(blocks, logged);
      PtrStays(sb, fs0, own, ms, Abs(), i, n);
      if Frees(fs0, i, n) {
        RoundSteps(sb, base, trace, fs0, own, ms, Abs(), i, n);
      }
      panics := false;
      var p := inodes[i].addrs[n];
      assert p == Ptr(sb, fs0, i, n);
      if p != 0 {
        NextIsHeld(sb, fs0, own, ms, Abs(), i, n);
        FreeDirect(sb, fs0, own, ms, Abs(), i, n);
        BitsAdd(sb, HeldUpTo(sb, fs0, i, n), p);
        panics := Bfree(p);
        inodes := inodes[i := inodes[i].(addrs := inodes[i].addrs[n := 0])];
      } else {
        FreeNone(sb, fs0, own, ms, Abs(), i, n);
        NextIsFree(sb, fs0, i, n);
      }
    }

    /** The first loop of itrunc. */
    method FreeDirects(i: nat) returns (panics: bool)
      requires Valid(IDLE) && i < sb.ninodes
      modifies this`blocks, this`inodes, this`logged, this`trace
      ensures AllLogged(old(blocks), blocks, logged) && old(logged) <= logged && (old(Traced()) ==> Traced())
      ensures !panics && Freeing(sb, old(Abs()), own, ms, Abs(), i, NDIRECT)
      ensures Shape(sb, old(Abs())) && (old(Shares(IDLE)) ==> Frees(old(Abs()), i, NDIRECT))
      ensures logged == old(logged) + Bits(sb, HeldUpTo(sb, old(Abs()), i, NDIRECT))
    {
      hide Inv, Bits, AllLogged, Traced, Freeing, Reached, Rest;
      NoBits(sb, Abs(), own, ms, i);
      hide HeldUpTo;
      ghost var fs0 := Abs();
      FreeingStarts(sb, fs0, own, ms, i);
      NothingToLog(blocks, logged);
      MsSize(sb, fs0, own, ms);
      if Shares(IDLE) {
        TruncBegins(sb, base, trace, fs0, own, ms, i);
      }
      panics := false;
      var n := 0;
      while n < NDIRECT
        invariant n <= NDIRECT && !panics && Freeing(sb, fs0, own, ms, Abs(), i, n)
        invariant old(Shares(IDLE)) ==> Frees(fs0, i, n)
        invariant logged == old(logged) + Bits(sb, HeldUpTo(sb, fs0, i, n))
        invariant AllLogged(old(blocks), blocks, logged) && old(logged) <= logged && (old(Traced()) ==> Traced())
      {
        ghost var blocks1, logged1 := blocks, logged;
        panics := FreeOne(i, n, fs0, old(logged));
        StillLogged(fs0.blocks, blocks1, blocks, logged1, logged);
        n := n + 1;
      }
    }

    /** One round of itrunc's second loop, whose entry is p. */
    method FreeOneMore(i: nat, p: nat, ghost n: nat, ghost fs0: Fs, ghost logged0: set<nat>) returns (panics: bool)
      requires Freeing(sb, fs0, own, ms, Abs(), i, n) && NDIRECT <= n < MAXFILE && Shape(sb, fs0)
      requires i < sb.ninodes && p == Ptr(sb, fs0, i, n) && logged == logged0 + Bits(sb, HeldUpTo(sb, fs0, i, n))
      modifies this`blocks, this`logged, this`trace
      ensures AllLogged(old(blocks), blocks, logged) && old(logged) <= logged && (old(Traced()) ==> Traced())
      ensures !panics && Freeing(sb, fs0, own, ms, Abs(), i, n + 1)
      ensures old(Frees(fs0, i, n)) ==> Frees(fs0, i, n + 1)
      ensures logged == logged0 + Bits(sb, HeldUpTo(sb, fs0, i, n + 1))
    {
      hide Inv, Bits, AllLogged, Traced, Reached, Rest, FreedLog, HeldUpTo, Ptr, Freeing;
      NothingToLog(blocks, logged);
      PtrStays(sb, fs0, own, ms, Abs(), i, n);
      if Frees(fs0, i, n) {
        RoundSteps(sb, base, trace, fs0, own, ms, Abs(), i, n);
      }
      panics := false;
      if p != 0 {
        NextIsHeld(sb, fs0, own, ms, Abs(), i, n);
        FreeEntry(sb, fs0, own, ms, Abs(), i, n);
        BitsAdd(sb, HeldUpTo(sb, fs0, i, n), p);
        panics := Bfree(p);
      } else {
        FreeNone(sb, fs0, own, ms, Abs(), i, n);
        NextIsFree(sb, fs0, i, n);
      }
    }

    /** The second loop of itrunc, over the entries of the indirect block t. */
    method FreeEntries(i: nat, t: nat, ghost fs0: Fs, ghost logged0: set<nat>) returns (panics: bool)
      requires Freeing(sb, fs0, own, ms, Abs(), i, NDIRECT) && Shape(sb, fs0) && i < sb.ninodes
      requires t == TableOf(sb, fs0, i) != 0 && logged == logged0 + Bits(sb, HeldUpTo(sb, fs0, i, NDIRECT))
      modifies this`blocks, this`logged, this`trace
      ensures AllLogged(old(blocks), blocks, logged) && old(logged) <= logged && (old(Traced()) ==> Traced())
      ensures !panics && Freeing(sb, fs0, own, ms, Abs(), i, MAXFILE)
      ensures old(Frees(fs0, i, NDIRECT)) ==> Frees(fs0, i, MAXFILE)
      ensures logged == logged0 + Bits(sb, HeldUpTo(sb, fs0, i, MAXFILE))
    {
      hide Inv, HeldUpTo, Freed, Freeing, Bits, Frees, AllLogged, Traced;
      TableSame(sb, fs0, own, ms, Abs(), i);
      NothingToLog(blocks, logged);
      var a := blocks[t];
      panics := false;
      var j := 0;
      while j < NINDIRECT
        invariant j <= NINDIRECT && !panics && Freeing(sb, fs0, own, ms, Abs(), i, NDIRECT + j)
        invariant old(Frees(fs0, i, NDIRECT)) ==> Frees(fs0, i, NDIRECT + j)
        invariant logged == logged0 + Bits(sb, HeldUpTo(sb, fs0, i, NDIRECT + j))
        invariant AllLogged(old(blocks), blocks, logged) && old(logged) <= logged && (old(Traced()) ==> Traced())
      {
        ghost var blocks1, logged1 := blocks, logged;
        panics := FreeOneMore(i, Word(a, j), NDIRECT + j, fs0, logged0);
        StillLogged(old(blocks), blocks1, blocks, logged1, logged);
        j := j + 1;
      }
    }

    lemma MsOf(fs0: Fs, i: nat)
      requires Freeing(sb, fs0, own, ms, Abs(), i, MAXFILE)
      ensures |ms| == sb.ninodes
    {
    }

    /** The end of itrunc's second part: the indirect block itself. */
    method FreeTable(i: nat, t: nat, ghost fs0: Fs, ghost logged0: set<nat>) returns (panics: bool)
      requires Freeing(sb, fs0, own, ms, Abs(), i, MAXFILE) && Shape(sb, fs0) && i < sb.ninodes
      requires t == TableOf(sb, fs0, i) != 0 && logged == logged0 + Bits(sb, HeldUpTo(sb, fs0, i, MAXFILE))
      modifies this`blocks, this`inodes, this`logged, this`trace
      ensures AllLogged(old(blocks), blocks, logged) && old(logged) <= logged && (old(Traced()) ==> Traced())
      ensures !panics && Emptied(sb, fs0, Abs(), i)
      ensures old(Frees(fs0, i, MAXFILE)) ==>
        |ms| == sb.ninodes && Reached(sb, base, trace, Alone(Abs(), own - Held(sb, fs0, i), ms[i := 0], i))
      ensures logged == logged0 + Bits(sb, Held(sb, fs0, i))
    {
      hide Inv, HeldUpTo, Held, AllLogged, Traced, Bits, Reached, Rest, FreedLog;
      BitsAdd(sb, HeldUpTo(sb, fs0, i, MAXFILE), t);
      TableIsHeld(sb, fs0, own, ms, Abs(), i);
      ghost var fs1 := Abs();
      MsOf(fs0, i);
      if Frees(fs0, i, MAXFILE) {
        TableFreed(sb, base, trace, fs0, own, ms, Abs(), i);
      }
      panics := Bfree(t);
      FreeEffect(sb, fs0, fs1, i, HeldUpTo(sb, fs0, i, MAXFILE), t);
      ClearAddrFreed(sb, fs0, Abs(), i, Held(sb, fs0, i), NDIRECT);
      inodes := inodes[i := inodes[i].(addrs := inodes[i].addrs[NDIRECT := 0])];
    }

    /** itrunc's loops: every block of the inode is given back exactly once. */
    method FreeAll(i: nat) returns (panics: bool)
      requires Valid(IDLE) && i < sb.ninodes
      modifies this`blocks, this`inodes, this`logged, this`trace
      ensures AllLogged(old(blocks), blocks, logged) && old(logged) <= logged && (old(Traced()) ==> Traced())
      ensures Shape(sb, old(Abs())) && |ms| == sb.ninodes
      ensures !panics && Emptied(sb, old(Abs()), Abs(), i)
      ensures logged == old(logged) + Bits(sb, Held(sb, old(Abs()), i))
      ensures old(Shares(IDLE)) ==>
        Reached(sb, base, trace, Alone(Abs(), own - Held(sb, old(Abs()), i), ms[i := 0], i))
    {
      hide Inv, HeldUpTo, Held, AllLogged, Traced, Bits, Reached, Allocated;
      ghost var fs0, logged0 := Abs(), logged;
      ShapeOf(sb, fs0, own, ms, IDLE);
      MsSize(sb, fs0, own, ms);
      panics := FreeDirects(i);
      ghost var fs1, logged1 := Abs(), logged;
      var t := inodes[i].addrs[NDIRECT];
      assert t == TableOf(sb, fs0, i);
      if t != 0 {
        panics := FreeEntries(i, t, fs0, logged0);
        StillLogged(fs0.blocks, fs1.blocks, blocks, logged1, logged);
        fs1, logged1 := Abs(), logged;
        panics := FreeTable(i, t, fs0, logged0);
        StillLogged(fs0.blocks, fs1.blocks, blocks, logged1, logged);
      } else {
        HeldDirect(sb, fs0, i);
        NoTable(fs0, i);
      }
    }

    /** Without an indirect block itrunc is done after its first loop. */
    lemma NoTable(fs0: Fs, i: nat)
      requires Freeing(sb, fs0, own, ms, Abs(), i, NDIRECT) && Shape(sb, fs0) && Shape(sb, Abs()) && i < sb.ninodes
      requires TableOf(sb, fs0, i) == 0 && |ms| == sb.ninodes
      ensures Frees(fs0, i, NDIRECT) ==>
        Reached(sb, base, trace, Alone(Abs(), own - Held(sb, fs0, i), ms[i := 0], i))
    {
      hide Inv, HeldUpTo, Held, Reached, Freed, Freeing;
      if Frees(fs0, i, NDIRECT) {
        SkipSteps(sb, base, trace, fs0, own, ms, Abs(), i, NDIRECT);
        TableFreed(sb, base, trace, fs0, own, ms, Abs(), i);
      }
    }

    /** itrunc; bfree's panic is not reached. */
    method Itrunc(i: nat) returns (panics: bool)
      requires Valid(IDLE) && i < sb.ninodes
      modifies this`blocks, this`inodes, this`own, this`ms, this`logged, this`trace
      ensures AllLogged(old(blocks), blocks, logged) && old(logged) <= logged && (old(Traced()) ==> Traced())
      ensures old(Starting()) ==> Transaction(sb, old(blocks), trace) && Interleaved(sb, old(blocks), trace)
      ensures old(Shares(IDLE)) ==> Shares(IDLE)
      ensures !panics && Valid(IDLE) && Truncated(sb, old(Abs()), Abs(), i)
      ensures own == old(own) - Held(sb, old(Abs()), i)
      ensures logged == old(logged) + TruncLog(sb, old(Abs()), i)
      ensures |TruncLog(sb, old(Abs()), i)| <= sb.size / BPB + 2
    {
      hide Inv, Held, Stored, Truncated, AllLogged, Traced, Transaction, Bits, Reached, Interleaved;
      ghost var fs0, own0, ms0 := Abs(), own, ms;
      TruncBill(sb, fs0, own, ms, IDLE, i);
      TracesNothing();
      SharesNothing();
      ShapeOf(sb, fs0, own, ms, IDLE);
      panics := FreeAll(i);
      TruncEnds(sb, fs0, own, ms, Abs(), i);
      ghost var fs1, logged1 := Abs(), logged;
      own, ms := own - Held(sb, fs0, i), ms[i := 0];
      StoreInode(i, inodes[i].(size := 0));
      StillLogged(fs0.blocks, fs1.blocks, blocks, logged1, logged);
      Unlocks(i);
      WasInterleaved(old(Starting()));
      WasTransaction(fs0, own0, ms0, old(Starting()));
    }

    /** The part of iput that frees an inode without links: truncate it and clear its type. */
    method FreeInode(i: nat) returns (panics: bool)
      requires Valid(IDLE) && i < sb.ninodes
      modifies this`blocks, this`inodes, this`own, this`ms, this`logged, this`trace
      ensures AllLogged(old(blocks), blocks, logged) && old(logged) <= logged && (old(Traced()) ==> Traced())
      ensures old(Starting()) ==> Transaction(sb, old(blocks), trace) && Interleaved(sb, old(blocks), trace)
      ensures old(Shares(IDLE)) ==> Shares(IDLE)
      ensures !panics && Valid(IDLE) && Gone(sb, old(Abs()), Abs(), i)
      ensures own == old(own) - Held(sb, old(Abs()), i)
      ensures logged == old(logged) + TruncLog(sb, old(Abs()), i)
      ensures |TruncLog(sb, old(Abs()), i)| <= sb.size / BPB + 2
    {
      hide Inv, Bits, Held, Stored, Truncated, Gone, AllLogged, Traced, Transaction, Shares, Interleaved;
      ghost var fs0, own0, ms0 := Abs(), own, ms;
      TracesNothing();
      SharesNothing();
      panics := Itrunc(i);
      ghost var fs1, logged1 := Abs(), logged;
      ShapeOf(sb, fs1, own, ms, IDLE);
      GoneEnds(sb, fs0, fs1, own, ms, i, inodes[i].(kind := 0));
      Locks(i);
      StoreInode(i, inodes[i].(kind := 0));
      StillLogged(fs0.blocks, fs1.blocks, blocks, logged1, logged);
      Unlocks(i);
      WasInterleaved(old(Starting()));
      WasTransaction(fs0, own0, ms0, old(Starting()));
    }
  }
}
