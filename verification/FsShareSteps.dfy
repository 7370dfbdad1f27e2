/** What the code of the inode layer does, in steps of the shared layer: one operation, holding one lock. */
module FsShareSteps {
  import opened Bytes
  import opened Bitmap
  import opened Dinode
  import opened FsState
  import opened FsGrow
  import opened FsData
  import opened FsTrunc
  import S = FsShare
  import opened FsShareRun

  /** Inode i locked, nothing else going on; with IDLE, nothing at all. */
  function Alone(fs: Fs, own: Owners, ms: seq<nat>, i: int): S.Shared {
    S.Shared(fs, own, ms, if i < 0 then map[] else map[i as nat := S.Writing], map[])
  }

  lemma LockSteps(sb: Super, d: seq<Block>, tr: Trace, fs: Fs, own: Owners, ms: seq<nat>, i: nat)
    requires Reached(sb, d, tr, Alone(fs, own, ms, IDLE)) && i < sb.ninodes
    ensures Reached(sb, d, tr, Alone(fs, own, ms, i))
  {
    hide Reached, S.SInv;
    var s := Alone(fs, own, ms, IDLE);
    ReachedInv(sb, d, tr, s);
    ReachedNext(sb, d, tr, s, S.Lock(i));
    assert S.Next(sb, s, S.Lock(i)).busy == map[i := S.Writing];
    assert tr + [] == tr;
  }

  lemma UnlockSteps(sb: Super, d: seq<Block>, tr: Trace, fs: Fs, own: Owners, ms: seq<nat>, i: nat)
    requires Reached(sb, d, tr, Alone(fs, own, ms, i)) && Inv(sb, fs, own, ms, IDLE) && i < sb.ninodes
    ensures Reached(sb, d, tr, Alone(fs, own, ms, IDLE))
  {
    hide Reached, Settled, Maps, Placed, BitsMatch;
    var s := Alone(fs, own, ms, i);
    assert Settled(sb, fs, i, ms[i]);
    ReachedNext(sb, d, tr, s, S.Unlock(i));
    assert S.Next(sb, s, S.Unlock(i)).busy == map[];
    assert tr + [] == tr;
  }

  /** The log_writes of balloc. */
  function AllocLog(sb: Super, fs: Fs, r: nat): Trace
    requires Shape(sb, fs) && r < sb.size
  {
    [(BBlock(sb, r), SetBlockBit(fs.blocks[BBlock(sb, r)], r % BPB)), (r, ZeroBlock())]
  }

  lemma AllocSteps(sb: Super, d: seq<Block>, tr: Trace, fs: Fs, own: Owners, ms: seq<nat>, i: nat, r: nat)
    requires Reached(sb, d, tr, Alone(fs, own, ms, i)) && i < sb.ninodes
    requires Shape(sb, fs) && |ms| == sb.ninodes && r < sb.size && !Allocated(sb, fs, r)
    ensures Reached(sb, d, tr + AllocLog(sb, fs, r),
      Alone(fs, own, ms, i).(fs := Alloc(sb, fs, r), loose := map[r := S.Loose(i, true)]))
  {
    hide Reached, Allocated, SetBlockBit, ZeroBlock;
    var s := Alone(fs, own, ms, i);
    ReachedNext(sb, d, tr, s, S.Take(i, r));
    var s1, tr1 := S.Next(sb, s, S.Take(i, r)), tr + LogOf(sb, s, S.Take(i, r));
    AllocIs(sb, fs, r);
    ReachedNext(sb, d, tr1, s1, S.Zero(i, r));
    assert tr1 + LogOf(sb, s1, S.Zero(i, r)) == tr + AllocLog(sb, fs, r);
    assert S.Next(sb, s1, S.Zero(i, r)).loose == map[r := S.Loose(i, true)];
  }

  /** bmap's new direct block. */
  lemma DirectSteps(sb: Super, d: seq<Block>, tr: Trace, fs: Fs, own: Owners, ms: seq<nat>, i: nat, r: nat)
    requires Reached(sb, d, tr, Alone(fs, own, ms, i)) && i < sb.ninodes
    requires Shape(sb, fs) && |ms| == sb.ninodes && r < sb.size && !Allocated(sb, fs, r) && ms[i] < NDIRECT
    ensures Shape(sb, Alloc(sb, fs, r))
    ensures Reached(sb, d, tr + AllocLog(sb, fs, r),
      Alone(SetAddr(sb, Alloc(sb, fs, r), i, ms[i], r), own[r := Data(i, ms[i])], ms[i := ms[i] + 1], i))
  {
    hide Reached, Allocated, AllocLog;
    AllocSteps(sb, d, tr, fs, own, ms, i, r);
    var s, tr' := Alone(fs, own, ms, i).(fs := Alloc(sb, fs, r), loose := map[r := S.Loose(i, true)]),
      tr + AllocLog(sb, fs, r);
    ReachedNext(sb, d, tr', s, S.MapDirect(i, r));
    assert tr' + [] == tr';
    assert S.Next(sb, s, S.MapDirect(i, r)).loose == map[];
  }

  /** bmap's indirect block. */
  lemma TableSteps(sb: Super, d: seq<Block>, tr: Trace, fs: Fs, own: Owners, ms: seq<nat>, i: nat, r: nat)
    requires Reached(sb, d, tr, Alone(fs, own, ms, i)) && i < sb.ninodes
    requires Shape(sb, fs) && |ms| == sb.ninodes && r < sb.size && !Allocated(sb, fs, r) && TableOf(sb, fs, i) == 0
    ensures Shape(sb, Alloc(sb, fs, r))
    ensures Reached(sb, d, tr + AllocLog(sb, fs, r),
      Alone(SetAddr(sb, Alloc(sb, fs, r), i, NDIRECT, r), own[r := Table(i)], ms, i))
  {
    hide Reached, Allocated, AllocLog;
    AllocSteps(sb, d, tr, fs, own, ms, i, r);
    var s, tr' := Alone(fs, own, ms, i).(fs := Alloc(sb, fs, r), loose := map[r := S.Loose(i, true)]),
      tr + AllocLog(sb, fs, r);
    ReachedNext(sb, d, tr', s, S.MapTable(i, r));
    assert tr' + [] == tr';
    assert S.Next(sb, s, S.MapTable(i, r)).loose == map[];
  }

  /** The log_write of the indirect block t. */
  function EntryLog(sb: Super, fs: Fs, t: nat, n: nat, r: nat): Trace
    requires Shape(sb, fs) && t < sb.size && r < sb.size && n < NINDIRECT
  {
    [(t, PutWord(Alloc(sb, fs, r).blocks[t], n, r))]
  }

  /** bmap's new entry. */
  lemma EntrySteps(sb: Super, d: seq<Block>, tr: Trace, fs: Fs, own: Owners, ms: seq<nat>, i: nat, r: nat)
    requires Reached(sb, d, tr, Alone(fs, own, ms, i)) && i < sb.ninodes
    requires Shape(sb, fs) && |ms| == sb.ninodes && r < sb.size && !Allocated(sb, fs, r)
    requires NDIRECT <= ms[i] < MAXFILE && 0 < TableOf(sb, fs, i) < sb.size
    ensures Shape(sb, Alloc(sb, fs, r))
    ensures var t, n := TableOf(sb, fs, i), ms[i] - NDIRECT;
      Reached(sb, d, tr + AllocLog(sb, fs, r) + EntryLog(sb, fs, t, n, r),
        Alone(SetEntry(sb, Alloc(sb, fs, r), t, n, r), own[r := Data(i, ms[i])], ms[i := ms[i] + 1], i))
  {
    hide Reached, Allocated, AllocLog, PutWord, SetBlockBit, ZeroBlock;
    AllocSteps(sb, d, tr, fs, own, ms, i, r);
    var s, tr' := Alone(fs, own, ms, i).(fs := Alloc(sb, fs, r), loose := map[r := S.Loose(i, true)]),
      tr + AllocLog(sb, fs, r);
    ReachedNext(sb, d, tr', s, S.MapEntry(i, r));
    assert LogOf(sb, s, S.MapEntry(i, r)) == EntryLog(sb, fs, TableOf(sb, fs, i), ms[i] - NDIRECT, r);
    assert S.Next(sb, s, S.MapEntry(i, r)).loose == map[];
  }

  /** writei's block of data. */
  lemma PutSteps(sb: Super, d: seq<Block>, tr: Trace, fs: Fs, own: Owners, ms: seq<nat>, i: nat, bn: nat, x: Block)
    requires Reached(sb, d, tr, Alone(fs, own, ms, i)) && i < sb.ninodes
    requires Shape(sb, fs) && |ms| == sb.ninodes && bn < ms[i] && bn < MAXFILE && Ptr(sb, fs, i, bn) < sb.size
    ensures Reached(sb, d, tr + [(Ptr(sb, fs, i, bn), x)], Alone(PutBlock(sb, fs, Ptr(sb, fs, i, bn), x), own, ms, i))
  {
    hide Reached, Ptr;
    ReachedNext(sb, d, tr, Alone(fs, own, ms, i), S.Put(i, bn, x));
  }

  /** New fields for inode i, and iupdate. */
  lemma StoreSteps(sb: Super, d: seq<Block>, tr: Trace, fs: Fs, own: Owners, ms: seq<nat>, i: nat, ip: Inode)
    requires Reached(sb, d, tr, Alone(fs, own, ms, i)) && i < sb.ninodes
    requires Shape(sb, fs) && |ms| == sb.ninodes && ip.addrs == fs.inodes[i].addrs && ip.size <= MAXSIZE
    ensures var fs1 := fs.(inodes := fs.inodes[i := ip]);
      && Shape(sb, fs1)
      && var fs2 := Stored(sb, fs1, i);
      Reached(sb, d, tr + [(IBlock(sb, i), fs2.blocks[IBlock(sb, i)])], Alone(fs2, own, ms, i))
  {
    hide Reached, PutDinode;
    var s, fs1 := Alone(fs, own, ms, i), fs.(inodes := fs.inodes[i := ip]);
    ReachedNext(sb, d, tr, s, S.Change(i, ip));
    assert tr + [] == tr;
    ReachedNext(sb, d, tr, Alone(fs1, own, ms, i), S.Store(i));
  }

  // ----- itrunc

  /** itrunc at its n-th pointer. */
  function AtPtr(fs: Fs, own: Owners, ms: seq<nat>, i: nat, n: nat): S.Shared {
    S.Shared(fs, own, ms, map[i := S.Freeing(n)], map[])
  }

  lemma TruncStarts(sb: Super, d: seq<Block>, tr: Trace, fs: Fs, own: Owners, ms: seq<nat>, i: nat)
    requires Reached(sb, d, tr, Alone(fs, own, ms, i)) && i < sb.ninodes && Shape(sb, fs) && |ms| == sb.ninodes
    ensures Reached(sb, d, tr, AtPtr(fs, own, ms, i, 0))
  {
    hide Reached;
    var s := Alone(fs, own, ms, i);
    ReachedNext(sb, d, tr, s, S.StartFree(i));
    assert S.Next(sb, s, S.StartFree(i)).busy == map[i := S.Freeing(0)];
    assert tr + [] == tr;
  }

  lemma TruncSteps(sb: Super, d: seq<Block>, tr: Trace, fs: Fs, own: Owners, ms: seq<nat>, i: nat, n: nat)
    requires Reached(sb, d, tr, AtPtr(fs, own, ms, i, n)) && i < sb.ninodes && Shape(sb, fs) && |ms| == sb.ninodes
    requires n < MAXFILE && Ptr(sb, fs, i, n) < sb.size
    ensures Reached(sb, d, tr + FreedLog(sb, fs, Ptr(sb, fs, i, n)),
      AtPtr(S.DropPtr(sb, fs, i, n), own - {Ptr(sb, fs, i, n)}, ms, i, n + 1))
  {
    hide Reached, Ptr, FreedLog, S.DropPtr;
    var s := AtPtr(fs, own, ms, i, n);
    ReachedNext(sb, d, tr, s, S.FreePtr(i));
    assert S.Next(sb, s, S.FreePtr(i)).busy == map[i := S.Freeing(n + 1)];
  }

  lemma TruncTable(sb: Super, d: seq<Block>, tr: Trace, fs: Fs, own: Owners, ms: seq<nat>, i: nat)
    requires Reached(sb, d, tr, AtPtr(fs, own, ms, i, MAXFILE)) && i < sb.ninodes
    requires Shape(sb, fs) && |ms| == sb.ninodes && TableOf(sb, fs, i) < sb.size
    ensures Reached(sb, d, tr + FreedLog(sb, fs, TableOf(sb, fs, i)),
      Alone(S.DropTable(sb, fs, i), own - {TableOf(sb, fs, i)}, ms[i := 0], i))
  {
    hide Reached, FreedLog, S.DropTable;
    var s := AtPtr(fs, own, ms, i, MAXFILE);
    ReachedNext(sb, d, tr, s, S.FreeTable(i));
    assert S.Next(sb, s, S.FreeTable(i)).busy == map[i := S.Writing];
  }

  /** The owners left when itrunc has gone through n pointers of inode i, which were fs0's. */
  ghost function Rest(sb: Super, fs0: Fs, own: Owners, i: nat, n: nat): Owners
    requires Shape(sb, fs0) && i < sb.ninodes && n <= MAXFILE
  {
    own - HeldUpTo(sb, fs0, i, n)
  }

  lemma RestNext(sb: Super, fs0: Fs, own: Owners, ms: seq<nat>, i: nat, n: nat)
    requires Inv(sb, fs0, own, ms, IDLE) && i < sb.ninodes && n < MAXFILE
    ensures Rest(sb, fs0, own, i, n) - {Ptr(sb, fs0, i, n)} == Rest(sb, fs0, own, i, n + 1)
  {
    hide Maps, Placed, Settled, Ptr, Allocated;
    var p := Ptr(sb, fs0, i, n);
    if p == 0 {
      NextIsFree(sb, fs0, i, n);
      assert 0 !in own;
    } else {
      assert HeldUpTo(sb, fs0, i, n + 1) == HeldUpTo(sb, fs0, i, n) + {p};
    }
  }

  /** The pointer that itrunc is at is still the one it found. */
  lemma PtrStays(sb: Super, fs0: Fs, own: Owners, ms: seq<nat>, fs: Fs, i: nat, n: nat)
    requires Freeing(sb, fs0, own, ms, fs, i, n) && n < MAXFILE
    ensures Shape(sb, fs0) && Shape(sb, fs) && TableOf(sb, fs, i) == TableOf(sb, fs0, i)
    ensures Ptr(sb, fs, i, n) == Ptr(sb, fs0, i, n) < sb.size
  {
    hide Maps, Placed, Settled, BitsMatch, HeldUpTo, Allocated;
    TableOwned(sb, fs0, own, ms, IDLE, i);
    PointersDistinct(sb, fs0, own, ms, IDLE, i, n, i, n);
  }

  lemma DropIs(sb: Super, fs: Fs, i: nat, n: nat)
    requires Shape(sb, fs) && i < sb.ninodes && n < MAXFILE && Ptr(sb, fs, i, n) < sb.size
    ensures var p := Ptr(sb, fs, i, n);
      if p == 0 then S.DropPtr(sb, fs, i, n) == fs
      else
        && Shape(sb, FreeBlock(sb, fs, p))
        && S.DropPtr(sb, fs, i, n) ==
          if n < NDIRECT then SetAddr(sb, FreeBlock(sb, fs, p), i, n, 0) else FreeBlock(sb, fs, p)
  {
    if n < NDIRECT && Ptr(sb, fs, i, n) == 0 {
      var ip := fs.inodes[i];
      assert ip.addrs[n := 0] == ip.addrs;
      assert fs.inodes[i := ip] == fs.inodes;
    }
  }

  /** One round of itrunc's loops. */
  lemma RoundSteps(sb: Super, d: seq<Block>, tr: Trace, fs0: Fs, own: Owners, ms: seq<nat>, fs: Fs, i: nat, n: nat)
    requires Freeing(sb, fs0, own, ms, fs, i, n) && n < MAXFILE && Shape(sb, fs0) && Shape(sb, fs)
    requires Reached(sb, d, tr, AtPtr(fs, Rest(sb, fs0, own, i, n), ms, i, n)) && Ptr(sb, fs0, i, n) < sb.size
    ensures var p := Ptr(sb, fs0, i, n);
      if p == 0 then Reached(sb, d, tr, AtPtr(fs, Rest(sb, fs0, own, i, n + 1), ms, i, n + 1))
      else
        && Shape(sb, FreeBlock(sb, fs, p))
        && var fs' := if n < NDIRECT then SetAddr(sb, FreeBlock(sb, fs, p), i, n, 0) else FreeBlock(sb, fs, p);
        Reached(sb, d, tr + FreedLog(sb, fs, p), AtPtr(fs', Rest(sb, fs0, own, i, n + 1), ms, i, n + 1))
  {
    hide Reached, Inv, Freed, HeldUpTo, Ptr, S.DropPtr, FreeBlock, Rest;
    PtrStays(sb, fs0, own, ms, fs, i, n);
    MsSize(sb, fs0, own, ms);
    TruncSteps(sb, d, tr, fs, Rest(sb, fs0, own, i, n), ms, i, n);
    RestNext(sb, fs0, own, ms, i, n);
    DropIs(sb, fs, i, n);
    assert tr + [] == tr;
  }

  lemma MsSize(sb: Super, fs: Fs, own: Owners, ms: seq<nat>)
    requires Inv(sb, fs, own, ms, IDLE)
    ensures |ms| == sb.ninodes
  {
  }

  /** Without an indirect block there is nothing more to free. */
  lemma {:induction false} SkipSteps(sb: Super, d: seq<Block>, tr: Trace, fs0: Fs, own: Owners, ms: seq<nat>, fs: Fs,
                                     i: nat, n: nat)
    requires Freeing(sb, fs0, own, ms, fs, i, n) && NDIRECT <= n <= MAXFILE && Shape(sb, fs0) && Shape(sb, fs)
    requires TableOf(sb, fs0, i) == 0
    requires Reached(sb, d, tr, AtPtr(fs, Rest(sb, fs0, own, i, n), ms, i, n))
    ensures Freeing(sb, fs0, own, ms, fs, i, MAXFILE)
    ensures Reached(sb, d, tr, AtPtr(fs, Rest(sb, fs0, own, i, MAXFILE), ms, i, MAXFILE))
    decreases MAXFILE - n
  {
    hide Reached, Inv, Freed, HeldUpTo, Rest;
    if n < MAXFILE {
      RoundSteps(sb, d, tr, fs0, own, ms, fs, i, n);
      FreeNone(sb, fs0, own, ms, fs, i, n);
      SkipSteps(sb, d, tr, fs0, own, ms, fs, i, n + 1);
    }
  }

  lemma RestNone(sb: Super, fs0: Fs, own: Owners, i: nat)
    requires Shape(sb, fs0) && i < sb.ninodes
    ensures Rest(sb, fs0, own, i, 0) == own
  {
    assert HeldUpTo(sb, fs0, i, 0) == {};
  }

  /** From an idle state to itrunc's first pointer. */
  lemma TruncBegins(sb: Super, d: seq<Block>, tr: Trace, fs: Fs, own: Owners, ms: seq<nat>, i: nat)
    requires Reached(sb, d, tr, Alone(fs, own, ms, IDLE)) && i < sb.ninodes && Shape(sb, fs) && |ms| == sb.ninodes
    ensures Reached(sb, d, tr, AtPtr(fs, Rest(sb, fs, own, i, 0), ms, i, 0))
  {
    hide Reached;
    LockSteps(sb, d, tr, fs, own, ms, i);
    TruncStarts(sb, d, tr, fs, own, ms, i);
    RestNone(sb, fs, own, i);
  }

  /** The end of itrunc, from its last pointer: the indirect block t, if there is one. */
  lemma TableFreed(sb: Super, d: seq<Block>, tr: Trace, fs0: Fs, own: Owners, ms: seq<nat>, fs: Fs, i: nat)
    requires Freeing(sb, fs0, own, ms, fs, i, MAXFILE) && Shape(sb, fs0) && Shape(sb, fs)
    requires Reached(sb, d, tr, AtPtr(fs, Rest(sb, fs0, own, i, MAXFILE), ms, i, MAXFILE))
    requires TableOf(sb, fs0, i) < sb.size && |ms| == sb.ninodes
    ensures var t := TableOf(sb, fs0, i);
      if t == 0 then Reached(sb, d, tr, Alone(fs, own - Held(sb, fs0, i), ms[i := 0], i))
      else
        && Shape(sb, FreeBlock(sb, fs, t))
        && Reached(sb, d, tr + FreedLog(sb, fs, t),
             Alone(SetAddr(sb, FreeBlock(sb, fs, t), i, NDIRECT, 0), own - Held(sb, fs0, i), ms[i := 0], i))
  {
    hide Reached, Inv, Freed, HeldUpTo, Held, FreeBlock, S.DropTable;
    var t := TableOf(sb, fs0, i);
    assert TableOf(sb, fs, i) == t;
    TruncTable(sb, d, tr, fs, Rest(sb, fs0, own, i, MAXFILE), ms, i);
    RestAll(sb, fs0, own, ms, i);
    DropTableIs(sb, fs, i);
    assert tr + [] == tr;
  }

  lemma DropTableIs(sb: Super, fs: Fs, i: nat)
    requires Shape(sb, fs) && i < sb.ninodes && TableOf(sb, fs, i) < sb.size
    ensures var t := TableOf(sb, fs, i);
      if t == 0 then S.DropTable(sb, fs, i) == fs
      else Shape(sb, FreeBlock(sb, fs, t)) && S.DropTable(sb, fs, i) == SetAddr(sb, FreeBlock(sb, fs, t), i, NDIRECT, 0)
  {
    if TableOf(sb, fs, i) == 0 {
      var ip := fs.inodes[i];
      assert ip.addrs[NDIRECT := 0] == ip.addrs;
      assert fs.inodes[i := ip] == fs.inodes;
    }
  }

  lemma RestAll(sb: Super, fs0: Fs, own: Owners, ms: seq<nat>, i: nat)
    requires Inv(sb, fs0, own, ms, IDLE) && i < sb.ninodes
    ensures Rest(sb, fs0, own, i, MAXFILE) - {TableOf(sb, fs0, i)} == own - Held(sb, fs0, i)
  {
    hide Maps, Placed, Settled, Ptr, Allocated;
    var t := TableOf(sb, fs0, i);
    assert Held(sb, fs0, i) == HeldUpTo(sb, fs0, i, MAXFILE) + if t != 0 then {t} else {};
    assert 0 !in own;
  }
}
