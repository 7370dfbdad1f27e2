/** Runs of the inode layer with several operations at once: what the locks give them, and that together
    they are one transaction. */
module FsShareRun {
  import opened Bytes
  import opened Bitmap
  import opened Dinode
  import opened FsState
  import opened FsGrow
  import opened FsData
  import opened FsTrunc
  import opened FsShare

  // ----- isolation

  /** The lock protects the file: a step for another inode changes no field of inode i, no byte of its
      content and none of its pointers, whoever makes it. */
  lemma Isolated(sb: Super, s: Shared, a: Action, i: nat)
    requires SInv(sb, s) && Enabled(sb, s, a) && i < sb.ninodes && a.i != i && From(s, i) == 0
    ensures var s' := Next(sb, s, a);
      && SInv(sb, s') && s'.fs.inodes[i] == s.fs.inodes[i] && Content(sb, s'.fs, i) == Content(sb, s.fs, i)
      && (forall bn :: 0 <= bn < MAXFILE ==> Ptr(sb, s'.fs, i, bn) == Ptr(sb, s.fs, i, bn))
      && (i in s'.busy <==> i in s.busy)
  {
    hide Enabled, Next, BitsAgree, LooseOk, Settled, Placed, Ptr, From;
    var s' := Next(sb, s, a);
    NextKeeps(sb, s, a);
    OtherMaps(sb, s, s', a.i, i);
    assert MapsFrom(sb, s.fs, s.own, i, From(s, i), s.ms[i]);
    forall k | 0 <= k < MAXSIZE ensures FileByte(sb, s'.fs, i, k) == FileByte(sb, s.fs, i, k) {
      assert Ptr(sb, s'.fs, i, k / BSIZE) == Ptr(sb, s.fs, i, k / BSIZE);
    }
  }

  // ----- bmap in steps

  /** balloc in two steps; when nobody is in between they come to Alloc. */
  lemma BallocSteps(sb: Super, s: Shared, i: nat, r: nat) returns (s2: Shared)
    requires SInv(sb, s) && i < sb.ninodes && Locked(s, i) && r < sb.size && !Allocated(sb, s.fs, r)
    ensures Enabled(sb, s, Take(i, r))
    ensures var s1 := Next(sb, s, Take(i, r)); Enabled(sb, s1, Zero(i, r)) && s2 == Next(sb, s1, Zero(i, r))
    ensures SInv(sb, s2) && s2 == s.(fs := Alloc(sb, s.fs, r), loose := s.loose[r := Loose(i, true)])
  {
    hide SInv, Allocated, Settled, Ptr, Keeps, Shape, MarkUsed, PutBlock, Alloc;
    ShapeIn(sb, s);
    var s1 := Next(sb, s, Take(i, r));
    NextKeeps(sb, s, Take(i, r));
    KeepsInv(sb, s, s1, i);
    s2 := Next(sb, s1, Zero(i, r));
    NextKeeps(sb, s1, Zero(i, r));
    KeepsInv(sb, s1, s2, i);
    AllocIs(sb, s.fs, r);
    assert s2.loose == s.loose[r := Loose(i, true)];
  }

  lemma AllocIs(sb: Super, fs: Fs, r: nat)
    requires Shape(sb, fs) && r < sb.size
    ensures Shape(sb, MarkUsed(sb, fs, r)) && PutBlock(sb, MarkUsed(sb, fs, r), r, ZeroBlock()) == Alloc(sb, fs, r)
  {
  }

  /** And bmap's third step then records the block, in the place the code has for it. */
  lemma BmapSteps(sb: Super, s: Shared, i: nat, r: nat) returns (s2: Shared)
    requires SInv(sb, s) && i < sb.ninodes && Locked(s, i) && r < sb.size && !Allocated(sb, s.fs, r)
    ensures SInv(sb, s2) && s2 == s.(fs := Alloc(sb, s.fs, r), loose := s.loose[r := Loose(i, true)])
    ensures s.ms[i] < NDIRECT ==> Enabled(sb, s2, FsShare.MapDirect(i, r))
    ensures TableOf(sb, s.fs, i) == 0 ==> Enabled(sb, s2, FsShare.MapTable(i, r))
    ensures NDIRECT <= s.ms[i] < MAXFILE && TableOf(sb, s.fs, i) != 0 ==> Enabled(sb, s2, FsShare.MapEntry(i, r))
  {
    hide SInv, Allocated, Settled, Ptr, Alloc;
    ShapeIn(sb, s);
    s2 := BallocSteps(sb, s, i, r);
    ShapeIn(sb, s2);
    TableIn(sb, s2, i);
    AllocInodes(sb, s.fs, r);
  }

  lemma AllocInodes(sb: Super, fs: Fs, r: nat)
    requires Shape(sb, fs) && r < sb.size
    ensures Alloc(sb, fs, r).inodes == fs.inodes
  {
  }

  lemma ShapeIn(sb: Super, s: Shared)
    requires SInv(sb, s)
    ensures Shape(sb, s.fs) && |s.ms| == sb.ninodes
  {
  }

  lemma KeepsInv(sb: Super, s: Shared, s': Shared, i: nat)
    requires Keeps(sb, s, s', i)
    ensures SInv(sb, s') && Shape(sb, s'.fs) && sb.size < UINT_MOD
  {
  }

  // ----- log_writes

  /** What a step passes to log_write. */
  ghost function LogOf(sb: Super, s: Shared, a: Action): Trace
    requires Enabled(sb, s, a)
  {
    var fs := s.fs;
    match a
    case Take(_, r) => [(BBlock(sb, r), SetBlockBit(fs.blocks[BBlock(sb, r)], r % BPB))]
    case Zero(_, r) => [(r, ZeroBlock())]
    case MapEntry(i, r) => var t := TableOf(sb, fs, i); [(t, PutWord(fs.blocks[t], s.ms[i] - NDIRECT, r))]
    case Put(i, bn, x) => [(Ptr(sb, fs, i, bn), x)]
    case Store(i) => [(IBlock(sb, i), PutDinode(fs.blocks[IBlock(sb, i)], i % IPB, fs.inodes[i]))]
    case Ialloc(i, ip) => [(IBlock(sb, i), PutDinode(fs.blocks[IBlock(sb, i)], i % IPB, ip))]
    case FreePtr(i) => FreedLog(sb, fs, Ptr(sb, fs, i, s.busy[i].n))
    case FreeTable(i) => FreedLog(sb, fs, TableOf(sb, fs, i))
    case _ => []
  }

  function FreedLog(sb: Super, fs: Fs, p: nat): Trace
    requires Shape(sb, fs) && p < sb.size
  {
    if p == 0 then [] else [(BBlock(sb, p), ClearBlockBit(fs.blocks[BBlock(sb, p)], p % BPB))]
  }

  lemma ReplayOne(d: seq<Block>, b: nat, x: Block)
    requires b < |d|
    ensures Replay(d, [(b, x)]) == d[b := x]
  {
    var tr := [(b, x)];
    assert tr[..|tr| - 1] == [];
  }

  /** The blocks change by the log_writes alone. */
  lemma LogsAll(sb: Super, s: Shared, a: Action)
    requires Enabled(sb, s, a)
    ensures Next(sb, s, a).fs.blocks == Replay(s.fs.blocks, LogOf(sb, s, a))
  {
    hide Replay, Ptr, Allocated, Settled, SetBlockBit, ClearBlockBit, PutDinode, PutWord;
    var tr := LogOf(sb, s, a);
    NoneReplayed(s.fs.blocks);
    if tr != [] {
      ReplayOne(s.fs.blocks, tr[0].0, tr[0].1);
      assert tr == [tr[0]];
    }
  }

  lemma NoneReplayed(d: seq<Block>)
    ensures Replay(d, []) == d
  {
  }

  lemma {:induction false} ReplayMore(d: seq<Block>, a: Trace, b: Trace)
    ensures Replay(d, a + b) == Replay(Replay(d, a), b)
  {
    if b == [] {
      assert a + b == a;
    } else {
      var k := |b| - 1;
      ReplayMore(d, a, b[..k]);
      assert (a + b)[..|a + b| - 1] == a + b[..k];
    }
  }

  // ----- runs

  ghost predicate IsSharing(sb: Super, acts: seq<Action>, ss: seq<Shared>) {
    && |ss| == |acts| + 1
    && forall k :: 0 <= k < |acts| ==> Enabled(sb, ss[k], acts[k]) && ss[k + 1] == Next(sb, ss[k], acts[k])
  }

  /** The log_writes of the first k steps, in order, whoever makes them. */
  ghost function Logs(sb: Super, acts: seq<Action>, ss: seq<Shared>, k: nat): Trace
    requires IsSharing(sb, acts, ss) && k <= |acts|
  {
    if k == 0 then [] else
      assert Enabled(sb, ss[k - 1], acts[k - 1]);
      Logs(sb, acts, ss, k - 1) + LogOf(sb, ss[k - 1], acts[k - 1])
  }

  /** After any number of steps of any interleaving: every block is free, owned by one pointer, or loose
      for one locked inode; and the inodes that nobody holds are whole, on the disk too. */
  lemma {:induction false} SharingKeeps(sb: Super, acts: seq<Action>, ss: seq<Shared>, k: nat)
    requires IsSharing(sb, acts, ss) && k < |ss| && SInv(sb, ss[0])
    ensures SInv(sb, ss[k])
    ensures ss[k].fs.blocks == Replay(ss[0].fs.blocks, Logs(sb, acts, ss, k))
  {
    hide SInv, Enabled, Next, Replay, LogOf;
    if k == 0 {
      NoneReplayed(ss[0].fs.blocks);
    } else {
      SharingKeeps(sb, acts, ss, k - 1);
      var s, a := ss[k - 1], acts[k - 1];
      assert Enabled(sb, s, a) && ss[k] == Next(sb, s, a);
      NextKeeps(sb, s, a);
      LogsAll(sb, s, a);
      ReplayMore(ss[0].fs.blocks, Logs(sb, acts, ss, k - 1), LogOf(sb, s, a));
    }
  }

  /** Operations that overlap are together one transaction: begun when nobody is at work, and taken to a
      point where nobody is, they leave a consistent file system. */
  lemma SharingIsTransaction(sb: Super, acts: seq<Action>, ss: seq<Shared>)
    requires IsSharing(sb, acts, ss) && AtRest(ss[0]) && Inv(sb, ss[0].fs, ss[0].own, ss[0].ms, IDLE)
    requires AtRest(ss[|acts|])
    ensures Inv(sb, ss[|acts|].fs, ss[|acts|].own, ss[|acts|].ms, IDLE)
    ensures Transaction(sb, ss[0].fs.blocks, Logs(sb, acts, ss, |acts|))
  {
    hide SInv, Inv, Enabled, Next, Replay, Transaction, Logs;
    var s, t := ss[0], ss[|acts|];
    IdleInv(sb, s);
    SharingKeeps(sb, acts, ss, |acts|);
    IdleInv(sb, t);
    IsTransaction(sb, s.fs, s.own, s.ms, t.fs, t.own, t.ms, Logs(sb, acts, ss, |acts|));
  }

  /** s can be reached from the blocks d, with nobody at work, by steps whose log_writes are tr. */
  ghost predicate Reached(sb: Super, d: seq<Block>, tr: Trace, s: Shared) {
    exists acts: seq<Action>, ss: seq<Shared> :: Reaches(sb, d, tr, s, acts, ss)
  }

  ghost predicate Reaches(sb: Super, d: seq<Block>, tr: Trace, s: Shared, acts: seq<Action>, ss: seq<Shared>) {
    && IsSharing(sb, acts, ss) && AtRest(ss[0])
    && ss[0].fs.blocks == d && Inv(sb, ss[0].fs, ss[0].own, ss[0].ms, IDLE)
    && ss[|acts|] == s && tr == Logs(sb, acts, ss, |acts|)
  }

  /** The changes tr to the blocks d are those of operations that may overlap, each holding the locks of
      the inodes it works on. */
  ghost predicate Interleaved(sb: Super, d: seq<Block>, tr: Trace) {
    exists s: Shared :: Reached(sb, d, tr, s) && AtRest(s)
  }

  lemma InterleavedIsTransaction(sb: Super, d: seq<Block>, tr: Trace)
    requires Interleaved(sb, d, tr)
    ensures Transaction(sb, d, tr)
  {
    hide Inv, Transaction, Logs, Enabled, Next;
    var s: Shared :| Reached(sb, d, tr, s) && AtRest(s);
    var acts: seq<Action>, ss: seq<Shared> :| Reaches(sb, d, tr, s, acts, ss);
    SharingIsTransaction(sb, acts, ss);
  }

  lemma ReachedFirst(sb: Super, s: Shared)
    requires AtRest(s) && Inv(sb, s.fs, s.own, s.ms, IDLE)
    ensures Reached(sb, s.fs.blocks, [], s)
  {
    hide Inv;
    assert Reaches(sb, s.fs.blocks, [], s, [], [s]);
  }

  lemma {:induction false} LogsPrefix(sb: Super, acts: seq<Action>, ss: seq<Shared>,
                                      acts': seq<Action>, ss': seq<Shared>, k: nat)
    requires IsSharing(sb, acts, ss) && IsSharing(sb, acts', ss') && k <= |acts| && acts <= acts' && ss <= ss'
    ensures Logs(sb, acts', ss', k) == Logs(sb, acts, ss, k)
  {
    hide Enabled, Next, LogOf;
    if k > 0 {
      LogsPrefix(sb, acts, ss, acts', ss', k - 1);
      assert ss'[k - 1] == ss[k - 1] && acts'[k - 1] == acts[k - 1];
      assert Enabled(sb, ss[k - 1], acts[k - 1]);
    }
  }

  /** One step more. */
  lemma ReachedNext(sb: Super, d: seq<Block>, tr: Trace, s: Shared, a: Action)
    requires Reached(sb, d, tr, s) && Enabled(sb, s, a)
    ensures Reached(sb, d, tr + LogOf(sb, s, a), Next(sb, s, a))
  {
    hide Inv, Enabled, Next, LogOf;
    var acts: seq<Action>, ss: seq<Shared> :| Reaches(sb, d, tr, s, acts, ss);
    var acts', ss' := acts + [a], ss + [Next(sb, s, a)];
    forall k | 0 <= k < |acts'| ensures Enabled(sb, ss'[k], acts'[k]) && ss'[k + 1] == Next(sb, ss'[k], acts'[k]) {
      assert ss'[k] == ss[k];
      if k < |acts| {
        assert acts'[k] == acts[k];
      }
    }
    LogsPrefix(sb, acts, ss, acts', ss', |acts|);
    assert Reaches(sb, d, tr + LogOf(sb, s, a), Next(sb, s, a), acts', ss');
  }

  lemma ReachedInv(sb: Super, d: seq<Block>, tr: Trace, s: Shared)
    requires Reached(sb, d, tr, s)
    ensures SInv(sb, s) && Shape(sb, s.fs) && |s.ms| == sb.ninodes
  {
    var acts: seq<Action>, ss: seq<Shared> :| Reaches(sb, d, tr, s, acts, ss);
    hide Inv, Enabled, Next;
    IdleInv(sb, ss[0]);
    SharingKeeps(sb, acts, ss, |acts|);
  }
}
