/** How large the log region must be. mkfs gives it LOGSIZE blocks, one of them the header, so it
    holds LOGSIZE - 1 entries, and log_write makes its tests before it takes the lock. Runs built
    here show what follows, and that LogRun's conditions are exact. */
module LogSpace {
  import opened Bytes
  import opened LogState
  import opened Log
  import opened LogRun
  import opened BufList

  /** The c-th home block after the log. */
  function Home(lay: Layout, c: nat): nat {
    lay.start + lay.size + c
  }

  function Homes(lay: Layout, c: nat): (s: seq<nat>)
    ensures |s| == c && forall k :: 0 <= k < c ==> s[k] == Home(lay, k)
  {
    seq(c, k requires 0 <= k => Home(lay, k))
  }

  ghost predicate Geometry(cfg: Config, d0: Disk) {
    && Fits(cfg.lay, d0) && DiskHeader(cfg.lay, d0) == []
    && cfg.lay.start + 2 * cfg.lay.size <= |d0|
  }

  /** Three operations have logged x to c blocks in turn; those in t are inside log_write. */
  ghost predicate Filled(cfg: Config, w: World, x: Block, c: nat, t: set<nat>) {
    && w.panic == NoPanic && w.s.phase == Idle && !w.s.committing
    && w.s.lh == Homes(cfg.lay, c)
    && w.s.outstanding == 3
    && OpsFilled(cfg.lay, w.ops, c, t)
    && Uncommitted(cfg, w, x)
  }

  /** Nothing is committed yet, on the disk or off it, and x is pinned for every listed block. */
  ghost predicate Uncommitted(cfg: Config, w: World, x: Block) {
    && w.committed == []
    && Fits(cfg.lay, w.s.disk) && DiskHeader(cfg.lay, w.s.disk) == []
    && (forall b :: b in w.s.dirty ==> b in w.s.lh)
    && forall k :: 0 <= k < |w.s.lh| ==> w.s.lh[k] in w.s.dirty && w.s.dirty[w.s.lh[k]] == x
  }

  ghost predicate OpsFilled(lay: Layout, ops: seq<Op>, c: nat, t: set<nat>) {
    && |ops| == 3
    && (forall k :: 0 <= k < 3 ==> (ops[k].tested <==> k in t) && |ops[k].logged| == (c + 2 - k) / 3)
    && (forall k, b :: 0 <= k < 3 && b in ops[k].logged ==> b < Home(lay, c))
  }

  lemma Extend(cfg: Config, d0: Disk, acts: seq<Action>, ws: seq<World>, a: Action)
    requires IsRun(cfg, d0, acts, ws) && Enabled(cfg, ws[|acts|], a)
    ensures IsRun(cfg, d0, acts + [a], ws + [Next(cfg, ws[|acts|], a)])
  {
    hide Next, Enabled, Fresh;
    var acts', ws' := acts + [a], ws + [Next(cfg, ws[|acts|], a)];
    forall i | 0 <= i < |acts'| ensures Enabled(cfg, ws'[i], acts'[i]) && ws'[i + 1] == Next(cfg, ws'[i], acts'[i]) {
      assert ws'[i] == ws[i];
      if i < |acts| {
        assert acts'[i] == acts[i];
      }
    }
  }

  /** Boot, and recovery from an empty log. */
  lemma StartUp(cfg: Config, d0: Disk, x: Block) returns (acts: seq<Action>, ws: seq<World>)
    requires Geometry(cfg, d0)
    ensures IsRun(cfg, d0, acts, ws)
    ensures var w := ws[|acts|];
      && w.panic == NoPanic && w.s.phase == Idle && !w.s.committing && w.s.lh == [] && |w.s.disk| == |d0|
      && Uncommitted(cfg, w, x) && w.ops == [] && w.s.outstanding == 0
  {
    hide HasBuffers, HeaderOf, PutHeader;
    var w := World(Booted(d0), [], 0, [], [], {}, NoPanic);
    acts, ws := [], [w];
    HeaderRoundTrip(d0[cfg.lay.start], []);
    RecoveryBuffers(cfg.lay, w.s);
    RecoveryBuffers(cfg.lay, w.s.(phase := Erase));
    Extend(cfg, d0, acts, ws, Write);
    acts, ws := acts + [Write], ws + [Next(cfg, ws[|acts|], Write)];
    Extend(cfg, d0, acts, ws, Write);
    acts, ws := acts + [Write], ws + [Next(cfg, ws[|acts|], Write)];
  }

  lemma StartThree(cfg: Config, d0: Disk, x: Block) returns (acts: seq<Action>, ws: seq<World>)
    requires Geometry(cfg, d0)
    ensures IsRun(cfg, d0, acts, ws) && Filled(cfg, ws[|acts|], x, 0, {}) && |ws[|acts|].s.disk| == |d0|
  {
    hide Fresh;
    acts, ws := StartUp(cfg, d0, x);
    var n := 0;
    while n < 3
      invariant n <= 3 && IsRun(cfg, d0, acts, ws)
      invariant var w := ws[|acts|];
        && w.panic == NoPanic && w.s.phase == Idle && !w.s.committing && w.s.lh == [] && |w.s.disk| == |d0|
        && Uncommitted(cfg, w, x)
        && |w.ops| == w.s.outstanding == n
        && forall k :: 0 <= k < n ==> !w.ops[k].tested && w.ops[k].logged == {}
    {
      Extend(cfg, d0, acts, ws, Begin);
      acts, ws := acts + [Begin], ws + [Next(cfg, ws[|acts|], Begin)];
      n := n + 1;
    }
  }

  lemma TestNext(cfg: Config, w: World, x: Block, c: nat, t: set<nat>, k: nat)
    requires Filled(cfg, w, x, c, t) && k < 3 && k !in t && c < LOGSIZE && c < cfg.lay.size - 1
    ensures Enabled(cfg, w, Test(k)) && Filled(cfg, Next(cfg, w, Test(k)), x, c, t + {k})
    ensures Next(cfg, w, Test(k)).s == w.s
  {
  }

  lemma AppendNext(cfg: Config, w: World, x: Block, c: nat, t: set<nat>)
    requires Filled(cfg, w, x, c, t) && c % 3 in t && c < LOGSIZE && Home(cfg.lay, c) < |w.s.disk|
    requires cfg.serial ==> c < cfg.lay.size - 1
    ensures var a := Append(c % 3, Home(cfg.lay, c), x);
      && Enabled(cfg, w, a) && Filled(cfg, Next(cfg, w, a), x, c + 1, t - {c % 3})
      && |Next(cfg, w, a).s.disk| == |w.s.disk|
  {
    var b := Home(cfg.lay, c);
    AppendOps(cfg.lay, w.ops, c, t);
    hide OpsFilled;
    assert b !in w.s.lh;
    assert w.s.lh + [b] == Homes(cfg.lay, c + 1);
  }

  lemma AppendOps(lay: Layout, ops: seq<Op>, c: nat, t: set<nat>)
    requires OpsFilled(lay, ops, c, t) && c % 3 in t && c < LOGSIZE
    ensures var logged := ops[c % 3].logged + {Home(lay, c)};
      && ops[c % 3].tested && |logged| <= MAXOPBLOCKS
      && OpsFilled(lay, ops[c % 3 := ops[c % 3].(logged := logged, tested := false)], c + 1, t - {c % 3})
  {
  }

  /** Every operation within its quota, c blocks logged, for every c up to size - 1. */
  lemma Fill(cfg: Config, d0: Disk, x: Block, c: nat) returns (acts: seq<Action>, ws: seq<World>)
    requires Geometry(cfg, d0) && c < cfg.lay.size && c <= LOGSIZE
    ensures IsRun(cfg, d0, acts, ws) && Filled(cfg, ws[|acts|], x, c, {}) && |ws[|acts|].s.disk| == |d0|
  {
    hide Next, Enabled, Filled;
    acts, ws := StartThree(cfg, d0, x);
    var n := 0;
    while n < c
      invariant n <= c && |ws| == |acts| + 1 && IsRun(cfg, d0, acts, ws)
      invariant Filled(cfg, ws[|acts|], x, n, {}) && |ws[|acts|].s.disk| == |d0|
    {
      acts, ws := TestThen(cfg, d0, acts, ws, x, n, {}, n % 3);
      assert {} + {n % 3} == {n % 3};
      acts, ws := AppendThen(cfg, d0, acts, ws, x, n, {n % 3});
      assert {n % 3} - {n % 3} == {};
      n := n + 1;
    }
  }

  lemma TestThen(cfg: Config, d0: Disk, acts: seq<Action>, ws: seq<World>, x: Block, c: nat, t: set<nat>, k: nat)
      returns (acts': seq<Action>, ws': seq<World>)
    requires IsRun(cfg, d0, acts, ws) && Filled(cfg, ws[|acts|], x, c, t)
    requires k < 3 && k !in t && c < LOGSIZE && c < cfg.lay.size - 1
    ensures IsRun(cfg, d0, acts', ws') && Filled(cfg, ws'[|acts'|], x, c, t + {k})
    ensures ws'[|acts'|].s == ws[|acts|].s
  {
    hide Next, Enabled, Filled;
    TestNext(cfg, ws[|acts|], x, c, t, k);
    Extend(cfg, d0, acts, ws, Test(k));
    acts', ws' := acts + [Test(k)], ws + [Next(cfg, ws[|acts|], Test(k))];
  }

  lemma AppendThen(cfg: Config, d0: Disk, acts: seq<Action>, ws: seq<World>, x: Block, c: nat, t: set<nat>)
      returns (acts': seq<Action>, ws': seq<World>)
    requires IsRun(cfg, d0, acts, ws) && Filled(cfg, ws[|acts|], x, c, t)
    requires c % 3 in t && c < LOGSIZE && Home(cfg.lay, c) < |ws[|acts|].s.disk|
    requires cfg.serial ==> c < cfg.lay.size - 1
    ensures IsRun(cfg, d0, acts', ws') && Filled(cfg, ws'[|acts'|], x, c + 1, t - {c % 3})
    ensures |ws'[|acts'|].s.disk| == |ws[|acts|].s.disk|
  {
    hide Next, Enabled, Filled;
    var a := Append(c % 3, Home(cfg.lay, c), x);
    AppendNext(cfg, ws[|acts|], x, c, t);
    Extend(cfg, d0, acts, ws, a);
    acts', ws' := acts + [a], ws + [Next(cfg, ws[|acts|], a)];
  }

  // ----- refusals

  /** With the region that mkfs lays out, a log_write can be refused although its operation, and
      every other one, has logged fewer than MAXOPBLOCKS blocks. */
  lemma RefusedEarly(cfg: Config, d0: Disk) returns (acts: seq<Action>, ws: seq<World>)
    requires Geometry(cfg, d0) && cfg.lay.size <= LOGSIZE
    ensures IsRun(cfg, d0, acts, ws)
    ensures var w := ws[|acts|];
      && Enabled(cfg, w, Test(2))
      && |w.ops[2].logged| < MAXOPBLOCKS && |w.s.lh| < LOGSIZE
      && Next(cfg, w, Test(2)).panic == TooBig
  {
    acts, ws := Fill(cfg, d0, ZeroBlock(), cfg.lay.size - 1);
  }

  /** No operation with quota left would be refused here. */
  ghost predicate Honours(cfg: Config, w: World) {
    forall k: nat :: Enabled(cfg, w, Test(k)) && |w.ops[k].logged| < MAXOPBLOCKS ==>
      Next(cfg, w, Test(k)).panic == NoPanic
  }

  /** The exact condition: no run refuses an operation that has logged fewer than MAXOPBLOCKS
      blocks, if and only if the region has more than LOGSIZE blocks. */
  lemma QuotaExactly(cfg: Config, d0: Disk)
    requires Geometry(cfg, d0)
    ensures LOGSIZE < cfg.lay.size <==>
      forall acts: seq<Action>, ws: seq<World> :: IsRun(cfg, d0, acts, ws) ==> Honours(cfg, ws[|acts|])
  {
    hide Next, Fresh;
    if LOGSIZE < cfg.lay.size {
      forall acts: seq<Action>, ws: seq<World> | IsRun(cfg, d0, acts, ws) ensures Honours(cfg, ws[|acts|]) {
        AllHonoured(cfg, d0, acts, ws);
      }
    } else {
      var acts, ws := RefusedEarly(cfg, d0);
      assert !Honours(cfg, ws[|acts|]);
    }
  }

  lemma AllHonoured(cfg: Config, d0: Disk, acts: seq<Action>, ws: seq<World>)
    requires LOGSIZE < cfg.lay.size && IsRun(cfg, d0, acts, ws)
    ensures Honours(cfg, ws[|acts|])
  {
    hide Next, Fresh, RunInv;
    var w := ws[|acts|];
    SafeKeeps(cfg, d0, acts, ws, |acts|);
    forall k: nat | Enabled(cfg, w, Test(k)) && |w.ops[k].logged| < MAXOPBLOCKS
      ensures Next(cfg, w, Test(k)).panic == NoPanic
    {
      QuotaIsHonoured(cfg, d0, w, k);
    }
  }

  // ----- overflow

  /** Without serialisation, two operations can pass the tests together and then both append: the
      header lists one block more than the region holds. */
  lemma Overflow(cfg: Config, d0: Disk, x: Block) returns (acts: seq<Action>, ws: seq<World>)
    requires Geometry(cfg, d0) && !cfg.serial && 2 <= cfg.lay.size <= LOGSIZE
    ensures IsRun(cfg, d0, acts, ws) && Filled(cfg, ws[|acts|], x, cfg.lay.size, {})
    ensures |ws[|acts|].s.lh| == cfg.lay.size && |ws[|acts|].s.disk| == |d0|
  {
    hide Next, Enabled, IsRun;
    var c := cfg.lay.size - 2;
    acts, ws := Fill(cfg, d0, x, c);
    acts, ws := TestThen(cfg, d0, acts, ws, x, c, {}, c % 3);
    acts, ws := TestThen(cfg, d0, acts, ws, x, c, {c % 3}, (c + 1) % 3);
    acts, ws := AppendThen(cfg, d0, acts, ws, x, c, {c % 3, (c + 1) % 3});
    acts, ws := AppendThen(cfg, d0, acts, ws, x, c + 1, {c % 3, (c + 1) % 3} - {c % 3});
    assert {c % 3, (c + 1) % 3} - {c % 3} - {(c + 1) % 3} == {};
  }

  /** The exact condition: the header stays within the log region in every run if and only if the
      tests are not separated from the append, or the region has more than LOGSIZE blocks. */
  lemma RoomyExactly(cfg: Config, d0: Disk)
    requires Geometry(cfg, d0) && 2 <= cfg.lay.size
    ensures Roomy(cfg) <==>
      forall acts: seq<Action>, ws: seq<World> :: IsRun(cfg, d0, acts, ws) ==> |ws[|acts|].s.lh| < cfg.lay.size
  {
    hide Next, Enabled, Fresh;
    if Roomy(cfg) {
      forall acts: seq<Action>, ws: seq<World> | IsRun(cfg, d0, acts, ws) ensures |ws[|acts|].s.lh| < cfg.lay.size {
        RoomyContains(cfg, d0, acts, ws, |acts|);
      }
    } else {
      var acts, ws := Overflow(cfg, d0, ZeroBlock());
    }
  }

  // ----- what an overflow destroys

  /** All operations have ended, c blocks are listed and write_log has made n of its writes. */
  ghost predicate Copying(cfg: Config, d0: Disk, w: World, c: nat, n: nat) {
    && w.panic == NoPanic && w.s.committing && w.s.lh == Homes(cfg.lay, c)
    && w.s.phase == NextWriteLog(w.s.lh, n)
    && w.committed == []
    && Fits(cfg.lay, w.s.disk) && cfg.lay.start + 2 * cfg.lay.size <= |w.s.disk| == |d0|
    && DiskHeader(cfg.lay, w.s.disk) == []
    && forall b :: b in w.s.dirty ==> b in w.s.lh
  }

  ghost predicate LastPinned(cfg: Config, w: World, x: Block)
    requires 1 <= cfg.lay.size
  {
    var last := Home(cfg.lay, cfg.lay.size - 1);
    last in w.s.dirty && w.s.dirty[last] == x
  }

  lemma EndAll(cfg: Config, d0: Disk, acts0: seq<Action>, ws0: seq<World>, x: Block, c: nat)
      returns (acts: seq<Action>, ws: seq<World>)
    requires IsRun(cfg, d0, acts0, ws0) && Filled(cfg, ws0[|acts0|], x, c, {})
    requires 0 < c && cfg.lay.start + 2 * cfg.lay.size <= |ws0[|acts0|].s.disk| == |d0|
    ensures IsRun(cfg, d0, acts, ws) && Copying(cfg, d0, ws[|acts|], c, 0)
    ensures ws[|acts|].s.dirty == ws0[|acts0|].s.dirty
  {
    hide Fresh;
    acts, ws := acts0, ws0;
    var n := 3;
    ghost var w0 := ws0[|acts0|];
    while n > 0
      invariant 0 <= n <= 3 && |ws| == |acts| + 1 && IsRun(cfg, d0, acts, ws)
      invariant var w := ws[|acts|];
        && w.panic == NoPanic && w.committed == [] && |w.ops| == w.s.outstanding == n
        && (forall k :: 0 <= k < n ==> !w.ops[k].tested)
        && w.s.disk == w0.s.disk && w.s.dirty == w0.s.dirty && w.s.lh == w0.s.lh
        && if n > 0 then w.s.phase == Idle && !w.s.committing else w.s.phase == WriteLog(0) && w.s.committing
    {
      Extend(cfg, d0, acts, ws, End(0));
      acts, ws := acts + [End(0)], ws + [Next(cfg, ws[|acts|], End(0))];
      n := n - 1;
    }
  }

  /** Fewer than NBUF blocks are pinned, so write_log gets its buffers. */
  lemma CopyBuffers(cfg: Config, d0: Disk, w: World, c: nat, n: nat)
    requires Copying(cfg, d0, w, c, n) && n < c < NBUF
    ensures HasBuffers(cfg.lay, w.s)
  {
    AtMost(w.s.dirty.Keys, w.s.lh, InHand(cfg.lay, w.s), cfg.lay.start + 1 + n);
  }

  lemma CopyNext(cfg: Config, d0: Disk, w: World, x: Block, n: nat)
    requires 2 <= cfg.lay.size < LOGSIZE && n < cfg.lay.size
    requires Copying(cfg, d0, w, cfg.lay.size, n) && LastPinned(cfg, w, x)
    ensures Enabled(cfg, w, Write)
    ensures var w' := Next(cfg, w, Write);
      && Copying(cfg, d0, w', cfg.lay.size, n + 1) && LastPinned(cfg, w', x)
      && (n + 1 == cfg.lay.size ==> w'.s.disk[Home(cfg.lay, 0)] == x)
  {
    CopyBuffers(cfg, d0, w, cfg.lay.size, n);
    hide HasBuffers, InHand, HeaderOf;
    assert w.s.lh[n] == Home(cfg.lay, n);
  }

  /** What an overflow destroys in a region of fewer than LOGSIZE blocks: write_log's last write falls
      on the first block after the log, an inode block, before anything is committed. A crash there
      leaves that block changed and an empty log, so recovery does not put it back. */
  lemma OverflowDamages(cfg: Config, d0: Disk, x: Block) returns (acts: seq<Action>, ws: seq<World>)
    requires Geometry(cfg, d0) && !cfg.serial && 2 <= cfg.lay.size < LOGSIZE
    ensures IsRun(cfg, d0, acts, ws)
    ensures var w := ws[|acts|];
      && w.committed == [] && Fits(cfg.lay, w.s.disk) && |w.s.disk| == |d0|
      && DiskHeader(cfg.lay, w.s.disk) == [] && w.s.disk[Home(cfg.lay, 0)] == x
  {
    hide Next, Enabled, Fresh, DiskHeader;
    acts, ws := Overflow(cfg, d0, x);
    assert ws[|acts|].s.lh[cfg.lay.size - 1] == Home(cfg.lay, cfg.lay.size - 1);
    assert LastPinned(cfg, ws[|acts|], x);
    acts, ws := EndAll(cfg, d0, acts, ws, x, cfg.lay.size);
    var n := 0;
    while n < cfg.lay.size
      invariant n <= cfg.lay.size && |ws| == |acts| + 1 && IsRun(cfg, d0, acts, ws)
      invariant Copying(cfg, d0, ws[|acts|], cfg.lay.size, n) && LastPinned(cfg, ws[|acts|], x)
      invariant n == cfg.lay.size ==> ws[|acts|].s.disk[Home(cfg.lay, 0)] == x
    {
      CopyNext(cfg, d0, ws[|acts|], x, n);
      Extend(cfg, d0, acts, ws, Write);
      acts, ws := acts + [Write], ws + [Next(cfg, ws[|acts|], Write)];
      n := n + 1;
    }
  }

  /** Some block other than y. */
  function OtherBlock(y: Block): (x: Block)
    ensures x != y
  {
    WordOfPutWord(ZeroBlock(), 0, 1, 0);
    WordOfPutWord(ZeroBlock(), 0, 2, 0);
    var one := PutWord(ZeroBlock(), 0, 1);
    if y == one then PutWord(ZeroBlock(), 0, 2) else one
  }

  /** The exact condition for crash atomicity: in every state of every run the disk stands for
      exactly the committed groups, if and only if the tests of log_write are not separated from its
      append, or the region has at least LOGSIZE blocks. */
  lemma AtomicExactly(cfg: Config, d0: Disk)
    requires Geometry(cfg, d0) && 2 <= cfg.lay.size
    ensures Safe(cfg) <==>
      forall acts: seq<Action>, ws: seq<World> :: IsRun(cfg, d0, acts, ws) ==>
        Means(cfg.lay, ws[|acts|].s.disk, ApplyGroups(d0, ws[|acts|].committed))
  {
    hide Next, Enabled, Fresh;
    if Safe(cfg) {
      forall acts: seq<Action>, ws: seq<World> | IsRun(cfg, d0, acts, ws)
        ensures Means(cfg.lay, ws[|acts|].s.disk, ApplyGroups(d0, ws[|acts|].committed))
      {
        GroupCommit(cfg, d0, acts, ws, |acts|);
      }
    } else {
      var b := Home(cfg.lay, 0);
      var acts, ws := OverflowDamages(cfg, d0, OtherBlock(d0[b]));
      var d := ws[|acts|].s.disk;
      assert !InLog(cfg.lay, b) && Meaning(cfg.lay, d, b) != d0[b];
      assert !Means(cfg.lay, d, d0);
    }
  }
}
