/** When a commit runs out of buffers. Every block that the header lists is pinned in a buffer of its
    own; write_log needs one buffer more. NBUF and LOGSIZE are equal, so a full header leaves none, and
    bget panics before anything is written. */
module LogFull {
  import opened Bytes
  import opened LogState
  import opened Log
  import opened LogRun
  import opened LogSpace
  import opened BufList

  // ----- how full the header can get

  /** The operations that are inside log_write, past the tests. */
  function TestedIn(ops: seq<Op>): nat {
    if ops == [] then 0 else (if ops[0].tested then 1 else 0) + TestedIn(ops[1..])
  }

  lemma {:induction false} TestedBound(ops: seq<Op>)
    ensures TestedIn(ops) <= |ops|
  {
    if ops != [] {
      TestedBound(ops[1..]);
    }
  }

  lemma {:induction false} TestedUpdate(ops: seq<Op>, i: nat, op: Op)
    requires i < |ops|
    ensures TestedIn(ops[i := op]) ==
      TestedIn(ops) + (if op.tested then 1 else 0) - (if ops[i].tested then 1 else 0)
  {
    if i > 0 {
      assert ops[i := op][1..] == ops[1..][i - 1 := op];
      TestedUpdate(ops[1..], i - 1, op);
    }
  }

  lemma {:induction false} TestedRemove(ops: seq<Op>, i: nat)
    requires i < |ops| && !ops[i].tested
    ensures TestedIn(ops[..i] + ops[i + 1..]) == TestedIn(ops)
  {
    if i == 0 {
      assert ops[..i] + ops[i + 1..] == ops[1..];
    } else {
      assert (ops[..i] + ops[i + 1..])[1..] == ops[1..][..i - 1] + ops[1..][i..];
      TestedRemove(ops[1..], i - 1);
    }
  }

  lemma {:induction false} TestedAppend(ops: seq<Op>, op: Op)
    requires !op.tested
    ensures TestedIn(ops + [op]) == TestedIn(ops)
  {
    if ops != [] {
      assert (ops + [op])[1..] == ops[1..] + [op];
      TestedAppend(ops[1..], op);
    } else {
      assert ([] + [op])[1..] == [];
    }
  }

  /** The most entries a header gets: with the tests apart from the append, all three operations that
      begin_op admits can pass them while two log blocks are left. */
  function Most(cfg: Config): int {
    if cfg.serial then cfg.lay.size - 1 else cfg.lay.size + 1
  }

  /** Blocks are pinned only while they are listed and not yet installed; and the header, with the
      appends that have passed the tests, stays within the bound. */
  ghost predicate Bounded(cfg: Config, w: World) {
    && 1 <= cfg.lay.size && |w.ops| <= 3 && (w.s.phase == Boot ==> !w.s.committing)
    && PinsListed(w.s)
    && (w.s.phase == Idle || w.s.committing ==>
      && |w.s.lh| <= Most(cfg)
      && (!cfg.serial ==> |w.s.lh| + TestedIn(w.ops) <= Most(cfg)))
  }

  ghost predicate PinsListed(s: State) {
    match s.phase
    case Boot | Erase | Done => s.dirty == map[]
    case Install(t) => t < |s.lh| && (forall b :: b in s.dirty ==> s.committing && b in s.lh[t..])
    case Idle | WriteLog(_) | WriteHead => forall b :: b in s.dirty ==> b in s.lh
  }

  lemma BoundedBegin(cfg: Config, w: World)
    requires Lean(cfg.lay, w) && Bounded(cfg, w) && Enabled(cfg, w, Begin)
    ensures Bounded(cfg, Next(cfg, w, Begin))
  {
    TestedAppend(w.ops, Op(w.nextId, {}, false));
  }

  lemma BoundedTest(cfg: Config, w: World, i: nat)
    requires Lean(cfg.lay, w) && Bounded(cfg, w) && Enabled(cfg, w, Test(i))
    ensures Bounded(cfg, Next(cfg, w, Test(i)))
  {
    TestedBound(w.ops[i := w.ops[i].(tested := true)]);
  }

  lemma BoundedAppend(cfg: Config, w: World, i: nat, b: nat, x: Block)
    requires Lean(cfg.lay, w) && Bounded(cfg, w) && Enabled(cfg, w, Append(i, b, x))
    ensures Bounded(cfg, Next(cfg, w, Append(i, b, x)))
  {
    assert w.ops != [] && w.s.phase == Idle;
    TestedUpdate(w.ops, i, w.ops[i].(logged := w.ops[i].logged + {b}, tested := false));
    TestedBound(w.ops);
  }

  lemma BoundedEnd(cfg: Config, w: World, i: nat)
    requires Lean(cfg.lay, w) && Bounded(cfg, w) && Enabled(cfg, w, End(i))
    ensures Bounded(cfg, Next(cfg, w, End(i)))
  {
    assert w.ops != [] && w.s.phase == Idle;
    TestedRemove(w.ops, i);
    if w.s.lh == [] {
      assert forall b :: b !in w.s.dirty;
    }
  }

  lemma InstallPins(lh: seq<nat>, t: nat, dirty: map<nat, Block>)
    requires t < |lh| && forall b :: b in dirty ==> b in lh[t..]
    ensures forall b :: b in dirty - {lh[t]} ==> b in lh[t + 1..]
    ensures t + 1 == |lh| ==> dirty - {lh[t]} == map[]
  {
    forall b | b in dirty - {lh[t]} ensures b in lh[t + 1..] {
      var i :| 0 <= i < |lh[t..]| && lh[t..][i] == b;
      assert lh[t + 1..][i - 1] == b;
    }
  }

  lemma PinsAdvance(lay: Layout, s: State)
    requires PinsListed(s) && CanAdvance(lay, s) && (s.phase == WriteHead ==> s.committing)
    ensures PinsListed(Advance(lay, s))
  {
    if s.phase.Install? {
      InstallPins(s.lh, s.phase.tail, s.dirty);
    } else if s.phase == WriteHead {
      assert s.lh[0..] == s.lh;
      if s.lh == [] {
        assert forall b :: b !in s.dirty;
      }
    }
  }

  lemma BoundedWrite(cfg: Config, w: World)
    requires Lean(cfg.lay, w) && Bounded(cfg, w) && Enabled(cfg, w, Write)
    ensures Bounded(cfg, Next(cfg, w, Write))
  {
    hide HasBuffers, PinsListed;
    assert w.ops == [];
    if HasBuffers(cfg.lay, w.s) {
      PinsAdvance(cfg.lay, w.s);
    }
  }

  lemma BoundedNext(cfg: Config, w: World, a: Action)
    requires Lean(cfg.lay, w) && Bounded(cfg, w) && Enabled(cfg, w, a)
    ensures Bounded(cfg, Next(cfg, w, a))
  {
    hide Advance, DiskHeader, Homely;
    match a
    case Begin => BoundedBegin(cfg, w);
    case Test(i) => BoundedTest(cfg, w, i);
    case Append(i, b, x) => BoundedAppend(cfg, w, i, b, x);
    case End(i) => BoundedEnd(cfg, w, i);
    case Write => BoundedWrite(cfg, w);
    case Finish =>
    case Crash =>
  }

  lemma {:induction false} RunBounded(cfg: Config, d0: Disk, acts: seq<Action>, ws: seq<World>, i: nat)
    requires IsRun(cfg, d0, acts, ws) && i < |ws|
    ensures Bounded(cfg, ws[i]) && Lean(cfg.lay, ws[i])
  {
    hide Lean, Next, Enabled;
    RunLean(cfg, d0, acts, ws, i);
    if i > 0 {
      RunBounded(cfg, d0, acts, ws, i - 1);
      assert Enabled(cfg, ws[i - 1], acts[i - 1]);
      BoundedNext(cfg, ws[i - 1], acts[i - 1]);
    }
  }

  // ----- when the panic can happen

  function Members(lh: seq<nat>): set<nat> {
    set b | b in lh
  }

  lemma {:induction false} MembersCount(lh: seq<nat>)
    ensures |Members(lh)| <= |lh|
  {
    if lh != [] {
      var k := |lh| - 1;
      MembersCount(lh[..k]);
      forall b | b in lh && b != lh[k] ensures b in lh[..k] {
        var i :| 0 <= i < |lh| && lh[i] == b;
        assert lh[..k][i] == b;
      }
      assert Members(lh) == Members(lh[..k]) + {lh[k]};
    } else {
      assert Members(lh) == {};
    }
  }

  lemma Crowded(pinned: set<nat>, hand: set<nat>, lh: seq<nat>, b: nat)
    requires forall c :: c in pinned + hand ==> c in lh || c == b
    ensures |pinned + hand| <= |lh| + 1
  {
    MembersCount(lh);
    var all := Members(lh) + {b};
    assert pinned + hand + (all - (pinned + hand)) == all;
  }

  /** Only a commit of NBUF blocks runs out of buffers. */
  lemma PanicNeedsFull(cfg: Config, w: World)
    requires Bounded(cfg, w) && Lean(cfg.lay, w) && Enabled(cfg, w, Write) && !HasBuffers(cfg.lay, w.s)
    ensures w.s.committing && NBUF <= |w.s.lh|
  {
    var s := w.s;
    if s.dirty == map[] {
      RecoveryBuffers(cfg.lay, s);
    } else {
      var b := if s.phase.WriteHead? then cfg.lay.start else cfg.lay.start + 1 + s.phase.tail;
      Crowded(s.dirty.Keys, InHand(cfg.lay, s), s.lh, b);
    }
  }

  /** When no run can run out of buffers. */
  predicate NeverFull(cfg: Config) {
    Most(cfg) < NBUF
  }

  lemma {:induction false} NoPanicBefore(cfg: Config, d0: Disk, acts: seq<Action>, ws: seq<World>, i: nat)
    requires IsRun(cfg, d0, acts, ws) && i < |ws| && NeverFull(cfg)
    ensures ws[i].panic != NoBuffers
  {
    hide Bounded, Lean, HasBuffers, Advance;
    if i > 0 {
      NoPanicBefore(cfg, d0, acts, ws, i - 1);
      var w, a := ws[i - 1], acts[i - 1];
      assert Enabled(cfg, w, a) && ws[i] == Next(cfg, w, a);
      if a.Write? && !HasBuffers(cfg.lay, w.s) {
        RunBounded(cfg, d0, acts, ws, i - 1);
        PanicNeedsFull(cfg, w);
        CommitBound(cfg, w);
      }
    }
  }

  lemma CommitBound(cfg: Config, w: World)
    requires Bounded(cfg, w) && w.s.committing
    ensures |w.s.lh| <= Most(cfg)
  {
  }

  /** Three operations that log ten blocks each. */
  lemma FillAll(cfg: Config, d0: Disk, x: Block) returns (acts: seq<Action>, ws: seq<World>)
    requires Geometry(cfg, d0) && !NeverFull(cfg) && cfg.lay.start + cfg.lay.size + LOGSIZE <= |d0|
    ensures IsRun(cfg, d0, acts, ws) && Filled(cfg, ws[|acts|], x, LOGSIZE, {}) && |ws[|acts|].s.disk| == |d0|
  {
    hide Next, Enabled, IsRun, Filled;
    if cfg.serial {
      acts, ws := Fill(cfg, d0, x, LOGSIZE);
    } else {
      var c := LOGSIZE - 3;
      acts, ws := Fill(cfg, d0, x, c);
      var all: set<nat> := {0, 1, 2};
      acts, ws := TestThen(cfg, d0, acts, ws, x, c, {}, 0);
      assert {} + {0} == {0};
      acts, ws := TestThen(cfg, d0, acts, ws, x, c, {0}, 1);
      assert {0} + {1} == {0, 1};
      acts, ws := TestThen(cfg, d0, acts, ws, x, c, {0, 1}, 2);
      assert {0, 1} + {2} == all;
      acts, ws := AppendThen(cfg, d0, acts, ws, x, c, all);
      assert all - {c % 3} == {1, 2};
      acts, ws := AppendThen(cfg, d0, acts, ws, x, c + 1, {1, 2});
      assert {1, 2} - {(c + 1) % 3} == {2};
      acts, ws := AppendThen(cfg, d0, acts, ws, x, c + 2, {2});
      assert {2} - {(c + 2) % 3} == {};
    }
  }

  /** With a full header the commit panics before its first write. */
  lemma CommitPanics(cfg: Config, d0: Disk) returns (acts: seq<Action>, ws: seq<World>)
    requires Geometry(cfg, d0) && !NeverFull(cfg) && cfg.lay.start + cfg.lay.size + LOGSIZE <= |d0|
    ensures IsRun(cfg, d0, acts, ws) && ws[|acts|].panic == NoBuffers
  {
    hide Next, Enabled;
    acts, ws := FillAll(cfg, d0, ZeroBlock());
    var w0 := ws[|acts|];
    acts, ws := EndAll(cfg, d0, acts, ws, ZeroBlock(), LOGSIZE);
    var w := ws[|acts|];
    assert w.s.dirty == w0.s.dirty && w.s.lh == w0.s.lh;
    WriteLogBuffers(cfg.lay, w.s);
    assert Enabled(cfg, w, Write) && Next(cfg, w, Write).panic == NoBuffers by {
      PanicsNext(cfg, w);
    }
    Extend(cfg, d0, acts, ws, Write);
    acts, ws := acts + [Write], ws + [Next(cfg, ws[|acts|], Write)];
  }

  lemma PanicsNext(cfg: Config, w: World)
    requires w.panic == NoPanic && w.s.phase.WriteLog? && !HasBuffers(cfg.lay, w.s)
    ensures Enabled(cfg, w, Write) && Next(cfg, w, Write).panic == NoBuffers
  {
  }

  /** The exact condition: no run panics for want of a buffer, if and only if the header cannot list
      NBUF blocks. It can in the region that mkfs makes. */
  lemma PanicsExactly(cfg: Config, d0: Disk)
    requires Geometry(cfg, d0) && cfg.lay.start + cfg.lay.size + LOGSIZE <= |d0|
    ensures NeverFull(cfg) <==>
      forall acts: seq<Action>, ws: seq<World> :: IsRun(cfg, d0, acts, ws) ==> ws[|acts|].panic != NoBuffers
    ensures cfg.lay.size == LOGSIZE && !cfg.serial ==> !NeverFull(cfg)
  {
    hide Next, Enabled, Fresh;
    if NeverFull(cfg) {
      forall acts: seq<Action>, ws: seq<World> | IsRun(cfg, d0, acts, ws) ensures ws[|acts|].panic != NoBuffers {
        NoPanicBefore(cfg, d0, acts, ws, |acts|);
      }
    } else {
      var acts, ws := CommitPanics(cfg, d0);
    }
  }
}
