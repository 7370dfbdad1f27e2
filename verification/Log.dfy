/** The log itself: the fields of `struct log`, and its operations as loops over them. Each
    operation is proved to move the machine of LogState, one machine step for one block write. */
module Log {
  import opened Bytes
  import opened LogState
  import opened LogCrash
  import opened BufList

  /** The state after a critical section of begin_op that did not go to sleep. */
  predicate MayBegin(s: State) {
    !s.committing && |s.lh| + (s.outstanding + 1) * MAXOPBLOCKS <= LOGSIZE
  }

  function Begun(s: State): State {
    if MayBegin(s) then s.(outstanding := s.outstanding + 1) else s
  }

  /** The tests that log_write makes before it takes the lock. */
  predicate MayLog(lay: Layout, s: State) {
    |s.lh| < LOGSIZE && |s.lh| < lay.size - 1 && 1 <= s.outstanding
  }

  /** The state after log_write has recorded block b with contents x. */
  function Logged(s: State, b: nat, x: Block): State {
    s.(lh := if b in s.lh then s.lh else s.lh + [b], dirty := s.dirty[b := x])
  }

  /** The state after the first critical section of end_op, which panics while committing is set. */
  function Ended(s: State): State {
    var s := s.(outstanding := s.outstanding - 1);
    if s.outstanding == 0 then s.(committing := true, phase := if s.lh == [] then Done else WriteLog(0)) else s
  }

  /** The state after the last critical section of end_op. */
  function Reopened(s: State): State {
    s.(committing := false, phase := Idle)
  }

  /** The machine states after each of the next k block writes. */
  ghost function Trace(lay: Layout, s: State, k: nat): (t: seq<State>)
    requires Inv(lay, s)
    ensures |t| == k
  {
    if k == 0 then [] else Trace(lay, s, k - 1) + [Steps(lay, s, k)]
  }

  lemma {:induction false} TraceAdd(lay: Layout, s: State, j: nat, k: nat)
    requires Inv(lay, s)
    ensures Steps(lay, Steps(lay, s, j), k) == Steps(lay, s, j + k)
    ensures Trace(lay, s, j) + Trace(lay, Steps(lay, s, j), k) == Trace(lay, s, j + k)
  {
    hide Inv, Advance;
    if k > 0 {
      TraceAdd(lay, s, j, k - 1);
      var m := Steps(lay, s, j);
      assert Trace(lay, s, j) + Trace(lay, m, k) == Trace(lay, s, j) + Trace(lay, m, k - 1) + [Steps(lay, m, k)];
      assert j + k - 1 == j + (k - 1);
    }
  }

  lemma Regroup<T>(a: seq<T>, b: seq<T>, c: seq<T>, d: seq<T>)
    ensures a + b + c == a + (b + c)
    ensures a + b + c + d == a + (b + (c + d))
  {
  }

  lemma Append<T>(a: seq<T>, b: seq<T>, x: T)
    ensures a + b + [x] == a + (b + [x])
  {
  }

  lemma NoSteps(lay: Layout, s: State)
    requires Inv(lay, s)
    ensures Steps(lay, s, 0) == s && Trace(lay, s, 0) == []
  {
  }

  lemma TraceLast(lay: Layout, s: State, k: nat)
    requires Inv(lay, s)
    ensures Steps(lay, s, k + 1) == Advance(lay, Steps(lay, s, k))
    ensures Trace(lay, s, k + 1) == Trace(lay, s, k) + [Steps(lay, s, k + 1)]
  {
  }

  lemma {:induction false} TraceFirst(lay: Layout, s: State, k: nat)
    requires Inv(lay, s) && Inv(lay, Advance(lay, s))
    ensures Steps(lay, Advance(lay, s), k) == Steps(lay, s, k + 1)
    ensures [Advance(lay, s)] + Trace(lay, Advance(lay, s), k) == Trace(lay, s, k + 1)
  {
    var m := Advance(lay, s);
    hide Inv, Advance;
    if k == 0 {
      assert Trace(lay, s, k) == [] && Steps(lay, s, k) == s;
    } else {
      TraceFirst(lay, s, k - 1);
      assert [m] + Trace(lay, m, k) == [m] + Trace(lay, m, k - 1) + [Steps(lay, m, k)];
    }
  }

  lemma InvBounds(lay: Layout, s: State)
    requires Inv(lay, s)
    ensures Fits(lay, s.disk) && GoodBlocks(lay, s.disk, s.lh) && lay.start !in s.dirty
    ensures s.phase.WriteLog? || s.phase.Install? ==> s.phase.tail < |s.lh|
    ensures s.phase.Done? ==> s.lh == [] && s.dirty == map[]
  {
  }

  /** Every state of a commit's trace stands for the old or for the new contents. */
  lemma {:induction false} CommitTrace(lay: Layout, s: State, k: nat, i: nat)
    requires Inv(lay, s) && s.phase == WriteLog(0) && i < k
    ensures Means(lay, Trace(lay, s, k)[i].disk, if i < |s.lh| then s.disk else Cached(s))
  {
    hide Inv, Advance;
    if i == k - 1 {
      CrashAtomicity(lay, s, k, []);
    } else {
      CommitTrace(lay, s, k - 1, i);
    }
  }

  lemma {:induction false} RecoveryTrace(lay: Layout, s: State, k: nat, i: nat)
    requires Inv(lay, s) && s == Booted(s.disk) && i < k
    ensures Means(lay, Trace(lay, s, k)[i].disk, Replayed(lay, s.disk))
  {
    hide Advance;
    if i == k - 1 {
      RecoveryKeepsMeaning(lay, s.disk, Replayed(lay, s.disk), k);
    } else {
      RecoveryTrace(lay, s, k - 1, i);
    }
  }

  /** The state after the block write that bwrite makes, and the move to the next phase. */
  function Written(s: State, b: nat, x: Block, lh: seq<nat>, next: Phase): State
    requires b < |s.disk|
  {
    s.(disk := s.disk[b := x], dirty := s.dirty - {b}, lh := lh, phase := next)
  }

  lemma WriteLogIsStep(lay: Layout, s: State, t: nat)
    requires Inv(lay, s) && s.phase == WriteLog(t)
    ensures t < |s.lh| && s.lh[t] < |s.disk| && lay.start + t + 1 < |s.disk|
    ensures Written(s, lay.start + t + 1, View(s, s.lh[t]), s.lh, NextWriteLog(s.lh, t + 1)) == Advance(lay, s)
    ensures Inv(lay, Advance(lay, s))
  {
    AdvanceInv(lay, s);
    assert s.dirty - {lay.start + t + 1} == s.dirty;
  }

  lemma WriteHeadIsStep(lay: Layout, s: State)
    requires Inv(lay, s) && s.phase == WriteHead
    ensures Fits(lay, s.disk) && lay.start !in s.dirty && forall i :: 0 <= i < |s.lh| ==> s.lh[i] < UINT_MOD
    ensures Written(s, lay.start, PutHeader(s.disk[lay.start], s.lh), s.lh, NextInstall(s.lh, 0)) == Advance(lay, s)
    ensures Inv(lay, Advance(lay, s))
  {
    AdvanceInv(lay, s);
    assert s.dirty - {lay.start} == s.dirty;
  }

  lemma InstallIsStep(lay: Layout, s: State, t: nat)
    requires Inv(lay, s) && s.phase == Install(t)
    ensures Fits(lay, s.disk) && t < |s.lh| && s.lh[t] < |s.disk| && t + 1 < lay.size && lay.start + t + 1 !in s.dirty
    ensures Written(s, s.lh[t], LogBlock(lay, s.disk, t), s.lh, NextInstall(s.lh, t + 1)) == Advance(lay, s)
    ensures Inv(lay, Advance(lay, s))
  {
    AdvanceInv(lay, s);
  }

  lemma EraseIsStep(lay: Layout, s: State)
    requires Inv(lay, s) && s.phase == Erase
    ensures Fits(lay, s.disk) && lay.start !in s.dirty
    ensures Written(s, lay.start, PutHeader(s.disk[lay.start], []), [], if s.committing then Done else Idle) ==
      Advance(lay, s)
    ensures Inv(lay, Advance(lay, s))
  {
    AdvanceInv(lay, s);
    AllInstalled(lay, s);
    assert s.dirty - {lay.start} == s.dirty;
  }

  function CommitLength(n: nat): nat {
    if n == 0 then 0 else 2 * n + 2
  }

  /** What commit() promises: afterwards every home block holds what was cached, and a crash after
      any of its writes finds the old contents before the header write and the new ones after it. */
  ghost predicate CommitOutcome(lay: Layout, s: State, r: State, trace: seq<State>) {
    && |r.disk| == |s.disk| && r.dirty == map[]
    && (forall b :: 0 <= b < |s.disk| && !InLog(lay, b) ==> r.disk[b] == View(s, b))
    && forall i :: 0 <= i < |trace| ==> Means(lay, trace[i].disk, if i < |s.lh| then s.disk else Cached(s))
  }

  lemma CommitDoes(lay: Layout, s: State)
    requires Inv(lay, s) && s.phase == if s.lh == [] then Done else WriteLog(0)
    ensures var k := CommitLength(|s.lh|); CommitOutcome(lay, s, Steps(lay, s, k), Trace(lay, s, k))
  {
    hide Inv, Advance;
    var k := CommitLength(|s.lh|);
    InvBounds(lay, s);
    if k > 0 {
      CommitFinishes(lay, s);
      forall i | 0 <= i < k
        ensures Means(lay, Trace(lay, s, k)[i].disk, if i < |s.lh| then s.disk else Cached(s))
      {
        CommitTrace(lay, s, k, i);
      }
    }
  }

  lemma BootReads(lay: Layout, s: State)
    requires Inv(lay, s) && s.phase == Boot
    ensures Fits(lay, s.disk) && GoodBlocks(lay, s.disk, DiskHeader(lay, s.disk))
    ensures s == Booted(s.disk) && Inv(lay, Advance(lay, s))
    ensures var r := Advance(lay, s);
      r.lh == DiskHeader(lay, s.disk) && r.phase == NextInstall(r.lh, 0) && !r.committing && r.disk == s.disk
  {
  }

  /** What recover_from_log() promises: home blocks hold what the log and the disk stood for
      together, and a crash after any of its writes would have changed nothing. */
  ghost predicate RecoveryOutcome(lay: Layout, d: Disk, r: State, trace: seq<State>)
    requires Fits(lay, d) && GoodBlocks(lay, d, DiskHeader(lay, d))
  {
    && |r.disk| == |d| && r.dirty == map[] && Fits(lay, r.disk) && DiskHeader(lay, r.disk) == []
    && (forall b :: 0 <= b < |d| && !InLog(lay, b) ==> r.disk[b] == Meaning(lay, d, b))
    && forall i :: 0 <= i < |trace| ==> Means(lay, trace[i].disk, Replayed(lay, d))
  }

  lemma IdleEmpty(lay: Layout, s: State)
    requires Inv(lay, s) && s.phase == Idle && s.lh == []
    ensures s.dirty == map[]
  {
  }

  lemma RecoveryDoes(lay: Layout, s: State)
    requires Inv(lay, s) && s.phase == Boot && Fits(lay, s.disk)
    requires GoodBlocks(lay, s.disk, DiskHeader(lay, s.disk)) && s == Booted(s.disk)
    ensures var k := |DiskHeader(lay, s.disk)| + 2; var r := Steps(lay, s, k);
      r.phase == Idle && (r.lh == [] ==> RecoveryOutcome(lay, s.disk, r, Trace(lay, s, k)))
  {
    hide Inv, Advance;
    var k := |DiskHeader(lay, s.disk)| + 2;
    RecoveryKeepsMeaning(lay, s.disk, Replayed(lay, s.disk), k);
    forall i | 0 <= i < k ensures Means(lay, Trace(lay, s, k)[i].disk, Replayed(lay, s.disk)) {
      RecoveryTrace(lay, s, k, i);
    }
    if Steps(lay, s, k).lh == [] {
      IdleEmpty(lay, Steps(lay, s, k));
      assert Steps(lay, s, k).disk == Recovered(lay, s.disk);
    }
  }

  /** Recording a block keeps the invariant as long as one more log block is left. */
  lemma LoggedInv(lay: Layout, s: State, b: nat, x: Block)
    requires Inv(lay, s) && s.phase == Idle && b < |s.disk| && !InLog(lay, b)
    requires b in s.lh || (|s.lh| < LOGSIZE && |s.lh| + 1 < lay.size)
    ensures Inv(lay, Logged(s, b, x))
  {
  }

  lemma EndedInv(lay: Layout, s: State)
    requires Inv(lay, s) && s.phase == Idle
    ensures Inv(lay, Ended(s))
  {
    if s.lh == [] {
      IdleEmpty(lay, s);
    }
  }

  lemma ReopenedInv(lay: Layout, s: State)
    requires Inv(lay, s) && s.phase == Done
    ensures Inv(lay, Reopened(s))
  {
  }

  // ----- buffers

  lemma AtMost(pinned: set<nat>, lh: seq<nat>, hand: set<nat>, b: nat)
    requires Distinct(lh) && (forall c :: c in pinned + hand ==> c in lh || c == b)
    ensures |pinned + hand| <= |lh| + 1
  {
    var all := set c | c in lh;
    DistinctCount(lh, all);
    var rest := all + {b} - (pinned + hand);
    assert all + {b} == pinned + hand + rest;
  }

  /** A commit that gets through the first round of write_log finds a buffer every time after it:
      fewer than NBUF blocks are pinned, and no more will be. */
  lemma EnoughBuffers(lay: Layout, s: State)
    requires Inv(lay, s) && s.committing && |s.lh| < NBUF
    ensures HasBuffers(lay, s)
  {
    var b := if s.phase.WriteLog? || s.phase.Install? then lay.start + 1 + s.phase.tail else lay.start;
    assert forall c :: c in s.dirty ==> c in s.lh;
    AtMost(s.dirty.Keys, s.lh, InHand(lay, s), b);
  }

  /** Recovery starts with nothing pinned. */
  lemma RecoveryBuffers(lay: Layout, s: State)
    requires s.dirty == map[]
    ensures HasBuffers(lay, s)
  {
    assert s.dirty.Keys + InHand(lay, s) == InHand(lay, s);
  }

  lemma PanicsFull(lay: Layout, s: State, t: nat)
    requires Inv(lay, s) && s.phase == WriteLog(t)
    ensures t < |s.lh| && InHand(lay, s) == {lay.start + 1 + t} + {s.lh[t]}
    ensures HasBuffers(lay, s) <==> |s.lh| < NBUF
  {
    WriteLogBuffers(lay, s);
  }

  class Log {
    const lay: Layout
    var disk: Disk
    var dirty: map<nat, Block>
    var n: nat                      // lh.n
    var block: seq<nat>             // lh.block
    var outstanding: int
    var committing: bool
    ghost var phase: Phase
    ghost var trace: seq<State>     // the machine after each of its steps

    ghost function Abs(): State
      reads this
    {
      State(disk, dirty, if n <= |block| then block[..n] else [], outstanding, committing, phase)
    }

    ghost predicate Valid()
      reads this
    {
      |block| == LOGSIZE && n <= LOGSIZE && Inv(lay, Abs())
    }

    /** Boot: the disk survives, everything else is fresh. */
    constructor (lay: Layout, disk: Disk)
      requires Fits(lay, disk) && GoodBlocks(lay, disk, DiskHeader(lay, disk))
      ensures Valid() && Abs() == Booted(disk) && trace == [] && this.lay == lay
    {
      this.lay := lay;
      this.disk, this.dirty := disk, map[];
      n, block := 0, seq(LOGSIZE, i => 0);
      outstanding, committing := 0, false;
      phase, trace := Boot, [];
    }

    method ReadBlock(b: nat) returns (x: Block)
      requires b < |disk|
      ensures x == View(Abs(), b)
    {
      x := if b in dirty then dirty[b] else disk[b];
    }

    /** bwrite: one block write, which ends in the machine state `next`. */
    method WriteBlock(b: nat, x: Block, ghost next: Phase)
      requires b < |disk|
      modifies this`disk, this`dirty, this`phase
      ensures disk == old(disk)[b := x] && dirty == old(dirty) - {b} && phase == next
    {
      disk := disk[b := x];
      dirty := dirty - {b};
      phase := next;
    }

    ghost method Record()
      modifies this`trace
      ensures trace == old(trace) + [Abs()]
    {
      trace := trace + [Abs()];
    }

    /** Whether bget finds no buffer for the two blocks of a round beside the pinned ones. */
    method NoBuffer(tail: nat) returns (panics: bool)
      requires Valid() && phase == Phase.WriteLog(tail)
      ensures panics == (NBUF <= n)
    {
      PanicsFull(lay, Abs(), tail);
      hide Inv, InHand;
      panics := |dirty.Keys + ({lay.start + 1 + tail} + {block[tail]})| > NBUF;
    }

    /** One round of write_log's loop: bread the log block and the home block, copy, bwrite the log
        block. The first bread panics when every buffer is pinned. */
    method CopyToLog(tail: nat) returns (panics: bool)
      requires Valid() && phase == Phase.WriteLog(tail)
      modifies this`disk, this`dirty, this`phase
      ensures Valid() && panics == (NBUF <= n)
      ensures Abs() == if panics then old(Abs()) else Advance(lay, old(Abs()))
      ensures !panics ==> phase == NextWriteLog(block[..n], tail + 1)
    {
      hide Inv, Advance;
      ghost var s := Abs();
      panics := NoBuffer(tail);
      WriteLogIsStep(lay, s, tail);
      if panics {
        return;
      }
      var from := ReadBlock(block[tail]);
      WriteBlock(lay.start + tail + 1, from, NextWriteLog(s.lh, tail + 1));
    }

    /** write_log: copy the cached contents of the logged blocks into the log. */
    method WriteLog() returns (panics: bool)
      requires Valid() && phase == Phase.WriteLog(0)
      modifies this`disk, this`dirty, this`phase, this`trace
      ensures Valid() && panics == (NBUF <= n)
      ensures panics ==> Abs() == old(Abs()) && trace == old(trace)
      ensures !panics ==> phase == Phase.WriteHead && Abs() == Steps(lay, old(Abs()), n)
      ensures !panics ==> trace == old(trace) + Trace(lay, old(Abs()), n)
    {
      hide Inv, Advance;
      ghost var s0, t0 := Abs(), trace;
      InvBounds(lay, s0);
      NoSteps(lay, s0);
      panics := false;
      var tail := 0;
      while tail < n
        invariant tail <= n && Valid() && (0 < tail ==> n < NBUF) && Abs() == Steps(lay, s0, tail)
        invariant phase == NextWriteLog(block[..n], tail)
        invariant trace == t0 + Trace(lay, s0, tail)
      {
        panics := CopyToLog(tail);
        if panics {
          return;
        }
        Record();
        TraceLast(lay, s0, tail);
        Append(t0, Trace(lay, s0, tail), Abs());
        tail := tail + 1;
      }
    }

    /** write_head: store the count and the block numbers over the old header block. */
    method WriteHead(ghost next: Phase)
      requires Fits(lay, disk) && n <= LOGSIZE == |block| && lay.start !in dirty
      requires forall i :: 0 <= i < n ==> block[i] < UINT_MOD
      modifies this`disk, this`dirty, this`phase
      ensures disk == old(disk)[lay.start := PutHeader(old(disk)[lay.start], block[..n])]
      ensures dirty == old(dirty) - {lay.start} && phase == next
    {
      var hb := ReadBlock(lay.start);
      hb := PutWord(hb, 0, n);
      var i := 0;
      while i < n
        invariant i <= n && hb == PutEntries(disk[lay.start], block[..n], i)
      {
        hb := PutWord(hb, i + 1, block[i]);
        i := i + 1;
      }
      WriteBlock(lay.start, hb, next);
    }

    /** read_head: load the header that the disk holds. */
    method ReadHead()
      requires Valid() && phase == Boot
      modifies this`n, this`phase, this`block
      ensures Valid() && Abs() == Advance(lay, old(Abs()))
    {
      ghost var s := Abs();
      AdvanceBoot(lay, s);
      var hb := ReadBlock(lay.start);
      n := Word(hb, 0);
      var i := 0;
      while i < n
        invariant i <= n == |HeaderOf(hb)| && |block| == LOGSIZE && block[..i] == HeaderOf(hb)[..i]
      {
        block := block[i := Word(hb, i + 1)];
        i := i + 1;
      }
      phase := NextInstall(HeaderOf(hb), 0);
      assert block[..n] == HeaderOf(hb);
    }

    /** One round of install_trans's loop: read the log block, copy it home, bwrite that. */
    method CopyHome(tail: nat)
      requires Valid() && phase == Install(tail)
      modifies this`disk, this`dirty, this`phase
      ensures Valid() && Abs() == Advance(lay, old(Abs()))
      ensures phase == NextInstall(block[..n], tail + 1)
    {
      hide Inv, Advance;
      ghost var s := Abs();
      InstallIsStep(lay, s, tail);
      var lbuf := ReadBlock(lay.start + tail + 1);
      WriteBlock(block[tail], lbuf, NextInstall(s.lh, tail + 1));
    }

    /** install_trans: copy the log blocks to their home locations. */
    method InstallTrans()
      requires Valid() && phase == NextInstall(block[..n], 0)
      modifies this`disk, this`dirty, this`phase, this`trace
      ensures Valid() && phase == Erase && Abs() == Steps(lay, old(Abs()), n)
      ensures trace == old(trace) + Trace(lay, old(Abs()), n)
    {
      hide Inv, Advance;
      ghost var s0, t0 := Abs(), trace;
      var tail := 0;
      while tail < n
        invariant tail <= n && Valid() && Abs() == Steps(lay, s0, tail)
        invariant phase == NextInstall(block[..n], tail)
        invariant trace == t0 + Trace(lay, s0, tail)
      {
        CopyHome(tail);
        Record();
        TraceLast(lay, s0, tail);
        Append(t0, Trace(lay, s0, tail), Abs());
        tail := tail + 1;
      }
    }

    /** write_head at the commit point. */
    method CommitHead()
      requires Valid() && phase == Phase.WriteHead
      modifies this`disk, this`dirty, this`phase
      ensures Valid() && Abs() == Advance(lay, old(Abs()))
      ensures phase == NextInstall(block[..n], 0)
    {
      hide Inv, Advance;
      WriteHeadIsStep(lay, Abs());
      WriteHead(NextInstall(block[..n], 0));
    }

    /** Clearing the count in memory, then write_head. */
    method EraseHead()
      requires Valid() && phase == Erase
      modifies this`disk, this`dirty, this`n, this`phase
      ensures Valid() && Abs() == Advance(lay, old(Abs()))
      ensures n == 0 && phase == if committing then Done else Idle
    {
      hide Inv, Advance;
      EraseIsStep(lay, Abs());
      n := 0;
      WriteHead(if committing then Done else Idle);
    }

    /** commit(): the whole sequence of block writes, with what a crash after each of them leaves. With
        NBUF blocks listed it panics before the first. */
    method Commit() returns (panics: bool)
      requires Valid() && committing && phase == if n == 0 then Done else Phase.WriteLog(0)
      modifies this`disk, this`dirty, this`n, this`phase, this`trace
      ensures Valid() && panics == (NBUF <= old(n))
      ensures panics ==> Abs() == old(Abs()) && trace == old(trace)
      ensures !panics ==> phase == Done && n == 0
      ensures !panics ==> Abs() == Steps(lay, old(Abs()), CommitLength(old(n)))
      ensures !panics ==> trace == old(trace) + Trace(lay, old(Abs()), CommitLength(old(n)))
      ensures !panics ==> CommitOutcome(lay, old(Abs()), Abs(), trace[|old(trace)|..])
    {
      hide Inv, Advance, CommitOutcome, Steps, Trace;
      ghost var s0, n0, t0 := Abs(), n, trace;
      CommitDoes(lay, s0);
      NoSteps(lay, s0);
      panics := false;
      if n > 0 {
        panics := WriteLog();
        if panics {
          return;
        }
        CommitHead();
        Record();
        TraceLast(lay, s0, n0);
        Append(t0, Trace(lay, s0, n0), Abs());
        InstallTrans();
        TraceAdd(lay, s0, n0 + 1, n0);
        Regroup(t0, Trace(lay, s0, n0 + 1), Trace(lay, Steps(lay, s0, n0 + 1), n0), [Abs()]);
        EraseHead();
        Record();
        TraceLast(lay, s0, 2 * n0 + 1);
        Append(t0, Trace(lay, s0, 2 * n0 + 1), Abs());
      }
      assert trace == t0 + Trace(lay, s0, CommitLength(n0));
    }

    /** The calls that recover_from_log() makes, in machine steps. */
    method Replay(ghost k: nat)
      requires Valid() && phase == Boot && Fits(lay, disk) && k == |DiskHeader(lay, disk)|
      modifies this`disk, this`dirty, this`n, this`phase, this`trace, this`block
      ensures Valid() && phase == Idle && n == 0
      ensures Abs() == Steps(lay, old(Abs()), k + 2)
      ensures trace == old(trace) + Trace(lay, old(Abs()), k + 2)
    {
      ghost var s0, t0 := Abs(), trace;
      hide Inv, Advance, HeaderOf, Steps, Trace;
      BootReads(lay, s0);
      TraceFirst(lay, s0, k + 1);
      ReadHead();
      Record();
      ghost var s1 := Abs();
      InstallTrans();
      EraseHead();
      Record();
      TraceLast(lay, s1, k);
      Regroup(t0, [s1], Trace(lay, s1, k), [Abs()]);
    }

    /** recover_from_log(): replay whatever the disk's header lists, then clear it. */
    method RecoverFromLog()
      requires Valid() && phase == Boot
      modifies this`disk, this`dirty, this`n, this`phase, this`trace, this`block
      ensures Valid() && phase == Idle && n == 0 && |old(trace)| <= |trace|
      ensures RecoveryOutcome(lay, old(disk), Abs(), trace[|old(trace)|..])
    {
      hide Inv, Advance, HeaderOf, RecoveryOutcome;
      ghost var s0, t0 := Abs(), trace;
      BootReads(lay, s0);
      ghost var k := |DiskHeader(lay, disk)|;
      Replay(k);
      RecoveryDoes(lay, s0);
      assert trace[|t0|..] == Trace(lay, s0, k + 2);
    }

    /** One pass through the loop of begin_op: sleep, or count the caller in. */
    method TryBegin() returns (sleeps: bool)
      requires Valid()
      modifies this`outstanding
      ensures sleeps == !MayBegin(old(Abs()))
      ensures Abs() == Begun(old(Abs()))
    {
      if committing {
        sleeps := true;
      } else if n + (outstanding + 1) * MAXOPBLOCKS > LOGSIZE {
        sleeps := true;
      } else {
        outstanding := outstanding + 1;
        sleeps := false;
      }
    }

    /** log_write by a caller that meets no other between the tests and the lock. */
    method LogWrite(b: nat, x: Block) returns (panics: bool)
      requires Valid() && phase == Idle && b < |disk| && !InLog(lay, b)
      modifies this`n, this`dirty, this`block
      ensures panics == !MayLog(lay, old(Abs()))
      ensures Valid() && Abs() == if panics then old(Abs()) else Logged(old(Abs()), b, x)
    {
      hide Inv;
      ghost var s := Abs();
      if n >= LOGSIZE || n >= lay.size - 1 || outstanding < 1 {
        return true;
      }
      panics := false;
      var i := 0;
      while i < n && block[i] != b
        invariant i <= n && b !in s.lh[..i]
        invariant Abs() == s
      {
        i := i + 1;
      }
      block := block[i := b];
      if i == n {
        n := n + 1;
      }
      dirty := dirty[b := x];
      assert i < |s.lh| ==> b == s.lh[i];
      assert block[..n] == if b in s.lh then s.lh else s.lh + [b];
      LoggedInv(lay, s, b, x);
    }

    /** The first critical section of end_op, then commit() if the caller was the last one out,
        then the second critical section. */
    method EndOp() returns (panics: bool)
      requires Valid() && (committing || phase == Idle)
      modifies this`disk, this`dirty, this`n, this`outstanding, this`committing, this`phase, this`trace
      ensures panics == (old(committing) || (old(outstanding) == 1 && NBUF <= old(n)))
      ensures panics && !old(committing) ==> Valid() && Abs() == Ended(old(Abs())) && trace == old(trace)
      ensures !panics && old(outstanding) != 1 ==> Valid() && Abs() == Ended(old(Abs())) && trace == old(trace)
      ensures !panics && old(outstanding) == 1 ==>
        && Valid() && phase == Idle && n == 0 && outstanding == 0 && !committing && |old(trace)| <= |trace|
        && CommitOutcome(lay, Ended(old(Abs())), Abs(), trace[|old(trace)|..])
    {
      ghost var s := Abs();
      outstanding := outstanding - 1;
      if committing {
        return true;
      }
      panics := false;
      EndedInv(lay, s);
      if outstanding == 0 {
        committing := true;
        phase := if n == 0 then Done else Phase.WriteLog(0);
        assert Abs() == Ended(s);
        panics := Commit();
        if panics {
          return;
        }
        ghost var s1 := Abs();
        ReopenedInv(lay, s1);
        committing := false;
        phase := Idle;
        assert Abs() == Reopened(s1);
      }
    }
  }
}
