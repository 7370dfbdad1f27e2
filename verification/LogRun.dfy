/** Whole runs of the log: any number of operations, interleaved critical section by critical
    section and disk write by disk write, with a crash possible at every point. */
module LogRun {
  import opened Bytes
  import opened LogState
  import opened LogCrash
  import opened Log
  import opened BufList

  /** `serial` says that no other log_write comes between the tests of a log_write, which the code
      makes before it takes the lock, and its append. */
  datatype Config = Config(lay: Layout, serial: bool)

  /** An active operation: the distinct blocks it has logged, and whether it is inside log_write,
      past the tests. */
  datatype Op = Op(id: nat, logged: set<nat>, tested: bool)

  /** One log_write. */
  datatype Rec = Rec(op: nat, block: nat, data: Block)

  datatype Panic = NoPanic | TooBig | OutsideTrans | LogCommitting | NoBuffers

  /** The machine, the operations, and the history: the records of the group being built, the
      groups whose header has been written, and the operations that have called end_op. */
  datatype World = World(s: State, ops: seq<Op>, nextId: nat, group: seq<Rec>,
                         committed: seq<seq<Rec>>, ended: set<nat>, panic: Panic)

  datatype Action =
    | Begin
    | Test(i: nat)
    | Append(i: nat, b: nat, data: Block)
    | End(i: nat)
    | Write               // the next disk write of a commit or of recovery
    | Finish              // the second critical section of end_op
    | Crash

  /** Operations run only once recovery has finished. */
  predicate Up(s: State) {
    s.phase != Boot && (s.phase.Install? || s.phase == Erase ==> s.committing)
  }

  predicate CanAdvance(lay: Layout, s: State) {
    && Fits(lay, s.disk) && InRange(lay, s.disk, s.lh)
    && (s.phase.WriteLog? || s.phase.Install? ==> s.phase.tail < |s.lh|)
  }

  predicate Enabled(cfg: Config, w: World, a: Action) {
    match a
    case Crash => true
    case Begin => w.panic == NoPanic && Up(w.s)
    case Test(i) => w.panic == NoPanic && i < |w.ops| && !w.ops[i].tested
    case Append(i, b, _) =>
      && w.panic == NoPanic && i < |w.ops| && w.ops[i].tested
      && b < |w.s.disk| && !InLog(cfg.lay, b)
      && |w.ops[i].logged + {b}| <= MAXOPBLOCKS
      && (cfg.serial ==> MayLog(cfg.lay, w.s))
    case End(i) => w.panic == NoPanic && i < |w.ops| && !w.ops[i].tested
    case Write =>
      && w.panic == NoPanic && w.s.phase != Idle && w.s.phase != Done
      && (HasBuffers(cfg.lay, w.s) ==> CanAdvance(cfg.lay, w.s))
    case Finish => w.panic == NoPanic && w.s.phase == Done
  }

  function Next(cfg: Config, w: World, a: Action): World
    requires Enabled(cfg, w, a)
  {
    match a
    case Begin =>
      if MayBegin(w.s) then
        w.(s := Begun(w.s), ops := w.ops + [Op(w.nextId, {}, false)], nextId := w.nextId + 1)
      else w                                                     // sleeps
    case Test(i) =>
      if |w.s.lh| >= LOGSIZE || |w.s.lh| >= cfg.lay.size - 1 then w.(panic := TooBig)
      else if w.s.outstanding < 1 then w.(panic := OutsideTrans)
      else w.(ops := w.ops[i := w.ops[i].(tested := true)])
    case Append(i, b, x) =>
      var op := w.ops[i];
      w.(s := Logged(w.s, b, x),
         ops := w.ops[i := op.(logged := op.logged + {b}, tested := false)],
         group := w.group + [Rec(op.id, b, x)])
    case End(i) =>
      if w.s.committing then w.(panic := LogCommitting)
      else w.(s := Ended(w.s), ops := w.ops[..i] + w.ops[i + 1..], ended := w.ended + {w.ops[i].id})
    case Write =>
      if !HasBuffers(cfg.lay, w.s) then w.(panic := NoBuffers)   // bget's panic, before the write
      else
        var w' := w.(s := Advance(cfg.lay, w.s));
        if w.s.phase == WriteHead then w'.(committed := w.committed + [w.group], group := []) else w'
    case Finish => w.(s := Reopened(w.s))
    case Crash => w.(s := Booted(w.s.disk), ops := [], group := [], panic := NoPanic)
  }

  /** A disk as mkfs leaves it: the log is empty. */
  ghost predicate Fresh(cfg: Config, w: World, d: Disk) {
    && Fits(cfg.lay, d) && DiskHeader(cfg.lay, d) == []
    && w == World(Booted(d), [], 0, [], [], {}, NoPanic)
  }

  // ----- what the records mean

  function ApplyGroup(d: Disk, g: seq<Rec>): (e: Disk)
    ensures |e| == |d|
  {
    if g == [] then d else
      var r := g[|g| - 1];
      var e := ApplyGroup(d, g[..|g| - 1]);
      if r.block < |d| then e[r.block := r.data] else e
  }

  function ApplyGroups(d: Disk, gs: seq<seq<Rec>>): (e: Disk)
    ensures |e| == |d|
  {
    if gs == [] then d else ApplyGroup(ApplyGroups(d, gs[..|gs| - 1]), gs[|gs| - 1])
  }

  function Ids(g: seq<Rec>): set<nat> {
    set r | r in g :: r.op
  }

  // ----- space accounting

  /** The blocks that the active operations may still add. */
  function Unused(ops: seq<Op>): int {
    if ops == [] then 0 else MAXOPBLOCKS - |ops[0].logged| + Unused(ops[1..])
  }

  lemma {:induction false} UnusedUpdate(ops: seq<Op>, i: nat, op: Op)
    requires i < |ops|
    ensures Unused(ops[i := op]) == Unused(ops) + |ops[i].logged| - |op.logged|
  {
    if i > 0 {
      assert ops[i := op][1..] == ops[1..][i - 1 := op];
      UnusedUpdate(ops[1..], i - 1, op);
    }
  }

  lemma {:induction false} UnusedRemove(ops: seq<Op>, i: nat)
    requires i < |ops|
    ensures Unused(ops[..i] + ops[i + 1..]) == Unused(ops) - MAXOPBLOCKS + |ops[i].logged|
  {
    if i == 0 {
      assert ops[..i] + ops[i + 1..] == ops[1..];
    } else {
      assert (ops[..i] + ops[i + 1..])[1..] == ops[1..][..i - 1] + ops[1..][i..];
      UnusedRemove(ops[1..], i - 1);
    }
  }

  lemma {:induction false} UnusedAppend(ops: seq<Op>, op: Op)
    ensures Unused(ops + [op]) == Unused(ops) + MAXOPBLOCKS - |op.logged|
  {
    if ops != [] {
      assert (ops + [op])[1..] == ops[1..] + [op];
      UnusedAppend(ops[1..], op);
    } else {
      assert ([] + [op])[1..] == [];
    }
  }

  lemma {:induction false} UnusedBounds(ops: seq<Op>)
    requires forall i :: 0 <= i < |ops| ==> |ops[i].logged| <= MAXOPBLOCKS
    ensures 0 <= Unused(ops) <= |ops| * MAXOPBLOCKS
    ensures forall i :: 0 <= i < |ops| ==> MAXOPBLOCKS - |ops[i].logged| <= Unused(ops)
  {
    if ops != [] {
      UnusedBounds(ops[1..]);
      forall i | 0 <= i < |ops| ensures MAXOPBLOCKS - |ops[i].logged| <= Unused(ops) {
        if i > 0 {
          assert ops[i] == ops[1..][i - 1];
        }
      }
    }
  }

  // ----- the invariant of all runs

  ghost predicate Space(w: World) {
    && w.s.outstanding == |w.ops|
    && (forall i :: 0 <= i < |w.ops| ==> |w.ops[i].logged| <= MAXOPBLOCKS)
    && (forall i, b :: 0 <= i < |w.ops| && b in w.ops[i].logged ==> b in w.s.lh)
    && |w.s.lh| + Unused(w.ops) <= LOGSIZE
  }

  predicate Gathering(s: State) {
    s.phase.Idle? || s.phase.WriteLog? || s.phase.WriteHead?
  }

  ghost predicate Active(w: World, id: nat) {
    exists i :: 0 <= i < |w.ops| && w.ops[i].id == id
  }

  ghost predicate History(w: World) {
    && (forall i :: 0 <= i < |w.ops| ==> w.ops[i].id < w.nextId && w.ops[i].id !in w.ended)
    && (forall i, j :: 0 <= i < j < |w.ops| ==> w.ops[i].id != w.ops[j].id)
    && (forall id :: id in w.ended ==> id < w.nextId)
    && (forall id :: id in Ids(w.group) ==> id in w.ended || Active(w, id))
    && (forall g :: 0 <= g < |w.committed| ==> Ids(w.committed[g]) <= w.ended)
    && (forall g :: 0 <= g < |w.committed| ==> Ids(w.committed[g]) !! Ids(w.group))
    && (forall g, h :: 0 <= g < h < |w.committed| ==> Ids(w.committed[g]) !! Ids(w.committed[h]))
    && (!Gathering(w.s) ==> w.group == [])
  }

  /** Nothing logged means nothing recorded: the group of an empty log is empty. */
  ghost predicate Recorded(w: World) {
    forall r :: r in w.group ==> r.block in w.s.lh
  }

  /** The cache shows the disk e with the group's records applied. */
  ghost predicate Shows(lay: Layout, s: State, e: Disk) {
    |e| == |s.disk| && forall b :: 0 <= b < |e| && !InLog(lay, b) ==> View(s, b) == e[b]
  }

  ghost predicate Contents(cfg: Config, d0: Disk, w: World) {
    var e := ApplyGroups(d0, w.committed);
    && Means(cfg.lay, w.s.disk, e)
    && (Gathering(w.s) ==> Shows(cfg.lay, w.s, ApplyGroup(e, w.group)))
  }

  /** The header lists more blocks than the region holds, and nothing has been written yet. */
  ghost predicate Over(lay: Layout, s: State) {
    && Fits(lay, s.disk) && DiskHeader(lay, s.disk) == []
    && 2 <= lay.size <= |s.lh| && Homely(lay, s.disk, s.lh) && Distinct(s.lh) && Pinned(s)
    && ((s.phase == Idle && !s.committing) || (s.phase == WriteLog(0) && s.committing && s.outstanding == 0))
  }

  predicate Homely(lay: Layout, d: Disk, lh: seq<nat>) {
    |lh| <= LOGSIZE && forall i :: 0 <= i < |lh| ==> lh[i] < |d| && !InLog(lay, lh[i])
  }

  ghost predicate Sane(lay: Layout, s: State) {
    Inv(lay, s) || Over(lay, s)
  }

  /** Past the first round of write_log there are buffers to spare. */
  predicate Spare(s: State) {
    match s.phase
    case WriteLog(t) => 0 < t ==> |s.lh| < NBUF
    case WriteHead => |s.lh| < NBUF
    case Install(_) | Erase => if s.committing then |s.lh| < NBUF else s.dirty == map[]
    case Boot | Idle | Done => true
  }

  /** The tests pass only if the region has a block beside the header. */
  predicate Passed(cfg: Config, w: World) {
    forall i :: 0 <= i < |w.ops| && w.ops[i].tested ==> 2 <= cfg.lay.size
  }

  predicate Benign(p: Panic) {
    p == NoPanic || p == TooBig || p == NoBuffers
  }

  ghost predicate RunInv(cfg: Config, d0: Disk, w: World) {
    && Sane(cfg.lay, w.s) && Spare(w.s) && Passed(cfg, w)
    && Space(w) && History(w) && Recorded(w) && Contents(cfg, d0, w)
    && Benign(w.panic)
  }

  // ----- operations run only while the log is idle

  lemma OpsWhileIdle(lay: Layout, w: World)
    requires Sane(lay, w.s) && Space(w) && w.ops != []
    ensures w.s.phase == Idle && !w.s.committing && w.s.outstanding == |w.ops|
  {
  }

  // ----- each action keeps it

  lemma BegunSane(lay: Layout, s: State)
    requires Sane(lay, s) && MayBegin(s) && Up(s)
    ensures Sane(lay, Begun(s)) && s.phase == Idle
  {
  }

  lemma BeginHistory(w: World, w': World)
    requires History(w) && w' == w.(s := Begun(w.s), ops := w.ops + [Op(w.nextId, {}, false)], nextId := w.nextId + 1)
    ensures History(w')
  {
    forall id | id in Ids(w.group) ensures id in w'.ended || Active(w', id) {
      if id !in w.ended {
        var i :| 0 <= i < |w.ops| && w.ops[i].id == id;
        assert w'.ops[i].id == id;
      }
    }
  }

  lemma BeginKeeps(cfg: Config, d0: Disk, w: World)
    requires RunInv(cfg, d0, w) && Enabled(cfg, w, Begin) && MayBegin(w.s)
    ensures RunInv(cfg, d0, Next(cfg, w, Begin))
  {
    hide Sane, History, Means;
    var w' := Next(cfg, w, Begin);
    BegunSane(cfg.lay, w.s);
    BeginHistory(w, w');
    UnusedAppend(w.ops, Op(w.nextId, {}, false));
    UnusedBounds(w.ops);
    forall i | 0 <= i < |w'.ops| ensures w'.ops[i] == if i < |w.ops| then w.ops[i] else Op(w.nextId, {}, false) {
    }
    ShowsSame(cfg.lay, w.s, w'.s, ApplyGroup(ApplyGroups(d0, w.committed), w.group));
  }

  lemma ShowsSame(lay: Layout, s: State, s': State, e: Disk)
    requires Shows(lay, s, e) && s'.disk == s.disk && s'.dirty == s.dirty
    ensures Shows(lay, s', e)
  {
    forall b | 0 <= b < |e| && !InLog(lay, b) ensures View(s', b) == e[b] {
      assert View(s, b) == e[b];
    }
  }

  lemma SameOpsHistory(w: World, i: nat, op: Op, s: State, more: seq<Rec>)
    requires History(w) && i < |w.ops| && op.id == w.ops[i].id && w.s.phase == s.phase == Idle
    requires forall r :: r in more ==> r.op == op.id
    ensures History(w.(s := s, ops := w.ops[i := op], group := w.group + more))
  {
    var group := w.group + more;
    var w' := w.(s := s, ops := w.ops[i := op], group := group);
    assert forall k :: 0 <= k < |w.ops| ==> w'.ops[k].id == w.ops[k].id;
    assert w'.ops[i].id == op.id;
    forall id | id in Ids(group) ensures id in w.ended || Active(w', id) {
      if id in Ids(w.group) && id !in w.ended {
        var k :| 0 <= k < |w.ops| && w.ops[k].id == id;
        assert w'.ops[k].id == id;
      }
    }
    assert Ids(group) <= Ids(w.group) + {op.id};
  }

  lemma TestKeeps(cfg: Config, d0: Disk, w: World, i: nat)
    requires RunInv(cfg, d0, w) && Enabled(cfg, w, Test(i))
    ensures RunInv(cfg, d0, Next(cfg, w, Test(i)))
  {
    hide Sane, History, Means, Shows;
    OpsWhileIdle(cfg.lay, w);
    var op := w.ops[i].(tested := true);
    SameOpsHistory(w, i, op, w.s, []);
    assert w.group + [] == w.group;
    UnusedUpdate(w.ops, i, op);
    assert forall k :: 0 <= k < |w.ops| ==> w.ops[i := op][k].logged == w.ops[k].logged;
    PanicKeeps(cfg, d0, w, TooBig);
  }

  lemma PanicKeeps(cfg: Config, d0: Disk, w: World, p: Panic)
    requires RunInv(cfg, d0, w) && Benign(p)
    ensures RunInv(cfg, d0, w.(panic := p))
  {
    hide Sane, Means, Shows;
  }

  /** The append has a header entry left, because the operation still has a reservation. */
  lemma AppendFits(cfg: Config, w: World, i: nat, b: nat, x: Block)
    requires Space(w) && Enabled(cfg, w, Append(i, b, x))
    ensures b in w.s.lh || |w.s.lh| < LOGSIZE
  {
    UnusedBounds(w.ops);
    if b !in w.s.lh {
      assert b !in w.ops[i].logged;
    }
  }

  lemma AppendSpace(cfg: Config, w: World, i: nat, b: nat, x: Block)
    requires Space(w) && Enabled(cfg, w, Append(i, b, x))
    ensures Space(w.(s := Logged(w.s, b, x),
      ops := w.ops[i := w.ops[i].(logged := w.ops[i].logged + {b}, tested := false)]))
  {
    var op := w.ops[i].(logged := w.ops[i].logged + {b}, tested := false);
    UnusedUpdate(w.ops, i, op);
    if b in w.ops[i].logged {
      assert op.logged == w.ops[i].logged;
    }
    var ops := w.ops[i := op];
    forall k, c | 0 <= k < |ops| && c in ops[k].logged ensures c in Logged(w.s, b, x).lh {
      assert c in w.ops[k].logged || c == b;
    }
  }

  lemma AppendShows(lay: Layout, s: State, e: Disk, g: seq<Rec>, r: Rec)
    requires Shows(lay, s, ApplyGroup(e, g)) && r.block < |e|
    ensures Shows(lay, Logged(s, r.block, r.data), ApplyGroup(e, g + [r]))
  {
    assert (g + [r])[..|g|] == g;
    var e', s' := ApplyGroup(e, g + [r]), Logged(s, r.block, r.data);
    forall b | 0 <= b < |e'| && !InLog(lay, b) ensures View(s', b) == e'[b] {
      assert View(s, b) == ApplyGroup(e, g)[b];
    }
  }

  /** Recording a block, even one too many for the region. */
  lemma LoggedSane(lay: Layout, s: State, b: nat, x: Block)
    requires Sane(lay, s) && s.phase == Idle && b < |s.disk| && !InLog(lay, b) && 2 <= lay.size
    requires b in s.lh || |s.lh| < LOGSIZE
    ensures Sane(lay, Logged(s, b, x))
  {
    if Inv(lay, s) && (b in s.lh || |s.lh| + 1 < lay.size) {
      LoggedInv(lay, s, b, x);
    } else {
      assert Over(lay, Logged(s, b, x));
    }
  }

  lemma AppendKeeps(cfg: Config, d0: Disk, w: World, i: nat, b: nat, x: Block)
    requires RunInv(cfg, d0, w) && Enabled(cfg, w, Append(i, b, x))
    ensures RunInv(cfg, d0, Next(cfg, w, Append(i, b, x)))
  {
    hide Sane, History, Means, Shows, Space, ApplyGroup;
    OpsWhileIdle(cfg.lay, w);
    var op := w.ops[i].(logged := w.ops[i].logged + {b}, tested := false);
    var r := Rec(op.id, b, x);
    AppendFits(cfg, w, i, b, x);
    LoggedSane(cfg.lay, w.s, b, x);
    AppendSpace(cfg, w, i, b, x);
    SameOpsHistory(w, i, op, Logged(w.s, b, x), [r]);
    MeansSize(cfg.lay, w.s.disk, ApplyGroups(d0, w.committed));
    AppendShows(cfg.lay, w.s, ApplyGroups(d0, w.committed), w.group, r);
    SpaceReads(Next(cfg, w, Append(i, b, x)), w.(s := Logged(w.s, b, x), ops := w.ops[i := op]));
  }

  lemma MeansSize(lay: Layout, d: Disk, e: Disk)
    requires Means(lay, d, e)
    ensures |e| == |d|
  {
  }

  lemma SpaceReads(w: World, w': World)
    requires Space(w') && w.s == w'.s && w.ops == w'.ops
    ensures Space(w)
  {
  }

  lemma EndHistory(w: World, i: nat, w': World)
    requires History(w) && i < |w.ops| && w.s.phase == Idle
    requires w' == w.(s := w'.s, ops := w.ops[..i] + w.ops[i + 1..], ended := w.ended + {w.ops[i].id})
    requires !Gathering(w'.s) ==> w.group == []
    ensures History(w')
  {
    hide Ids;
    forall k | 0 <= k < |w'.ops| ensures w'.ops[k] == if k < i then w.ops[k] else w.ops[k + 1] {
    }
    forall id | id in Ids(w.group) ensures id in w'.ended || Active(w', id) {
      if id !in w'.ended {
        var k :| 0 <= k < |w.ops| && w.ops[k].id == id;
        assert w'.ops[if k < i then k else k - 1].id == id;
      }
    }
  }

  lemma EndSpace(w: World, i: nat, w': World)
    requires Space(w) && i < |w.ops| && !w.s.committing
    requires w'.s == Ended(w.s) && w'.ops == w.ops[..i] + w.ops[i + 1..]
    ensures Space(w')
  {
    UnusedRemove(w.ops, i);
    assert forall k :: 0 <= k < |w'.ops| ==> w'.ops[k] == if k < i then w.ops[k] else w.ops[k + 1];
  }

  lemma EndedSane(lay: Layout, s: State)
    requires Sane(lay, s) && s.phase == Idle
    ensures Sane(lay, Ended(s))
  {
    if Inv(lay, s) {
      EndedInv(lay, s);
    } else {
      assert Over(lay, Ended(s));
    }
  }

  lemma EndKeeps(cfg: Config, d0: Disk, w: World, i: nat)
    requires RunInv(cfg, d0, w) && Enabled(cfg, w, End(i))
    ensures RunInv(cfg, d0, Next(cfg, w, End(i)))
  {
    hide Sane, Means, ApplyGroup, History, Space;
    WriteShape(w);
    OpsWhileIdle(cfg.lay, w);
    EndedSane(cfg.lay, w.s);
    var w' := Next(cfg, w, End(i));
    if w.group != [] {
      assert w.group[0].block in w.s.lh;
    }
    EndHistory(w, i, w');
    EndSpace(w, i, w');
    ShowsSame(cfg.lay, w.s, w'.s, ApplyGroup(ApplyGroups(d0, w.committed), w.group));
  }

  /** A quiet machine shows the disk's meaning. */
  lemma QuietShows(lay: Layout, s: State, e: Disk)
    requires Inv(lay, s) && Means(lay, s.disk, e) && DiskHeader(lay, s.disk) == [] && s.dirty == map[]
    ensures Shows(lay, s, e)
  {
    LogFromMeans(lay, s.disk, [], e);
  }

  lemma FinishKeeps(cfg: Config, d0: Disk, w: World)
    requires RunInv(cfg, d0, w) && Enabled(cfg, w, Finish)
    ensures RunInv(cfg, d0, Next(cfg, w, Finish))
  {
    var e := ApplyGroups(d0, w.committed);
    ReopenedInv(cfg.lay, w.s);
    QuietShows(cfg.lay, Reopened(w.s), e);
    assert ApplyGroup(e, []) == e;
  }

  lemma CrashKeeps(cfg: Config, d0: Disk, w: World)
    requires RunInv(cfg, d0, w)
    ensures RunInv(cfg, d0, Next(cfg, w, Crash))
  {
  }

  // ----- disk writes

  lemma WriteMeans(cfg: Config, d0: Disk, w: World)
    requires RunInv(cfg, d0, w) && Inv(cfg.lay, w.s) && Enabled(cfg, w, Write) && HasBuffers(cfg.lay, w.s)
    ensures Inv(cfg.lay, Advance(cfg.lay, w.s))
    ensures Means(cfg.lay, Advance(cfg.lay, w.s).disk, ApplyGroups(d0, Next(cfg, w, Write).committed))
  {
    hide Space, History, Recorded, Inv, Advance, Means, Sane, Spare, Passed, HasBuffers;
    var e := ApplyGroups(d0, w.committed);
    if w.s.phase == WriteHead {
      var gs := w.committed + [w.group];
      assert gs[..|gs| - 1] == w.committed;
      AdvanceWriteHead(cfg.lay, w.s, ApplyGroup(e, w.group));
    } else {
      AdvanceIsAtomic(cfg.lay, w.s, e, Cached(w.s));
    }
  }

  /** What one disk write does to the rest of the machine. */
  lemma AdvanceShape(lay: Layout, s: State)
    requires Inv(lay, s) && s.phase != Idle && s.phase != Done
    ensures var r := Advance(lay, s);
      && r.outstanding == s.outstanding == 0 && |r.lh| <= LOGSIZE
      && (Gathering(s) && !s.phase.WriteHead? ==> r.lh == s.lh && Gathering(r) && s.phase.WriteLog?)
      && (s.phase.WriteHead? || s.phase.Install? || s.phase.Boot? ==> !Gathering(r))
      && (s.phase.Erase? ==> Gathering(r) ==>
        r.phase.Idle? && r.lh == [] && r.dirty == map[] && DiskHeader(lay, r.disk) == [])
  {
    if s.phase.Erase? {
      HeaderRoundTrip(s.disk[lay.start], []);
      AllInstalled(lay, s);
    }
  }

  lemma WriteHistory(w: World, w': World)
    requires History(w) && w.ops == []
    requires w' == w.(s := w'.s, committed := w'.committed, group := w'.group)
    requires if w.s.phase.WriteHead? then w'.committed == w.committed + [w.group] && w'.group == []
             else w'.committed == w.committed && w'.group == w.group
    requires !Gathering(w'.s) ==> w'.group == []
    ensures History(w')
  {
    forall g | 0 <= g < |w'.committed|
      ensures Ids(w'.committed[g]) <= w.ended && Ids(w'.committed[g]) !! Ids(w'.group)
    {
      if g == |w.committed| {
        assert forall id :: id in Ids(w.group) ==> id in w.ended || Active(w, id);
      }
    }
  }

  lemma WriteShape(w: World)
    requires Space(w) && History(w)
    ensures w.s.outstanding == 0 ==> w.ops == []
    ensures !Gathering(w.s) ==> w.group == []
  {
  }

  lemma WriteShows(cfg: Config, d0: Disk, w: World)
    requires RunInv(cfg, d0, w) && Inv(cfg.lay, w.s) && Enabled(cfg, w, Write) && HasBuffers(cfg.lay, w.s)
    requires w.s.phase.WriteLog?
    ensures Shows(cfg.lay, Advance(cfg.lay, w.s), ApplyGroup(ApplyGroups(d0, w.committed), w.group))
  {
    hide Space, History, Recorded, ApplyGroup;
    var e := ApplyGroup(ApplyGroups(d0, w.committed), w.group);
    forall b | 0 <= b < |e| && !InLog(cfg.lay, b) ensures View(Advance(cfg.lay, w.s), b) == e[b] {
      assert View(w.s, b) == e[b];
    }
  }

  lemma WriteSpare(lay: Layout, s: State)
    requires Inv(lay, s) && Spare(s) && HasBuffers(lay, s)
    ensures Spare(Advance(lay, s))
  {
    if s.phase.WriteLog? {
      WriteLogBuffers(lay, s);
    }
  }

  lemma MakesWrite(cfg: Config, d0: Disk, w: World)
    requires RunInv(cfg, d0, w) && Inv(cfg.lay, w.s) && Enabled(cfg, w, Write) && HasBuffers(cfg.lay, w.s)
    ensures RunInv(cfg, d0, Next(cfg, w, Write))
  {
    hide Inv, Advance, Means, Shows, ApplyGroup, History, HasBuffers, Spare;
    var w' := Next(cfg, w, Write);
    WriteShape(w);
    AdvanceShape(cfg.lay, w.s);
    WriteMeans(cfg, d0, w);
    WriteSpare(cfg.lay, w.s);
    if w.s.phase.WriteLog? {
      WriteShows(cfg, d0, w);
    } else if w.s.phase.Erase? && Gathering(w'.s) {
      QuietShows(cfg.lay, w'.s, ApplyGroups(d0, w.committed));
      NoRecords(ApplyGroups(d0, w.committed));
    }
    WriteHistory(w, w');
  }

  /** A commit that would write past the region, and has the buffers to do it. */
  predicate Overruns(lay: Layout, s: State) {
    s.phase.WriteLog? && lay.size <= |s.lh| < NBUF
  }

  /** With NBUF blocks pinned the first bread of write_log panics, however large the region is. */
  lemma FullPanics(lay: Layout, s: State)
    requires Over(lay, s) && s.phase.WriteLog?
    ensures HasBuffers(lay, s) <==> |s.lh| < NBUF
  {
    assert InLog(lay, lay.start + 1);
    WriteLogBuffers(lay, s);
  }

  lemma WritesInside(cfg: Config, w: World)
    requires Sane(cfg.lay, w.s) && Enabled(cfg, w, Write) && HasBuffers(cfg.lay, w.s) && !Overruns(cfg.lay, w.s)
    ensures Inv(cfg.lay, w.s)
  {
    if Over(cfg.lay, w.s) {
      FullPanics(cfg.lay, w.s);
    }
  }

  lemma WriteKeeps(cfg: Config, d0: Disk, w: World)
    requires RunInv(cfg, d0, w) && Enabled(cfg, w, Write) && !Overruns(cfg.lay, w.s)
    ensures RunInv(cfg, d0, Next(cfg, w, Write))
  {
    if !HasBuffers(cfg.lay, w.s) {
      PanicKeeps(cfg, d0, w, NoBuffers);
    } else {
      WritesInside(cfg, w);
      MakesWrite(cfg, d0, w);
    }
  }

  lemma NoRecords(e: Disk)
    ensures ApplyGroup(e, []) == e
  {
  }

  // ----- runs

  lemma NextKeeps(cfg: Config, d0: Disk, w: World, a: Action)
    requires RunInv(cfg, d0, w) && Enabled(cfg, w, a) && !Overruns(cfg.lay, w.s)
    ensures RunInv(cfg, d0, Next(cfg, w, a))
  {
    hide RunInv;
    match a
    case Begin =>
      if MayBegin(w.s) {
        BeginKeeps(cfg, d0, w);
      }
    case Test(i) => TestKeeps(cfg, d0, w, i);
    case Append(i, b, x) => AppendKeeps(cfg, d0, w, i, b, x);
    case End(i) => EndKeeps(cfg, d0, w, i);
    case Write => WriteKeeps(cfg, d0, w);
    case Finish => FinishKeeps(cfg, d0, w);
    case Crash => CrashKeeps(cfg, d0, w);
  }

  lemma FreshInv(cfg: Config, d0: Disk, w: World)
    requires Fresh(cfg, w, d0)
    ensures RunInv(cfg, d0, w)
  {
    assert Inv(cfg.lay, w.s);
    assert Means(cfg.lay, d0, d0);
    assert History(w) && Space(w);
  }

  ghost predicate IsRun(cfg: Config, d0: Disk, acts: seq<Action>, ws: seq<World>) {
    && |ws| == |acts| + 1
    && Fresh(cfg, ws[0], d0)
    && forall i :: 0 <= i < |acts| ==> Enabled(cfg, ws[i], acts[i]) && ws[i + 1] == Next(cfg, ws[i], acts[i])
  }

  /** Before the i-th world no commit has written past the log region. */
  ghost predicate Contained(cfg: Config, ws: seq<World>, i: nat)
    requires i < |ws|
  {
    forall j :: 0 <= j < i ==> !Overruns(cfg.lay, ws[j].s)
  }

  /** When that holds of every run: the tests of log_write are not separated from its append, or the
      region has at least LOGSIZE blocks, as mkfs gives it. A full header then leaves no buffer. */
  predicate Safe(cfg: Config) {
    cfg.serial || LOGSIZE <= cfg.lay.size
  }

  /** The invariant holds after every prefix of every run, until a commit overruns the region. */
  lemma {:induction false} RunKeeps(cfg: Config, d0: Disk, acts: seq<Action>, ws: seq<World>, i: nat)
    requires IsRun(cfg, d0, acts, ws) && i < |ws| && Contained(cfg, ws, i)
    ensures RunInv(cfg, d0, ws[i])
  {
    hide RunInv, Next, Enabled;
    if i == 0 {
      FreshInv(cfg, d0, ws[0]);
    } else {
      RunKeeps(cfg, d0, acts, ws, i - 1);
      assert Enabled(cfg, ws[i - 1], acts[i - 1]) && !Overruns(cfg.lay, ws[i - 1].s);
      NextKeeps(cfg, d0, ws[i - 1], acts[i - 1]);
    }
  }

  /** Group commit. At every point of every run of a safe log, and of any other run until a commit overruns
      the region: a commit excludes active operations; the panics in
      end_op and for a log_write outside a transaction have not happened; and if the machine
      crashed here, recovery would produce exactly the effect of the committed groups. Those
      contain only operations that had ended, and no operation is split between two groups. */
  lemma GroupCommit(cfg: Config, d0: Disk, acts: seq<Action>, ws: seq<World>, i: nat)
    requires IsRun(cfg, d0, acts, ws) && i < |ws| && (Safe(cfg) || Contained(cfg, ws, i))
    ensures var w := ws[i];
      && (w.s.committing ==> w.s.outstanding == 0)
      && w.panic != LogCommitting && w.panic != OutsideTrans
      && Means(cfg.lay, w.s.disk, ApplyGroups(d0, w.committed))
      && (forall b :: 0 <= b < |d0| && !InLog(cfg.lay, b) ==>
            Recovered(cfg.lay, w.s.disk)[b] == ApplyGroups(d0, w.committed)[b])
      && (forall g :: 0 <= g < |w.committed| ==> Ids(w.committed[g]) <= w.ended)
      && (forall k :: 0 <= k < |w.ops| ==> w.ops[k].id !in w.ended)
      && (forall g, h :: 0 <= g < h < |w.committed| ==> Ids(w.committed[g]) !! Ids(w.committed[h]))
      && (forall g :: 0 <= g < |w.committed| ==> Ids(w.committed[g]) !! Ids(w.group))
  {
    SafeKeeps(cfg, d0, acts, ws, i);
    hide ApplyGroups, Ids;
    var w, e := ws[i], ApplyGroups(d0, ws[i].committed);
    forall b | 0 <= b < |d0| && !InLog(cfg.lay, b) ensures Recovered(cfg.lay, w.s.disk)[b] == e[b] {
      assert Meaning(cfg.lay, w.s.disk, b) == e[b];
    }
  }

  /** Committed groups are never taken back, by a crash or otherwise. */
  lemma {:induction false} CommittedGrows(cfg: Config, d0: Disk, acts: seq<Action>, ws: seq<World>, i: nat, j: nat)
    requires IsRun(cfg, d0, acts, ws) && i <= j < |ws|
    ensures ws[i].committed <= ws[j].committed
    ensures ws[i].ended <= ws[j].ended
  {
    hide Advance, Enabled;
    if i < j {
      CommittedGrows(cfg, d0, acts, ws, i, j - 1);
      assert Enabled(cfg, ws[j - 1], acts[j - 1]) && ws[j] == Next(cfg, ws[j - 1], acts[j - 1]);
    }
  }

  /** A commit or a recovery that has started can always make its next write, unless write_log starts
      with NBUF blocks listed; then bget panics for want of a buffer, and nothing is written. */
  lemma NeverStuck(cfg: Config, d0: Disk, w: World)
    requires RunInv(cfg, d0, w) && w.panic == NoPanic && w.s.phase != Idle && w.s.phase != Done
    requires !Overruns(cfg.lay, w.s)
    ensures Enabled(cfg, w, Write)
    ensures var w' := Next(cfg, w, Write);
      && (w'.panic == NoPanic <==> !(w.s.phase == WriteLog(0) && |w.s.lh| == NBUF))
      && (w'.panic != NoPanic ==> w' == w.(panic := NoBuffers))
  {
    hide Space, History, Recorded, Contents, Advance, HasBuffers, Inv, Over;
    OnlyFull(cfg, w);
    if HasBuffers(cfg.lay, w.s) {
      WritesNext(cfg, w);
    }
  }

  lemma OnlyFull(cfg: Config, w: World)
    requires Sane(cfg.lay, w.s) && Spare(w.s) && !Overruns(cfg.lay, w.s) && w.s.phase != Idle && w.s.phase != Done
    ensures HasBuffers(cfg.lay, w.s) <==> !(w.s.phase == WriteLog(0) && |w.s.lh| == NBUF)
  {
    hide HasBuffers;
    if Over(cfg.lay, w.s) {
      FullPanics(cfg.lay, w.s);
    } else if w.s.phase.WriteLog? {
      PanicsFull(cfg.lay, w.s, w.s.phase.tail);
    } else if w.s.committing {
      EnoughBuffers(cfg.lay, w.s);
    } else {
      RecoveryBuffers(cfg.lay, w.s);
    }
  }

  lemma WritesNext(cfg: Config, w: World)
    requires Sane(cfg.lay, w.s) && !Overruns(cfg.lay, w.s) && w.s.phase != Idle && w.s.phase != Done
    requires HasBuffers(cfg.lay, w.s)
    ensures CanAdvance(cfg.lay, w.s)
  {
    if Over(cfg.lay, w.s) {
      FullPanics(cfg.lay, w.s);
    }
    hide HasBuffers;
  }

  // ----- log space

  /** What holds in every run, even after the header has outgrown the region: a commit and active
      operations exclude each other, and the listed blocks are home blocks. */
  ghost predicate Lean(lay: Layout, w: World) {
    && Space(w) && LeanState(lay, w.s)
    && Benign(w.panic)
  }

  ghost predicate LeanState(lay: Layout, s: State) {
    && Fits(lay, s.disk)
    && Homely(lay, s.disk, s.lh) && Homely(lay, s.disk, DiskHeader(lay, s.disk))
    && (s.phase != Idle ==> s.outstanding == 0)
    && (s.phase == Idle ==> !s.committing)
    && (s.phase.WriteLog? || s.phase == WriteHead || s.phase == Done ==> s.committing)
  }

  lemma LeanAdvance(cfg: Config, s: State)
    requires LeanState(cfg.lay, s) && CanAdvance(cfg.lay, s) && s.phase != Idle && s.phase != Done
    ensures var r := Advance(cfg.lay, s); LeanState(cfg.lay, r) && r.outstanding == 0
  {
    if s.phase == WriteHead {
      HeaderRoundTrip(s.disk[cfg.lay.start], s.lh);
    } else if s.phase == Erase {
      HeaderRoundTrip(s.disk[cfg.lay.start], []);
    }
  }

  lemma LeanBegin(cfg: Config, w: World)
    requires Lean(cfg.lay, w) && Enabled(cfg, w, Begin)
    ensures Lean(cfg.lay, Next(cfg, w, Begin))
  {
    hide Homely, DiskHeader;
    UnusedBounds(w.ops);
    UnusedAppend(w.ops, Op(w.nextId, {}, false));
  }

  lemma LeanTest(cfg: Config, w: World, i: nat)
    requires Lean(cfg.lay, w) && Enabled(cfg, w, Test(i))
    ensures Lean(cfg.lay, Next(cfg, w, Test(i)))
  {
    hide LeanState;
    var op := w.ops[i].(tested := true);
    UnusedUpdate(w.ops, i, op);
    assert forall k :: 0 <= k < |w.ops| ==> w.ops[i := op][k].logged == w.ops[k].logged;
  }

  lemma LeanAppend(cfg: Config, w: World, i: nat, b: nat, x: Block)
    requires Lean(cfg.lay, w) && Enabled(cfg, w, Append(i, b, x))
    ensures Lean(cfg.lay, Next(cfg, w, Append(i, b, x)))
  {
    hide Space, DiskHeader;
    AppendFits(cfg, w, i, b, x);
    AppendSpace(cfg, w, i, b, x);
    SpaceReads(Next(cfg, w, Append(i, b, x)),
               w.(s := Logged(w.s, b, x),
                  ops := w.ops[i := w.ops[i].(logged := w.ops[i].logged + {b}, tested := false)]));
  }

  lemma LeanEnd(cfg: Config, w: World, i: nat)
    requires Lean(cfg.lay, w) && Enabled(cfg, w, End(i))
    ensures Lean(cfg.lay, Next(cfg, w, End(i)))
  {
    hide Homely, DiskHeader;
    assert w.ops != [] && w.s.phase == Idle;
    EndSpace(w, i, Next(cfg, w, End(i)));
  }

  lemma LeanWrite(cfg: Config, w: World)
    requires Lean(cfg.lay, w) && Enabled(cfg, w, Write)
    ensures Lean(cfg.lay, Next(cfg, w, Write))
  {
    hide Advance, HasBuffers;
    if HasBuffers(cfg.lay, w.s) {
      LeanAdvance(cfg, w.s);
    }
  }

  lemma LeanNext(cfg: Config, w: World, a: Action)
    requires Lean(cfg.lay, w) && Enabled(cfg, w, a)
    ensures Lean(cfg.lay, Next(cfg, w, a))
  {
    hide Advance, DiskHeader;
    match a
    case Begin => LeanBegin(cfg, w);
    case Test(i) => LeanTest(cfg, w, i);
    case Append(i, b, x) => LeanAppend(cfg, w, i, b, x);
    case End(i) => LeanEnd(cfg, w, i);
    case Write => LeanWrite(cfg, w);
    case Finish =>
    case Crash =>
  }

  lemma FreshLean(cfg: Config, d0: Disk, w: World)
    requires Fresh(cfg, w, d0)
    ensures Lean(cfg.lay, w)
  {
  }

  lemma {:induction false} RunLean(cfg: Config, d0: Disk, acts: seq<Action>, ws: seq<World>, i: nat)
    requires IsRun(cfg, d0, acts, ws) && i < |ws|
    ensures Lean(cfg.lay, ws[i])
  {
    hide Lean, Next, Enabled;
    if i == 0 {
      FreshLean(cfg, d0, ws[0]);
    } else {
      RunLean(cfg, d0, acts, ws, i - 1);
      assert Enabled(cfg, ws[i - 1], acts[i - 1]);
      LeanNext(cfg, ws[i - 1], acts[i - 1]);
    }
  }

  /** In every run, whatever the size of the region: the entries in the header, with what active
      operations may still add, never exceed LOGSIZE; a commit excludes active operations; and the
      panics in end_op and for a log_write outside a transaction do not happen. */
  lemma SpaceBound(cfg: Config, d0: Disk, acts: seq<Action>, ws: seq<World>, i: nat)
    requires IsRun(cfg, d0, acts, ws) && i < |ws|
    ensures var w := ws[i];
      && |w.s.lh| + Unused(w.ops) <= LOGSIZE
      && (w.s.committing ==> w.ops == [])
      && w.panic != LogCommitting && w.panic != OutsideTrans
  {
    RunLean(cfg, d0, acts, ws, i);
  }

  /** When the header never lists more blocks than the region holds: the tests and the append are not
      separated, or the region has a block for each of LOGSIZE entries. */
  predicate Roomy(cfg: Config) {
    cfg.serial || LOGSIZE < cfg.lay.size
  }

  lemma RoomyStep(cfg: Config, w: World, a: Action)
    requires Roomy(cfg) && Lean(cfg.lay, w) && Fitting(cfg.lay, w.s) && Enabled(cfg, w, a)
    ensures Fitting(cfg.lay, Next(cfg, w, a).s)
  {
    if a.Append? {
      AppendFits(cfg, w, a.i, a.b, a.data);
    } else if a.Write? && HasBuffers(cfg.lay, w.s) {
      FittingAdvance(cfg.lay, w.s);
    }
  }

  ghost predicate Fitting(lay: Layout, s: State) {
    Fits(lay, s.disk) && |s.lh| < lay.size && |DiskHeader(lay, s.disk)| < lay.size
  }

  lemma FittingAdvance(lay: Layout, s: State)
    requires LeanState(lay, s) && Fitting(lay, s) && CanAdvance(lay, s)
    ensures Fitting(lay, Advance(lay, s))
  {
    if s.phase == WriteHead {
      HeaderRoundTrip(s.disk[lay.start], s.lh);
    } else if s.phase == Erase {
      HeaderRoundTrip(s.disk[lay.start], []);
    }
  }

  /** In a run of a roomy log the header stays within the region. */
  lemma {:induction false} RoomyContains(cfg: Config, d0: Disk, acts: seq<Action>, ws: seq<World>, i: nat)
    requires Roomy(cfg) && IsRun(cfg, d0, acts, ws) && i < |ws|
    ensures Fitting(cfg.lay, ws[i].s)
  {
    hide Lean, Next, Enabled;
    if i > 0 {
      RoomyContains(cfg, d0, acts, ws, i - 1);
      RunLean(cfg, d0, acts, ws, i - 1);
      assert Enabled(cfg, ws[i - 1], acts[i - 1]);
      RoomyStep(cfg, ws[i - 1], acts[i - 1]);
    }
  }

  /** Every run of a safe log is contained, so all of the above holds of it. */
  lemma SafeKeeps(cfg: Config, d0: Disk, acts: seq<Action>, ws: seq<World>, i: nat)
    requires IsRun(cfg, d0, acts, ws) && i < |ws| && (Safe(cfg) || Contained(cfg, ws, i))
    ensures Contained(cfg, ws, i) && RunInv(cfg, d0, ws[i])
  {
    hide IsRun, RunInv, Fitting;
    if Safe(cfg) {
      forall j: nat | j < i ensures !Overruns(cfg.lay, ws[j].s) {
        if Roomy(cfg) {
          RoomyContains(cfg, d0, acts, ws, j);
          FittingList(cfg.lay, ws[j].s);
        }
      }
    }
    RunKeeps(cfg, d0, acts, ws, i);
  }

  lemma FittingList(lay: Layout, s: State)
    requires Fitting(lay, s)
    ensures |s.lh| < lay.size
  {
  }

  /** With a region of more than LOGSIZE blocks, log_write cannot refuse an operation that has
      logged fewer than MAXOPBLOCKS blocks. */
  lemma QuotaIsHonoured(cfg: Config, d0: Disk, w: World, i: nat)
    requires RunInv(cfg, d0, w) && Enabled(cfg, w, Test(i))
    requires LOGSIZE < cfg.lay.size && |w.ops[i].logged| < MAXOPBLOCKS
    ensures Next(cfg, w, Test(i)).panic == NoPanic
  {
    UnusedBounds(w.ops);
    OpsWhileIdle(cfg.lay, w);
  }
}
