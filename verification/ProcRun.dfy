/** The life of processes over all runs: CPUs, schedulers, fork, exit, wait, kill, sleep, wakeup. */
module ProcRun {
  import opened ProcState

  /** Who holds ptable.lock: nobody, a CPU's scheduler, the process on a CPU, or that process with its
      state changed and about to switch back to the scheduler. */
  datatype Holder = Free | Scheduler(cpu: nat) | Process(cpu: nat) | Leaving(cpu: nat)

  /** The table, init's slot, the next pid, the process on each CPU, the lock, the slot that each
      process in fork is filling in; and the pids that have exited and that wait has returned. */
  datatype World = World(procs: seq<Proc>, init: nat, nextpid: int, cpu: seq<int>, lock: Holder, making: seq<int>,
                         exited: seq<int>, reaped: seq<int>)

  datatype Action =
    | SchedLock(c: nat) | SchedUnlock(c: nat)
    | Dispatch(c: nat, p: nat)         // the scheduler gives p the CPU
    | Return(c: nat)                   // the scheduler has the CPU back
    | Lock(c: nat) | Unlock(c: nat)    // by the process on c
    | Yield(c: nat) | Sleep(c: nat, chan: Chan) | Resume(c: nat)
    | Wakeup(c: nat, chan: Chan) | Kill(c: nat, pid: int)
    | Alloc(c: nat)                    // fork: allocproc's critical section
    | Abandon(c: nat) | Adopt(c: nat)  // fork, without the lock
    | Publish(c: nat)                  // fork: the child becomes RUNNABLE
    | Exit(c: nat) | Wait(c: nat)
    | Interrupt(chan: Chan)            // wakeup from an interrupt handler

  /** CPU c runs process code. */
  predicate Runs(w: World, c: nat) {
    c < |w.cpu| && 0 <= w.cpu[c] < |w.procs| == |w.making| && w.lock != Leaving(c)
  }

  ghost predicate Enabled(w: World, a: Action) {
    match a
    case SchedLock(c) => c < |w.cpu| && w.cpu[c] == NONE && w.lock == Free
    case SchedUnlock(c) => w.lock == Scheduler(c)
    case Dispatch(c, p) => c < |w.cpu| && w.lock == Scheduler(c) && p < |w.procs| && w.procs[p].state == RUNNABLE
    case Return(c) => c < |w.cpu| && w.lock == Leaving(c)
    case Lock(c) => Runs(w, c) && w.lock == Free
    case Abandon(c) => Runs(w, c) && 0 <= w.making[w.cpu[c]] < |w.procs| && w.procs[w.making[w.cpu[c]]].parent == NONE
    case Adopt(c) => Runs(w, c) && 0 <= w.making[w.cpu[c]] < |w.procs|
    case Interrupt(_) => w.lock == Free
    case Alloc(c) => Runs(w, c) && w.lock == Process(c) && w.making[w.cpu[c]] == NONE
    case Publish(c) =>
      && Runs(w, c) && w.lock == Process(c) && 0 <= w.making[w.cpu[c]] < |w.procs|
      && w.procs[w.making[w.cpu[c]]].parent == w.cpu[c]
    case Exit(c) => Runs(w, c) && w.lock == Process(c) && w.making[w.cpu[c]] == NONE && w.cpu[c] != w.init
    case _ => Runs(w, a.c) && w.lock == Process(a.c)
  }

  function SetState(procs: seq<Proc>, p: nat, s: State): seq<Proc>
    requires p < |procs|
  {
    procs[p := procs[p].(state := s)]
  }

  ghost function Next(w: World, a: Action): World
    requires Enabled(w, a)
  {
    match a
    case SchedLock(c) => w.(lock := Scheduler(c))
    case SchedUnlock(c) => w.(lock := Free)
    case Dispatch(c, p) => w.(procs := SetState(w.procs, p, RUNNING), cpu := w.cpu[c := p], lock := Process(c))
    case Return(c) => w.(cpu := w.cpu[c := NONE], lock := Scheduler(c))
    case Lock(c) => w.(lock := Process(c))
    case Unlock(c) => w.(lock := Free)
    case Yield(c) => w.(procs := SetState(w.procs, w.cpu[c], RUNNABLE), lock := Leaving(c))
    case Sleep(c, chan) =>
      w.(procs := w.procs[w.cpu[c] := w.procs[w.cpu[c]].(chan := chan, state := SLEEPING)], lock := Leaving(c))
    case Resume(c) => w.(procs := w.procs[w.cpu[c] := w.procs[w.cpu[c]].(chan := NoChan)])
    case Wakeup(c, chan) => w.(procs := Wakeup1(w.procs, chan))
    case Kill(c, pid) => w.(procs := Killed(w.procs, pid))
    case Alloc(c) =>
      var k := FirstUnused(w.procs, 0);
      if k == |w.procs| then w
      else w.(procs := Allocated(w.procs, k, w.nextpid), nextpid := w.nextpid + 1, making := w.making[w.cpu[c] := k])
    case Abandon(c) =>
      w.(procs := SetState(w.procs, w.making[w.cpu[c]], UNUSED), making := w.making[w.cpu[c] := NONE])
    case Adopt(c) =>
      var k := w.making[w.cpu[c]];
      w.(procs := w.procs[k := w.procs[k].(parent := w.cpu[c])])
    case Publish(c) =>
      w.(procs := SetState(w.procs, w.making[w.cpu[c]], RUNNABLE), making := w.making[w.cpu[c] := NONE])
    case Exit(c) =>
      w.(procs := Exited(w.procs, w.init, w.cpu[c]), lock := Leaving(c), exited := w.exited + [w.procs[w.cpu[c]].pid])
    case Wait(c) =>
      var k := FirstDead(w.procs, w.cpu[c], 0);
      if k == |w.procs| then w
      else w.(procs := Reaped(w.procs, k), reaped := w.reaped + [w.procs[k].pid])
    case Interrupt(chan) => w.(procs := Wakeup1(w.procs, chan))
  }

  // ----- the invariant

  /** c holds the process p. */
  predicate On(w: World, c: nat, p: nat) {
    c < |w.cpu| && w.cpu[c] == p
  }

  ghost predicate CpuOk(w: World, c: nat)
    requires c < |w.cpu|
  {
    var p := w.cpu[c];
    && NONE <= p < |w.procs|
    && (w.lock == Scheduler(c) ==> p == NONE)
    && (w.lock == Process(c) || w.lock == Leaving(c) ==> p != NONE)
    && (p != NONE ==> (w.procs[p].state == RUNNING <==> w.lock != Leaving(c)))
    && (p != NONE ==> !w.procs[p].state.UNUSED? && !w.procs[p].state.EMBRYO?)
  }

  ghost predicate CpusOk(w: World) {
    && (forall c: nat :: c < |w.cpu| ==> CpuOk(w, c))
    && (forall c: nat, d: nat :: c < d < |w.cpu| && w.cpu[c] == w.cpu[d] ==> w.cpu[c] == NONE)
    && (forall p: nat :: p < |w.procs| && w.procs[p].state == RUNNING ==> exists c: nat :: On(w, c, p))
    && (!w.lock.Free? ==> w.lock.cpu < |w.cpu|)
  }

  ghost predicate PidsOk(w: World) {
    && (forall p: nat :: p < |w.procs| ==> 0 <= w.procs[p].pid < w.nextpid)
    && (forall p: nat :: p < |w.procs| && !w.procs[p].state.UNUSED? ==> 0 < w.procs[p].pid)
    && (forall p: nat, q: nat :: p < q < |w.procs| && w.procs[p].pid == w.procs[q].pid ==> w.procs[p].pid == 0)
  }

  /** A parent is alive and older. */
  ghost predicate ParentOk(w: World, p: nat)
    requires p < |w.procs|
  {
    var q := w.procs[p].parent;
    && NONE <= q < |w.procs|
    && (q != NONE ==> Live(w.procs[q].state) && w.procs[q].pid < w.procs[p].pid && !w.procs[p].state.UNUSED?)
    && ((Live(w.procs[p].state) || w.procs[p].state.ZOMBIE?) && p != w.init ==> q != NONE)
  }

  ghost predicate MakerOk(w: World, q: nat)
    requires q < |w.making| == |w.procs|
  {
    var k := w.making[q];
    && NONE <= k < |w.procs|
    && (k != NONE ==> Live(w.procs[q].state) && w.procs[k].state.EMBRYO? && w.procs[q].pid < w.procs[k].pid)
    && (k != NONE ==> w.procs[k].parent == NONE || w.procs[k].parent == q)
  }

  ghost predicate InitOk(w: World) {
    w.init < |w.procs| && Live(w.procs[w.init].state) && w.procs[w.init].pid == 1 && w.procs[w.init].parent == NONE
  }

  ghost predicate ParentsOk(w: World) {
    forall p: nat :: p < |w.procs| ==> ParentOk(w, p)
  }

  ghost predicate MakersOk(w: World) {
    && |w.making| == |w.procs|
    && (forall q: nat :: q < |w.making| ==> MakerOk(w, q))
    && (forall p: nat, q: nat :: p < q < |w.making| && w.making[p] == w.making[q] ==> w.making[p] == NONE)
    && (forall k: nat :: k < |w.procs| && w.procs[k].state.EMBRYO? && w.procs[k].parent != NONE ==>
        0 <= w.procs[k].parent < |w.making| && w.making[w.procs[k].parent] == k)
  }

  ghost predicate TreeOk(w: World) {
    InitOk(w) && ParentsOk(w) && MakersOk(w)
  }

  /** The process in slot p is dead and its pid is e. */
  predicate DeadPid(w: World, p: nat, e: int) {
    p < |w.procs| && w.procs[p].state.ZOMBIE? && w.procs[p].pid == e
  }

  /** Every pid that exited was returned by wait once, or its ZOMBIE is still in the table. */
  ghost predicate ExitsOk(w: World) {
    && Distinct(w.exited) && Distinct(w.reaped)
    && (forall e :: e in w.exited <==> e in w.reaped || exists p: nat :: DeadPid(w, p, e))
    && (forall e :: e in w.reaped ==> 0 < e < w.nextpid)
    && (forall p: nat :: p < |w.procs| ==> w.procs[p].pid !in w.reaped)
  }

  predicate Distinct(s: seq<int>) {
    forall i, j :: 0 <= i < j < |s| ==> s[i] != s[j]
  }

  ghost predicate Inv(w: World) {
    |w.procs| == |w.making| == NPROC && CpusOk(w) && PidsOk(w) && TreeOk(w) && ExitsOk(w)
  }

  // ----- steps that only shuffle the living

  /** Same identity, and the same state unless both are alive. */
  predicate Alike(p: Proc, q: Proc) {
    q.pid == p.pid && q.parent == p.parent && (q.state == p.state || (Live(p.state) && Live(q.state)))
  }

  ghost predicate Shuffled(w: World, w': World) {
    && |w'.procs| == |w.procs| && w'.making == w.making && w'.init == w.init && w'.nextpid == w.nextpid
    && w'.exited == w.exited && w'.reaped == w.reaped
    && forall i: nat :: i < |w.procs| ==> Alike(w.procs[i], w'.procs[i])
  }

  lemma ShuffleKeeps(w: World, w': World)
    requires Inv(w) && Shuffled(w, w')
    ensures PidsOk(w') && TreeOk(w') && ExitsOk(w')
  {
    hide CpusOk;
    forall p: nat | p < |w'.procs| ensures ParentOk(w', p) && MakerOk(w', p) {
      assert ParentOk(w, p) && MakerOk(w, p) && Alike(w.procs[p], w'.procs[p]);
    }
    forall p: nat, e: int ensures DeadPid(w', p, e) == DeadPid(w, p, e) {
    }
  }

  // ----- the CPUs

  /** The state of slot i may become s without the CPUs noticing. */
  ghost predicate Unnoticed(w: World, i: nat, s: State)
    requires i < |w.procs|
  {
    || s == w.procs[i].state
    || (!s.RUNNING? && !w.procs[i].state.RUNNING? && (s.UNUSED? || s.EMBRYO? ==> forall c: nat :: !On(w, c, i)))
  }

  lemma CpusKept(w: World, w': World)
    requires CpusOk(w) && w'.cpu == w.cpu && w'.lock == w.lock && |w'.procs| == |w.procs|
    requires forall i: nat :: i < |w.procs| ==> Unnoticed(w, i, w'.procs[i].state)
    ensures CpusOk(w')
  {
    forall c: nat | c < |w'.cpu| ensures CpuOk(w', c) {
      assert CpuOk(w, c);
      if w.cpu[c] != NONE {
        assert On(w, c, w.cpu[c]) && Unnoticed(w, w.cpu[c], w'.procs[w.cpu[c]].state);
      }
    }
    forall p: nat | p < |w'.procs| && w'.procs[p].state == RUNNING ensures exists c: nat :: On(w', c, p) {
      assert Unnoticed(w, p, w'.procs[p].state);
      var c: nat :| On(w, c, p);
      assert On(w', c, p);
    }
  }

  /** The lock changes hands, nothing else does. */
  lemma LockMoves(w: World, lock: Holder)
    requires CpusOk(w) && !w.lock.Leaving? && !lock.Leaving?
    requires lock.Free? || (lock.cpu < |w.cpu| && (lock.Scheduler? <==> w.cpu[lock.cpu] == NONE))
    ensures CpusOk(w.(lock := lock))
  {
    var w' := w.(lock := lock);
    forall c: nat | c < |w'.cpu| ensures CpuOk(w', c) {
      assert CpuOk(w, c);
    }
    forall p: nat | p < |w'.procs| && w'.procs[p].state == RUNNING ensures exists c: nat :: On(w', c, p) {
      var c: nat :| On(w, c, p);
      assert On(w', c, p);
    }
  }

  /** The process on c gives it up: its state is no longer RUNNING. */
  lemma Leaves(w: World, w': World, c: nat)
    requires CpusOk(w) && Runs(w, c) && w.lock == Process(c) && w'.cpu == w.cpu && w'.lock == Leaving(c)
    requires |w'.procs| == |w.procs|
    requires var s := w'.procs[w.cpu[c]].state; s.RUNNABLE? || s.SLEEPING? || s.ZOMBIE?
    requires forall i: nat :: i < |w.procs| && i != w.cpu[c] ==> Unnoticed(w, i, w'.procs[i].state)
    ensures CpusOk(w')
  {
    forall d: nat | d < |w'.cpu| ensures CpuOk(w', d) {
      assert CpuOk(w, d);
      if w.cpu[d] != NONE && d != c {
        assert On(w, d, w.cpu[d]) && Unnoticed(w, w.cpu[d], w'.procs[w.cpu[d]].state);
      }
    }
    forall p: nat | p < |w'.procs| && w'.procs[p].state == RUNNING ensures exists d: nat :: On(w', d, p) {
      assert Unnoticed(w, p, w'.procs[p].state);
      var d: nat :| On(w, d, p);
      assert On(w', d, p);
    }
  }

  lemma ReturnKeeps(w: World, c: nat)
    requires CpusOk(w) && Enabled(w, Return(c))
    ensures CpusOk(Next(w, Return(c)))
  {
    var w' := Next(w, Return(c));
    assert CpuOk(w, c);
    forall d: nat | d < |w'.cpu| ensures CpuOk(w', d) {
      assert CpuOk(w, d);
    }
    forall p: nat | p < |w'.procs| && w'.procs[p].state == RUNNING ensures exists d: nat :: On(w', d, p) {
      var d: nat :| On(w, d, p);
      assert On(w', d, p);
    }
  }

  lemma DispatchKeeps(w: World, c: nat, p: nat)
    requires CpusOk(w) && Enabled(w, Dispatch(c, p))
    ensures CpusOk(Next(w, Dispatch(c, p)))
  {
    var w' := Next(w, Dispatch(c, p));
    assert CpuOk(w, c);
    forall d: nat | d < |w'.cpu| ensures CpuOk(w', d) && (d != c ==> w'.cpu[d] != p) {
      assert CpuOk(w, d);
    }
    forall q: nat | q < |w'.procs| && w'.procs[q].state == RUNNING ensures exists d: nat :: On(w', d, q) {
      if q == p {
        assert On(w', c, q);
      } else {
        var d: nat :| On(w, d, q);
        assert On(w', d, q);
      }
    }
  }

  // ----- fork

  /** The pids, the tree and the exits, without the CPUs. */
  ghost predicate FamilyOk(w: World) {
    PidsOk(w) && TreeOk(w) && ExitsOk(w)
  }

  lemma NoNewDead(w: World, w': World)
    requires ExitsOk(w) && |w'.procs| == |w.procs| && w'.exited == w.exited && w'.reaped == w.reaped
    requires w.nextpid <= w'.nextpid
    requires forall p: nat :: p < |w.procs| ==> w'.procs[p].pid !in w.reaped
    requires forall p: nat :: p < |w.procs| ==> (w'.procs[p].state.ZOMBIE? <==> w.procs[p].state.ZOMBIE?)
    requires forall p: nat :: p < |w.procs| && w.procs[p].state.ZOMBIE? ==> w'.procs[p].pid == w.procs[p].pid
    ensures ExitsOk(w')
  {
    forall p: nat, e: int ensures DeadPid(w', p, e) == DeadPid(w, p, e) {
    }
  }

  lemma AllocKeeps(w: World, c: nat)
    requires Inv(w) && Enabled(w, Alloc(c))
    ensures FamilyOk(Next(w, Alloc(c)))
  {
    var k := FirstUnused(w.procs, 0);
    if k < |w.procs| {
      assert CpuOk(w, c);
      hide CpusOk, Enabled;
      AllocPids(w, c, k, Next(w, Alloc(c)));
      AllocParents(w, c, k, Next(w, Alloc(c)));
      AllocMakers(w, c, k, Next(w, Alloc(c)));
    }
    hide *;
  }

  ghost predicate AllocatesTo(w: World, c: nat, k: nat, w': World) {
    && Runs(w, c) && k < |w.procs| && w.procs[k].state.UNUSED? && w.procs[w.cpu[c]].state.RUNNING?
      && w.making[w.cpu[c]] == NONE
    && w' == w.(procs := Allocated(w.procs, k, w.nextpid), nextpid := w.nextpid + 1, making := w.making[w.cpu[c] := k])
  }

  lemma AllocPids(w: World, c: nat, k: nat, w': World)
    requires PidsOk(w) && ExitsOk(w) && InitOk(w) && AllocatesTo(w, c, k, w')
    ensures PidsOk(w') && ExitsOk(w') && InitOk(w')
  {
    NoNewDead(w, w');
    hide ExitsOk;
  }

  lemma AllocParents(w: World, c: nat, k: nat, w': World)
    requires PidsOk(w) && ParentsOk(w) && AllocatesTo(w, c, k, w')
    ensures ParentsOk(w')
  {
    forall q: nat | q < |w'.procs| ensures ParentOk(w', q) {
      assert ParentOk(w, q);
    }
  }

  lemma AllocMakers(w: World, c: nat, k: nat, w': World)
    requires PidsOk(w) && ParentsOk(w) && MakersOk(w) && AllocatesTo(w, c, k, w')
    ensures MakersOk(w')
  {
    assert ParentOk(w, k);
    forall q: nat | q < |w'.procs| ensures MakerOk(w', q) && (q != w.cpu[c] ==> w'.making[q] != k) {
      assert MakerOk(w, q);
    }
    hide MakerOk;
  }

  /** The slot that the process on c makes is an EMBRYO of no one else. */
  lemma MakesEmbryo(w: World, c: nat)
    requires Inv(w) && Runs(w, c) && 0 <= w.making[w.cpu[c]]
    ensures w.making[w.cpu[c]] < |w.procs| && w.procs[w.making[w.cpu[c]]].state.EMBRYO?
    ensures Live(w.procs[w.cpu[c]].state) && w.procs[w.cpu[c]].pid < w.procs[w.making[w.cpu[c]]].pid
    ensures forall d: nat :: !On(w, d, w.making[w.cpu[c]])
  {
    var k := w.making[w.cpu[c]];
    assert MakerOk(w, w.cpu[c]);
    forall d: nat | d < |w.cpu| ensures w.cpu[d] != k {
      assert CpuOk(w, d);
    }
  }

  /** p gives back, adopts or publishes the EMBRYO in slot k. */
  ghost predicate EmbryoTo(w: World, p: nat, k: nat, x: Proc, w': World) {
    && p < |w.procs| == |w.making| && k < |w.procs| && w.making[p] == k && x.pid == w.procs[k].pid
    && w'.procs == w.procs[k := x] && w'.init == w.init && w'.nextpid == w.nextpid
    && w'.exited == w.exited && w'.reaped == w.reaped
    && (|| (x.state.UNUSED? && x.parent == w.procs[k].parent == NONE && w'.making == w.making[p := NONE])
        || (x.state.EMBRYO? && x.parent == p && w'.making == w.making)
        || (x.state.RUNNABLE? && x.parent == p && w'.making == w.making[p := NONE]))
  }

  lemma EmbryoPids(w: World, p: nat, k: nat, x: Proc, w': World)
    requires PidsOk(w) && ExitsOk(w) && InitOk(w) && MakersOk(w) && EmbryoTo(w, p, k, x, w')
    ensures PidsOk(w') && ExitsOk(w') && InitOk(w')
  {
    assert MakerOk(w, p);
    NoNewDead(w, w');
    hide ExitsOk;
  }

  lemma EmbryoParents(w: World, p: nat, k: nat, x: Proc, w': World)
    requires ParentsOk(w) && MakersOk(w) && EmbryoTo(w, p, k, x, w')
    ensures ParentsOk(w')
  {
    assert MakerOk(w, p);
    forall q: nat | q < |w'.procs| ensures ParentOk(w', q) {
      assert ParentOk(w, q);
    }
  }

  lemma EmbryoMakers(w: World, p: nat, k: nat, x: Proc, w': World)
    requires MakersOk(w) && EmbryoTo(w, p, k, x, w')
    ensures MakersOk(w')
  {
    assert MakerOk(w, p);
    forall q: nat | q < |w'.procs| ensures MakerOk(w', q) {
      assert MakerOk(w, q);
    }
  }

  lemma EmbryoKeeps(w: World, a: Action)
    requires Inv(w) && Enabled(w, a) && (a.Abandon? || a.Adopt? || a.Publish?)
    ensures FamilyOk(Next(w, a))
  {
    hide PidsOk, ExitsOk, ParentsOk, MakersOk, CpusOk;
    MakesEmbryo(w, a.c);
    var w', p := Next(w, a), w.cpu[a.c];
    var k := w.making[p];
    EmbryoPids(w, p, k, w'.procs[k], w');
    EmbryoParents(w, p, k, w'.procs[k], w');
    EmbryoMakers(w, p, k, w'.procs[k], w');
  }

  // ----- exit and wait

  ghost predicate ExitsTo(w: World, p: nat, w': World) {
    && p < |w.procs| == |w.making| && p != w.init && w.procs[p].state.RUNNING? && w.making[p] == NONE
    && w'.procs == Exited(w.procs, w.init, p) && w'.init == w.init && w'.making == w.making && w'.nextpid == w.nextpid
  }

  lemma ExitPids(w: World, p: nat, w': World)
    requires PidsOk(w) && InitOk(w) && ExitsTo(w, p, w')
    ensures PidsOk(w') && InitOk(w')
  {
    forall i: nat | i < |w.procs|
      ensures w'.procs[i].pid == w.procs[i].pid && (w'.procs[i].state.UNUSED? ==> w.procs[i].state.UNUSED?)
    {
    }
    assert w'.procs[w.init] == AfterExit(w.procs, w.init, p, w.init);
    hide Exited;
  }

  lemma ExitParents(w: World, p: nat, w': World)
    requires PidsOk(w) && InitOk(w) && ParentsOk(w) && ExitsTo(w, p, w')
    ensures ParentsOk(w')
  {
    forall q: nat | q < |w'.procs| ensures ParentOk(w', q) {
      assert ParentOk(w, q);
    }
  }

  lemma ExitMakers(w: World, p: nat, w': World)
    requires PidsOk(w) && InitOk(w) && ParentsOk(w) && MakersOk(w) && ExitsTo(w, p, w')
    ensures MakersOk(w')
  {
    hide ParentsOk;
    forall q: nat | q < |w'.procs| ensures MakerOk(w', q) {
      assert MakerOk(w, q);
    }
    forall k: nat | k < |w.procs| && w'.procs[k].state.EMBRYO?
      ensures w.procs[k].state.EMBRYO? && w.procs[k].parent == w'.procs[k].parent
    {
    }
    hide MakerOk, Exited;
  }

  lemma ExitFamily(w: World, c: nat)
    requires Inv(w) && Enabled(w, Exit(c))
    ensures PidsOk(Next(w, Exit(c))) && TreeOk(Next(w, Exit(c)))
  {
    assert CpuOk(w, c);
    hide CpusOk, Exited;
    var w', p := Next(w, Exit(c)), w.cpu[c];
    ExitPids(w, p, w');
    ExitParents(w, p, w');
    ExitMakers(w, p, w');
    hide *;
  }

  lemma AppendDistinct(s: seq<int>, e: int)
    requires Distinct(s) && e !in s
    ensures Distinct(s + [e])
  {
  }

  lemma ExitHistory(w: World, c: nat)
    requires Inv(w) && Enabled(w, Exit(c))
    ensures ExitsOk(Next(w, Exit(c)))
  {
    var w', p := Next(w, Exit(c)), w.cpu[c];
    var e := w.procs[p].pid;
    assert CpuOk(w, c);
    hide CpusOk, TreeOk;
    forall q: nat, f: int ensures DeadPid(w', q, f) <==> DeadPid(w, q, f) || (q == p && f == e) {
    }
    assert forall q: nat :: !DeadPid(w, q, e);
    AppendDistinct(w.exited, e);
    hide Distinct;
    assert DeadPid(w', p, e);
  }

  ghost predicate ReapsTo(w: World, k: nat, w': World) {
    && k < |w.procs| == |w.making| && w.procs[k].state.ZOMBIE?
    && w'.procs == Reaped(w.procs, k) && w'.init == w.init && w'.making == w.making && w'.nextpid == w.nextpid
  }

  lemma ReapPids(w: World, k: nat, w': World)
    requires PidsOk(w) && InitOk(w) && ReapsTo(w, k, w')
    ensures PidsOk(w') && InitOk(w')
  {
  }

  lemma ReapParents(w: World, k: nat, w': World)
    requires ParentsOk(w) && ReapsTo(w, k, w')
    ensures ParentsOk(w')
  {
    forall q: nat | q < |w'.procs| ensures ParentOk(w', q) {
      assert ParentOk(w, q);
    }
  }

  lemma ReapMakers(w: World, k: nat, w': World)
    requires MakersOk(w) && ReapsTo(w, k, w')
    ensures MakersOk(w')
  {
    forall q: nat | q < |w'.procs| ensures MakerOk(w', q) {
      assert MakerOk(w, q);
    }
    hide MakerOk;
  }

  lemma WaitFamily(w: World, c: nat)
    requires Inv(w) && Enabled(w, Wait(c))
    ensures PidsOk(Next(w, Wait(c))) && TreeOk(Next(w, Wait(c)))
  {
    hide CpusOk, ExitsOk, PidsOk, ParentsOk, MakersOk, Reaped, FirstDead;
    var w', k := Next(w, Wait(c)), FirstDead(w.procs, w.cpu[c], 0);
    if k < |w.procs| {
      ReapPids(w, k, w');
      ReapParents(w, k, w');
      ReapMakers(w, k, w');
    }
  }

  lemma WaitHistory(w: World, c: nat)
    requires Inv(w) && Enabled(w, Wait(c))
    ensures ExitsOk(Next(w, Wait(c)))
  {
    var w', k := Next(w, Wait(c)), FirstDead(w.procs, w.cpu[c], 0);
    if k < |w.procs| {
      var e := w.procs[k].pid;
      hide CpusOk, TreeOk;
      forall q: nat, f: int ensures DeadPid(w', q, f) <==> DeadPid(w, q, f) && q != k {
      }
      assert DeadPid(w, k, e);
      assert forall q: nat :: DeadPid(w, q, e) ==> q == k;
      AppendDistinct(w.reaped, e);
      hide Distinct;
    }
  }

  // ----- every action keeps the invariant

  lemma QuietKeeps(w: World, a: Action)
    requires Inv(w) && Enabled(w, a) && (a.SchedLock? || a.SchedUnlock? || a.Lock? || a.Unlock? || a.Return?)
    ensures Inv(Next(w, a))
  {
    var w' := Next(w, a);
    if a.Return? {
      ReturnKeeps(w, a.c);
    } else {
      assert CpuOk(w, a.c);
      LockMoves(w, w'.lock);
    }
    hide CpusOk;
    ShuffleKeeps(w, w');
    hide *;
  }

  lemma ShuffleCpus(w: World, a: Action)
    requires Inv(w) && Enabled(w, a)
    requires a.Dispatch? || a.Yield? || a.Sleep? || a.Resume? || a.Wakeup? || a.Kill? || a.Interrupt?
    ensures CpusOk(Next(w, a))
  {
    hide PidsOk, TreeOk, ExitsOk;
    var w' := Next(w, a);
    if a.Dispatch? {
      DispatchKeeps(w, a.c, a.p);
    } else if a.Yield? || a.Sleep? {
      Leaves(w, w', a.c);
    } else {
      CpusKept(w, w');
    }
  }

  lemma ShuffleAlike(w: World, a: Action)
    requires Inv(w) && Enabled(w, a)
    requires a.Dispatch? || a.Yield? || a.Sleep? || a.Resume? || a.Wakeup? || a.Kill? || a.Interrupt?
    ensures Shuffled(w, Next(w, a))
  {
    hide PidsOk, TreeOk, ExitsOk;
    if a.Yield? || a.Sleep? || a.Resume? {
      assert CpuOk(w, a.c);
    }
  }

  lemma ForkKeeps(w: World, a: Action)
    requires Inv(w) && Enabled(w, a) && (a.Alloc? || a.Abandon? || a.Adopt? || a.Publish?)
    ensures FamilyOk(Next(w, a)) && |Next(w, a).procs| == |Next(w, a).making| == NPROC
  {
    hide CpusOk, FamilyOk;
    match a
    case Alloc(c) => AllocKeeps(w, c);
    case _ => EmbryoKeeps(w, a);
  }

  lemma ForkCpus(w: World, a: Action)
    requires Inv(w) && Enabled(w, a) && (a.Alloc? || a.Abandon? || a.Adopt? || a.Publish?)
    ensures CpusOk(Next(w, a))
  {
    var w' := Next(w, a);
    if a.Alloc? {
      forall d: nat | d < |w.cpu| && w.cpu[d] != NONE
        ensures 0 <= w.cpu[d] < |w.procs| && !w.procs[w.cpu[d]].state.UNUSED?
      {
        assert CpuOk(w, d);
      }
    } else {
      MakesEmbryo(w, a.c);
    }
    hide PidsOk, TreeOk, ExitsOk;
    CpusKept(w, w');
  }

  lemma ExitKeeps(w: World, c: nat)
    requires Inv(w) && Enabled(w, Exit(c))
    ensures Inv(Next(w, Exit(c)))
  {
    ExitFamily(w, c);
    ExitHistory(w, c);
    var w' := Next(w, Exit(c));
    hide PidsOk, TreeOk, ExitsOk;
    Leaves(w, w', c);
    hide CpusOk;
  }

  lemma WaitKeeps(w: World, c: nat)
    requires Inv(w) && Enabled(w, Wait(c))
    ensures Inv(Next(w, Wait(c)))
  {
    WaitFamily(w, c);
    WaitHistory(w, c);
    var w' := Next(w, Wait(c));
    hide PidsOk, TreeOk, ExitsOk;
    forall d: nat | d < |w.cpu| && w.cpu[d] != NONE
      ensures 0 <= w.cpu[d] < |w.procs| && w.procs[w.cpu[d]].state.RUNNING?
    {
      assert CpuOk(w, d);
    }
    CpusKept(w, w');
    hide CpusOk;
  }

  lemma NextKeeps(w: World, a: Action)
    requires Inv(w) && Enabled(w, a)
    ensures Inv(Next(w, a))
  {
    hide CpusOk, PidsOk, TreeOk, ExitsOk, Enabled;
    match a
    case SchedLock(_) => QuietKeeps(w, a);
    case SchedUnlock(_) => QuietKeeps(w, a);
    case Lock(_) => QuietKeeps(w, a);
    case Unlock(_) => QuietKeeps(w, a);
    case Return(_) => QuietKeeps(w, a);
    case Alloc(_) => ForkKeeps(w, a); ForkCpus(w, a);
    case Abandon(_) => ForkKeeps(w, a); ForkCpus(w, a);
    case Adopt(_) => ForkKeeps(w, a); ForkCpus(w, a);
    case Publish(_) => ForkKeeps(w, a); ForkCpus(w, a);
    case Exit(c) => ExitKeeps(w, c);
    case Wait(c) => WaitKeeps(w, c);
    case _ => ShuffleCpus(w, a); ShuffleAlike(w, a); ShuffleKeeps(w, Next(w, a));
  }

  // ----- runs

  /** After userinit: only init, RUNNABLE with pid 1; no CPU runs anything. */
  ghost predicate Initial(w: World) {
    && |w.procs| == |w.making| == NPROC && w.init < NPROC && w.nextpid == 2 && w.lock == Free
    && w.exited == w.reaped == []
    && (forall c: nat :: c < |w.cpu| ==> w.cpu[c] == NONE)
    && (forall p: nat :: p < NPROC ==> w.making[p] == NONE && w.procs[p].parent == NONE)
    && (forall p: nat :: p < NPROC ==>
        if p == w.init then w.procs[p].state == RUNNABLE && w.procs[p].pid == 1
        else w.procs[p].state == UNUSED && w.procs[p].pid == 0)
  }

  ghost predicate Step(w: World, a: Action, w': World) {
    Enabled(w, a) && w' == Next(w, a)
  }

  ghost predicate IsRun(ws: seq<World>, acts: seq<Action>) {
    && |ws| == |acts| + 1 && Initial(ws[0])
    && forall t :: 0 <= t < |acts| ==> Step(ws[t], acts[t], ws[t + 1])
  }

  lemma {:induction false} RunKeeps(ws: seq<World>, acts: seq<Action>, t: nat)
    requires IsRun(ws, acts) && t < |ws|
    ensures Inv(ws[t])
  {
    if t == 0 {
      InitialInv(ws[0]);
    } else {
      RunKeeps(ws, acts, t - 1);
      assert Step(ws[t - 1], acts[t - 1], ws[t]);
      hide Inv, Enabled, Next;
      NextKeeps(ws[t - 1], acts[t - 1]);
    }
  }

  lemma InitialInv(w: World)
    requires Initial(w)
    ensures Inv(w)
  {
  }

  /** Whenever ptable.lock is free, a process is RUNNING exactly when it is on a CPU, and then on
      exactly one. */
  lemma RunningOnOneCpu(ws: seq<World>, acts: seq<Action>, t: nat, p: nat)
    requires IsRun(ws, acts) && t < |ws| && ws[t].lock == Free && p < |ws[t].procs|
    ensures ws[t].procs[p].state == RUNNING <==> exists c: nat :: On(ws[t], c, p)
    ensures forall c: nat, d: nat :: On(ws[t], c, p) && On(ws[t], d, p) ==> c == d
  {
    RunKeeps(ws, acts, t);
    var w := ws[t];
    hide IsRun, PidsOk, TreeOk, ExitsOk;
    forall c: nat | On(w, c, p) ensures w.procs[p].state == RUNNING {
      assert CpuOk(w, c);
    }
  }

  /** From any living or dead process the parents lead to init, through ever smaller pids. */
  lemma {:induction false} RootedAtInit(w: World, p: nat) returns (path: seq<nat>)
    requires Inv(w) && p < NPROC && (Live(w.procs[p].state) || w.procs[p].state.ZOMBIE?)
    ensures path != [] && path[0] == p && path[|path| - 1] == w.init
    ensures forall i :: 0 <= i < |path| ==> path[i] < NPROC
    ensures forall i :: 0 < i < |path| ==> w.procs[path[i - 1]].parent == path[i] && Live(w.procs[path[i]].state)
    ensures forall i :: 0 < i < |path| ==> w.procs[path[i]].pid < w.procs[path[i - 1]].pid
    decreases w.procs[p].pid
  {
    if p == w.init {
      path := [p];
    } else {
      assert ParentOk(w, p) && ParentOk(w, w.procs[p].parent);
      var rest := RootedAtInit(w, w.procs[p].parent);
      path := [p] + rest;
    }
  }

  /** A parent is neither UNUSED nor ZOMBIE and has a smaller pid; every process but init has one. */
  lemma ParentsOutliveChildren(ws: seq<World>, acts: seq<Action>, t: nat, p: nat)
    requires IsRun(ws, acts) && t < |ws| && p < |ws[t].procs|
    ensures var w := ws[t]; var q := w.procs[p].parent;
      && (Live(w.procs[p].state) || w.procs[p].state.ZOMBIE?) && p != w.init ==> q != NONE
    ensures var w := ws[t]; var q := w.procs[p].parent;
      q != NONE ==> 0 <= q < |w.procs| && Live(w.procs[q].state) && w.procs[q].pid < w.procs[p].pid
  {
    RunKeeps(ws, acts, t);
    assert ParentOk(ws[t], p);
  }

  /** No pid is returned by wait twice, and each that exited was returned or is still a ZOMBIE. */
  lemma ReapedOnce(ws: seq<World>, acts: seq<Action>, t: nat)
    requires IsRun(ws, acts) && t < |ws|
    ensures Distinct(ws[t].reaped) && Distinct(ws[t].exited)
    ensures forall e :: e in ws[t].reaped ==> e in ws[t].exited
    ensures forall e :: e in ws[t].exited && e !in ws[t].reaped ==> exists p: nat :: DeadPid(ws[t], p, e)
    ensures forall p: nat, e: int :: DeadPid(ws[t], p, e) ==> e in ws[t].exited && e !in ws[t].reaped
  {
    RunKeeps(ws, acts, t);
  }
}
