/** The process table and what the critical sections of proc.c do to it. */
module ProcState {
  const NPROC := 64
  const NONE := -1

  datatype State = UNUSED | EMBRYO | SLEEPING | RUNNABLE | RUNNING | ZOMBIE

  /** What a process sleeps on: nothing, a slot of the table (wait), anything else. */
  datatype Chan = NoChan | OfProc(i: nat) | Address(a: nat)

  datatype Proc = Proc(state: State, pid: int, parent: int, killed: bool, chan: Chan, priority: int)

  predicate Live(s: State) {
    s.SLEEPING? || s.RUNNABLE? || s.RUNNING?
  }

  /** wakeup1 */
  function Roused(p: Proc, chan: Chan): Proc {
    if p.state.SLEEPING? && p.chan == chan then p.(state := RUNNABLE) else p
  }

  function Wakeup1(procs: seq<Proc>, chan: Chan): (r: seq<Proc>)
    ensures |r| == |procs|
  {
    seq(|procs|, i requires 0 <= i < |procs| => Roused(procs[i], chan))
  }

  /** The channel of the wait condition of the process in a slot, if there is one. */
  function WaitChan(i: int): Chan {
    if 0 <= i then OfProc(i) else NoChan
  }

  /** The first slot from i on that satisfies the test, or the length of the table. */
  function FirstUnused(procs: seq<Proc>, i: nat): (k: nat)
    requires i <= |procs|
    ensures i <= k <= |procs| && (k < |procs| ==> procs[k].state.UNUSED?)
    ensures forall j :: i <= j < k ==> !procs[j].state.UNUSED?
    decreases |procs| - i
  {
    if i == |procs| || procs[i].state.UNUSED? then i else FirstUnused(procs, i + 1)
  }

  function FirstPid(procs: seq<Proc>, pid: int, i: nat): (k: nat)
    requires i <= |procs|
    ensures i <= k <= |procs| && (k < |procs| ==> procs[k].pid == pid)
    ensures forall j :: i <= j < k ==> procs[j].pid != pid
    decreases |procs| - i
  {
    if i == |procs| || procs[i].pid == pid then i else FirstPid(procs, pid, i + 1)
  }

  /** kill */
  function Killed(procs: seq<Proc>, pid: int): (r: seq<Proc>)
    ensures |r| == |procs|
  {
    var k := FirstPid(procs, pid, 0);
    if k == |procs| then procs
    else procs[k := procs[k].(killed := true, state := if procs[k].state.SLEEPING? then RUNNABLE else procs[k].state)]
  }

  /** allocproc's critical section, at slot k. */
  function Allocated(procs: seq<Proc>, k: nat, pid: int): (r: seq<Proc>)
    requires k < |procs|
    ensures |r| == |procs|
  {
    procs[k := procs[k].(state := EMBRYO, priority := 60, pid := pid)]
  }

  /** What exit does to the slot i of the table when the process in slot p exits: the parent may be
      sleeping in wait, children go to init, and init may be sleeping in wait if one is a ZOMBIE. */
  function AfterExit(procs: seq<Proc>, init: nat, p: nat, i: nat): Proc
    requires p < |procs| && i < |procs|
  {
    var q := procs[i];
    var moved := q.(parent := if q.parent == p then init as int else q.parent);
    var called := q.chan == WaitChan(procs[p].parent) || (q.chan == OfProc(init) && DeadChild(procs, p));
    var told := if q.state.SLEEPING? && called then moved.(state := RUNNABLE) else moved;
    if i == p then moved.(state := ZOMBIE) else told
  }

  predicate DeadChild(procs: seq<Proc>, p: nat) {
    exists i :: 0 <= i < |procs| && procs[i].parent == p && procs[i].state.ZOMBIE?
  }

  function Exited(procs: seq<Proc>, init: nat, p: nat): (r: seq<Proc>)
    requires p < |procs|
    ensures |r| == |procs|
  {
    seq(|procs|, i requires 0 <= i < |procs| => AfterExit(procs, init, p, i))
  }

  /** wait and waitx free the slot of the ZOMBIE they found. */
  function Reaped(procs: seq<Proc>, k: nat): (r: seq<Proc>)
    requires k < |procs|
    ensures |r| == |procs|
  {
    procs[k := procs[k].(state := UNUSED, pid := 0, parent := NONE, killed := false)]
  }

  /** The first ZOMBIE child of p from slot i on, or the length of the table. */
  function FirstDead(procs: seq<Proc>, p: nat, i: nat): (k: nat)
    requires i <= |procs|
    ensures i <= k <= |procs| && (k < |procs| ==> procs[k].parent == p && procs[k].state.ZOMBIE?)
    ensures forall j :: i <= j < k ==> !(procs[j].parent == p && procs[j].state.ZOMBIE?)
    decreases |procs| - i
  {
    if i == |procs| || (procs[i].parent == p && procs[i].state.ZOMBIE?) then i else FirstDead(procs, p, i + 1)
  }
}
