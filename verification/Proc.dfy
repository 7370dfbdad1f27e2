/** The loops of proc.c over the process table. */
module Proc {
  import opened ProcState

  datatype WaitResult = Found(pid: int) | NoChildren | MustSleep

  predicate Has(procs: seq<ProcState.Proc>, p: nat, n: nat)
    requires n <= |procs|
  {
    exists i :: 0 <= i < n && procs[i].parent == p
  }

  predicate DeadAmong(procs: seq<ProcState.Proc>, p: nat, n: nat)
    requires n <= |procs|
  {
    exists i :: 0 <= i < n && procs[i].parent == p && procs[i].state.ZOMBIE?
  }

  /** Slot j while exit's loop over the children is before slot i. */
  function DuringExit(procs: seq<ProcState.Proc>, init: nat, p: nat, i: nat, j: nat): ProcState.Proc
    requires p < |procs| && i <= |procs| && j < |procs|
  {
    var q := procs[j];
    var moved := if j < i && q.parent == p then q.(parent := init) else q;
    if q.state.SLEEPING? && (q.chan == WaitChan(procs[p].parent) || (q.chan == OfProc(init) && DeadAmong(procs, p, i)))
    then moved.(state := RUNNABLE) else moved
  }

  class ProcTable {
    const procs: array<ProcState.Proc>
    var nextpid: int

    ghost predicate Valid()
      reads this
    {
      procs.Length == NPROC
    }

    // the static table, all zero, and nextpid
    constructor ()
      ensures Valid() && fresh(procs) && nextpid == 1
      ensures forall i :: 0 <= i < NPROC ==> procs[i] == ProcState.Proc.Proc(UNUSED, 0, NONE, false, NoChan, 0)
    {
      procs := new ProcState.Proc[NPROC](_ => ProcState.Proc.Proc(UNUSED, 0, NONE, false, NoChan, 0));
      nextpid := 1;
    }

    method Wakeup1(chan: Chan)
      requires Valid()
      modifies procs
      ensures procs[..] == ProcState.Wakeup1(old(procs[..]), chan)
    {
      for i := 0 to NPROC
        invariant forall j :: 0 <= j < i ==> procs[j] == Roused(old(procs[j]), chan)
        invariant forall j :: i <= j < NPROC ==> procs[j] == old(procs[j])
      {
        if procs[i].state.SLEEPING? && procs[i].chan == chan {
          procs[i] := procs[i].(state := RUNNABLE);
        }
      }
    }

    method Kill(pid: int) returns (ok: bool)
      requires Valid()
      modifies procs
      ensures procs[..] == Killed(old(procs[..]), pid)
      ensures ok <==> exists i :: 0 <= i < NPROC && old(procs[i]).pid == pid
    {
      for i := 0 to NPROC
        invariant procs[..] == old(procs[..])
        invariant forall j :: 0 <= j < i ==> procs[j].pid != pid
      {
        if procs[i].pid == pid {
          procs[i] := procs[i].(killed := true);
          if procs[i].state.SLEEPING? {
            procs[i] := procs[i].(state := RUNNABLE);
          }
          return true;
        }
      }
      return false;
    }

    /** allocproc's critical section; NPROC stands for the failure. */
    method Alloc() returns (k: nat)
      requires Valid()
      modifies this, procs
      ensures k == FirstUnused(old(procs[..]), 0)
      ensures k < NPROC ==> procs[..] == Allocated(old(procs[..]), k, old(nextpid)) && nextpid == old(nextpid) + 1
      ensures k == NPROC ==> procs[..] == old(procs[..]) && nextpid == old(nextpid)
    {
      for i := 0 to NPROC
        invariant procs[..] == old(procs[..]) && nextpid == old(nextpid)
        invariant forall j :: 0 <= j < i ==> !procs[j].state.UNUSED?
      {
        if procs[i].state.UNUSED? {
          procs[i] := procs[i].(state := EMBRYO, priority := 60);
          procs[i] := procs[i].(pid := nextpid);
          nextpid := nextpid + 1;
          return i;
        }
      }
      return NPROC;
    }

    /** exit's critical section. */
    method Exit(init: nat, p: nat)
      requires Valid() && p < NPROC && procs[p].state.RUNNING?
      modifies procs
      ensures procs[..] == Exited(old(procs[..]), init, p)
    {
      ghost var was := procs[..];
      Wakeup1(WaitChan(procs[p].parent));
      for i := 0 to NPROC
        invariant |was| == NPROC
        invariant forall j :: 0 <= j < NPROC ==> procs[j] == DuringExit(was, init, p, i, j)
      {
        if procs[i].parent == p {
          Adopt(was, init, p, i);
        }
      }
      procs[p] := procs[p].(state := ZOMBIE);
    }

    method Adopt(ghost was: seq<ProcState.Proc>, init: nat, p: nat, i: nat)
      requires Valid() && p < NPROC && i < NPROC && |was| == NPROC && was[i].parent == p
      requires forall j :: 0 <= j < NPROC ==> procs[j] == DuringExit(was, init, p, i, j)
      modifies procs
      ensures forall j :: 0 <= j < NPROC ==> procs[j] == DuringExit(was, init, p, i + 1, j)
    {
      procs[i] := procs[i].(parent := init);
      if procs[i].state.ZOMBIE? {
        assert DeadAmong(was, p, i + 1);
        ghost var now := procs[..];
        Wakeup1(OfProc(init));
        forall j | 0 <= j < NPROC ensures procs[j] == DuringExit(was, init, p, i + 1, j) {
          assert procs[..][j] == Roused(now[j], OfProc(init));
        }
      } else {
        assert DeadAmong(was, p, i + 1) <==> DeadAmong(was, p, i);
      }
    }

    /** One scan by wait or waitx. */
    method Wait(p: nat) returns (r: WaitResult)
      requires Valid() && p < NPROC
      modifies procs
      ensures var k := FirstDead(old(procs[..]), p, 0);
        if k < NPROC then r == Found(old(procs[..])[k].pid) && procs[..] == Reaped(old(procs[..]), k)
        else
          && procs[..] == old(procs[..])
          && r == if !Has(old(procs[..]), p, NPROC) || procs[p].killed then NoChildren else MustSleep
    {
      var havekids := false;
      for i := 0 to NPROC
        invariant procs[..] == old(procs[..])
        invariant havekids <==> Has(procs[..], p, i)
        invariant forall j :: 0 <= j < i ==> !(procs[j].parent == p && procs[j].state.ZOMBIE?)
      {
        if procs[i].parent == p {
          havekids := true;
          if procs[i].state.ZOMBIE? {
            var pid := procs[i].pid;
            procs[i] := procs[i].(pid := 0, parent := NONE, killed := false, state := UNUSED);
            return Found(pid);
          }
        }
      }
      if !havekids || procs[p].killed {
        return NoChildren;
      }
      return MustSleep;
    }

    /** default_scheduler: the next process to run, from slot p on; NPROC for none. */
    method NextRunnable(p: nat) returns (k: nat)
      requires Valid() && p <= NPROC
      ensures p <= k <= NPROC && (k < NPROC ==> procs[k].state.RUNNABLE?)
      ensures forall j :: p <= j < k ==> !procs[j].state.RUNNABLE?
    {
      k := p;
      while k < NPROC && !procs[k].state.RUNNABLE?
        invariant p <= k <= NPROC && forall j :: p <= j < k ==> !procs[j].state.RUNNABLE?
      {
        k := k + 1;
      }
    }

    /** priority_scheduler's choice once it has come to the RUNNABLE process in slot p: none that is
        RUNNABLE comes before it in priority, and p itself is kept if it is as good. */
    method HighestPriority(p: nat) returns (h: nat)
      requires Valid() && p < NPROC && procs[p].state.RUNNABLE?
      ensures h < NPROC && procs[h].state.RUNNABLE?
      ensures forall j :: 0 <= j < NPROC && procs[j].state.RUNNABLE? ==> procs[h].priority <= procs[j].priority
      ensures h != p ==> procs[h].priority < procs[p].priority
      ensures h != p ==> forall j :: 0 <= j < h && procs[j].state.RUNNABLE? ==> procs[h].priority < procs[j].priority
    {
      h := p;
      for i := 0 to NPROC
        invariant h < NPROC && procs[h].state.RUNNABLE? && (h == p || h < i)
        invariant forall j :: 0 <= j < i && procs[j].state.RUNNABLE? ==> procs[h].priority <= procs[j].priority
        invariant h != p ==> procs[h].priority < procs[p].priority
        invariant h != p ==> forall j :: 0 <= j < h && procs[j].state.RUNNABLE? ==>
          procs[h].priority < procs[j].priority
        invariant procs[h].priority <= procs[p].priority
      {
        if procs[i].state.RUNNABLE? && procs[h].priority > procs[i].priority {
          h := i;
        }
      }
    }
  }
}
