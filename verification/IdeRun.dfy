/** Whole runs of the IDE driver, seen as calls of the in-memory disk. */
module IdeRun {
  import opened Bytes
  import opened Buffer
  import opened IdeState

  ghost predicate Initial(s: Ide) {
    s.queue == [] && s.dev.Idle? && s.inside == {} && forall k :: k in s.disk ==> GoodKey(k)
  }

  ghost predicate Step(s: Ide, a: Action, s': Ide) {
    Enabled(s, a) && s' == Next(s, a)
  }

  ghost predicate IsRun(ss: seq<Ide>, acts: seq<Action>) {
    && |ss| == |acts| + 1 && Initial(ss[0])
    && forall t :: 0 <= t < |acts| ==> Step(ss[t], acts[t], ss[t + 1])
  }

  lemma {:induction false} RunKeeps(ss: seq<Ide>, acts: seq<Action>, t: nat)
    requires IsRun(ss, acts) && t < |ss|
    ensures Inv(ss[t]) && |ss[t].bufs| == |ss[0].bufs|
  {
    if t > 0 {
      RunKeeps(ss, acts, t - 1);
      assert Step(ss[t - 1], acts[t - 1], ss[t]);
      NextKeeps(ss[t - 1], acts[t - 1]);
      hide Inv, Enabled;
    }
  }

  // ----- one call of iderw

  /** i's request is queued and the device has not finished it. */
  predicate Pending(s: Ide, i: nat) {
    i in s.queue && !(s.dev.Done? && s.queue[0] == i)
  }

  /** At step v the in-memory disk would do iderw on b: the disk changes as it says, and the buffer
      is left as r. */
  ghost predicate ServedAt(ss: seq<Ide>, acts: seq<Action>, v: nat, i: nat, b: Buf, r: Buf) {
    && v < |acts| && v + 1 < |ss| && acts[v] == Complete && ss[v].queue != [] && ss[v].queue[0] == i
    && b.key in ss[v].disk && r == MemBuf(b, ss[v].disk) && ss[v + 1].disk == MemDisk(b, ss[v].disk)
  }

  /** The call made at t stands at u: still pending with the buffer untouched, or served since. */
  ghost predicate CallAt(ss: seq<Ide>, acts: seq<Action>, t: nat, u: nat, i: nat) {
    && t < u < |ss| && i < |ss[t].bufs| == |ss[u].bufs| && i in ss[u].inside && Inv(ss[u])
    && var b := ss[t].bufs[i];
      || (Pending(ss[u], i) && ss[u].bufs[i] == b)
      || (!Pending(ss[u], i) && exists v :: t < v < u && ServedAt(ss, acts, v, i, b, Seen(ss[u])[i]))
  }

  lemma Submitted(ss: seq<Ide>, acts: seq<Action>, t: nat, i: nat)
    requires IsRun(ss, acts) && t < |acts| && acts[t] == Submit(i)
    ensures CallAt(ss, acts, t, t + 1, i)
  {
    RunKeeps(ss, acts, t);
    RunKeeps(ss, acts, t + 1);
    assert Step(ss[t], acts[t], ss[t + 1]);
    assert i !in ss[t].queue;
    hide CommandFor, Wanting, GoodKey;
  }

  /** One more step, while the call is pending. */
  lemma PendingStep(ss: seq<Ide>, acts: seq<Action>, t: nat, u: nat, i: nat)
    requires IsRun(ss, acts) && CallAt(ss, acts, t, u, i) && u < |acts| && acts[u] != Return(i)
    requires Pending(ss[u], i)
    ensures CallAt(ss, acts, t, u + 1, i)
  {
    var s, s', b := ss[u], ss[u + 1], ss[t].bufs[i];
    assert Step(s, acts[u], s');
    StepRefines(s, acts[u]);
    hide CommandFor, Wanting, GoodKey, Target, IsRun;
    if acts[u] == Complete && s.queue[0] == i {
      assert ServedAt(ss, acts, u, i, b, Seen(s')[i]);
    } else if acts[u] == Interrupt {
      assert s.queue == [s.queue[0]] + s'.queue;
    }
  }

  /** Nothing but its return changes a buffer that was served. */
  lemma ServedStays(s: Ide, a: Action, s': Ide, i: nat)
    requires Inv(s) && Step(s, a, s') && i < |s.bufs| && i in s.inside && !Pending(s, i) && a != Return(i)
    ensures Inv(s') && |s'.bufs| == |s.bufs| && Seen(s')[i] == Seen(s)[i] && i in s'.inside && !Pending(s', i)
  {
    StepRefines(s, a);
    hide CommandFor, GoodKey, Target, MemBuf, MemDisk, Finished;
    if a == Interrupt {
      assert s.queue == [s.queue[0]] + s'.queue;
    }
  }

  /** One more step, once it is served. */
  lemma ServedStep(ss: seq<Ide>, acts: seq<Action>, t: nat, u: nat, i: nat)
    requires IsRun(ss, acts) && CallAt(ss, acts, t, u, i) && u < |acts| && acts[u] != Return(i)
    requires !Pending(ss[u], i)
    ensures CallAt(ss, acts, t, u + 1, i)
  {
    var s, s' := ss[u], ss[u + 1];
    assert Step(s, acts[u], s');
    hide IsRun, ServedAt, Inv, Step, Pending;
    var v :| t < v < u && ServedAt(ss, acts, v, i, ss[t].bufs[i], Seen(s)[i]);
    ServedStays(s, acts[u], s', i);
    assert ServedAt(ss, acts, v, i, ss[t].bufs[i], Seen(s')[i]);
  }

  lemma {:induction false} CallStands(ss: seq<Ide>, acts: seq<Action>, t: nat, u: nat, i: nat)
    requires IsRun(ss, acts) && t < u < |ss| && acts[t] == Submit(i)
    requires forall v :: t <= v < u ==> acts[v] != Return(i)
    ensures CallAt(ss, acts, t, u, i)
  {
    if u == t + 1 {
      Submitted(ss, acts, t, i);
    } else {
      CallStands(ss, acts, t, u - 1, i);
      hide CallAt, IsRun;
      if Pending(ss[u - 1], i) {
        PendingStep(ss, acts, t, u - 1, i);
      } else {
        ServedStep(ss, acts, t, u - 1, i);
      }
    }
  }

  /** A call of iderw made at t that returns at u did what memide's iderw does, at one moment v in
      between: the same flags and data in the buffer, the same change of the disk. */
  lemma IderwLikeMemide(ss: seq<Ide>, acts: seq<Action>, t: nat, u: nat, i: nat)
    requires IsRun(ss, acts) && t < u < |acts| && acts[t] == Submit(i) && acts[u] == Return(i)
    requires forall v :: t <= v < u ==> acts[v] != Return(i)
    ensures i < |ss[t].bufs| == |ss[u].bufs|
    ensures exists v :: t < v < u && ServedAt(ss, acts, v, i, ss[t].bufs[i], ss[u].bufs[i])
  {
    CallStands(ss, acts, t, u, i);
    assert Step(ss[u], acts[u], ss[u + 1]);
    ReturnsWhenServed(ss[u], i);
    hide IsRun, ServedAt;
    if ss[u].dev.Done? {
      assert ss[u].queue[0] in ss[u].queue;
    }
    assert Seen(ss[u])[i] == ss[u].bufs[i];
  }

  /** The disk changes at no other moment. */
  lemma DiskChangesWhenServed(ss: seq<Ide>, acts: seq<Action>, t: nat)
    requires IsRun(ss, acts) && t < |acts| && ss[t + 1].disk != ss[t].disk
    ensures acts[t] == Complete
  {
    assert Step(ss[t], acts[t], ss[t + 1]);
  }

  // ----- first in, first out

  /** The buffers submitted up to time t, in order, and those whose commands the device finished. */
  function Submissions(acts: seq<Action>, t: nat): seq<nat>
    requires t <= |acts|
  {
    if t == 0 then []
    else if acts[t - 1].Submit? then Submissions(acts, t - 1) + [acts[t - 1].i]
    else Submissions(acts, t - 1)
  }

  function Services(ss: seq<Ide>, acts: seq<Action>, t: nat): seq<nat>
    requires t <= |acts| && |ss| == |acts| + 1
  {
    if t == 0 then []
    else if acts[t - 1].Complete? && ss[t - 1].queue != [] then Services(ss, acts, t - 1) + [ss[t - 1].queue[0]]
    else Services(ss, acts, t - 1)
  }

  /** The requests not yet served. */
  function Waiting(s: Ide): seq<nat> {
    if s.dev.Done? && s.queue != [] then s.queue[1..] else s.queue
  }

  /** Requests are served in the order they were made: what has been served and what still waits
      make up what was submitted. */
  lemma {:induction false} FirstInFirstOut(ss: seq<Ide>, acts: seq<Action>, t: nat)
    requires IsRun(ss, acts) && t <= |acts|
    ensures Submissions(acts, t) == Services(ss, acts, t) + Waiting(ss[t])
  {
    if t > 0 {
      FirstInFirstOut(ss, acts, t - 1);
      RunKeeps(ss, acts, t - 1);
      QueueStep(ss[t - 1], acts[t - 1], ss[t], Services(ss, acts, t - 1));
      hide Inv, Enabled;
    }
  }

  lemma QueueStep(s: Ide, a: Action, s': Ide, served: seq<nat>)
    requires Inv(s) && Step(s, a, s')
    ensures a.Submit? ==> served + Waiting(s') == served + Waiting(s) + [a.i]
    ensures a.Complete? ==> s.queue != [] && served + [s.queue[0]] + Waiting(s') == served + Waiting(s)
    ensures !a.Submit? && !a.Complete? ==> Waiting(s') == Waiting(s)
  {
  }

  /** The queue never holds a buffer twice, and its first is the request the device was given. */
  lemma HeadIsActive(ss: seq<Ide>, acts: seq<Action>, t: nat)
    requires IsRun(ss, acts) && t < |ss|
    ensures Distinct(ss[t].queue) && (ss[t].dev.Idle? <==> ss[t].queue == [])
    ensures !ss[t].dev.Idle? ==>
      ss[t].queue[0] < |ss[t].bufs| && Target(ss[t].dev.cmd) == ss[t].bufs[ss[t].queue[0]].key
      && ss[t].dev.cmd.write == ss[t].bufs[ss[t].queue[0]].dirty
        && ss[t].dev.cmd.data == ss[t].bufs[ss[t].queue[0]].data
  {
    RunKeeps(ss, acts, t);
    if !ss[t].dev.Idle? {
      CommandTarget(ss[t].bufs[ss[t].queue[0]]);
    }
  }
}
