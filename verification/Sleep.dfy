/** sleep and wakeup, step by step, for any code that guards its state with one spinlock. */
module Sleep {
  /** Where a process is in sleep(): not in it; holding both locks; the guarding lock released but
      ptable.lock still held and the state not yet SLEEPING; SLEEPING. */
  datatype Status = Awake | Both(chan: nat) | Released(chan: nat) | Asleep(chan: nat)

  const NOBODY := -1

  /** The guarded state g (with the program counters of the code that uses it), who holds the
      guarding lock and ptable.lock, and each process's place in sleep(). */
  datatype Sys<G> = Sys(g: G, lk: int, pt: int, st: seq<Status>)

  /** The code of a client, given by what it may do at each kind of step. `shares` says that the
      guarding lock is ptable.lock itself. `cond` is the wait condition of process p sleeping on
      channel c. The code's invariant may depend on who holds the guarding lock. `owes` are the
      channels that holder must still wake before letting go, `quiet` those it has woken since it
      took the lock. */
  datatype Client<!G> = Client(
    shares: bool,
    init: G -> bool,
    inv: (G, int) -> bool,
    cond: (G, nat, nat) -> bool,
    owes: (G, int) -> set<nat>,
    quiet: (G, int) -> set<nat>,
    enter: (G, nat, G) -> bool,          // acquire(lk), by process p
    update: (G, nat, G) -> bool,         // a change under the lock
    wake: (G, nat, nat, G) -> bool,      // wakeup(c) under the lock
    leave: (G, nat, G) -> bool,          // release(lk)
    doze: (G, nat, nat, G) -> bool,      // the call of sleep(c, lk)
    silent: (G, nat, G) -> bool          // a change made without the lock
  )

  datatype Action<!G> =
    | Enter(p: nat, g: G)
    | Update(p: nat, g: G)
    | Wake(p: nat, c: nat, g: G)
    | Leave(p: nat, g: G)
    | Doze(p: nat, c: nat, g: G)         // sleep: acquire ptable.lock
    | Drop(p: nat)                       // sleep: release lk
    | Switch(p: nat)                     // sleep: becomes SLEEPING and gives up the CPU
    | Silent(p: nat, g: G)
    | Rouse(ps: set<nat>)                // other wakeups, and kill

  /** wakeup1(c) */
  function Woken(st: seq<Status>, c: nat): (r: seq<Status>)
    ensures |r| == |st|
  {
    seq(|st|, i requires 0 <= i < |st| => if st[i] == Asleep(c) then Awake else st[i])
  }

  function Roused(st: seq<Status>, ps: set<nat>): (r: seq<Status>)
    ensures |r| == |st|
  {
    seq(|st|, i requires 0 <= i < |st| => if i in ps && st[i].Asleep? then Awake else st[i])
  }

  /** Process p may run client code. */
  predicate Runs<G>(s: Sys<G>, p: nat) {
    p < |s.st| && s.st[p].Awake?
  }

  ghost predicate Enabled<G>(cl: Client<G>, s: Sys<G>, a: Action<G>) {
    match a
    case Enter(p, g') => Runs(s, p) && s.lk == NOBODY && cl.enter(s.g, p, g')
    case Update(p, g') => Runs(s, p) && s.lk == p && cl.update(s.g, p, g')
    case Wake(p, c, g') => Runs(s, p) && s.lk == p && s.pt == NOBODY && cl.wake(s.g, p, c, g')
    case Leave(p, g') => Runs(s, p) && s.lk == p && cl.leave(s.g, p, g')
    case Doze(p, c, g') => Runs(s, p) && s.lk == p && s.pt == NOBODY && cl.doze(s.g, p, c, g')
    case Drop(p) => p < |s.st| && s.st[p].Both?
    case Switch(p) => p < |s.st| && s.st[p].Released?
    case Silent(p, g') => Runs(s, p) && s.lk != p && cl.silent(s.g, p, g')
    case Rouse(ps) => s.pt == NOBODY && (cl.shares ==> s.lk == NOBODY)
  }

  ghost function Next<G>(cl: Client<G>, s: Sys<G>, a: Action<G>): Sys<G>
    requires Enabled(cl, s, a)
  {
    match a
    case Enter(p, g') => s.(g := g', lk := p)
    case Update(p, g') => s.(g := g')
    case Wake(p, c, g') => s.(g := g', st := Woken(s.st, c))
    case Leave(p, g') => s.(g := g', lk := NOBODY)
    case Doze(p, c, g') =>
      if cl.shares then s.(g := g', lk := NOBODY, st := s.st[p := Asleep(c)])
      else s.(g := g', pt := p, st := s.st[p := Both(c)])
    case Drop(p) => s.(lk := NOBODY, st := s.st[p := Released(s.st[p].chan)])
    case Switch(p) => s.(pt := NOBODY, st := s.st[p := Asleep(s.st[p].chan)])
    case Silent(p, g') => s.(g := g')
    case Rouse(ps) => s.(st := Roused(s.st, ps))
  }

  // ----- what a client must do

  /** As p takes g to g', only channels in cs may have sleepers whose wait condition stops holding. */
  ghost predicate Falsifies<G(!new)>(cl: Client<G>, g: G, p: nat, g': G, cs: set<nat>) {
    forall q: nat, c: nat :: q != p && cl.cond(g, q, c) && !cl.cond(g', q, c) ==> c in cs
  }

  ghost predicate EnterOk<G(!new)>(cl: Client<G>, g: G, p: nat, g': G) {
    cl.inv(g', p) && Falsifies(cl, g, p, g', {}) && cl.owes(g', p) == {} && cl.quiet(g', p) == {}
  }

  /** A change owes a wakeup for each wait condition it makes false, unless it was made before. */
  ghost predicate UpdateOk<G(!new)>(cl: Client<G>, g: G, p: nat, g': G) {
    && cl.inv(g', p) && Falsifies(cl, g, p, g', cl.owes(g', p) + cl.quiet(g, p))
    && cl.owes(g, p) <= cl.owes(g', p) && cl.quiet(g', p) <= cl.quiet(g, p)
  }

  ghost predicate WakeOk<G(!new)>(cl: Client<G>, g: G, p: nat, c: nat, g': G) {
    && cl.inv(g', p) && Falsifies(cl, g, p, g', {})
    && cl.owes(g, p) <= cl.owes(g', p) + {c} && cl.quiet(g', p) <= cl.quiet(g, p) + {c}
  }

  /** The lock is let go with no wakeup owed. */
  ghost predicate LeaveOk<G(!new)>(cl: Client<G>, g: G, p: nat, g': G) {
    && cl.inv(g', NOBODY) && Falsifies(cl, g, p, g', cl.quiet(g, p))
    && cl.owes(g, p) == {} && cl.owes(g', NOBODY) == {} && cl.quiet(g', NOBODY) == {}
  }

  /** sleep is called with no wakeup owed and the wait condition true. */
  ghost predicate DozeOk<G(!new)>(cl: Client<G>, g: G, p: nat, c: nat, g': G) {
    && cl.inv(g', p) && cl.inv(g', NOBODY) && Falsifies(cl, g, p, g', {}) && cl.cond(g', p, c)
    && cl.owes(g, p) == cl.owes(g', p) == cl.owes(g', NOBODY) == {} && cl.quiet(g', p) == cl.quiet(g', NOBODY) == {}
  }

  ghost predicate SilentOk<G(!new)>(cl: Client<G>, g: G, p: nat, g': G, h: int) {
    && Falsifies(cl, g, p, g', {}) && (cl.inv(g, h) ==> cl.inv(g', h)) && (cl.inv(g, NOBODY) ==> cl.inv(g', NOBODY))
    && cl.owes(g', h) == cl.owes(g, h) && cl.quiet(g', h) == cl.quiet(g, h)
    && cl.owes(g', NOBODY) == cl.owes(g, NOBODY) && cl.quiet(g', NOBODY) == cl.quiet(g, NOBODY)
  }

  /** The discipline, step by step: whoever makes a wait condition false wakes its channel before
      letting go of the lock, or has done so since taking it; sleep is called with the condition true. */
  ghost predicate Honest<G(!new)>(cl: Client<G>) {
    && (forall g :: cl.init(g) ==> cl.inv(g, NOBODY) && cl.owes(g, NOBODY) == {} && cl.quiet(g, NOBODY) == {})
    && (forall g, p: nat, g' :: cl.inv(g, NOBODY) && cl.enter(g, p, g') ==> EnterOk(cl, g, p, g'))
    && (forall g, p: nat, g' :: cl.inv(g, p) && cl.update(g, p, g') ==> UpdateOk(cl, g, p, g'))
    && (forall g, p: nat, c: nat, g' :: cl.inv(g, p) && cl.wake(g, p, c, g') ==> WakeOk(cl, g, p, c, g'))
    && (forall g, p: nat, g' :: cl.inv(g, p) && cl.leave(g, p, g') ==> LeaveOk(cl, g, p, g'))
    && (forall g, p: nat, c: nat, g' :: cl.inv(g, p) && cl.doze(g, p, c, g') ==> DozeOk(cl, g, p, c, g'))
    && (forall g, p: nat, g', h :: cl.inv(g, h) && h != p && cl.silent(g, p, g') ==> SilentOk(cl, g, p, g', h))
  }

  // ----- the invariant

  /** What holds of a process on its way to sleep or asleep. */
  ghost predicate ProcOk<G(!new)>(cl: Client<G>, s: Sys<G>, q: nat)
    requires q < |s.st|
  {
    match s.st[q]
    case Awake => s.pt != q
    case Both(c) => !cl.shares && s.lk == q && s.pt == q && cl.inv(s.g, NOBODY) && cl.cond(s.g, q, c)
      && cl.owes(s.g, q) == cl.owes(s.g, NOBODY) == {} && cl.quiet(s.g, q) == cl.quiet(s.g, NOBODY) == {}
    case Released(c) => !cl.shares && s.lk != q && s.pt == q && Cares(cl, s, q, c)
    case Asleep(c) => s.lk != q && s.pt != q && Cares(cl, s, q, c)
  }

  /** q's wait condition holds, or a wakeup of its channel is still to come. */
  ghost predicate Cares<G(!new)>(cl: Client<G>, s: Sys<G>, q: nat, c: nat) {
    (cl.cond(s.g, q, c) || c in cl.owes(s.g, s.lk)) && c !in cl.quiet(s.g, s.lk)
  }

  ghost predicate Inv<G(!new)>(cl: Client<G>, s: Sys<G>) {
    && cl.inv(s.g, s.lk)
    && (s.lk == NOBODY ==> cl.owes(s.g, NOBODY) == {} && cl.quiet(s.g, NOBODY) == {})
    && NOBODY <= s.lk < |s.st| && NOBODY <= s.pt < |s.st|
    && forall q :: 0 <= q < |s.st| ==> ProcOk(cl, s, q)
  }

  lemma NextKeeps<G(!new)>(cl: Client<G>, s: Sys<G>, a: Action<G>)
    requires Honest(cl) && Inv(cl, s) && Enabled(cl, s, a)
    ensures Inv(cl, Next(cl, s, a))
  {
    var s' := Next(cl, s, a);
    if a.Drop? {
      assert ProcOk(cl, s, a.p);
    }
    forall q | 0 <= q < |s'.st| ensures ProcOk(cl, s', q) {
      assert ProcOk(cl, s, q);
      ProcKeeps(cl, s, a, q);
    }
  }

  lemma ProcKeeps<G(!new)>(cl: Client<G>, s: Sys<G>, a: Action<G>, q: nat)
    requires Honest(cl) && Inv(cl, s) && Enabled(cl, s, a) && q < |s.st| && ProcOk(cl, s, q)
    ensures |Next(cl, s, a).st| == |s.st| && ProcOk(cl, Next(cl, s, a), q)
  {
    var s' := Next(cl, s, a);
    match a
    case Enter(p, g') =>
    case Update(p, g') =>
    case Wake(p, c, g') =>
    case Leave(p, g') =>
    case Doze(p, c, g') =>
    case Drop(p) => assert ProcOk(cl, s, p);
    case Switch(p) => assert ProcOk(cl, s, p);
    case Silent(p, g') =>
    case Rouse(ps) =>
  }

  // ----- runs

  ghost predicate Step<G(!new)>(cl: Client<G>, s: Sys<G>, a: Action<G>, s': Sys<G>) {
    Enabled(cl, s, a) && s' == Next(cl, s, a)
  }

  ghost predicate IsRun<G(!new)>(cl: Client<G>, ss: seq<Sys<G>>, acts: seq<Action<G>>) {
    && |ss| == |acts| + 1 && cl.init(ss[0].g) && ss[0].lk == ss[0].pt == NOBODY
    && (forall q :: 0 <= q < |ss[0].st| ==> ss[0].st[q] == Awake)
    && forall t :: 0 <= t < |acts| ==> Step(cl, ss[t], acts[t], ss[t + 1])
  }

  lemma {:induction false} RunKeeps<G(!new)>(cl: Client<G>, ss: seq<Sys<G>>, acts: seq<Action<G>>, t: nat)
    requires Honest(cl) && IsRun(cl, ss, acts) && t < |ss|
    ensures Inv(cl, ss[t])
  {
    hide Honest, Inv, Step;
    if t == 0 {
      InitialInv(cl, ss[0]);
    } else {
      RunKeeps(cl, ss, acts, t - 1);
      StepKeeps(cl, ss[t - 1], acts[t - 1], ss[t]);
    }
  }

  lemma InitialInv<G(!new)>(cl: Client<G>, s: Sys<G>)
    requires Honest(cl) && cl.init(s.g) && s.lk == s.pt == NOBODY
    requires forall q :: 0 <= q < |s.st| ==> s.st[q] == Awake
    ensures Inv(cl, s)
  {
  }

  lemma StepKeeps<G(!new)>(cl: Client<G>, s: Sys<G>, a: Action<G>, s': Sys<G>)
    requires Honest(cl) && Inv(cl, s) && Step(cl, s, a, s')
    ensures Inv(cl, s')
  {
    hide Honest, Inv;
    NextKeeps(cl, s, a);
  }

  lemma Extend<G(!new)>(cl: Client<G>, ss: seq<Sys<G>>, acts: seq<Action<G>>, a: Action<G>)
    requires IsRun(cl, ss, acts) && Enabled(cl, ss[|acts|], a)
    ensures IsRun(cl, ss + [Next(cl, ss[|acts|], a)], acts + [a])
  {
    var ss', acts' := ss + [Next(cl, ss[|acts|], a)], acts + [a];
    hide Enabled, Next;
    forall t | 0 <= t < |acts'| ensures Step(cl, ss'[t], acts'[t], ss'[t + 1]) {
      if t < |acts| {
        assert Step(cl, ss[t], acts[t], ss[t + 1]);
      }
    }
  }

  // ----- the code's own invariant, whether or not its wakeups are right

  ghost predicate Lawful<G(!new)>(cl: Client<G>) {
    && (forall g :: cl.init(g) ==> cl.inv(g, NOBODY))
    && (forall g, p: nat, g' :: cl.inv(g, NOBODY) && cl.enter(g, p, g') ==> cl.inv(g', p))
    && (forall g, p: nat, g' :: cl.inv(g, p) && cl.update(g, p, g') ==> cl.inv(g', p))
    && (forall g, p: nat, c: nat, g' :: cl.inv(g, p) && cl.wake(g, p, c, g') ==> cl.inv(g', p))
    && (forall g, p: nat, g' :: cl.inv(g, p) && cl.leave(g, p, g') ==> cl.inv(g', NOBODY))
    && (forall g, p: nat, c: nat, g' :: cl.inv(g, p) && cl.doze(g, p, c, g') ==> cl.inv(g', p) && cl.inv(g', NOBODY))
    && (forall g, p: nat, g', h :: cl.inv(g, h) && h != p && cl.silent(g, p, g') ==> cl.inv(g', h))
  }

  ghost predicate CodeInv<G(!new)>(cl: Client<G>, s: Sys<G>) {
    && cl.inv(s.g, s.lk)
    && forall q: nat :: q < |s.st| && s.st[q].Both? ==> s.lk == q && cl.inv(s.g, NOBODY)
  }

  lemma LawfulStep<G(!new)>(cl: Client<G>, s: Sys<G>, a: Action<G>, s': Sys<G>)
    requires Lawful(cl) && CodeInv(cl, s) && Step(cl, s, a, s')
    ensures CodeInv(cl, s')
  {
  }

  lemma {:induction false} RunLawful<G(!new)>(cl: Client<G>, ss: seq<Sys<G>>, acts: seq<Action<G>>, t: nat)
    requires Lawful(cl) && IsRun(cl, ss, acts) && t < |ss|
    ensures cl.inv(ss[t].g, ss[t].lk) && CodeInv(cl, ss[t])
  {
    hide Step;
    if t > 0 {
      RunLawful(cl, ss, acts, t - 1);
      LawfulStep(cl, ss[t - 1], acts[t - 1], ss[t]);
    }
  }

  /** No lost wakeup: whenever the guarding lock is free, the wait condition of every process that
      is SLEEPING, or has released the lock on its way there, holds. */
  lemma NoLostWakeup<G(!new)>(cl: Client<G>, ss: seq<Sys<G>>, acts: seq<Action<G>>, t: nat, q: nat)
    requires Honest(cl) && IsRun(cl, ss, acts) && t < |ss| && q < |ss[t].st|
    requires ss[t].lk == NOBODY && !ss[t].st[q].Awake?
    ensures cl.cond(ss[t].g, q, ss[t].st[q].chan)
  {
    RunKeeps(cl, ss, acts, t);
    assert ProcOk(cl, ss[t], q);
  }
}
