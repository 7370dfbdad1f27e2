/** The sleep-lock as a client of sleep and wakeup. */
module SleepLock {
  import opened Sleep

  /** Where a process is: outside, at the test of `locked`, having set it, holding the sleep-lock, in
      releasesleep before and after clearing `locked`, and after its wakeup. */
  datatype PC = Out | Testing | Taken | Holding | Freeing | Freed | Told

  datatype Lock = Lock(locked: bool, pc: seq<PC>)

  const CHAN: nat := 0               // the address of the lock

  predicate At(l: Lock, p: nat, pc: PC) {
    p < |l.pc| && l.pc[p] == pc
  }

  function Go(l: Lock, p: nat, pc: PC): Lock
    requires p < |l.pc|
  {
    l.(pc := l.pc[p := pc])
  }

  /** p owns the sleep-lock. */
  predicate Owns(l: Lock, p: nat) {
    p < |l.pc| && (l.pc[p].Taken? || l.pc[p].Holding? || l.pc[p].Freeing?)
  }

  /** p is at a place where it holds the spinlock. */
  predicate Inside(l: Lock, p: nat) {
    p < |l.pc| && (l.pc[p].Taken? || l.pc[p].Freeing? || l.pc[p].Freed? || l.pc[p].Told?)
  }

  ghost predicate LockInit(l: Lock) {
    !l.locked && forall p: nat :: p < |l.pc| ==> l.pc[p] == Out
  }

  ghost predicate LockInv(l: Lock, h: int) {
    && (forall p: nat, q: nat :: Owns(l, p) && Owns(l, q) ==> p == q)
    && (forall p: nat :: Owns(l, p) ==> l.locked)
    && (forall p: nat :: Inside(l, p) ==> p == h)
  }

  predicate LockCond(l: Lock, p: nat, c: nat) {
    l.locked && c == CHAN
  }

  function LockOwes(l: Lock, h: int): set<nat> {
    if 0 <= h && At(l, h, Freed) then {CHAN} else {}
  }

  function LockQuiet(l: Lock, h: int): set<nat> {
    {}
  }

  predicate LockEnter(l: Lock, p: nat, l': Lock) {
    || (At(l, p, Out) && l' == Go(l, p, Testing))
    || (At(l, p, Testing) && l' == l)                                     // back from sleep
    || (At(l, p, Holding) && l' == Go(l, p, Freeing))
  }

  predicate LockUpdate(l: Lock, p: nat, l': Lock) {
    || (At(l, p, Testing) && !l.locked && l' == Go(l.(locked := true), p, Taken))
    || (At(l, p, Freeing) && l' == Go(l.(locked := false), p, Freed))
  }

  predicate LockWake(l: Lock, p: nat, c: nat, l': Lock) {
    At(l, p, Freed) && c == CHAN && l' == Go(l, p, Told)
  }

  predicate LockLeave(l: Lock, p: nat, l': Lock) {
    || (At(l, p, Taken) && l' == Go(l, p, Holding))
    || (At(l, p, Told) && l' == Go(l, p, Out))
  }

  predicate LockDoze(l: Lock, p: nat, c: nat, l': Lock) {
    At(l, p, Testing) && l.locked && c == CHAN && l' == l
  }

  predicate LockSilent(l: Lock, p: nat, l': Lock) {
    false
  }

  ghost function LockClient(): Client<Lock> {
    Client(false, LockInit, LockInv, LockCond, LockOwes, LockQuiet, LockEnter, LockUpdate, LockWake, LockLeave,
           LockDoze, LockSilent)
  }

  /** Only p's program counter moves. */
  lemma Moved(l: Lock, p: nat, l': Lock, h: int, h': int)
    requires LockInv(l, h) && p < |l.pc| == |l'.pc| && l'.pc == l.pc[p := l'.pc[p]] && (h == p || h == NOBODY)
    requires Inside(l', p) ==> h' == p
    requires Owns(l', p) ==> (Owns(l, p) && l'.locked == l.locked) || (l'.locked && !l.locked)
    requires !l'.locked ==> !l.locked || Owns(l, p)
    ensures LockInv(l', h')
  {
    forall q: nat | q != p ensures Owns(l', q) == Owns(l, q) && Inside(l', q) == Inside(l, q) {
    }
  }

  lemma LockHonest()
    ensures Honest(LockClient())
  {
    var cl := LockClient();
    forall l, p: nat, l' | LockInv(l, NOBODY) && LockEnter(l, p, l') ensures EnterOk(cl, l, p, l') {
      Moved(l, p, l', NOBODY, p);
    }
    forall l, p: nat, l' | LockInv(l, p) && LockUpdate(l, p, l') ensures UpdateOk(cl, l, p, l') {
      Moved(l, p, l', p, p);
    }
    forall l, p: nat, c: nat, l' | LockInv(l, p) && LockWake(l, p, c, l') ensures WakeOk(cl, l, p, c, l') {
      Moved(l, p, l', p, p);
    }
    forall l, p: nat, l' | LockInv(l, p) && LockLeave(l, p, l') ensures LeaveOk(cl, l, p, l') {
      Moved(l, p, l', p, NOBODY);
    }
    forall l, p: nat, c: nat, l' | LockInv(l, p) && LockDoze(l, p, c, l') ensures DozeOk(cl, l, p, c, l') {
      Moved(l, p, l', p, NOBODY);
    }
    hide EnterOk, UpdateOk, WakeOk, LeaveOk, DozeOk, SilentOk, LockInv;
  }

  /** A process asleep in acquiresleep while the spinlock is free waits for a lock that is taken. */
  lemma SleepersWaitForLock(ss: seq<Sys<Lock>>, acts: seq<Action<Lock>>, t: nat, q: nat)
    requires IsRun(LockClient(), ss, acts) && t < |ss| && q < |ss[t].st|
    requires ss[t].lk == NOBODY && !ss[t].st[q].Awake?
    ensures ss[t].g.locked
  {
    LockHonest();
    NoLostWakeup(LockClient(), ss, acts, t, q);
  }

  /** At most one process holds the sleep-lock, in every state of every run. */
  lemma MutualExclusion(ss: seq<Sys<Lock>>, acts: seq<Action<Lock>>, t: nat, p: nat, q: nat)
    requires IsRun(LockClient(), ss, acts) && t < |ss| && At(ss[t].g, p, Holding) && At(ss[t].g, q, Holding)
    ensures p == q && ss[t].g.locked
  {
    LockHonest();
    RunKeeps(LockClient(), ss, acts, t);
    assert LockInv(ss[t].g, ss[t].lk) && Owns(ss[t].g, p) && Owns(ss[t].g, q);
  }
}
