/** wait, exit and fork as clients of sleep and wakeup; the guarding lock is ptable.lock itself. */
module ProcWait {
  import opened Sleep

  datatype Kind = Unused | Embryo | Live | Zombie

  const NONE := -1

  /** Where a process is. With ptable.lock held: in wait at its scan, having reaped a child; in exit
      at its start, after waking the parent, after giving its children to init with init still to
      wake, ready to become a ZOMBIE; in fork taking a slot, having taken one, publishing the child,
      done. Without it: outside, filling in the child's slot. */
  datatype PC =
    | Out | Scanning | Reaped | Exiting | Told | Moved | Ready
    | Taking | Took(child: nat) | Filling(child: nat) | Publishing(child: nat) | Published

  datatype Table = Table(init: nat, kind: seq<Kind>, parent: seq<int>, pc: seq<PC>)

  predicate At(g: Table, p: nat, pc: PC) {
    p < |g.pc| && g.pc[p] == pc
  }

  function Go(g: Table, p: nat, pc: PC): Table
    requires p < |g.pc|
  {
    g.(pc := g.pc[p := pc])
  }

  predicate Sized(g: Table) {
    |g.kind| == |g.parent| == |g.pc|
  }

  predicate Child(g: Table, i: nat, p: int)
    requires Sized(g)
  {
    i < |g.kind| && g.parent[i] == p
  }

  predicate DeadChild(g: Table, i: nat, p: int)
    requires Sized(g)
  {
    Child(g, i, p) && g.kind[i] == Zombie
  }

  /** exit gives p's children to init. */
  function Orphaned(g: Table, p: nat): (r: Table)
    ensures |r.parent| == |g.parent|
  {
    g.(parent := seq(|g.parent|, i requires 0 <= i < |g.parent| =>
                       if g.parent[i] == p then g.init as int else g.parent[i]))
  }

  predicate Inside(g: Table, p: nat) {
    p < |g.pc| && match g.pc[p]
      case Out | Scanning | Filling(_) => false
      case _ => true
  }

  /** The slot a process in fork is making into a child. */
  function Slot(pc: PC): int {
    match pc
    case Took(i) => i
    case Filling(i) => i
    case Publishing(i) => i
    case _ => NONE
  }

  ghost predicate TableInit(g: Table) {
    && Sized(g) && g.init < |g.pc|
    && forall p: nat :: p < |g.pc| ==>
      g.pc[p] == Out && g.parent[p] == NONE && g.kind[p] == if p == g.init then Live else Unused
  }

  ghost predicate NoChild(g: Table, p: nat)
    requires Sized(g)
  {
    forall i: nat :: !Child(g, i, p)
  }

  ghost predicate ProcInv(g: Table, p: nat, h: int)
    requires Sized(g) && p < |g.pc|
  {
    var pc, i := g.pc[p], Slot(g.pc[p]);
    && g.parent[p] != p
    && (Inside(g, p) ==> p == h)
    && (!pc.Out? ==> g.kind[p] == Live)
    && (i != NONE ==> i < |g.kind| && g.kind[i] == Embryo && i != p)
    && (pc.Exiting? || pc.Told? || pc.Moved? || pc.Ready? ==> p != g.init)
    && (pc.Moved? || pc.Ready? ==> NoChild(g, p))
  }

  /** No two processes make the same slot. */
  ghost predicate Apart(g: Table) {
    forall p: nat, q: nat :: p < q < |g.pc| && Slot(g.pc[p]) == Slot(g.pc[q]) ==> Slot(g.pc[p]) == NONE
  }

  ghost predicate TableInv(g: Table, h: int) {
    && Sized(g) && g.init < |g.pc| && g.parent[g.init] == NONE && g.kind[g.init] == Live
    && Apart(g) && forall p: nat :: p < |g.pc| ==> ProcInv(g, p, h)
  }

  /** wait's wait condition: no ZOMBIE child. */
  ghost predicate WaitCond(g: Table, p: nat, c: nat) {
    Sized(g) && c == p && forall i: nat :: !DeadChild(g, i, p)
  }

  function WaitOwes(g: Table, h: int): set<nat> {
    if 0 <= h && At(g, h, Moved) then {g.init} else {}
  }

  function WaitQuiet(g: Table, h: int): set<nat> {
    var told := 0 <= h < |g.parent| && (At(g, h, Told) || At(g, h, Moved) || At(g, h, Ready));
    if told && 0 <= g.parent[h] then {g.parent[h]} else {}
  }

  predicate WaitEnter(g: Table, p: nat, g': Table) {
    && p < |g.kind| && g.kind[p] == Live
    && (|| (At(g, p, Out) && g' == Go(g, p, Scanning))
        || (At(g, p, Scanning) && g' == g)                                // back from sleep
        || (At(g, p, Out) && p != g.init && g' == Go(g, p, Exiting))      // init exiting panics
        || (At(g, p, Out) && g' == Go(g, p, Taking))
        || (p < |g.pc| && g.pc[p].Filling? && g.pc[p].child < |g.parent| && g.parent[g.pc[p].child] == p
            && g' == Go(g, p, Publishing(g.pc[p].child))))
  }

  ghost predicate WaitUpdate(g: Table, p: nat, g': Table) {
    && Sized(g)
    && (|| (At(g, p, Scanning) && exists i: nat :: DeadChild(g, i, p) && g' == Reap(g, p, i))
        || (At(g, p, Told) && g' == Go(Orphaned(g, p), p, if exists i: nat :: DeadChild(g, i, p) then Moved else Ready))
        || (At(g, p, Taking) && exists i: nat :: i < |g.kind| && g.kind[i] == Unused && g' == Take(g, p, i))
        || (At(g, p, Taking) && g' == Go(g, p, Published))                // no free slot
        || (p < |g.pc| && g.pc[p].Publishing? && g.pc[p].child < |g.kind| && g' == Publish(g, p, g.pc[p].child)))
  }

  function Reap(g: Table, p: nat, i: nat): Table
    requires Sized(g) && p < |g.pc| && i < |g.pc|
  {
    Go(g.(kind := g.kind[i := Unused], parent := g.parent[i := NONE]), p, Reaped)
  }

  function Take(g: Table, p: nat, i: nat): Table
    requires Sized(g) && p < |g.pc| && i < |g.pc|
  {
    Go(g.(kind := g.kind[i := Embryo]), p, Took(i))
  }

  function Publish(g: Table, p: nat, i: nat): Table
    requires Sized(g) && p < |g.pc| && i < |g.pc|
  {
    Go(g.(kind := g.kind[i := Live]), p, Published)
  }

  predicate WaitWake(g: Table, p: nat, c: nat, g': Table) {
    || (At(g, p, Exiting) && p < |g.parent| && c == g.parent[p] && g' == Go(g, p, Told))
    || (At(g, p, Moved) && c == g.init && g' == Go(g, p, Ready))
  }

  predicate WaitLeave(g: Table, p: nat, g': Table) {
    || (At(g, p, Reaped) && g' == Go(g, p, Out))
    || (At(g, p, Scanning) && g' == Go(g, p, Out))                        // no children, or killed
    || (p < |g.pc| && g.pc[p].Took? && g' == Go(g, p, Filling(g.pc[p].child)))
    || (At(g, p, Published) && g' == Go(g, p, Out))
    || (At(g, p, Ready) && p < |g.kind| && g' == Go(g.(kind := g.kind[p := Zombie]), p, Out))
  }

  ghost predicate WaitDoze(g: Table, p: nat, c: nat, g': Table) {
    At(g, p, Scanning) && Sized(g) && c == p && (forall i: nat :: !DeadChild(g, i, p)) && g' == g
  }

  /** fork fills in the slot it took, or gives it back, without the lock. */
  predicate WaitSilent(g: Table, p: nat, g': Table) {
    && p < |g.pc| && g.pc[p].Filling? && g.pc[p].child < |g.kind| == |g.parent|
    && (|| g' == g.(parent := g.parent[g.pc[p].child := p])
        || (g.parent[g.pc[p].child] == NONE && g' == Go(g.(kind := g.kind[g.pc[p].child := Unused]), p, Out)))
  }

  ghost function WaitClient(): Client<Table> {
    Client(true, TableInit, TableInv, WaitCond, WaitOwes, WaitQuiet, WaitEnter, WaitUpdate, WaitWake, WaitLeave,
           WaitDoze, WaitSilent)
  }

  // ----- each kind of step

  /** p's program counter moves, with the slot it makes unchanged or given up. */
  lemma PcMoves(g: Table, p: nat, pc: PC, h: int, h': int)
    requires TableInv(g, h) && p < |g.pc| && g.kind[p] == Live && (h == p || h == NOBODY)
    requires Slot(pc) == NONE || Slot(pc) == Slot(g.pc[p])
    requires !pc.Moved? && (pc.Ready? ==> g.pc[p].Moved?)
    requires pc.Exiting? || pc.Told? ==> p != g.init
    requires h' == p || (h' == NOBODY && !Inside(Go(g, p, pc), p))
    ensures TableInv(Go(g, p, pc), h')
  {
    var g' := Go(g, p, pc);
    forall q: nat | q < |g.pc| ensures ProcInv(g', q, h') {
      assert ProcInv(g, q, h);
      SameKids(g, g', q);
    }
  }

  lemma SameKids(g: Table, g': Table, q: nat)
    requires Sized(g) && Sized(g') && |g'.kind| == |g.kind|
    requires forall i: nat :: i < |g.kind| && g'.parent[i] == q ==> g.parent[i] == q
    ensures NoChild(g, q) ==> NoChild(g', q)
  {
    forall i: nat ensures Child(g', i, q) ==> Child(g, i, q) {
    }
  }

  lemma SameChildren(g: Table, p: nat, g': Table)
    requires Sized(g) && Sized(g') && g'.kind == g.kind && g'.parent == g.parent
    ensures Falsifies(WaitClient(), g, p, g', {})
  {
    forall i: nat, q: nat ensures DeadChild(g', i, q) == DeadChild(g, i, q) {
    }
  }

  lemma EnterIsOk(g: Table, p: nat, g': Table)
    requires TableInv(g, NOBODY) && WaitEnter(g, p, g')
    ensures EnterOk(WaitClient(), g, p, g')
  {
    SameChildren(g, p, g');
    assert g' == Go(g, p, g'.pc[p]);
    PcMoves(g, p, g'.pc[p], NOBODY, p);
    hide TableInv, Falsifies;
  }

  lemma WakeIsOk(g: Table, p: nat, c: nat, g': Table)
    requires TableInv(g, p) && WaitWake(g, p, c, g')
    ensures WakeOk(WaitClient(), g, p, c, g')
  {
    SameChildren(g, p, g');
    assert ProcInv(g, p, p);
    PcMoves(g, p, g'.pc[p], p, p);
    hide TableInv, Falsifies;
  }

  lemma DozeIsOk(g: Table, p: nat, c: nat, g': Table)
    requires TableInv(g, p) && WaitDoze(g, p, c, g')
    ensures DozeOk(WaitClient(), g, p, c, g')
  {
    SameChildren(g, p, g');
    assert g' == Go(g, p, Scanning);
    assert ProcInv(g, p, p);
    PcMoves(g, p, Scanning, p, NOBODY);
    hide TableInv, Falsifies;
  }

  /** exit ends: the process becomes a ZOMBIE, which only its parent's wait condition notices. */
  lemma ZombieKeeps(g: Table, p: nat, g': Table)
    requires TableInv(g, p) && At(g, p, Ready) && g' == Go(g.(kind := g.kind[p := Zombie]), p, Out)
    ensures TableInv(g', NOBODY)
  {
    assert ProcInv(g, p, p);
    forall q: nat | q < |g.pc| ensures ProcInv(g', q, NOBODY) {
      assert ProcInv(g, q, p);
      SameKids(g, g', q);
    }
  }

  lemma ZombieIsOk(g: Table, p: nat, g': Table)
    requires TableInv(g, p) && At(g, p, Ready) && g' == Go(g.(kind := g.kind[p := Zombie]), p, Out)
    ensures LeaveOk(WaitClient(), g, p, g')
  {
    ZombieKeeps(g, p, g');
    hide Apart, ProcInv;
    forall q: nat, c: nat | WaitCond(g, q, c) && !WaitCond(g', q, c) ensures g.parent[p] == c {
      var i: nat :| DeadChild(g', i, q);
      assert !DeadChild(g, i, q);
    }
    hide TableInv;
  }

  lemma LeaveIsOk(g: Table, p: nat, g': Table)
    requires TableInv(g, p) && WaitLeave(g, p, g')
    ensures LeaveOk(WaitClient(), g, p, g')
  {
    if At(g, p, Ready) {
      ZombieIsOk(g, p, g');
    } else {
      SameChildren(g, p, g');
      assert ProcInv(g, p, p);
      PcMoves(g, p, g'.pc[p], p, NOBODY);
      hide TableInv, Falsifies;
    }
  }

  lemma ReapKeeps(g: Table, p: nat, i: nat, g': Table)
    requires TableInv(g, p) && At(g, p, Scanning) && DeadChild(g, i, p) && g' == Reap(g, p, i)
    ensures TableInv(g', p)
  {
    assert ProcInv(g, i, p) && ProcInv(g, p, p);
    forall q: nat | q < |g.pc| ensures ProcInv(g', q, p) {
      assert ProcInv(g, q, p);
      SameKids(g, g', q);
    }
  }

  lemma ReapIsOk(g: Table, p: nat, i: nat, g': Table)
    requires TableInv(g, p) && At(g, p, Scanning) && DeadChild(g, i, p) && g' == Reap(g, p, i)
    ensures UpdateOk(WaitClient(), g, p, g')
  {
    ReapKeeps(g, p, i, g');
    NoNewZombie(g, p, g');
    hide TableInv, Falsifies;
  }

  /** A slot that is not a ZOMBIE changes hands. */
  lemma NoNewZombie(g: Table, p: nat, g': Table)
    requires Sized(g) && Sized(g') && |g'.kind| == |g.kind|
    requires forall i: nat :: i < |g.kind| && g'.kind[i] == Zombie ==>
      g.kind[i] == Zombie && g'.parent[i] == g.parent[i]
    ensures Falsifies(WaitClient(), g, p, g', {})
  {
    forall i: nat, q: nat ensures DeadChild(g', i, q) ==> DeadChild(g, i, q) {
    }
  }

  lemma TakeKeeps(g: Table, p: nat, i: nat, g': Table)
    requires TableInv(g, p) && At(g, p, Taking) && i < |g.kind| && g.kind[i] == Unused && g' == Take(g, p, i)
    ensures TableInv(g', p)
  {
    assert ProcInv(g, p, p);
    forall q: nat | q < |g.pc| ensures ProcInv(g', q, p) && (q != p ==> Slot(g'.pc[q]) != i) {
      assert ProcInv(g, q, p);
      SameKids(g, g', q);
    }
  }

  lemma TakeIsOk(g: Table, p: nat, i: nat, g': Table)
    requires TableInv(g, p) && At(g, p, Taking) && i < |g.kind| && g.kind[i] == Unused && g' == Take(g, p, i)
    ensures UpdateOk(WaitClient(), g, p, g')
  {
    TakeKeeps(g, p, i, g');
    NoNewZombie(g, p, g');
    hide TableInv, Falsifies;
  }

  lemma PublishKeeps(g: Table, p: nat, g': Table)
    requires TableInv(g, p) && p < |g.pc| && g.pc[p].Publishing? && g.pc[p].child < |g.kind|
    requires g' == Publish(g, p, g.pc[p].child)
    ensures TableInv(g', p) && g.kind[g.pc[p].child] == Embryo
  {
    assert ProcInv(g, p, p) && Slot(g.pc[p]) == g.pc[p].child;
    forall q: nat | q < |g.pc| ensures ProcInv(g', q, p) {
      assert ProcInv(g, q, p);
      SameKids(g, g', q);
    }
  }

  lemma PublishIsOk(g: Table, p: nat, g': Table)
    requires TableInv(g, p) && p < |g.pc| && g.pc[p].Publishing? && g.pc[p].child < |g.kind|
    requires g' == Publish(g, p, g.pc[p].child)
    ensures UpdateOk(WaitClient(), g, p, g')
  {
    PublishKeeps(g, p, g');
    NoNewZombie(g, p, g');
    hide TableInv, Falsifies;
  }

  /** exit gives its children away: only init's wait condition can stop holding. */
  lemma OrphanKeeps(g: Table, p: nat, g': Table)
    requires TableInv(g, p) && At(g, p, Told)
    requires g' == Go(Orphaned(g, p), p, if exists i: nat :: DeadChild(g, i, p) then Moved else Ready)
    ensures TableInv(g', p) && p != g.init && g'.parent[p] == g.parent[p]
  {
    assert ProcInv(g, p, p);
    forall q: nat | q < |g.pc| ensures ProcInv(g', q, p) {
      assert ProcInv(g, q, p);
    }
  }

  lemma OrphanIsOk(g: Table, p: nat, g': Table)
    requires TableInv(g, p) && At(g, p, Told)
    requires g' == Go(Orphaned(g, p), p, if exists i: nat :: DeadChild(g, i, p) then Moved else Ready)
    ensures UpdateOk(WaitClient(), g, p, g')
  {
    OrphanKeeps(g, p, g');
    hide Apart, ProcInv;
    forall q: nat, c: nat | WaitCond(g, q, c) && !WaitCond(g', q, c) ensures c == g.init && g'.pc[p] == Moved {
      var i: nat :| DeadChild(g', i, q);
      assert !DeadChild(g, i, q);
      assert DeadChild(g, i, p);
    }
    hide TableInv;
  }

  lemma UpdateIsOk(g: Table, p: nat, g': Table)
    requires TableInv(g, p) && WaitUpdate(g, p, g')
    ensures UpdateOk(WaitClient(), g, p, g')
  {
    hide UpdateOk, Reap, Take, Publish;
    if At(g, p, Scanning) {
      var i: nat :| DeadChild(g, i, p) && g' == Reap(g, p, i);
      ReapIsOk(g, p, i, g');
    } else if At(g, p, Told) {
      OrphanIsOk(g, p, g');
    } else if At(g, p, Taking) && g' != Go(g, p, Published) {
      var i: nat :| i < |g.kind| && g.kind[i] == Unused && g' == Take(g, p, i);
      TakeIsOk(g, p, i, g');
    } else if At(g, p, Taking) {
      FullIsOk(g, p, g');
    } else {
      PublishIsOk(g, p, g');
    }
  }

  lemma FullIsOk(g: Table, p: nat, g': Table)
    requires TableInv(g, p) && At(g, p, Taking) && g' == Go(g, p, Published)
    ensures UpdateOk(WaitClient(), g, p, g')
  {
    SameChildren(g, p, g');
    assert ProcInv(g, p, p);
    PcMoves(g, p, Published, p, p);
    hide TableInv, Falsifies;
  }

  lemma SilentKeeps(g: Table, p: nat, g': Table, h: int)
    requires TableInv(g, h) && h != p && WaitSilent(g, p, g')
    ensures TableInv(g', h) && Falsifies(WaitClient(), g, p, g', {})
  {
    assert ProcInv(g, p, h) && Slot(g.pc[p]) == g.pc[p].child;
    NoNewZombie(g, p, g');
    forall q: nat | q < |g.pc| ensures ProcInv(g', q, h) {
      assert ProcInv(g, q, h);
      SameKidsBut(g, g', q, p);
    }
    hide Falsifies;
  }

  lemma SameKidsBut(g: Table, g': Table, q: nat, p: nat)
    requires Sized(g) && Sized(g') && |g'.kind| == |g.kind|
    requires forall i: nat :: i < |g.kind| ==> g'.parent[i] == g.parent[i] || g'.parent[i] == p
    ensures q != p && NoChild(g, q) ==> NoChild(g', q)
  {
    if q != p {
      SameKids(g, g', q);
    }
  }

  lemma SilentIsOk(g: Table, p: nat, g': Table, h: int)
    requires TableInv(g, h) && h != p && WaitSilent(g, p, g')
    ensures SilentOk(WaitClient(), g, p, g', h)
  {
    SilentKeeps(g, p, g', h);
    if TableInv(g, NOBODY) {
      SilentKeeps(g, p, g', NOBODY);
    }
    if 0 <= h {
      assert At(g', h, Told) == At(g, h, Told) && At(g', h, Moved) == At(g, h, Moved)
        && At(g', h, Ready) == At(g, h, Ready);
      if At(g, h, Told) || At(g, h, Moved) || At(g, h, Ready) {
        assert ProcInv(g, h, h) && ProcInv(g, p, h) && Slot(g.pc[p]) == g.pc[p].child;
      }
    }
    hide TableInv, Falsifies;
  }

  lemma InitInv(g: Table)
    requires TableInit(g)
    ensures TableInv(g, NOBODY)
  {
  }

  lemma WaitHonest()
    ensures Honest(WaitClient())
  {
    hide TableInv, EnterOk, UpdateOk, WakeOk, LeaveOk, DozeOk, SilentOk, WaitEnter, WaitUpdate, WaitWake, WaitLeave;
    hide WaitDoze, WaitSilent;
    var cl := WaitClient();
    forall g | TableInit(g) ensures TableInv(g, NOBODY) {
      InitInv(g);
    }
    forall g, p: nat, g' | TableInv(g, NOBODY) && WaitEnter(g, p, g') ensures EnterOk(cl, g, p, g') {
      EnterIsOk(g, p, g');
    }
    forall g, p: nat, g' | TableInv(g, p) && WaitUpdate(g, p, g') ensures UpdateOk(cl, g, p, g') {
      UpdateIsOk(g, p, g');
    }
    forall g, p: nat, c: nat, g' | TableInv(g, p) && WaitWake(g, p, c, g') ensures WakeOk(cl, g, p, c, g') {
      WakeIsOk(g, p, c, g');
    }
    forall g, p: nat, g' | TableInv(g, p) && WaitLeave(g, p, g') ensures LeaveOk(cl, g, p, g') {
      LeaveIsOk(g, p, g');
    }
    forall g, p: nat, c: nat, g' | TableInv(g, p) && WaitDoze(g, p, c, g') ensures DozeOk(cl, g, p, c, g') {
      DozeIsOk(g, p, c, g');
    }
    forall g, p: nat, g', h | TableInv(g, h) && h != p && WaitSilent(g, p, g') ensures SilentOk(cl, g, p, g', h) {
      SilentIsOk(g, p, g', h);
    }
  }

  /** A parent asleep in wait while ptable.lock is free has no ZOMBIE child. */
  lemma SleepersWaitForChildren(ss: seq<Sys<Table>>, acts: seq<Action<Table>>, t: nat, q: nat)
    requires IsRun(WaitClient(), ss, acts) && t < |ss| && q < |ss[t].st|
    requires ss[t].lk == NOBODY && !ss[t].st[q].Awake?
    ensures Sized(ss[t].g) && forall i: nat :: !DeadChild(ss[t].g, i, q)
  {
    WaitHonest();
    NoLostWakeup(WaitClient(), ss, acts, t, q);
    assert WaitCond(ss[t].g, q, ss[t].st[q].chan);
  }
}
