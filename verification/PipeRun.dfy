/** Any number of readers and writers of one pipe, and its two closes. */
module PipeRun {
  import opened Bytes
  import opened Sleep
  import opened Pipe

  /** Where a process is. With the pipe's lock held: in pipewrite at byte i of addr, `unsaid` when it
      has stored bytes since it last woke the readers, or about to sleep, or finished; in piperead
      copying, or finished; in pipeclose before and after its wakeup. Reading and Blocked are also
      where readers and writers sleep. */
  datatype PC =
    | Out
    | Writing(addr: seq<Byte>, i: nat, unsaid: bool)
    | Blocked(addr: seq<Byte>, i: nat)
    | Wrote
    | Reading(n: nat)
    | Copying(n: nat, got: seq<Byte>)
    | Read(n: nat, got: seq<Byte>)
    | Closing(writable: bool)
    | Shut(writable: bool)
    | Closed

  /** The ring, where each process is, and all bytes ever stored and ever taken. */
  datatype World = World(ring: Ring, pc: seq<PC>, stored: seq<Byte>, taken: seq<Byte>)

  const NREAD: nat := 0              // the channels: the addresses of nread and nwrite
  const NWRITE: nat := 1

  predicate At(w: World, p: nat) {
    p < |w.pc|
  }

  function Go(w: World, p: nat, pc: PC): World
    requires At(w, p)
  {
    w.(pc := w.pc[p := pc])
  }

  predicate Writer(pc: PC) {
    pc.Writing? || pc.Blocked? || pc.Wrote?
  }

  predicate Reader(pc: PC) {
    pc.Reading? || pc.Copying? || pc.Read?
  }

  predicate Inside(pc: PC) {
    pc.Writing? || pc.Wrote? || pc.Copying? || pc.Read? || pc.Closing? || pc.Shut? || pc.Closed?
  }

  ghost predicate PipeInit(w: World) {
    w.ring == Empty() && w.stored == w.taken == [] && forall p: nat :: At(w, p) ==> w.pc[p] == Out
  }

  /** An end is closed with its last reference: nobody is inside a call on it. */
  ghost predicate MayClose(w: World, writable: bool) {
    if writable then w.ring.writeopen && forall q: nat :: At(w, q) ==> !Writer(w.pc[q])
    else w.ring.readopen && forall q: nat :: At(w, q) ==> !Reader(w.pc[q])
  }

  /** got are the last bytes of all. */
  predicate Latest(all: seq<Byte>, got: seq<Byte>) {
    |got| <= |all| && got == all[|all| - |got|..]
  }

  ghost predicate ProcInv(w: World, p: nat, h: int)
    requires At(w, p) && Ok(w.ring)
  {
    var pc := w.pc[p];
    && (Inside(pc) ==> p == h)
    && (Writer(pc) ==> w.ring.writeopen)
    && (Reader(pc) ==> w.ring.readopen)
    && (pc.Copying? && pc.got == [] && pc.n > 0 && IsEmpty(w.ring) ==> !w.ring.writeopen)
    && (pc.Read? && pc.got == [] && pc.n > 0 ==> IsEmpty(w.ring) && !w.ring.writeopen)
    && (pc.Copying? || pc.Read? ==> |pc.got| <= pc.n && Latest(w.taken, pc.got))
    && (pc.Writing? ==> pc.i <= |pc.addr|)
    && (pc.Blocked? ==> pc.i < |pc.addr|)
    && (pc.Closing? ==> MayClose(w, pc.writable))
  }

  /** What was stored is what was taken and what the ring holds. */
  ghost predicate PipeInv(w: World, h: int) {
    && Ok(w.ring) && w.stored == w.taken + Contents(w.ring)
    && forall p: nat :: At(w, p) ==> ProcInv(w, p, h)
  }

  predicate PipeCond(w: World, p: nat, c: nat) {
    At(w, p) && (
      || (c == NREAD && w.pc[p].Reading? && IsEmpty(w.ring) && w.ring.writeopen)
      || (c == NWRITE && w.pc[p].Blocked? && IsFull(w.ring) && w.ring.readopen))
  }

  function PipeOwes(w: World, h: int): set<nat> {
    if !(0 <= h < |w.pc|) then {}
    else match w.pc[h]
      case Writing(_, _, unsaid) => if unsaid && w.ring.readopen then {NREAD} else {}
      case Copying(_, got) => if got == [] then {} else {NWRITE}
      case Shut(writable) => if writable then {NREAD} else {NWRITE}
      case _ => {}
  }

  function PipeQuiet(w: World, h: int): set<nat> {
    {}
  }

  ghost predicate PipeEnter(w: World, p: nat, w': World) {
    At(w, p) && match w.pc[p]
      case Out =>
        || (w.ring.writeopen && exists addr :: w' == Go(w, p, Writing(addr, 0, false)))
        || (w.ring.readopen && exists n :: w' == Go(w, p, Reading(n)))
        || (MayClose(w, true) && w' == Go(w, p, Closing(true)))
        || (MayClose(w, false) && w' == Go(w, p, Closing(false)))
      case Reading(n) => w' == w                                          // back from sleep
      case Blocked(addr, i) => w' == Go(w, p, Writing(addr, i, false))    // back from sleep
      case _ => false
  }

  predicate PipeUpdate(w: World, p: nat, w': World) {
    At(w, p) && Ok(w.ring) && match w.pc[p]
      case Writing(addr, i, _) =>
        i < |addr| && !IsFull(w.ring)
        && w' == Go(w.(ring := Stored(w.ring, addr[i]), stored := w.stored + [addr[i]]), p, Writing(addr, i + 1, true))
      case Reading(n) => !(IsEmpty(w.ring) && w.ring.writeopen) && w' == Go(w, p, Copying(n, []))
      case Copying(n, got) =>
        |got| < n && !IsEmpty(w.ring)
        && w' == Go(w.(ring := Taken(w.ring), taken := w.taken + [First(w.ring)]), p, Copying(n, got + [First(w.ring)]))
      case Closing(writable) =>
        var ring := if writable then w.ring.(writeopen := false) else w.ring.(readopen := false);
        w' == Go(w.(ring := ring), p, Shut(writable))
      case _ => false
  }

  predicate PipeWake(w: World, p: nat, c: nat, w': World) {
    At(w, p) && match w.pc[p]
      case Writing(addr, i, _) =>
        c == NREAD &&
        if i >= |addr| then w' == Go(w, p, Wrote)
        else IsFull(w.ring) && w.ring.readopen && w' == Go(w, p, Writing(addr, i, false))
      case Copying(n, got) => c == NWRITE && (|got| >= n || IsEmpty(w.ring)) && w' == Go(w, p, Read(n, got))
      case Shut(writable) => c == (if writable then NREAD else NWRITE) && w' == Go(w, p, Closed)
      case _ => false
  }

  /** With `kills`, a writer may find itself killed at a full pipe although it has stored bytes since
      it last woke the readers. */
  predicate PipeLeave(kills: bool, w: World, p: nat, w': World) {
    At(w, p) && w' == Go(w, p, Out) && match w.pc[p]
      case Writing(addr, i, unsaid) => i < |addr| && IsFull(w.ring) && (!w.ring.readopen || !unsaid || kills)
      case Wrote | Read(_, _) | Closed => true
      case Reading(n) => IsEmpty(w.ring) && w.ring.writeopen              // killed
      case _ => false
  }

  predicate PipeDoze(w: World, p: nat, c: nat, w': World) {
    At(w, p) && match w.pc[p]
      case Writing(addr, i, unsaid) =>
        i < |addr| && !unsaid && IsFull(w.ring) && w.ring.readopen && c == NWRITE && w' == Go(w, p, Blocked(addr, i))
      case Reading(n) => IsEmpty(w.ring) && w.ring.writeopen && c == NREAD && w' == w
      case _ => false
  }

  predicate PipeSilent(w: World, p: nat, w': World) {
    false
  }

  ghost function PipeClient(kills: bool): Client<World> {
    Client(false, PipeInit, PipeInv, PipeCond, PipeOwes, PipeQuiet, PipeEnter, PipeUpdate, PipeWake,
           (w, p, w') => PipeLeave(kills, w, p, w'), PipeDoze, PipeSilent)
  }

  // ----- every step keeps the invariant

  lemma InitInv(w: World)
    requires PipeInit(w)
    ensures PipeInv(w, NOBODY)
  {
    assert Contents(w.ring) == [];
  }

  /** p's step leaves the ring alone, or changes it in a way that the other processes, none of which
      holds the lock, cannot tell from their places. */
  lemma Moves(w: World, p: nat, w': World, h: int, h': int)
    requires PipeInv(w, h) && At(w, p) && (h == p || h == NOBODY) && |w'.pc| == |w.pc| && w'.pc == w.pc[p := w'.pc[p]]
    requires Ok(w'.ring) && w'.stored == w'.taken + Contents(w'.ring) && ProcInv(w', p, h')
    requires w.ring.writeopen && !w'.ring.writeopen ==> forall q: nat :: At(w, q) && q != p ==> !Writer(w.pc[q])
    requires w.ring.readopen && !w'.ring.readopen ==> forall q: nat :: At(w, q) && q != p ==> !Reader(w.pc[q])
    ensures PipeInv(w', h')
  {
    hide Contents, Ok;
    forall q: nat | At(w', q) ensures ProcInv(w', q, h') {
      assert ProcInv(w, q, h);
    }
  }

  lemma EnterKeeps(w: World, p: nat, w': World)
    requires PipeInv(w, NOBODY) && PipeEnter(w, p, w')
    ensures PipeInv(w', p)
  {
    hide Contents, Ok;
    assert ProcInv(w, p, NOBODY);
    Moves(w, p, w', NOBODY, p);
  }

  lemma UpdateKeeps(w: World, p: nat, w': World)
    requires PipeInv(w, p) && PipeUpdate(w, p, w')
    ensures PipeInv(w', p)
  {
    assert ProcInv(w, p, p);
    if w.pc[p].Writing? {
      StoreAppends(w.ring, w'.stored[|w.stored|]);
      assert w'.stored == w'.taken + Contents(w'.ring);
    } else if w.pc[p].Copying? {
      TakeRemovesFirst(w.ring);
      Regroup(w.taken, First(w.ring), Contents(w'.ring));
    } else {
      assert Contents(w'.ring) == Contents(w.ring);
    }
    hide Contents;
    Moves(w, p, w', p, p);
  }

  lemma WakeKeeps(w: World, p: nat, c: nat, w': World)
    requires PipeInv(w, p) && PipeWake(w, p, c, w')
    ensures PipeInv(w', p)
  {
    hide Contents, Ok;
    assert ProcInv(w, p, p);
    Moves(w, p, w', p, p);
  }

  lemma LeaveKeeps(kills: bool, w: World, p: nat, w': World)
    requires PipeInv(w, p) && PipeLeave(kills, w, p, w')
    ensures PipeInv(w', NOBODY)
  {
    hide Contents, Ok;
    assert ProcInv(w, p, p);
    Moves(w, p, w', p, NOBODY);
  }

  lemma DozeKeeps(w: World, p: nat, c: nat, w': World, h: int)
    requires PipeInv(w, p) && PipeDoze(w, p, c, w') && (h == p || h == NOBODY)
    ensures PipeInv(w', h)
  {
    hide Contents, Ok;
    assert ProcInv(w, p, p);
    Moves(w, p, w', p, h);
  }

  lemma PipeLawful(kills: bool)
    ensures Lawful(PipeClient(kills))
  {
    hide PipeInv, PipeInit, PipeEnter, PipeUpdate, PipeWake, PipeLeave, PipeDoze;
    forall w | PipeInit(w) ensures PipeInv(w, NOBODY) {
      InitInv(w);
    }
    forall w, p: nat, w' | PipeInv(w, NOBODY) && PipeEnter(w, p, w') ensures PipeInv(w', p) {
      EnterKeeps(w, p, w');
    }
    forall w, p: nat, w' | PipeInv(w, p) && PipeUpdate(w, p, w') ensures PipeInv(w', p) {
      UpdateKeeps(w, p, w');
    }
    forall w, p: nat, c: nat, w' | PipeInv(w, p) && PipeWake(w, p, c, w') ensures PipeInv(w', p) {
      WakeKeeps(w, p, c, w');
    }
    forall w, p: nat, w' | PipeInv(w, p) && PipeLeave(kills, w, p, w') ensures PipeInv(w', NOBODY) {
      LeaveKeeps(kills, w, p, w');
    }
    forall w, p: nat, c: nat, w' | PipeInv(w, p) && PipeDoze(w, p, c, w')
      ensures PipeInv(w', p) && PipeInv(w', NOBODY)
    {
      DozeKeeps(w, p, c, w', p);
      DozeKeeps(w, p, c, w', NOBODY);
    }
  }

  // ----- first in, first out

  /** In every state of every run: the bytes taken so far are the first of the bytes stored so far,
      the rest is in the ring, and the ring never holds more than PIPESIZE, wherever the 32-bit
      counters stand. */
  lemma FirstInFirstOut(kills: bool, ss: seq<Sys<World>>, acts: seq<Action<World>>, t: nat)
    requires IsRun(PipeClient(kills), ss, acts) && t < |ss|
    ensures Ok(ss[t].g.ring) && ss[t].g.stored == ss[t].g.taken + Contents(ss[t].g.ring)
    ensures ss[t].g.taken <= ss[t].g.stored && |ss[t].g.stored| - |ss[t].g.taken| == Count(ss[t].g.ring) <= PIPESIZE
  {
    PipeLawful(kills);
    RunLawful(PipeClient(kills), ss, acts, t);
    assert PipeInv(ss[t].g, ss[t].lk);
  }

  /** What a piperead returns is what was taken from the pipe during it: the bytes stored that come right
      after all those taken before, in order, and no more than asked for. */
  lemma ReadTakesNext(kills: bool, ss: seq<Sys<World>>, acts: seq<Action<World>>, t: nat, p: nat)
    requires IsRun(PipeClient(kills), ss, acts) && t < |acts| && p < |ss[t].g.pc|
    requires acts[t].Leave? && acts[t].p == p && ss[t].g.pc[p].Read?
    ensures var w, got := ss[t].g, ss[t].g.pc[p].got;
      && |got| <= ss[t].g.pc[p].n && Latest(w.taken, got)
      && |w.taken| <= |w.stored| && got == w.stored[|w.taken| - |got|..|w.taken|]
  {
    PipeLawful(kills);
    RunLawful(PipeClient(kills), ss, acts, t);
    assert PipeInv(ss[t].g, ss[t].lk) && ProcInv(ss[t].g, p, ss[t].lk);
    hide IsRun, Contents;
    assert ss[t].g.taken == ss[t].g.stored[..|ss[t].g.taken|];
  }

  /** piperead returns 0 for a positive n only when the pipe is empty and its write end closed. */
  lemma ZeroMeansEnd(kills: bool, ss: seq<Sys<World>>, acts: seq<Action<World>>, t: nat, p: nat)
    requires IsRun(PipeClient(kills), ss, acts) && t < |acts| && p < |ss[t].g.pc|
    requires acts[t].Leave? && acts[t].p == p && ss[t].g.pc[p].Read? && ss[t].g.pc[p].n > 0 && ss[t].g.pc[p].got == []
    ensures IsEmpty(ss[t].g.ring) && !ss[t].g.ring.writeopen
  {
    PipeLawful(kills);
    RunLawful(PipeClient(kills), ss, acts, t);
    assert PipeInv(ss[t].g, ss[t].lk) && ProcInv(ss[t].g, p, ss[t].lk);
  }

  // ----- wakeups

  lemma EnterIsOk(w: World, p: nat, w': World)
    requires PipeInv(w, NOBODY) && PipeEnter(w, p, w')
    ensures EnterOk(PipeClient(false), w, p, w')
  {
    EnterKeeps(w, p, w');
    hide PipeInv, MayClose;
  }

  lemma WakeIsOk(w: World, p: nat, c: nat, w': World)
    requires PipeInv(w, p) && PipeWake(w, p, c, w')
    ensures WakeOk(PipeClient(false), w, p, c, w')
  {
    WakeKeeps(w, p, c, w');
    hide PipeInv;
  }

  lemma LeaveIsOk(w: World, p: nat, w': World)
    requires PipeInv(w, p) && PipeLeave(false, w, p, w')
    ensures LeaveOk(PipeClient(false), w, p, w')
  {
    LeaveKeeps(false, w, p, w');
    hide PipeInv;
  }

  lemma DozeIsOk(w: World, p: nat, c: nat, w': World)
    requires PipeInv(w, p) && PipeDoze(w, p, c, w')
    ensures DozeOk(PipeClient(false), w, p, c, w')
  {
    DozeKeeps(w, p, c, w', p);
    DozeKeeps(w, p, c, w', NOBODY);
    hide PipeInv;
  }

  lemma UpdateIsOk(w: World, p: nat, w': World)
    requires PipeInv(w, p) && PipeUpdate(w, p, w')
    ensures UpdateOk(PipeClient(false), w, p, w')
  {
    UpdateKeeps(w, p, w');
    forall q: nat, c: nat | PipeCond(w, q, c) && !PipeCond(w', q, c) ensures c in PipeOwes(w', p) {
      assert ProcInv(w, q, p);
    }
    hide PipeInv;
  }

  lemma PipeHonest()
    ensures Honest(PipeClient(false))
  {
    hide PipeInv, PipeInit, PipeEnter, PipeUpdate, PipeWake, PipeLeave, PipeDoze, EnterOk, UpdateOk, WakeOk, LeaveOk;
    hide DozeOk, SilentOk;
    var cl := PipeClient(false);
    forall w | PipeInit(w) ensures PipeInv(w, NOBODY) {
      InitInv(w);
    }
    forall w, p: nat, w' | PipeInv(w, NOBODY) && PipeEnter(w, p, w') ensures EnterOk(cl, w, p, w') {
      EnterIsOk(w, p, w');
    }
    forall w, p: nat, w' | PipeInv(w, p) && PipeUpdate(w, p, w') ensures UpdateOk(cl, w, p, w') {
      UpdateIsOk(w, p, w');
    }
    forall w, p: nat, c: nat, w' | PipeInv(w, p) && PipeWake(w, p, c, w') ensures WakeOk(cl, w, p, c, w') {
      WakeIsOk(w, p, c, w');
    }
    forall w, p: nat, w' | PipeInv(w, p) && PipeLeave(false, w, p, w') ensures LeaveOk(cl, w, p, w') {
      LeaveIsOk(w, p, w');
    }
    forall w, p: nat, c: nat, w' | PipeInv(w, p) && PipeDoze(w, p, c, w') ensures DozeOk(cl, w, p, c, w') {
      DozeIsOk(w, p, c, w');
    }
  }

  /** A reader asleep while the lock is free finds the pipe empty and its write end open; a writer
      asleep finds it full and its read end open. */
  ghost predicate SleepersWait(s: Sys<World>) {
    s.lk == NOBODY ==> forall q: nat :: q < |s.st| && !s.st[q].Awake? ==> PipeCond(s.g, q, s.st[q].chan)
  }

  /** The branch that owes the readers a wakeup: a killed writer leaves at a full pipe although it has
      stored bytes since it last woke them. */
  predicate LateKill(s: Sys<World>, a: Action<World>) {
    && a.Leave? && At(s.g, a.p) && Ok(s.g.ring) && IsFull(s.g.ring) && s.g.ring.readopen
    && s.g.pc[a.p].Writing? && s.g.pc[a.p].unsaid
  }

  /** A reader is asleep or on its way there. */
  predicate ReaderSleeping(s: Sys<World>) {
    exists q :: 0 <= q < |s.st| && !s.st[q].Awake? && s.st[q].chan == NREAD
  }

  predicate Harmful(s: Sys<World>, a: Action<World>) {
    LateKill(s, a) && ReaderSleeping(s)
  }

  /** Any other step is one of the client without that branch. */
  lemma SameStep(s: Sys<World>, a: Action<World>, s': Sys<World>)
    requires Sleep.Step(PipeClient(true), s, a, s') && PipeInv(s.g, s.lk) && !LateKill(s, a)
    ensures Sleep.Step(PipeClient(false), s, a, s')
  {
    hide PipeInit, PipeEnter, PipeUpdate, PipeWake, PipeDoze, IsFull;
  }

  /** Without a sleeping reader nobody misses the wakeup. */
  lemma HarmlessKeeps(s: Sys<World>, a: Action<World>, s': Sys<World>)
    requires Inv(PipeClient(false), s) && Sleep.Step(PipeClient(true), s, a, s') && LateKill(s, a) && !ReaderSleeping(s)
    ensures Inv(PipeClient(false), s')
  {
    LeaveKeeps(true, s.g, a.p, s'.g);
    hide PipeInv, IsFull, IsEmpty;
    forall q | 0 <= q < |s'.st| ensures ProcOk(PipeClient(false), s', q) {
      assert ProcOk(PipeClient(false), s, q);
    }
  }

  lemma {:induction false} HarmlessRun(ss: seq<Sys<World>>, acts: seq<Action<World>>, t: nat)
    requires IsRun(PipeClient(true), ss, acts) && t < |ss| && Honest(PipeClient(false))
    requires forall u :: 0 <= u < t ==> !Harmful(ss[u], acts[u])
    ensures Inv(PipeClient(false), ss[t])
  {
    hide Honest, Inv, Sleep.Step, PipeInit, Harmful;
    if t == 0 {
      InitialInv(PipeClient(false), ss[0]);
    } else {
      HarmlessRun(ss, acts, t - 1);
      assert Sleep.Step(PipeClient(true), ss[t - 1], acts[t - 1], ss[t]) && !Harmful(ss[t - 1], acts[t - 1]);
      HarmlessStep(ss[t - 1], acts[t - 1], ss[t]);
    }
  }

  lemma HarmlessStep(s: Sys<World>, a: Action<World>, s': Sys<World>)
    requires Honest(PipeClient(false)) && Inv(PipeClient(false), s)
    requires Sleep.Step(PipeClient(true), s, a, s') && !Harmful(s, a)
    ensures Inv(PipeClient(false), s')
  {
    InvOf(s);
    hide Honest, Inv, Sleep.Step, LateKill, ReaderSleeping, PipeInv;
    if LateKill(s, a) {
      HarmlessKeeps(s, a, s');
    } else {
      SameStep(s, a, s');
      StepKeeps(PipeClient(false), s, a, s');
    }
  }

  lemma InvOf(s: Sys<World>)
    requires Inv(PipeClient(false), s)
    ensures PipeInv(s.g, s.lk)
  {
  }

  lemma InvWaits(s: Sys<World>)
    requires Inv(PipeClient(false), s)
    ensures SleepersWait(s)
  {
    hide PipeInv;
    if s.lk == NOBODY {
      forall q: nat | q < |s.st| && !s.st[q].Awake? ensures PipeCond(s.g, q, s.st[q].chan) {
        assert ProcOk(PipeClient(false), s, q);
      }
    }
  }

  /** In every state of every run, until a writer is killed in that branch beside a sleeping reader. */
  lemma SleepersWaitForPipe(ss: seq<Sys<World>>, acts: seq<Action<World>>, t: nat)
    requires IsRun(PipeClient(true), ss, acts) && t < |ss|
    requires forall u :: 0 <= u < t ==> !Harmful(ss[u], acts[u])
    ensures SleepersWait(ss[t])
  {
    PipeHonest();
    hide Honest, IsRun, Inv;
    HarmlessRun(ss, acts, t);
    InvWaits(ss[t]);
  }

  // ----- the killed writer

  /** One byte more than the pipe takes. */
  function Long(): seq<Byte> {
    seq(PIPESIZE + 1, _ => 0)
  }

  /** A reader sleeps; the writer holds the lock and has stored k bytes without waking it. */
  ghost predicate Stuck(s: Sys<World>, k: nat) {
    && s.st == [Asleep(NREAD), Awake] && s.lk == 1 && s.pt == NOBODY
    && s.g.pc == [Reading(1), Writing(Long(), k, k > 0)]
    && Ok(s.g.ring) && Count(s.g.ring) == k && s.g.ring.readopen && s.g.ring.writeopen
  }

  /** A run that goes on with one more action. */
  lemma OneMore(ss: seq<Sys<World>>, acts: seq<Action<World>>, a: Action<World>, s: Sys<World>)
    requires IsRun(PipeClient(true), ss, acts) && Enabled(PipeClient(true), ss[|acts|], a)
    requires s == Next(PipeClient(true), ss[|acts|], a)
    ensures IsRun(PipeClient(true), ss + [s], acts + [a]) && (ss + [s])[|acts + [a]|] == s
  {
    Extend(PipeClient(true), ss, acts, a);
  }

  lemma ReaderAsks() returns (ss: seq<Sys<World>>, acts: seq<Action<World>>)
    ensures IsRun(PipeClient(true), ss, acts)
    ensures ss[|acts|] == Sys(World(Empty(), [Reading(1), Out], [], []), 0, NOBODY, [Awake, Awake])
  {
    var w0 := World(Empty(), [Out, Out], [], []);
    var w1 := Go(w0, 0, Reading(1));
    var s0 := Sys(w0, NOBODY, NOBODY, [Awake, Awake]);
    StartsRun(s0);
    assert w1.pc == [Reading(1), Out];
    OneMore([s0], [], Enter(0, w1), s0.(g := w1, lk := 0));
    ss, acts := [s0] + [s0.(g := w1, lk := 0)], [] + [Enter(0, w1)];
  }

  lemma ReaderDozes() returns (ss: seq<Sys<World>>, acts: seq<Action<World>>)
    ensures IsRun(PipeClient(true), ss, acts)
    ensures ss[|acts|] == Sys(World(Empty(), [Reading(1), Out], [], []), NOBODY, NOBODY, [Asleep(NREAD), Awake])
  {
    hide IsRun;
    ss, acts := ReaderAsks();
    var s1 := ss[|acts|];
    var s2, s3 := s1.(pt := 0, st := [Both(NREAD), Awake]), s1.(lk := NOBODY, pt := 0, st := [Released(NREAD), Awake]);
    var s4 := s1.(lk := NOBODY, st := [Asleep(NREAD), Awake]);
    assert s2.st == s1.st[0 := Both(NREAD)] && s3.st == s2.st[0 := Released(NREAD)]
      && s4.st == s3.st[0 := Asleep(NREAD)];
    OneMore(ss, acts, Doze(0, NREAD, s1.g), s2);
    ss, acts := ss + [s2], acts + [Doze(0, NREAD, s1.g)];
    OneMore(ss, acts, Drop(0), s3);
    ss, acts := ss + [s3], acts + [Drop(0)];
    OneMore(ss, acts, Switch(0), s4);
    ss, acts := ss + [s4], acts + [Switch(0)];
  }

  lemma ReaderSleeps() returns (ss: seq<Sys<World>>, acts: seq<Action<World>>)
    ensures IsRun(PipeClient(true), ss, acts) && Stuck(ss[|acts|], 0)
  {
    hide IsRun;
    ss, acts := ReaderDozes();
    RunLength(ss, acts);
    var s := ss[|acts|];
    var w := Go(s.g, 1, Writing(Long(), 0, false));
    assert w.pc == [Reading(1), Writing(Long(), 0, false)];
    OneMore(ss, acts, Enter(1, w), s.(g := w, lk := 1));
    ss, acts := ss + [s.(g := w, lk := 1)], acts + [Enter(1, w)];
  }

  lemma StartsRun(s: Sys<World>)
    requires PipeInit(s.g) && s.lk == s.pt == NOBODY && forall q :: 0 <= q < |s.st| ==> s.st[q] == Awake
    ensures IsRun(PipeClient(true), [s], [])
  {
  }

  lemma {:induction false} WriterFills(k: nat) returns (ss: seq<Sys<World>>, acts: seq<Action<World>>)
    requires k <= PIPESIZE
    ensures IsRun(PipeClient(true), ss, acts) && Stuck(ss[|acts|], k)
  {
    if k == 0 {
      ss, acts := ReaderSleeps();
    } else {
      ss, acts := WriterFills(k - 1);
      var s := ss[|acts|];
      var w' := Go(s.g.(ring := Stored(s.g.ring, 0), stored := s.g.stored + [0]), 1, Writing(Long(), k, true));
      TestsAreRight(s.g.ring);
      StoreAppends(s.g.ring, 0);
      Extend(PipeClient(true), ss, acts, Update(1, w'));
      hide IsRun, Contents, Long;
      ss, acts := ss + [s.(g := w')], acts + [Update(1, w')];
    }
  }

  /** A killed writer can leave a reader asleep beside a full pipe. */
  lemma KilledWriterLosesWakeup() returns (ss: seq<Sys<World>>, acts: seq<Action<World>>)
    ensures IsRun(PipeClient(true), ss, acts) && !SleepersWait(ss[|acts|])
  {
    ss, acts := WriterFills(PIPESIZE);
    var s := ss[|acts|];
    TestsAreRight(s.g.ring);
    var w' := Go(s.g, 1, Out);
    Extend(PipeClient(true), ss, acts, Leave(1, w'));
    hide IsRun;
    ss, acts := ss + [s.(g := w', lk := NOBODY)], acts + [Leave(1, w')];
    RunLength(ss, acts);
    var last := ss[|acts|];
    assert last.st[0].chan == NREAD && !PipeCond(last.g, 0, NREAD);
  }

  /** The kill leaves that reader asleep beside a full pipe. */
  lemma HarmfulLoses(s: Sys<World>, a: Action<World>, s': Sys<World>)
    requires PipeInv(s.g, s.lk) && Sleep.Step(PipeClient(true), s, a, s') && Harmful(s, a)
    ensures !SleepersWait(s')
  {
    var q :| 0 <= q < |s.st| && !s.st[q].Awake? && s.st[q].chan == NREAD;
    TestsAreRight(s.g.ring);
    assert s'.st[q] == s.st[q] && !PipeCond(s'.g, q, NREAD);
  }

  /** The exact condition, run by run: sleepers are right to sleep in all states of a run if and only if
      in that run no writer is killed at a full pipe, with bytes stored that it has not told the readers
      of, while a reader sleeps. */
  lemma WakeupsExactly(ss: seq<Sys<World>>, acts: seq<Action<World>>)
    requires IsRun(PipeClient(true), ss, acts)
    ensures (forall t :: 0 <= t < |ss| ==> SleepersWait(ss[t])) <==>
            (forall t :: 0 <= t < |acts| ==> !Harmful(ss[t], acts[t]))
  {
    hide SleepersWait, Harmful, PipeInit, Sleep.Step;
    if forall t :: 0 <= t < |acts| ==> !Harmful(ss[t], acts[t]) {
      forall t | 0 <= t < |ss| ensures SleepersWait(ss[t]) {
        SleepersWaitForPipe(ss, acts, t);
      }
    } else {
      var t :| 0 <= t < |acts| && Harmful(ss[t], acts[t]);
      PipeLawful(true);
      RunLawful(PipeClient(true), ss, acts, t);
      assert Sleep.Step(PipeClient(true), ss[t], acts[t], ss[t + 1]);
      HarmfulLoses(ss[t], acts[t], ss[t + 1]);
    }
  }

  lemma RunLength(ss: seq<Sys<World>>, acts: seq<Action<World>>)
    requires IsRun(PipeClient(true), ss, acts)
    ensures |ss| == |acts| + 1
  {
  }
}
