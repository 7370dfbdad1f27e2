/** begin_op, log_write and end_op as clients of sleep and wakeup. */
module LogWait {
  import opened Sleep
  import LogState

  /** Where a process is. With log.lock held: at the test in begin_op, having joined, in log_write
      before and after counting the block, in end_op before its change, having left with a wakeup to
      do and done, having left as the last, and after the commit the same again. Without it: outside,
      in an operation, committing. */
  datatype PC =
    | Out | Asking | Joined | Busy | Logging | Logged
    | Ending | Left | Told | Last | Committing | Opening | Opened | Announced

  datatype Log = Log(n: int, outstanding: int, committing: bool, pc: seq<PC>)

  const CHAN: nat := 0               // the address of the log

  predicate At(g: Log, p: nat, pc: PC) {
    p < |g.pc| && g.pc[p] == pc
  }

  function Go(g: Log, p: nat, pc: PC): Log
    requires p < |g.pc|
  {
    g.(pc := g.pc[p := pc])
  }

  /** A new operation must wait. */
  predicate Closed(g: Log) {
    g.committing || g.n + (g.outstanding + 1) * LogState.MAXOPBLOCKS > LogState.LOGSIZE
  }

  predicate Inside(g: Log, p: nat) {
    p < |g.pc| && match g.pc[p]
      case Out | Asking | Busy | Committing => false
      case _ => true
  }

  predicate Commits(g: Log, p: nat) {
    p < |g.pc| && (g.pc[p].Last? || g.pc[p].Committing? || g.pc[p].Opening?)
  }

  ghost predicate LogInit(g: Log) {
    g.outstanding == 0 && !g.committing && forall p: nat :: p < |g.pc| ==> g.pc[p] == Out
  }

  ghost predicate LogInv(g: Log, h: int) {
    && (forall p: nat, q: nat :: Commits(g, p) && Commits(g, q) ==> p == q)
    && (forall p: nat :: Commits(g, p) ==> g.committing)
    && (forall p: nat :: Inside(g, p) ==> p == h)
  }

  predicate LogCond(g: Log, p: nat, c: nat) {
    Closed(g) && c == CHAN
  }

  function LogOwes(g: Log, h: int): set<nat> {
    if 0 <= h && (At(g, h, Left) || At(g, h, Opened)) then {CHAN} else {}
  }

  function LogQuiet(g: Log, h: int): set<nat> {
    {}
  }

  predicate LogEnter(g: Log, p: nat, g': Log) {
    || (At(g, p, Out) && g' == Go(g, p, Asking))
    || (At(g, p, Asking) && g' == g)                                      // back from sleep
    || (At(g, p, Busy) && g' == Go(g, p, Logging))
    || (At(g, p, Busy) && g' == Go(g, p, Ending))
    || (At(g, p, Committing) && g' == Go(g, p, Opening))
  }

  predicate LogUpdate(g: Log, p: nat, g': Log) {
    || (At(g, p, Asking) && !Closed(g) && g' == Go(g.(outstanding := g.outstanding + 1), p, Joined))
    || (At(g, p, Logging) && (g' == Go(g, p, Logged) || g' == Go(g.(n := g.n + 1), p, Logged)))
    || (At(g, p, Ending) && !g.committing && g.outstanding == 1       // end_op panics while committing is set
        && g' == Go(g.(outstanding := 0, committing := true), p, Last))
    || (At(g, p, Ending) && !g.committing && g.outstanding != 1
        && g' == Go(g.(outstanding := g.outstanding - 1), p, Left))
    || (At(g, p, Opening) && g' == Go(g.(committing := false), p, Opened))
  }

  predicate LogWake(g: Log, p: nat, c: nat, g': Log) {
    c == CHAN && ((At(g, p, Left) && g' == Go(g, p, Told)) || (At(g, p, Opened) && g' == Go(g, p, Announced)))
  }

  predicate LogLeave(g: Log, p: nat, g': Log) {
    || (At(g, p, Joined) && g' == Go(g, p, Busy))
    || (At(g, p, Logged) && g' == Go(g, p, Busy))
    || (At(g, p, Told) && g' == Go(g, p, Out))
    || (At(g, p, Last) && g' == Go(g, p, Committing))
    || (At(g, p, Announced) && g' == Go(g, p, Out))
  }

  predicate LogDoze(g: Log, p: nat, c: nat, g': Log) {
    At(g, p, Asking) && Closed(g) && c == CHAN && g' == g
  }

  /** commit() empties the log without holding log.lock. */
  predicate LogSilent(g: Log, p: nat, g': Log) {
    At(g, p, Committing) && g' == g.(n := 0)
  }

  ghost function LogClient(): Client<Log> {
    Client(false, LogInit, LogInv, LogCond, LogOwes, LogQuiet, LogEnter, LogUpdate, LogWake, LogLeave, LogDoze,
           LogSilent)
  }

  /** Only p's program counter moves. */
  lemma Moved(g: Log, p: nat, g': Log, h: int, h': int)
    requires LogInv(g, h) && p < |g.pc| == |g'.pc| && g'.pc == g.pc[p := g'.pc[p]] && (h == p || h == NOBODY)
    requires Inside(g', p) ==> h' == p
    requires Commits(g', p) ==> (Commits(g, p) && g'.committing == g.committing) || (g'.committing && !g.committing)
    requires !g'.committing ==> !g.committing || Commits(g, p)
    ensures LogInv(g', h')
  {
    forall q: nat | q != p ensures Commits(g', q) == Commits(g, q) && Inside(g', q) == Inside(g, q) {
    }
  }

  lemma LogUpdateOk(g: Log, p: nat, g': Log)
    requires LogInv(g, p) && LogUpdate(g, p, g')
    ensures UpdateOk(LogClient(), g, p, g')
  {
    Moved(g, p, g', p, p);
    hide LogInv;
  }

  lemma LogEnterOk(g: Log, p: nat, g': Log)
    requires LogInv(g, NOBODY) && LogEnter(g, p, g')
    ensures EnterOk(LogClient(), g, p, g')
  {
    Moved(g, p, g', NOBODY, p);
    hide LogInv;
  }

  lemma LogWakeOk(g: Log, p: nat, c: nat, g': Log)
    requires LogInv(g, p) && LogWake(g, p, c, g')
    ensures WakeOk(LogClient(), g, p, c, g')
  {
    Moved(g, p, g', p, p);
    hide LogInv;
  }

  lemma LogLeaveOk(g: Log, p: nat, g': Log)
    requires LogInv(g, p) && LogLeave(g, p, g')
    ensures LeaveOk(LogClient(), g, p, g')
  {
    Moved(g, p, g', p, NOBODY);
    hide LogInv;
  }

  lemma LogDozeOk(g: Log, p: nat, c: nat, g': Log)
    requires LogInv(g, p) && LogDoze(g, p, c, g')
    ensures DozeOk(LogClient(), g, p, c, g')
  {
    Moved(g, p, g', p, NOBODY);
    hide LogInv;
  }

  lemma LogHonest()
    ensures Honest(LogClient())
  {
    hide LogInit, LogInv, LogEnter, LogUpdate, LogWake, LogLeave, LogDoze, LogSilent, EnterOk, UpdateOk, WakeOk;
    hide LeaveOk, DozeOk, SilentOk;
    var cl := LogClient();
    forall g | LogInit(g) ensures LogInv(g, NOBODY) && LogOwes(g, NOBODY) == {} {
      InitInv(g);
    }
    forall g, p: nat, g' | LogInv(g, NOBODY) && LogEnter(g, p, g') ensures EnterOk(cl, g, p, g') {
      LogEnterOk(g, p, g');
    }
    forall g, p: nat, g' | LogInv(g, p) && LogUpdate(g, p, g') ensures UpdateOk(cl, g, p, g') {
      LogUpdateOk(g, p, g');
    }
    forall g, p: nat, c: nat, g' | LogInv(g, p) && LogWake(g, p, c, g') ensures WakeOk(cl, g, p, c, g') {
      LogWakeOk(g, p, c, g');
    }
    forall g, p: nat, g' | LogInv(g, p) && LogLeave(g, p, g') ensures LeaveOk(cl, g, p, g') {
      LogLeaveOk(g, p, g');
    }
    forall g, p: nat, c: nat, g' | LogInv(g, p) && LogDoze(g, p, c, g') ensures DozeOk(cl, g, p, c, g') {
      LogDozeOk(g, p, c, g');
    }
    forall g, p: nat, g', h | LogInv(g, h) && h != p && LogSilent(g, p, g') ensures SilentOk(cl, g, p, g', h) {
      LogSilentOk(g, p, g', h);
    }
  }

  lemma InitInv(g: Log)
    requires LogInit(g)
    ensures LogInv(g, NOBODY)
  {
  }

  lemma LogSilentOk(g: Log, p: nat, g': Log, h: int)
    requires LogInv(g, h) && LogSilent(g, p, g')
    ensures SilentOk(LogClient(), g, p, g', h)
  {
    assert Commits(g, p);
    forall q: nat ensures Commits(g', q) == Commits(g, q) && Inside(g', q) == Inside(g, q) {
    }
  }

  /** A process asleep in begin_op while log.lock is free waits for a commit or for space. */
  lemma SleepersWaitForLog(ss: seq<Sys<Log>>, acts: seq<Action<Log>>, t: nat, q: nat)
    requires IsRun(LogClient(), ss, acts) && t < |ss| && q < |ss[t].st|
    requires ss[t].lk == NOBODY && !ss[t].st[q].Awake?
    ensures ss[t].g.committing || ss[t].g.n + (ss[t].g.outstanding + 1) * LogState.MAXOPBLOCKS > LogState.LOGSIZE
  {
    LogHonest();
    NoLostWakeup(LogClient(), ss, acts, t, q);
  }
}
