/** Crashes during a commit and during recovery, any number of times. */
module LogCrash {
  import opened LogState

  /** The disk that a complete replay of d's log produces, as far as home blocks go. */
  function Replayed(lay: Layout, d: Disk): (e: Disk)
    requires Fits(lay, d) && GoodBlocks(lay, d, DiskHeader(lay, d))
    ensures Means(lay, d, e)
  {
    seq(|d|, b requires 0 <= b < |d| => Meaning(lay, d, b))
  }

  /** What the buffer cache shows for every block. */
  function Cached(s: State): (e: Disk)
    ensures |e| == |s.disk| && forall b :: 0 <= b < |e| ==> e[b] == View(s, b)
  {
    seq(|s.disk|, b requires 0 <= b < |s.disk| => View(s, b))
  }

  lemma AdvanceInv(lay: Layout, s: State)
    requires Inv(lay, s)
    ensures Inv(lay, Advance(lay, s))
  {
    AdvanceIsAtomic(lay, s, Replayed(lay, s.disk), Cached(s));
  }

  /** The machine after k more disk writes. */
  ghost function Steps(lay: Layout, s: State, k: nat): (r: State)
    requires Inv(lay, s)
    ensures Inv(lay, r)
  {
    if k == 0 then s else
      var m := Steps(lay, s, k - 1);
      AdvanceInv(lay, m);
      Advance(lay, m)
  }

  /** Where a commit of n blocks is after k writes. */
  function CommitPhase(n: nat, k: nat): Phase {
    if k < n then WriteLog(k)
    else if k == n then WriteHead
    else if k <= 2 * n then Install(k - n - 1)
    else if k == 2 * n + 1 then Erase
    else Done
  }

  /** m is the commit started in s after k writes, and its disk stands for the right contents. */
  ghost predicate CommitAt(lay: Layout, s: State, k: nat, m: State)
    requires Fits(lay, s.disk) && GoodBlocks(lay, s.disk, DiskHeader(lay, s.disk))
  {
    && m.phase == CommitPhase(|s.lh|, k)
    && m.committing
    && (k <= 2 * |s.lh| + 1 ==> m.lh == s.lh)
    && (k <= |s.lh| ==> SameHomeView(lay, s, m))
    && Means(lay, m.disk, if k <= |s.lh| then Replayed(lay, s.disk) else Cached(s))
  }

  ghost predicate SameHomeView(lay: Layout, s: State, m: State) {
    |m.disk| == |s.disk| && forall b :: 0 <= b < |s.disk| && !InLog(lay, b) ==> View(m, b) == View(s, b)
  }

  lemma WriteLogKeepsView(lay: Layout, s: State, m: State)
    requires Inv(lay, m) && m.phase.WriteLog? && SameHomeView(lay, s, m)
    ensures SameHomeView(lay, s, Advance(lay, m))
  {
    var r := Advance(lay, m);
    forall b | 0 <= b < |s.disk| && !InLog(lay, b) ensures View(r, b) == View(s, b) {
      assert View(m, b) == View(s, b);
    }
  }

  lemma CommitStepBefore(lay: Layout, s: State, k: nat, m: State)
    requires Inv(lay, s) && Inv(lay, m) && CommitAt(lay, s, k, m) && k < |s.lh|
    ensures CommitAt(lay, s, k + 1, Advance(lay, m))
  {
    WriteLogKeepsView(lay, s, m);
    AdvanceWriteLog(lay, m, Replayed(lay, s.disk));
  }

  lemma CommitStepHead(lay: Layout, s: State, m: State)
    requires Inv(lay, s) && Inv(lay, m) && CommitAt(lay, s, |s.lh|, m) && 0 < |s.lh|
    ensures CommitAt(lay, s, |s.lh| + 1, Advance(lay, m))
  {
    assert forall b :: 0 <= b < |s.disk| && !InLog(lay, b) ==> View(m, b) == Cached(s)[b];
    AdvanceWriteHead(lay, m, Cached(s));
  }

  lemma CommitStepAfter(lay: Layout, s: State, k: nat, m: State)
    requires Inv(lay, s) && Inv(lay, m) && CommitAt(lay, s, k, m) && |s.lh| < k
    ensures CommitAt(lay, s, k + 1, Advance(lay, m))
  {
    AdvanceIsAtomic(lay, m, Cached(s), Cached(m));
  }

  lemma CommitStart(lay: Layout, s: State)
    requires Inv(lay, s) && s.phase == WriteLog(0)
    ensures CommitAt(lay, s, 0, s)
  {
  }

  lemma CommitStep(lay: Layout, s: State, k: nat, m: State)
    requires Inv(lay, s) && Inv(lay, m) && s.phase == WriteLog(0) && CommitAt(lay, s, k, m)
    ensures CommitAt(lay, s, k + 1, Advance(lay, m))
  {
    if k < |s.lh| {
      CommitStepBefore(lay, s, k, m);
    } else if k == |s.lh| {
      CommitStepHead(lay, s, m);
    } else {
      CommitStepAfter(lay, s, k, m);
    }
  }

  /** A commit is atomic: stopped after any number k of its block writes, the disk stands for the
      state before the transaction up to and including the last log-block write, and for the whole
      transaction from the header write on. */
  lemma {:induction false} CommitIsAtomic(lay: Layout, s: State, k: nat)
    requires Inv(lay, s) && s.phase == WriteLog(0)
    ensures CommitAt(lay, s, k, Steps(lay, s, k))
  {
    hide Inv, CommitAt, Advance;
    if k == 0 {
      CommitStart(lay, s);
    } else {
      CommitIsAtomic(lay, s, k - 1);
      CommitStep(lay, s, k - 1, Steps(lay, s, k - 1));
    }
  }

  /** The last write of a commit leaves no transaction and no pinned buffer behind. */
  lemma CommitFinishes(lay: Layout, s: State)
    requires Inv(lay, s) && s.phase == WriteLog(0)
    ensures var r := Steps(lay, s, 2 * |s.lh| + 2);
      && r.phase == Done && r.lh == [] && r.dirty == map[] && DiskHeader(lay, r.disk) == []
      && |r.disk| == |s.disk| && forall b :: 0 <= b < |s.disk| && !InLog(lay, b) ==> r.disk[b] == View(s, b)
  {
    var n := 2 * |s.lh| + 2;
    CommitIsAtomic(lay, s, n);
    LogFromMeans(lay, Steps(lay, s, n).disk, [], Cached(s));
  }

  // ----- recovery

  function RecoveryPhase(n: nat, k: nat): Phase {
    if k == 0 then Boot
    else if k <= n then Install(k - 1)
    else if k == n + 1 then Erase
    else Idle
  }

  ghost predicate RecoveryAt(lay: Layout, d: Disk, e: Disk, k: nat, m: State)
    requires Fits(lay, d)
  {
    var lh := DiskHeader(lay, d);
    && m.phase == RecoveryPhase(|lh|, k)
    && !m.committing
    && (k == 0 ==> m.disk == d)
    && (0 < k <= |lh| + 1 ==> m.lh == lh)
    && Means(lay, m.disk, e)
  }

  lemma RecoveryStep(lay: Layout, d: Disk, e: Disk, k: nat, m: State)
    requires Means(lay, d, e) && Inv(lay, m) && RecoveryAt(lay, d, e, k, m)
    ensures RecoveryAt(lay, d, e, k + 1, Advance(lay, m))
  {
    AdvanceIsAtomic(lay, m, e, Cached(m));
  }

  lemma RecoveryStart(lay: Layout, d: Disk, e: Disk)
    requires Means(lay, d, e)
    ensures Inv(lay, Booted(d)) && RecoveryAt(lay, d, e, 0, Booted(d))
  {
  }

  /** Recovery started on a disk with a well-formed header: any prefix of it keeps the disk's meaning. */
  lemma {:induction false} RecoveryKeepsMeaning(lay: Layout, d: Disk, e: Disk, k: nat)
    requires Means(lay, d, e) && Inv(lay, Booted(d))
    ensures RecoveryAt(lay, d, e, k, Steps(lay, Booted(d), k))
  {
    hide Inv, RecoveryAt, Advance, Meaning;
    if k == 0 {
      RecoveryStart(lay, d, e);
    } else {
      RecoveryKeepsMeaning(lay, d, e, k - 1);
      RecoveryStep(lay, d, e, k - 1, Steps(lay, Booted(d), k - 1));
    }
  }

  /** The disk after a crash in each of |ks| successive boots, ks[i] machine steps into the i-th. */
  ghost function CrashedBoots(lay: Layout, d: Disk, ks: seq<nat>): (r: Disk)
    requires Fits(lay, d) && GoodBlocks(lay, d, DiskHeader(lay, d))
    ensures Means(lay, r, Replayed(lay, d))
  {
    if ks == [] then d else
      var m := CrashedBoots(lay, d, ks[..|ks| - 1]);
      RecoveryKeepsMeaning(lay, m, Replayed(lay, d), ks[|ks| - 1]);
      Steps(lay, Booted(m), ks[|ks| - 1]).disk
  }

  /** A recovery that is allowed to finish: the disk itself now holds the meaning, and the log is empty. */
  ghost function Recovered(lay: Layout, d: Disk): (r: Disk)
    requires Fits(lay, d) && GoodBlocks(lay, d, DiskHeader(lay, d))
    ensures |r| == |d| && Fits(lay, r) && DiskHeader(lay, r) == []
    ensures forall b :: 0 <= b < |d| && !InLog(lay, b) ==> r[b] == Meaning(lay, d, b)
  {
    RecoveryKeepsMeaning(lay, d, Replayed(lay, d), |DiskHeader(lay, d)| + 2);
    var r := Steps(lay, Booted(d), |DiskHeader(lay, d)| + 2).disk;
    LogFromMeans(lay, r, [], Replayed(lay, d));
    r
  }

  /** Crash atomicity end to end. A commit is cut off after k of its block writes; recovery is then
      itself cut off any number of times, at the points ks; at last it completes. Every home block
      is as before the transaction when the header had not been written, and as cached at commit
      when it had. */
  lemma CrashAtomicity(lay: Layout, s: State, k: nat, ks: seq<nat>)
    requires Inv(lay, s) && s.phase == WriteLog(0)
    ensures Means(lay, Steps(lay, s, k).disk, if k <= |s.lh| then s.disk else Cached(s))
    ensures var crashed := CrashedBoots(lay, Steps(lay, s, k).disk, ks);
      forall b :: 0 <= b < |s.disk| && !InLog(lay, b) ==>
        Recovered(lay, crashed)[b] == if k <= |s.lh| then s.disk[b] else View(s, b)
  {
    CommitIsAtomic(lay, s, k);
    var d := Steps(lay, s, k).disk;
    var crashed := CrashedBoots(lay, d, ks);
    forall b | 0 <= b < |s.disk| && !InLog(lay, b)
      ensures Recovered(lay, crashed)[b] == if k <= |s.lh| then s.disk[b] else View(s, b)
    {
      assert Recovered(lay, crashed)[b] == Meaning(lay, crashed, b) == Replayed(lay, d)[b] == Meaning(lay, d, b);
    }
  }
}
