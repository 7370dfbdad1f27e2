/** The log under the file system. Whatever happens, recovery leaves the file system as it was in the
    buffer cache at a moment when no operation was in progress; so if the operations, together, leave it
    consistent whenever the last of them ends, it is consistent after every crash. */
module FsCrash {
  import opened Bytes
  import opened Dinode
  import L = LogState
  import Log
  import opened LogCrash
  import opened LogRun
  import opened FsState
  import opened FsGrow
  import opened FsData
  import FsShareRun

  // ----- quiet points

  ghost predicate SameHomes(lay: L.Layout, d: L.Disk, e: L.Disk) {
    |d| == |e| && forall b :: 0 <= b < |d| && !L.InLog(lay, b) ==> d[b] == e[b]
  }

  /** The start of a run, and every end_op that leaves no operation active. */
  ghost predicate Quiet(acts: seq<Action>, ws: seq<World>, j: nat)
    requires |ws| == |acts| + 1 && j < |ws|
  {
    j == 0 || (acts[j - 1].End? && ws[j].ops == [])
  }

  /** What the buffer cache shows of the disk there. */
  ghost function Seen(d0: L.Disk, ws: seq<World>, j: nat): L.Disk
    requires j < |ws|
  {
    if j == 0 then d0 else Cached(ws[j].s)
  }

  /** e is, outside the log, what was seen at a quiet point no later than i. */
  ghost predicate FromQuiet(cfg: Config, d0: L.Disk, acts: seq<Action>, ws: seq<World>, i: nat, e: L.Disk)
    requires |ws| == |acts| + 1 && i < |ws|
  {
    exists j: nat :: j <= i && Quiet(acts, ws, j) && SameHomes(cfg.lay, Seen(d0, ws, j), e)
  }

  lemma Later(cfg: Config, d0: L.Disk, acts: seq<Action>, ws: seq<World>, i: nat, k: nat, e: L.Disk)
    requires |ws| == |acts| + 1 && i <= k < |ws| && FromQuiet(cfg, d0, acts, ws, i, e)
    ensures FromQuiet(cfg, d0, acts, ws, k, e)
  {
    hide Quiet, Seen, SameHomes;
  }

  /** Both what is committed and, with no operation active, what is about to be. */
  ghost predicate Sound(cfg: Config, d0: L.Disk, acts: seq<Action>, ws: seq<World>, i: nat)
    requires |ws| == |acts| + 1 && i < |ws|
  {
    var w, e := ws[i], ApplyGroups(d0, ws[i].committed);
    && FromQuiet(cfg, d0, acts, ws, i, e)
    && (w.ops == [] && Gathering(w.s) ==> FromQuiet(cfg, d0, acts, ws, i, ApplyGroup(e, w.group)))
  }

  lemma EndSound(cfg: Config, d0: L.Disk, acts: seq<Action>, ws: seq<World>, i: nat)
    requires IsRun(cfg, d0, acts, ws) && 0 < i < |ws| && RunInv(cfg, d0, ws[i])
    requires acts[i - 1].End? && ws[i].ops == [] && Gathering(ws[i].s)
    ensures FromQuiet(cfg, d0, acts, ws, i, ApplyGroup(ApplyGroups(d0, ws[i].committed), ws[i].group))
  {
    hide ApplyGroup, ApplyGroups, L.Inv, Space, History, Recorded, Fresh;
    var w, e := ws[i], ApplyGroup(ApplyGroups(d0, ws[i].committed), ws[i].group);
    assert Contents(cfg, d0, w);
    forall b | 0 <= b < |e| && !L.InLog(cfg.lay, b) ensures Cached(w.s)[b] == e[b] {
      assert L.View(w.s, b) == e[b];
    }
    assert Quiet(acts, ws, i) && SameHomes(cfg.lay, Seen(d0, ws, i), e);
  }

  /** What a step does to the history, as far as it matters here. */
  lemma StepShape(cfg: Config, d0: L.Disk, w: World, a: Action, w': World)
    requires RunInv(cfg, d0, w) && !Overruns(cfg.lay, w.s) && Enabled(cfg, w, a) && w' == Next(cfg, w, a)
    ensures w'.committed == w.committed ||
      (w'.committed == w.committed + [w.group] && w.ops == [] && Gathering(w.s) && !Gathering(w'.s))
    ensures w'.ops == [] && Gathering(w'.s) && !a.End? ==>
      || (w.ops == [] && Gathering(w.s) && w'.group == w.group && w'.committed == w.committed)
      || (w'.group == [] && w'.committed == w.committed)
  {
    hide L.Advance, L.Means, Shows, Recorded, Contents, ApplyGroup, ApplyGroups;
    if a.Write? {
      WriteShape(w);
      if L.HasBuffers(cfg.lay, w.s) {
        WritesInside(cfg, w);
        AdvanceShape(cfg.lay, w.s);
      }
    } else if a.Test? || a.Append? || a.End? {
      OpsWhileIdle(cfg.lay, w);
    }
  }

  lemma NextSound(cfg: Config, d0: L.Disk, acts: seq<Action>, ws: seq<World>, i: nat)
    requires IsRun(cfg, d0, acts, ws) && 0 < i < |ws| && RunInv(cfg, d0, ws[i - 1]) && RunInv(cfg, d0, ws[i])
    requires Sound(cfg, d0, acts, ws, i - 1) && !Overruns(cfg.lay, ws[i - 1].s)
    ensures Sound(cfg, d0, acts, ws, i)
  {
    var w, a, w' := ws[i - 1], acts[i - 1], ws[i];
    assert Enabled(cfg, w, a) && w' == Next(cfg, w, a);
    hide RunInv, Enabled, Next, Fresh, FromQuiet, ApplyGroup;
    StepShape(cfg, d0, w, a, w');
    var e := ApplyGroups(d0, w.committed);
    Later(cfg, d0, acts, ws, i - 1, i, e);
    if w.ops == [] && Gathering(w.s) {
      Later(cfg, d0, acts, ws, i - 1, i, ApplyGroup(e, w.group));
    }
    if w'.committed != w.committed {
      assert w'.committed[..|w'.committed| - 1] == w.committed;
    }
    NoRecords(e);
    if w'.ops == [] && Gathering(w'.s) && a.End? {
      EndSound(cfg, d0, acts, ws, i);
    }
  }

  lemma {:induction false} RunSound(cfg: Config, d0: L.Disk, acts: seq<Action>, ws: seq<World>, i: nat)
    requires IsRun(cfg, d0, acts, ws) && i < |ws| && Contained(cfg, ws, i)
    ensures Sound(cfg, d0, acts, ws, i) && RunInv(cfg, d0, ws[i])
  {
    hide RunInv, Enabled, Next;
    RunKeeps(cfg, d0, acts, ws, i);
    if i == 0 {
      assert Quiet(acts, ws, 0) && SameHomes(cfg.lay, Seen(d0, ws, 0), d0);
    } else {
      RunSound(cfg, d0, acts, ws, i - 1);
      NextSound(cfg, d0, acts, ws, i);
    }
  }

  /** A crash at any point of any run: recovery brings back, outside the log, exactly what the cache
      showed at some earlier moment when no operation was in progress. */
  lemma RecoversToQuiet(cfg: Config, d0: L.Disk, acts: seq<Action>, ws: seq<World>, i: nat)
    requires IsRun(cfg, d0, acts, ws) && i < |ws| && (Safe(cfg) || Contained(cfg, ws, i))
    ensures L.Fits(cfg.lay, ws[i].s.disk)
    ensures L.GoodBlocks(cfg.lay, ws[i].s.disk, L.DiskHeader(cfg.lay, ws[i].s.disk))
    ensures FromQuiet(cfg, d0, acts, ws, i, Recovered(cfg.lay, ws[i].s.disk))
  {
    SafeKeeps(cfg, d0, acts, ws, i);
    RunSound(cfg, d0, acts, ws, i);
    GroupCommit(cfg, d0, acts, ws, i);
    hide RunInv, Enabled, Next, ApplyGroups, Recovered, Quiet, Seen;
    var e := ApplyGroups(d0, ws[i].committed);
    var j: nat :| j <= i && Quiet(acts, ws, j) && SameHomes(cfg.lay, Seen(d0, ws, j), e);
    assert SameHomes(cfg.lay, Seen(d0, ws, j), Recovered(cfg.lay, ws[i].s.disk));
  }

  // ----- the file system on the disk

  /** The log lies before the inode blocks, and the file system fills the disk. */
  ghost predicate Above(cfg: Config, sb: Super, d: L.Disk) {
    Layout(sb) && |d| == sb.size && cfg.lay.start + cfg.lay.size <= sb.inodestart
  }

  lemma SameOnDisk(lay: L.Layout, sb: Super, d: L.Disk, e: L.Disk)
    requires Layout(sb) && |d| == |e| == sb.size && lay.start + lay.size <= sb.inodestart && SameHomes(lay, d, e)
    ensures OnDisk(sb, e).inodes == OnDisk(sb, d).inodes
    ensures forall b :: sb.inodestart <= b < sb.size ==> e[b] == d[b]
  {
    forall b | sb.inodestart <= b < sb.size ensures e[b] == d[b] {
      assert !L.InLog(lay, b);
    }
    hide GetDinode;
    forall i | 0 <= i < sb.ninodes ensures OnDisk(sb, e).inodes[i] == OnDisk(sb, d).inodes[i] {
      assert sb.inodestart <= IBlock(sb, i) < sb.size;
    }
  }

  /** The invariant does not look at the blocks below the inodes, where the log is. */
  lemma SameInv(sb: Super, fs: Fs, own: Owners, ms: seq<nat>, fs': Fs)
    requires Inv(sb, fs, own, ms, IDLE) && |fs'.blocks| == sb.size && fs'.inodes == fs.inodes
    requires forall b :: sb.inodestart <= b < sb.size ==> fs'.blocks[b] == fs.blocks[b]
    ensures Inv(sb, fs', own, ms, IDLE)
  {
    hide BitsMatch, Maps, Placed, Settled;
    forall j, bm | 0 <= j < sb.ninodes && 0 <= bm < MAXFILE ensures Ptr(sb, fs', j, bm) == Ptr(sb, fs, j, bm) {
      TableOwned(sb, fs, own, ms, IDLE, j);
    }
    forall b | 0 <= b < sb.size ensures Allocated(sb, fs', b) == Allocated(sb, fs, b) {
      assert sb.inodestart <= BBlock(sb, b) < sb.size;
    }
    forall j | 0 <= j < sb.ninodes ensures StoredInode(sb, fs', j) == StoredInode(sb, fs, j) {
      assert sb.inodestart <= IBlock(sb, j) < sb.size;
    }
    hide Inv, Ptr, Allocated, StoredInode;
    SamePtrsKeep(sb, fs, fs', own, ms, IDLE);
  }

  lemma SameConsistent(lay: L.Layout, sb: Super, d: L.Disk, e: L.Disk)
    requires Layout(sb) && |d| == |e| == sb.size && lay.start + lay.size <= sb.inodestart && SameHomes(lay, d, e)
    requires Consistent(sb, OnDisk(sb, d))
    ensures Consistent(sb, OnDisk(sb, e))
  {
    hide Inv, SameHomes;
    var own: Owners, ms: seq<nat> :| Inv(sb, OnDisk(sb, d), own, ms, IDLE);
    SameOnDisk(lay, sb, d, e);
    SameInv(sb, OnDisk(sb, d), own, ms, OnDisk(sb, e));
  }

  /** Operations keep the file system: whenever the last active one ends, the cache shows a consistent
      file system. */
  ghost predicate OpsKeep(sb: Super, d0: L.Disk, acts: seq<Action>, ws: seq<World>)
    requires Layout(sb) && |ws| == |acts| + 1
  {
    forall j: nat :: j < |ws| && Quiet(acts, ws, j) ==>
      |Seen(d0, ws, j)| == sb.size && Consistent(sb, OnDisk(sb, Seen(d0, ws, j)))
  }

  /** The file system survives every crash: if the operations keep it, then at every point of every run
      the disk, once recovered, holds a consistent file system. */
  lemma SurvivesCrash(cfg: Config, sb: Super, d0: L.Disk, acts: seq<Action>, ws: seq<World>, i: nat)
    requires IsRun(cfg, d0, acts, ws) && i < |ws| && (Safe(cfg) || Contained(cfg, ws, i))
    requires Above(cfg, sb, d0) && OpsKeep(sb, d0, acts, ws)
    ensures L.Fits(cfg.lay, ws[i].s.disk) && |ws[i].s.disk| == sb.size
    ensures L.GoodBlocks(cfg.lay, ws[i].s.disk, L.DiskHeader(cfg.lay, ws[i].s.disk))
    ensures Consistent(sb, OnDisk(sb, Recovered(cfg.lay, ws[i].s.disk)))
  {
    hide Enabled, Next, Fresh, Recovered, Quiet, Seen, SameHomes, Consistent, OnDisk, L.DiskHeader;
    RecoversToQuiet(cfg, d0, acts, ws, i);
    var d := Recovered(cfg.lay, ws[i].s.disk);
    var j: nat :| j <= i && Quiet(acts, ws, j) && SameHomes(cfg.lay, Seen(d0, ws, j), d);
    HomesSize(cfg.lay, Seen(d0, ws, j), d);
    SameConsistent(cfg.lay, sb, Seen(d0, ws, j), d);
  }

  lemma HomesSize(lay: L.Layout, d: L.Disk, e: L.Disk)
    requires SameHomes(lay, d, e)
    ensures |d| == |e|
  {
  }

  // ----- operations, overlapping or not

  /** The log_writes between two points of a run. */
  function Appends(acts: seq<Action>, b: nat, j: nat): Trace
    requires b <= j <= |acts|
  {
    if j == b then []
    else Appends(acts, b, j - 1) + if acts[j - 1].Append? then [(acts[j - 1].b, acts[j - 1].data)] else []
  }

  /** Operations from the begin_op at b, when none was active, to the end_op at j, which leaves none. */
  ghost predicate Spans(acts: seq<Action>, ws: seq<World>, b: nat, j: nat)
    requires |ws| == |acts| + 1
  {
    && b < j < |acts| && acts[b].Begin? && ws[b].ops == [] && acts[j].End? && ws[j + 1].ops == []
    && forall k :: b < k <= j ==> ws[k].ops != []
  }

  /** Every such group of operations, begun on a consistent file system, logs the changes of a
      transaction. */
  ghost predicate Transactions(sb: Super, acts: seq<Action>, ws: seq<World>)
    requires |ws| == |acts| + 1 && Layout(sb)
  {
    forall b: nat, j: nat :: Spans(acts, ws, b, j) ==> Begun(sb, ws[b]) ==>
      Transaction(sb, Cached(ws[b].s), Appends(acts, b, j))
  }

  ghost predicate Begun(sb: Super, w: World)
    requires Layout(sb)
  {
    |Cached(w.s)| == sb.size && Consistent(sb, OnDisk(sb, Cached(w.s)))
  }

  /** While an operation is active the cache changes by its log_writes alone. */
  lemma ViewStep(cfg: Config, d0: L.Disk, w: World, a: Action, w': World)
    requires RunInv(cfg, d0, w) && Enabled(cfg, w, a) && w' == Next(cfg, w, a)
    requires if w.ops == [] then w'.ops != [] else !a.Crash?
    ensures |Cached(w'.s)| == |Cached(w.s)|
    ensures Cached(w'.s) == if a.Append? && a.b < |Cached(w.s)| then Cached(w.s)[a.b := a.data] else Cached(w.s)
  {
    hide L.Means, Shows, Recorded, Contents, History, ApplyGroup, ApplyGroups;
    if w.ops != [] {
      OpsWhileIdle(cfg.lay, w);
    }
  }

  lemma ReplayOne(d: L.Disk, tr: Trace, b: nat, x: Block)
    ensures Replay(d, tr + [(b, x)]) == if b < |d| then Replay(d, tr)[b := x] else Replay(d, tr)
  {
    assert (tr + [(b, x)])[..|tr|] == tr;
  }

  lemma {:induction false} ViewSpan(cfg: Config, d0: L.Disk, acts: seq<Action>, ws: seq<World>, b: nat, j: nat, k: nat)
    requires IsRun(cfg, d0, acts, ws) && Contained(cfg, ws, |acts|) && Spans(acts, ws, b, j) && b < k <= j + 1
    ensures Cached(ws[k].s) == Replay(Cached(ws[b].s), Appends(acts, b, k))
  {
    hide RunInv, Enabled, Next, Fresh, Replay, Cached;
    var w, a, w' := ws[k - 1], acts[k - 1], ws[k];
    assert Enabled(cfg, w, a) && w' == Next(cfg, w, a);
    RunKeeps(cfg, d0, acts, ws, k - 1);
    if k == b + 1 {
      ReplayNone(Cached(ws[b].s));
      assert Appends(acts, b, b) == [];
    } else {
      ViewSpan(cfg, d0, acts, ws, b, j, k - 1);
      NotCrash(cfg, w, a, w', k == j + 1);
    }
    ViewStep(cfg, d0, w, a, w');
    if a.Append? {
      ReplayOne(Cached(ws[b].s), Appends(acts, b, k - 1), a.b, a.data);
    } else {
      assert Appends(acts, b, k - 1) + [] == Appends(acts, b, k - 1);
    }
  }

  lemma ReplayNone(d: L.Disk)
    ensures Replay(d, []) == d
  {
  }

  lemma NotCrash(cfg: Config, w: World, a: Action, w': World, last: bool)
    requires Enabled(cfg, w, a) && w' == Next(cfg, w, a) && (if last then a.End? else w'.ops != [])
    ensures !a.Crash?
  {
  }

  /** The operations that end at j began when none was active. */
  lemma {:induction false} BeganAt(cfg: Config, d0: L.Disk, acts: seq<Action>, ws: seq<World>, j: nat, k: nat)
      returns (b: nat)
    requires IsRun(cfg, d0, acts, ws) && k <= j < |acts| && acts[j].End? && ws[j + 1].ops == []
    requires forall m :: k <= m <= j ==> ws[m].ops != []
    ensures Spans(acts, ws, b, j)
    decreases k
  {
    hide Next, Enabled;
    assert k != 0;
    var w, a, w' := ws[k - 1], acts[k - 1], ws[k];
    assert Enabled(cfg, w, a) && w' == Next(cfg, w, a);
    if ws[k - 1].ops == [] {
      OnlyBegin(cfg, w, a, w');
      return k - 1;
    } else {
      b := BeganAt(cfg, d0, acts, ws, j, k - 1);
    }
  }

  lemma OnlyBegin(cfg: Config, w: World, a: Action, w': World)
    requires Enabled(cfg, w, a) && w' == Next(cfg, w, a) && w.ops == [] && w'.ops != []
    ensures a.Begin? && Log.MayBegin(w.s) && Up(w.s)
  {
  }

  /** What an operation finds when it begins alone is what a quiet point left. */
  lemma FoundQuiet(cfg: Config, d0: L.Disk, acts: seq<Action>, ws: seq<World>, b: nat)
    requires IsRun(cfg, d0, acts, ws) && b < |acts| && Contained(cfg, ws, b)
    requires ws[b].ops == [] && ws[b + 1].ops != []
    ensures FromQuiet(cfg, d0, acts, ws, b, Cached(ws[b].s))
  {
    hide Fresh, ApplyGroup, ApplyGroups, Quiet, Seen, Next, Enabled;
    var w := ws[b];
    assert Enabled(cfg, w, acts[b]) && ws[b + 1] == Next(cfg, w, acts[b]);
    RunSound(cfg, d0, acts, ws, b);
    OnlyBegin(cfg, w, acts[b], ws[b + 1]);
    BegunSane(cfg.lay, w.s);
    var e := ApplyGroup(ApplyGroups(d0, w.committed), w.group);
    var j: nat :| j <= b && Quiet(acts, ws, j) && SameHomes(cfg.lay, Seen(d0, ws, j), e);
    assert Contents(cfg, d0, w);
    assert forall c :: 0 <= c < |e| && !L.InLog(cfg.lay, c) ==> L.View(w.s, c) == e[c];
    assert SameHomes(cfg.lay, Seen(d0, ws, j), Cached(w.s));
  }

  ghost predicate QuietOk(sb: Super, d0: L.Disk, acts: seq<Action>, ws: seq<World>, i: nat)
    requires Layout(sb) && |ws| == |acts| + 1 && i < |ws|
  {
    forall j: nat :: j <= i && Quiet(acts, ws, j) ==>
      |Seen(d0, ws, j)| == sb.size && Consistent(sb, OnDisk(sb, Seen(d0, ws, j)))
  }

  lemma EndKeepsFs(cfg: Config, sb: Super, d0: L.Disk, acts: seq<Action>, ws: seq<World>, i: nat)
    requires IsRun(cfg, d0, acts, ws) && Contained(cfg, ws, |acts|) && Above(cfg, sb, d0)
    requires Transactions(sb, acts, ws) && 0 < i < |ws| && acts[i - 1].End? && ws[i].ops == []
    requires QuietOk(sb, d0, acts, ws, i - 1)
    ensures |Cached(ws[i].s)| == sb.size && Consistent(sb, OnDisk(sb, Cached(ws[i].s)))
  {
    hide RunInv, Enabled, Next, Fresh, Consistent, OnDisk, Cached, Replay, Quiet, Seen, SameHomes;
    EndHasSome(cfg, d0, acts, ws, i);
    var b := BeganAt(cfg, d0, acts, ws, i - 1, i - 1);
    assert ws[b + 1].ops != [];
    FoundQuiet(cfg, d0, acts, ws, b);
    var d := Cached(ws[b].s);
    var j: nat :| j <= b && Quiet(acts, ws, j) && SameHomes(cfg.lay, Seen(d0, ws, j), d);
    HomesSize(cfg.lay, Seen(d0, ws, j), d);
    SameConsistent(cfg.lay, sb, Seen(d0, ws, j), d);
    assert Begun(sb, ws[b]) && Transaction(sb, d, Appends(acts, b, i - 1));
    ViewSpan(cfg, d0, acts, ws, b, i - 1, i);
    assert Appends(acts, b, i) == Appends(acts, b, i - 1) + [];
    assert Appends(acts, b, i) == Appends(acts, b, i - 1);
  }

  lemma EndHasSome(cfg: Config, d0: L.Disk, acts: seq<Action>, ws: seq<World>, i: nat)
    requires IsRun(cfg, d0, acts, ws) && 0 < i < |ws| && acts[i - 1].End?
    ensures ws[i - 1].ops != []
  {
    assert Enabled(cfg, ws[i - 1], acts[i - 1]);
  }

  lemma {:induction false} QuietKeeps(cfg: Config, sb: Super, d0: L.Disk, acts: seq<Action>, ws: seq<World>, i: nat)
    requires IsRun(cfg, d0, acts, ws) && Contained(cfg, ws, |acts|) && Above(cfg, sb, d0)
    requires Transactions(sb, acts, ws) && Consistent(sb, OnDisk(sb, d0)) && i < |ws|
    ensures QuietOk(sb, d0, acts, ws, i)
  {
    hide IsRun, Contained, Transactions, Consistent, OnDisk;
    RunLength(cfg, d0, acts, ws);
    if i > 0 {
      QuietKeeps(cfg, sb, d0, acts, ws, i - 1);
      if Quiet(acts, ws, i) {
        EndKeepsFs(cfg, sb, d0, acts, ws, i);
      }
    }
  }

  /** The hypothesis of SurvivesCrash holds of every run whose operations are transactions, each group that
      overlaps taken together. */
  lemma TransactionsKeep(cfg: Config, sb: Super, d0: L.Disk, acts: seq<Action>, ws: seq<World>)
    requires IsRun(cfg, d0, acts, ws) && |ws| == |acts| + 1 && (Safe(cfg) || Contained(cfg, ws, |acts|))
    requires Above(cfg, sb, d0) && Transactions(sb, acts, ws) && Consistent(sb, OnDisk(sb, d0))
    ensures OpsKeep(sb, d0, acts, ws)
  {
    hide IsRun, Contained, Transactions, Consistent, OnDisk, Quiet, Seen, RunInv;
    SafeKeeps(cfg, d0, acts, ws, |acts|);
    QuietKeeps(cfg, sb, d0, acts, ws, |acts|);
  }

  /** So the file system survives every crash of every such run. */
  lemma TransactionsSurvive(cfg: Config, sb: Super, d0: L.Disk, acts: seq<Action>, ws: seq<World>, i: nat)
    requires IsRun(cfg, d0, acts, ws) && |ws| == |acts| + 1 && (Safe(cfg) || Contained(cfg, ws, |acts|))
    requires Above(cfg, sb, d0) && Transactions(sb, acts, ws) && Consistent(sb, OnDisk(sb, d0)) && i < |ws|
    ensures L.Fits(cfg.lay, ws[i].s.disk) && |ws[i].s.disk| == sb.size
    ensures L.GoodBlocks(cfg.lay, ws[i].s.disk, L.DiskHeader(cfg.lay, ws[i].s.disk))
    ensures Consistent(sb, OnDisk(sb, Recovered(cfg.lay, ws[i].s.disk)))
  {
    hide IsRun, Transactions, Consistent, OnDisk, OpsKeep, L.DiskHeader, Overruns;
    TransactionsKeep(cfg, sb, d0, acts, ws);
    SurvivesCrash(cfg, sb, d0, acts, ws, i);
  }

  // ----- operations that overlap, under the inode locks

  /** Every group of operations works in the inode layer under its locks. */
  ghost predicate UnderLocks(sb: Super, acts: seq<Action>, ws: seq<World>)
    requires |ws| == |acts| + 1 && Layout(sb)
  {
    forall b: nat, j: nat :: Spans(acts, ws, b, j) ==> Begun(sb, ws[b]) ==>
      FsShareRun.Interleaved(sb, Cached(ws[b].s), Appends(acts, b, j))
  }

  /** The file system survives every crash of every run of the log in which the operations, as many at once
      as begin_op admits, work on inodes they have locked. */
  lemma OverlapSurvives(cfg: Config, sb: Super, d0: L.Disk, acts: seq<Action>, ws: seq<World>, i: nat)
    requires IsRun(cfg, d0, acts, ws) && |ws| == |acts| + 1 && (Safe(cfg) || Contained(cfg, ws, |acts|))
    requires Above(cfg, sb, d0) && UnderLocks(sb, acts, ws) && Consistent(sb, OnDisk(sb, d0)) && i < |ws|
    ensures L.Fits(cfg.lay, ws[i].s.disk) && |ws[i].s.disk| == sb.size
    ensures L.GoodBlocks(cfg.lay, ws[i].s.disk, L.DiskHeader(cfg.lay, ws[i].s.disk))
    ensures Consistent(sb, OnDisk(sb, Recovered(cfg.lay, ws[i].s.disk)))
  {
    hide IsRun, Consistent, OnDisk, L.DiskHeader, Overruns, Transaction, FsShareRun.Interleaved, Begun, Cached;
    forall b: nat, j: nat | Spans(acts, ws, b, j) && Begun(sb, ws[b])
      ensures Transaction(sb, Cached(ws[b].s), Appends(acts, b, j))
    {
      FsShareRun.InterleavedIsTransaction(sb, Cached(ws[b].s), Appends(acts, b, j));
    }
    assert Transactions(sb, acts, ws);
    hide Transactions;
    TransactionsSurvive(cfg, sb, d0, acts, ws, i);
  }

  // ----- operations that do not overlap

  ghost predicate OneAtATime(ws: seq<World>) {
    forall k :: 0 <= k < |ws| ==> |ws[k].ops| <= 1
  }

  /** The one operation that is active has a log block for the append it is about to make. */
  ghost predicate Ready(cfg: Config, w: World) {
    Fitting(cfg.lay, w.s) && forall k :: 0 <= k < |w.ops| && w.ops[k].tested ==> |w.s.lh| + 1 < cfg.lay.size
  }

  lemma AloneStep(cfg: Config, w: World, a: Action, w': World)
    requires Lean(cfg.lay, w) && Ready(cfg, w) && |w.ops| <= 1 && Enabled(cfg, w, a) && w' == Next(cfg, w, a)
    ensures Ready(cfg, w')
  {
    if a.Write? && L.HasBuffers(cfg.lay, w.s) {
      FittingAdvance(cfg.lay, w.s);
    }
  }

  /** Operations that do not overlap cannot overrun the region, however small it is. */
  lemma {:induction false} AloneContains(cfg: Config, d0: L.Disk, acts: seq<Action>, ws: seq<World>, i: nat)
    requires IsRun(cfg, d0, acts, ws) && OneAtATime(ws) && i < |ws|
    ensures Ready(cfg, ws[i]) && Contained(cfg, ws, i)
  {
    hide Lean, Enabled, Next;
    if i > 0 {
      AloneContains(cfg, d0, acts, ws, i - 1);
      RunLean(cfg, d0, acts, ws, i - 1);
      assert Enabled(cfg, ws[i - 1], acts[i - 1]) && ws[i] == Next(cfg, ws[i - 1], acts[i - 1]);
      AloneStep(cfg, ws[i - 1], acts[i - 1], ws[i]);
    }
  }

  lemma RunLength(cfg: Config, d0: L.Disk, acts: seq<Action>, ws: seq<World>)
    requires IsRun(cfg, d0, acts, ws)
    ensures |ws| == |acts| + 1
  {
  }

  /** A log of zero blocks, as mkfs leaves it, is empty: the runs above can start from that disk. */
  lemma ZeroLogIsEmpty(lay: L.Layout, d: L.Disk)
    requires L.Fits(lay, d) && d[lay.start] == ZeroBlock()
    ensures L.DiskHeader(lay, d) == []
  {
    WordOfZero(0);
  }
}
