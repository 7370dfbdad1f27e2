/** The redo log as a machine that moves one disk-block write at a time.

    A machine state is what the log code can see: the disk, the pinned (dirty) buffers, the
    in-memory log header, and how far the current commit or recovery has come. A crash keeps
    the disk and nothing else, so a claim about the disk in every machine state is a claim
    about a crash after every single block write. */
module LogState {
  import opened Bytes
  import BufList

  const MAXOPBLOCKS := 10
  const LOGSIZE := 30

  type Disk = seq<Block>

  /** Where the log lies: the header block and size - 1 blocks after it. */
  datatype Layout = Layout(start: nat, size: nat)

  predicate InLog(lay: Layout, b: nat) {
    lay.start <= b < lay.start + lay.size
  }

  predicate Fits(lay: Layout, d: Disk) {
    1 <= lay.size && lay.start + lay.size <= |d| < UINT_MOD
  }

  /** Block numbers that may stand in a log header: distinct, outside the log, on the disk, and
      no more of them than there are log blocks. */
  predicate GoodBlocks(lay: Layout, d: Disk, lh: seq<nat>) {
    && |lh| <= LOGSIZE && |lh| < lay.size
    && Distinct(lh)
    && forall i :: 0 <= i < |lh| ==> lh[i] < |d| && !InLog(lay, lh[i])
  }

  /** What the code needs to make its next write: the blocks are on the disk. A list longer than the
      log is no obstacle; its log blocks then lie past the end of the log. */
  predicate InRange(lay: Layout, d: Disk, lh: seq<nat>) {
    && |lh| <= LOGSIZE && lay.start + |lh| < |d|
    && forall i :: 0 <= i < |lh| ==> lh[i] < |d|
  }

  /** The i-th log block, after the header. */
  function LogBlock(lay: Layout, d: Disk, i: nat): Block
    requires lay.start + 1 + i < |d|
  {
    d[lay.start + 1 + i]
  }

  // ----- the header block

  /** The list in a header block. A count past the end of the block never passes GoodBlocks. */
  function HeaderOf(b: Block): (lh: seq<nat>) {
    seq(Word(b, 0), i requires 0 <= i => if i + 1 < WORDS then Word(b, i + 1) else 0)
  }

  /** The header block after its count and its first k entries were stored. */
  function PutEntries(b: Block, lh: seq<nat>, k: nat): Block
    requires k <= |lh| <= LOGSIZE
    requires forall i :: 0 <= i < |lh| ==> lh[i] < UINT_MOD
  {
    if k == 0 then PutWord(b, 0, |lh|) else PutWord(PutEntries(b, lh, k - 1), k, lh[k - 1])
  }

  function PutHeader(b: Block, lh: seq<nat>): Block
    requires |lh| <= LOGSIZE
    requires forall i :: 0 <= i < |lh| ==> lh[i] < UINT_MOD
  {
    PutEntries(b, lh, |lh|)
  }

  lemma {:induction false} PutEntriesWords(b: Block, lh: seq<nat>, k: nat, j: nat)
    requires k <= |lh| <= LOGSIZE && j <= k
    requires forall i :: 0 <= i < |lh| ==> lh[i] < UINT_MOD
    ensures Word(PutEntries(b, lh, k), j) == if j == 0 then |lh| else lh[j - 1]
  {
    if k == 0 {
      WordOfPutWord(b, 0, |lh|, 0);
    } else {
      WordOfPutWord(PutEntries(b, lh, k - 1), k, lh[k - 1], j);
      if j < k {
        PutEntriesWords(b, lh, k - 1, j);
      }
    }
  }

  /** Whatever the header block held, reading it back gives exactly the list written. */
  lemma HeaderRoundTrip(b: Block, lh: seq<nat>)
    requires |lh| <= LOGSIZE
    requires forall i :: 0 <= i < |lh| ==> lh[i] < UINT_MOD
    ensures HeaderOf(PutHeader(b, lh)) == lh
  {
    forall j | 0 <= j <= |lh| ensures Word(PutHeader(b, lh), j) == if j == 0 then |lh| else lh[j - 1] {
      PutEntriesWords(b, lh, |lh|, j);
    }
  }

  function DiskHeader(lay: Layout, d: Disk): seq<nat>
    requires Fits(lay, d)
  {
    HeaderOf(d[lay.start])
  }

  // ----- what a disk means

  /** The contents that block b is to have once the log has been replayed. */
  function Meaning(lay: Layout, d: Disk, b: nat): Block
    requires Fits(lay, d) && GoodBlocks(lay, d, DiskHeader(lay, d)) && b < |d|
  {
    var lh := DiskHeader(lay, d);
    if b in lh then LogBlock(lay, d, IndexOf(lh, b)) else d[b]
  }

  /** The home blocks of d, replayed, are those of e. */
  ghost predicate Means(lay: Layout, d: Disk, e: Disk) {
    && Fits(lay, d) && |e| == |d|
    && GoodBlocks(lay, d, DiskHeader(lay, d))
    && forall b :: 0 <= b < |d| && !InLog(lay, b) ==> Meaning(lay, d, b) == e[b]
  }

  // ----- the machine

  datatype Phase =
    | Boot                    // memory is empty, the header has not been read
    | Idle
    | WriteLog(tail: nat)     // write_log is about to copy its tail-th block
    | WriteHead               // about to write the header: the commit point
    | Install(tail: nat)      // install_trans is about to copy its tail-th block
    | Erase                   // about to clear the header
    | Done                    // commit() has returned, committing is not yet cleared

  datatype State = State(disk: Disk, dirty: map<nat, Block>, lh: seq<nat>,
                         outstanding: int, committing: bool, phase: Phase)

  /** What bread returns for block b. */
  function View(s: State, b: nat): Block
    requires b < |s.disk|
  {
    if b in s.dirty then s.dirty[b] else s.disk[b]
  }

  function Booted(d: Disk): State {
    State(d, map[], [], 0, false, Boot)
  }

  function NextWriteLog(lh: seq<nat>, t: nat): Phase {
    if t < |lh| then WriteLog(t) else WriteHead
  }

  function NextInstall(lh: seq<nat>, t: nat): Phase {
    if t < |lh| then Install(t) else Erase
  }

  /** The rest of commit() or recover_from_log(), one disk write at a time. The data of each write
      is taken from the cache or the disk at that moment. */
  function Advance(lay: Layout, s: State): State
    requires Fits(lay, s.disk) && InRange(lay, s.disk, s.lh)
    requires s.phase.WriteLog? || s.phase.Install? ==> s.phase.tail < |s.lh|
  {
    match s.phase
    case Boot =>
      var lh := DiskHeader(lay, s.disk);
      s.(lh := lh, phase := NextInstall(lh, 0))
    case WriteLog(t) =>
      s.(disk := s.disk[lay.start + 1 + t := View(s, s.lh[t])],
         dirty := s.dirty - {lay.start + 1 + t},
         phase := NextWriteLog(s.lh, t + 1))
    case WriteHead =>
      s.(disk := s.disk[lay.start := PutHeader(s.disk[lay.start], s.lh)], phase := NextInstall(s.lh, 0))
    case Install(t) =>
      s.(disk := s.disk[s.lh[t] := View(s, lay.start + 1 + t)],
         dirty := s.dirty - {s.lh[t]},
         phase := NextInstall(s.lh, t + 1))
    case Erase =>
      s.(disk := s.disk[lay.start := PutHeader(s.disk[lay.start], [])], lh := [],
         phase := if s.committing then Done else Idle)
    case _ => s
  }

  /** The blocks whose buffers the code holds, at once, to make its next write. */
  function InHand(lay: Layout, s: State): set<nat> {
    match s.phase
    case WriteLog(t) => {lay.start + 1 + t} + if t < |s.lh| then {s.lh[t]} else {}
    case Install(t) => {lay.start + 1 + t} + if t < |s.lh| then {s.lh[t]} else {}
    case Boot | WriteHead | Erase => {lay.start}
    case Idle | Done => {}
  }

  /** bget finds a buffer for each of them. The pinned blocks keep theirs, and there are NBUF. */
  predicate HasBuffers(lay: Layout, s: State) {
    |s.dirty.Keys + InHand(lay, s)| <= BufList.NBUF
  }

  // ----- the invariant

  /** The first t log blocks hold the cached contents of the logged blocks. */
  ghost predicate Copied(lay: Layout, s: State, t: nat)
    requires Fits(lay, s.disk) && GoodBlocks(lay, s.disk, s.lh) && t <= |s.lh|
  {
    forall i :: 0 <= i < t ==> s.lh[i] in s.dirty && LogBlock(lay, s.disk, i) == s.dirty[s.lh[i]]
  }

  /** The first t logged blocks are home; buffers still pinned agree with the log. */
  ghost predicate Installed(lay: Layout, s: State, t: nat)
    requires Fits(lay, s.disk) && GoodBlocks(lay, s.disk, s.lh) && t <= |s.lh|
  {
    && (forall i :: 0 <= i < t ==> s.disk[s.lh[i]] == LogBlock(lay, s.disk, i) && s.lh[i] !in s.dirty)
    && (forall i :: t <= i < |s.lh| && s.lh[i] in s.dirty ==> s.dirty[s.lh[i]] == LogBlock(lay, s.disk, i))
    && (forall b :: b in s.dirty ==> b in s.lh)
  }

  /** The pinned buffers are exactly those the in-memory header lists. */
  ghost predicate Pinned(s: State) {
    forall b :: b in s.dirty <==> b in s.lh
  }

  ghost predicate WellFormed(lay: Layout, s: State) {
    && Fits(lay, s.disk)
    && GoodBlocks(lay, s.disk, s.lh)
    && GoodBlocks(lay, s.disk, DiskHeader(lay, s.disk))
  }

  ghost predicate Inv(lay: Layout, s: State) {
    && WellFormed(lay, s)
    && match s.phase
       case Boot => s.outstanding == 0 && !s.committing && s.lh == [] && s.dirty == map[]
       case Idle => !s.committing && DiskHeader(lay, s.disk) == [] && Pinned(s)
       case WriteLog(t) =>
         && s.outstanding == 0 && s.committing && DiskHeader(lay, s.disk) == [] && Pinned(s)
         && t < |s.lh| && Copied(lay, s, t)
       case WriteHead =>
         && s.outstanding == 0 && s.committing && DiskHeader(lay, s.disk) == [] && Pinned(s)
         && Copied(lay, s, |s.lh|)
       case Install(t) =>
         && s.outstanding == 0 && DiskHeader(lay, s.disk) == s.lh
         && t < |s.lh| && Installed(lay, s, t)
       case Erase =>
         && s.outstanding == 0 && DiskHeader(lay, s.disk) == s.lh
         && Installed(lay, s, |s.lh|)
       case Done =>
         s.outstanding == 0 && s.committing && s.lh == [] && DiskHeader(lay, s.disk) == [] && s.dirty == map[]
  }

  // ----- how many buffers are pinned

  /** The elements of a list without repetitions are as many as the list is long. */
  lemma {:induction false} DistinctCount(lh: seq<nat>, pinned: set<nat>)
    requires Distinct(lh) && forall b :: b in pinned <==> b in lh
    ensures |pinned| == |lh|
  {
    if lh != [] {
      var k := |lh| - 1;
      var rest := pinned - {lh[k]};
      forall b ensures b in rest <==> b in lh[..k] {
        if b in lh && b != lh[k] {
          var i :| 0 <= i < |lh| && lh[i] == b;
          assert lh[..k][i] == b;
        }
      }
      DistinctCount(lh[..k], rest);
      assert pinned == rest + {lh[k]};
    }
  }

  /** While write_log runs every listed block is pinned and the log blocks are not, so it needs one
      buffer more than there are entries. */
  lemma WriteLogBuffers(lay: Layout, s: State)
    requires s.phase.WriteLog? && s.phase.tail < |s.lh| && Distinct(s.lh) && Pinned(s)
    requires lay.start + 1 + s.phase.tail !in s.lh
    ensures HasBuffers(lay, s) <==> |s.lh| < BufList.NBUF
  {
    DistinctCount(s.lh, s.dirty.Keys);
    OneMore(s.dirty.Keys, lay.start + 1 + s.phase.tail, s.lh[s.phase.tail]);
  }

  lemma OneMore(pinned: set<nat>, to: nat, from: nat)
    requires to !in pinned && from in pinned
    ensures |pinned + ({to} + {from})| == |pinned| + 1
  {
    assert pinned + ({to} + {from}) == pinned + {to};
  }

  // ----- one write keeps the invariant, and only the header write changes the meaning

  lemma AdvanceBoot(lay: Layout, s: State)
    requires Inv(lay, s) && s.phase.Boot?
    ensures Inv(lay, Advance(lay, s)) && Advance(lay, s).disk == s.disk
  {
  }

  lemma LogBlockOfUpdate(lay: Layout, d: Disk, t: nat, x: Block, i: nat)
    requires Fits(lay, d) && t + 1 < lay.size && i + 1 < lay.size
    ensures LogBlock(lay, d[lay.start + 1 + t := x], i) == if i == t then x else LogBlock(lay, d, i)
  {
  }

  lemma WriteLogMeans(lay: Layout, d: Disk, t: nat, x: Block, e: Disk)
    requires Means(lay, d, e) && DiskHeader(lay, d) == [] && t + 1 < lay.size
    ensures Means(lay, d[lay.start + 1 + t := x], e)
  {
    LogFromMeans(lay, d, [], e);
    MeansFromLog(lay, d[lay.start + 1 + t := x], [], e);
  }

  lemma WriteLogCopies(lay: Layout, s: State, t: nat, s': State)
    requires Fits(lay, s.disk) && GoodBlocks(lay, s.disk, s.lh) && Pinned(s) && t < |s.lh| && Copied(lay, s, t)
    requires s'.disk == s.disk[lay.start + 1 + t := s.dirty[s.lh[t]]] && s'.dirty == s.dirty && s'.lh == s.lh
    ensures Copied(lay, s', t + 1)
  {
    forall i | 0 <= i < t + 1 ensures s.lh[i] in s.dirty && LogBlock(lay, s'.disk, i) == s.dirty[s.lh[i]] {
      LogBlockOfUpdate(lay, s.disk, t, s.dirty[s.lh[t]], i);
    }
  }

  lemma AdvanceWriteLog(lay: Layout, s: State, e: Disk)
    requires Inv(lay, s) && s.phase.WriteLog? && Means(lay, s.disk, e)
    ensures Inv(lay, Advance(lay, s)) && Means(lay, Advance(lay, s).disk, e)
  {
    var t := s.phase.tail;
    assert s.lh[t] in s.dirty;
    assert s.dirty - {lay.start + 1 + t} == s.dirty;
    WriteLogMeans(lay, s.disk, t, s.dirty[s.lh[t]], e);
    WriteLogCopies(lay, s, t, Advance(lay, s));
  }

  /** A disk whose header lists lh means e when the log blocks hold e at lh and the home blocks
      hold e elsewhere. */
  lemma MeansFromLog(lay: Layout, d: Disk, lh: seq<nat>, e: Disk)
    requires Fits(lay, d) && DiskHeader(lay, d) == lh && GoodBlocks(lay, d, lh) && |e| == |d|
    requires forall i :: 0 <= i < |lh| ==> LogBlock(lay, d, i) == e[lh[i]]
    requires forall b :: 0 <= b < |d| && !InLog(lay, b) && b !in lh ==> d[b] == e[b]
    ensures Means(lay, d, e)
  {
    forall b | 0 <= b < |d| && !InLog(lay, b) ensures Meaning(lay, d, b) == e[b] {
      if b in lh {
        var i := IndexOf(lh, b);
        assert LogBlock(lay, d, i) == e[lh[i]];
      }
    }
  }

  /** The converse. */
  lemma LogFromMeans(lay: Layout, d: Disk, lh: seq<nat>, e: Disk)
    requires Means(lay, d, e) && DiskHeader(lay, d) == lh
    ensures forall i :: 0 <= i < |lh| ==> LogBlock(lay, d, i) == e[lh[i]]
    ensures forall b :: 0 <= b < |d| && !InLog(lay, b) && b !in lh ==> d[b] == e[b]
  {
    forall i | 0 <= i < |lh| ensures LogBlock(lay, d, i) == e[lh[i]] {
      assert IndexOf(lh, lh[i]) == i;
      assert Meaning(lay, d, lh[i]) == e[lh[i]];
    }
    forall b | 0 <= b < |d| && !InLog(lay, b) && b !in lh ensures d[b] == e[b] {
      assert Meaning(lay, d, b) == e[b];
    }
  }

  lemma WriteHeadMeans(lay: Layout, s: State, h: Block, e: Disk)
    requires Fits(lay, s.disk) && GoodBlocks(lay, s.disk, s.lh) && Pinned(s) && Copied(lay, s, |s.lh|)
    requires HeaderOf(h) == s.lh && |e| == |s.disk|
    requires forall b :: 0 <= b < |e| && !InLog(lay, b) ==> View(s, b) == e[b]
    ensures Means(lay, s.disk[lay.start := h], e)
    ensures forall i :: 0 <= i < |s.lh| ==> LogBlock(lay, s.disk[lay.start := h], i) == s.dirty[s.lh[i]]
  {
    var d := s.disk[lay.start := h];
    forall i | 0 <= i < |s.lh| ensures LogBlock(lay, d, i) == s.dirty[s.lh[i]] == e[s.lh[i]] {
      assert View(s, s.lh[i]) == e[s.lh[i]];
    }
    forall b | 0 <= b < |d| && !InLog(lay, b) && b !in s.lh ensures d[b] == e[b] {
      assert View(s, b) == e[b];
    }
    MeansFromLog(lay, d, s.lh, e);
  }

  lemma AdvanceWriteHead(lay: Layout, s: State, e: Disk)
    requires Inv(lay, s) && s.phase.WriteHead? && |e| == |s.disk|
    requires forall b :: 0 <= b < |e| && !InLog(lay, b) ==> View(s, b) == e[b]
    ensures Inv(lay, Advance(lay, s)) && Means(lay, Advance(lay, s).disk, e)
  {
    var h := PutHeader(s.disk[lay.start], s.lh);
    HeaderRoundTrip(s.disk[lay.start], s.lh);
    WriteHeadMeans(lay, s, h, e);
    assert Installed(lay, Advance(lay, s), 0);
  }

  lemma InstallMeans(lay: Layout, d: Disk, lh: seq<nat>, t: nat, e: Disk)
    requires Means(lay, d, e) && DiskHeader(lay, d) == lh && t < |lh|
    ensures Means(lay, d[lh[t] := LogBlock(lay, d, t)], e)
  {
    LogFromMeans(lay, d, lh, e);
    MeansFromLog(lay, d[lh[t] := LogBlock(lay, d, t)], lh, e);
  }

  lemma InstallInstalls(lay: Layout, s: State, t: nat, s': State)
    requires Fits(lay, s.disk) && GoodBlocks(lay, s.disk, s.lh) && t < |s.lh| && Installed(lay, s, t)
    requires s'.disk == s.disk[s.lh[t] := LogBlock(lay, s.disk, t)] && s'.dirty == s.dirty - {s.lh[t]} && s'.lh == s.lh
    ensures Installed(lay, s', t + 1)
  {
    forall i | 0 <= i < |s.lh|
      ensures LogBlock(lay, s'.disk, i) == LogBlock(lay, s.disk, i)
      ensures i != t ==> s'.disk[s.lh[i]] == s.disk[s.lh[i]]
    {
    }
  }

  lemma AdvanceInstall(lay: Layout, s: State, e: Disk)
    requires Inv(lay, s) && s.phase.Install? && Means(lay, s.disk, e)
    ensures Inv(lay, Advance(lay, s)) && Means(lay, Advance(lay, s).disk, e)
  {
    InstallMeans(lay, s.disk, s.lh, s.phase.tail, e);
    InstallInstalls(lay, s, s.phase.tail, Advance(lay, s));
  }

  lemma AllInstalled(lay: Layout, s: State)
    requires Fits(lay, s.disk) && GoodBlocks(lay, s.disk, s.lh) && Installed(lay, s, |s.lh|)
    ensures s.dirty == map[]
  {
    forall b ensures b !in s.dirty {
      if b in s.lh {
        assert s.lh[IndexOf(s.lh, b)] !in s.dirty;
      }
    }
  }

  lemma AdvanceErase(lay: Layout, s: State, e: Disk)
    requires Inv(lay, s) && s.phase.Erase? && Means(lay, s.disk, e)
    ensures Inv(lay, Advance(lay, s)) && Means(lay, Advance(lay, s).disk, e)
  {
    HeaderRoundTrip(s.disk[lay.start], []);
    AllInstalled(lay, s);
    LogFromMeans(lay, s.disk, s.lh, e);
    MeansFromLog(lay, Advance(lay, s).disk, [], e);
  }

  /** Crash atomicity, one write at a time: every write keeps the invariant and keeps what a
      replay would produce, except the header write of a commit, which changes it to the cached
      contents of every home block in one go. */
  lemma AdvanceIsAtomic(lay: Layout, s: State, before: Disk, cached: Disk)
    requires Inv(lay, s) && Means(lay, s.disk, before)
    requires |cached| == |s.disk| && forall b :: 0 <= b < |cached| && !InLog(lay, b) ==> View(s, b) == cached[b]
    ensures Inv(lay, Advance(lay, s))
    ensures Means(lay, Advance(lay, s).disk, if s.phase.WriteHead? then cached else before)
  {
    match s.phase
    case Boot => AdvanceBoot(lay, s);
    case WriteLog(_) => AdvanceWriteLog(lay, s, before);
    case WriteHead => AdvanceWriteHead(lay, s, cached);
    case Install(_) => AdvanceInstall(lay, s, before);
    case Erase => AdvanceErase(lay, s, before);
    case _ =>
  }
}
