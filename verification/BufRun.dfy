/** What the buffer cache promises over whole runs. */
module BufRun {
  import opened Buffer
  import opened BufList
  import opened BufState

  /** binit: every buffer unused, the last of the array at the front of the list. */
  ghost predicate Initial(w: World) {
    && |w.c.bufs| == |w.stamp| == |w.leaving| == |w.c.order| == NBUF
    && (forall i :: 0 <= i < NBUF ==> w.c.bufs[i] == Buf(UNUSED, false, false, false, 0, w.c.bufs[i].data))
    && (forall i :: 0 <= i < NBUF ==> w.leaving[i] == 0 && w.stamp[i] == i)
    && (forall p :: 0 <= p < NBUF ==> w.c.order[p] == NBUF - 1 - p)
    && w.clock == NBUF && w.recorded == w.c.disk
  }

  /** A run: its actions, and its states one more in number. */
  ghost predicate IsRun(ws: seq<World>, acts: seq<Action>) {
    && |ws| == |acts| + 1 && Initial(ws[0])
    && forall t :: 0 <= t < |acts| ==> Step(ws[t], acts[t], ws[t + 1])
  }

  ghost predicate Step(w: World, a: Action, w': World) {
    Enabled(w, a) && w' == Next(w, a)
  }

  lemma InitialInv(w: World)
    requires Initial(w)
    ensures Inv(w)
  {
    forall i | 0 <= i < NBUF ensures i in w.c.order {
      assert w.c.order[NBUF - 1 - i] == i;
    }
  }

  /** In every state of every run: each buffer once on the list, no block in two buffers, and the
      buffers and the disk together hold what was last recorded for every block. */
  lemma {:induction false} RunKeeps(ws: seq<World>, acts: seq<Action>, t: nat)
    requires IsRun(ws, acts) && t < |ws|
    ensures Inv(ws[t])
  {
    if t == 0 {
      InitialInv(ws[0]);
    } else {
      RunKeeps(ws, acts, t - 1);
      assert Step(ws[t - 1], acts[t - 1], ws[t]);
      NextKeeps(ws[t - 1], acts[t - 1]);
    }
  }

  /** bread returns the contents last recorded for the block, whatever happened before: other
      processes, recycled buffers, transactions that have not reached the disk. */
  lemma BreadSeesRecorded(ws: seq<World>, acts: seq<Action>, t: nat)
    requires IsRun(ws, acts) && t < |acts| && acts[t].Acquire?
    ensures var i, w, w' := acts[t].i, ws[t], ws[t + 1];
      && i < |w.c.bufs| == |w'.c.bufs| && w.c.bufs[i].key in w.recorded
      && w'.c.bufs[i].key == w.c.bufs[i].key && w'.c.bufs[i].locked && w'.c.bufs[i].valid
      && w'.c.bufs[i].data == w.recorded[w.c.bufs[i].key]
  {
    RunKeeps(ws, acts, t);
    var i, w := acts[t].i, ws[t];
    assert Step(w, acts[t], ws[t + 1]);
    assert BufOk(w.c.bufs[i], w.leaving[i], w.c.disk, w.recorded);
  }

  /** No step takes the block away from a buffer someone has a reference to, or from one whose
      changes the log has not yet written: the identity and contents of a buffer are stable from
      bget to brelse, and from log_write to the commit. */
  lemma InUseIsKept(ws: seq<World>, acts: seq<Action>, t: nat, j: nat)
    requires IsRun(ws, acts) && t < |acts| && j < NBUF
    ensures |ws[t].c.bufs| == |ws[t + 1].c.bufs| == NBUF
    ensures var b, b' := ws[t].c.bufs[j], ws[t + 1].c.bufs[j];
      && (!Reusable(b) ==> b'.key == b.key)
      && (b.dirty && !b'.dirty ==> acts[t] == Write(j))
      && (b'.data != b.data ==> (acts[t].Modify? || acts[t].Acquire?) && acts[t].i == j)
  {
    RunKeeps(ws, acts, t);
    var w := ws[t];
    assert Step(w, acts[t], ws[t + 1]);
    assert BufOk(w.c.bufs[j], w.leaving[j], w.c.disk, w.recorded);
    if acts[t].Get? && acts[t].i == j && w.c.bufs[j].key != acts[t].k {
      assert Reusable(w.c.bufs[j]);
    }
  }

  /** What is recorded for a block changes only by log_write or bwrite on it. */
  lemma RecordedChanges(ws: seq<World>, acts: seq<Action>, t: nat, k: Key)
    requires IsRun(ws, acts) && t < |acts| && k in ws[t].recorded
    ensures k in ws[t + 1].recorded
    ensures ws[t + 1].recorded[k] != ws[t].recorded[k] ==>
      && (acts[t].LogWrite? || acts[t].Write?) && acts[t].i < |ws[t].c.bufs|
      && ws[t].c.bufs[acts[t].i].key == k && ws[t + 1].recorded[k] == ws[t].c.bufs[acts[t].i].data
  {
    assert Step(ws[t], acts[t], ws[t + 1]);
  }

  /** Over a stretch of a run with no Write of it, a block recorded by log_write is not lost: it
      stays in its buffer, which stays dirty. */
  lemma {:induction false} PinnedUntilWritten(ws: seq<World>, acts: seq<Action>, t: nat, u: nat, j: nat)
    requires IsRun(ws, acts) && t <= u < |ws| && j < NBUF
    requires |ws[t].c.bufs| == NBUF && ws[t].c.bufs[j].dirty
    requires forall v :: t <= v < u ==> acts[v] != Write(j)
    ensures |ws[u].c.bufs| == NBUF && ws[u].c.bufs[j].dirty && ws[u].c.bufs[j].key == ws[t].c.bufs[j].key
  {
    if t < u {
      PinnedUntilWritten(ws, acts, t, u - 1, j);
      InUseIsKept(ws, acts, u - 1, j);
    }
  }

  /** Between two records of a block, what is recorded for it stands. */
  lemma {:induction false} RecordStands(ws: seq<World>, acts: seq<Action>, t: nat, u: nat, k: Key)
    requires IsRun(ws, acts) && t <= u < |ws| && k in ws[t].recorded
    requires forall v :: t <= v < u && (acts[v].LogWrite? || acts[v].Write?) && acts[v].i < |ws[v].c.bufs| ==>
      ws[v].c.bufs[acts[v].i].key != k
    ensures k in ws[u].recorded && ws[u].recorded[k] == ws[t].recorded[k]
  {
    if t < u {
      RecordStands(ws, acts, t, u - 1, k);
      RecordedChanges(ws, acts, u - 1, k);
    }
  }

  /** What log_write recorded at t is what a later bread of the block returns, as long as nobody has
      recorded it again: write_log copies the newest data, however many buffers were recycled. */
  lemma LaterBreadSeesIt(ws: seq<World>, acts: seq<Action>, t: nat, u: nat)
    requires IsRun(ws, acts) && t < u < |acts| && acts[t].LogWrite? && acts[u].Acquire?
    requires acts[t].i < |ws[t].c.bufs| && acts[u].i < |ws[u].c.bufs|
    requires ws[u].c.bufs[acts[u].i].key == ws[t].c.bufs[acts[t].i].key
    requires forall v :: t < v < u && (acts[v].LogWrite? || acts[v].Write?) && acts[v].i < |ws[v].c.bufs| ==>
      ws[v].c.bufs[acts[v].i].key != ws[t].c.bufs[acts[t].i].key
    ensures acts[u].i < |ws[u + 1].c.bufs| && ws[u + 1].c.bufs[acts[u].i].data == ws[t].c.bufs[acts[t].i].data
  {
    assert Step(ws[t], acts[t], ws[t + 1]);
    RecordStands(ws, acts, t + 1, u, ws[t].c.bufs[acts[t].i].key);
    BreadSeesRecorded(ws, acts, u);
  }

  /** A valid clean buffer that nobody holds has the contents of the disk. */
  lemma CleanEqualsDisk(ws: seq<World>, acts: seq<Action>, t: nat, i: nat)
    requires IsRun(ws, acts) && t < |ws| && i < |ws[t].c.bufs|
    requires ws[t].c.bufs[i].valid && !ws[t].c.bufs[i].dirty && !ws[t].c.bufs[i].locked
    ensures ws[t].c.bufs[i].key in ws[t].c.disk && ws[t].c.bufs[i].data == ws[t].c.disk[ws[t].c.bufs[i].key]
  {
    RunKeeps(ws, acts, t);
    assert BufOk(ws[t].c.bufs[i], ws[t].leaving[i], ws[t].c.disk, ws[t].recorded);
  }

  // ----- which buffer bget takes

  /** bget has no choice. */
  lemma PickIsUnique(w: World, k: Key, i: nat, j: nat)
    requires Inv(w) && k != UNUSED && Picks(w.c, k, i) && Picks(w.c, k, j)
    ensures i == j
  {
    if !Cached(w.c, k) {
      var p :| 0 <= p < |w.c.order| && w.c.order[p] == i && LastFree(w.c, p);
      var q :| 0 <= q < |w.c.order| && w.c.order[q] == j && LastFree(w.c, q);
      assert p == q;
    }
  }

  /** The recycled buffer is the free one that was released longest ago. */
  lemma VictimIsOldest(w: World, k: Key, i: nat, j: nat)
    requires Inv(w) && Picks(w.c, k, i) && w.c.bufs[i].key != k
    requires j < NBUF && j != i && Reusable(w.c.bufs[j])
    ensures Reusable(w.c.bufs[i]) && w.stamp[i] < w.stamp[j]
  {
    var p :| 0 <= p < |w.c.order| && w.c.order[p] == i && LastFree(w.c, p);
    assert j in w.c.order;
    var q :| 0 <= q < |w.c.order| && w.c.order[q] == j;
  }

  /** bget panics exactly when the block is not cached and every buffer is referenced or dirty. */
  lemma PanicsWhen(w: World, k: Key)
    requires Inv(w)
    ensures (forall i: nat :: !Picks(w.c, k, i)) <==>
      !Cached(w.c, k) && forall j :: 0 <= j < NBUF ==> !Reusable(w.c.bufs[j])
  {
    if Cached(w.c, k) {
      var j: nat :| j < |w.c.bufs| && w.c.bufs[j].key == k;
      assert Picks(w.c, k, j);
    } else if exists j :: 0 <= j < NBUF && Reusable(w.c.bufs[j]) {
      var j: nat :| j < NBUF && Reusable(w.c.bufs[j]);
      assert j in w.c.order;
      var p :| 0 <= p < |w.c.order| && w.c.order[p] == j;
      var l := LastOf(w.c, p);
      assert Picks(w.c, k, w.c.order[l]);
    } else {
      forall i: nat ensures !Picks(w.c, k, i) {
      }
    }
  }

  /** From some free buffer on the list, the last one. */
  lemma {:induction false} LastOf(c: Cache, p: nat) returns (l: nat)
    requires ListIn(c) && p < |c.order| && Reusable(c.bufs[c.order[p]])
    ensures l < |c.order| && LastFree(c, l)
    decreases |c.order| - p
  {
    if LastFree(c, p) {
      l := p;
    } else {
      var q :| p < q < |c.order| && Reusable(c.bufs[c.order[q]]);
      l := LastOf(c, q);
    }
  }
}
