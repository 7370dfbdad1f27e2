/** The log's pinned blocks in the buffer cache. The log machine counts the blocks it has pinned; here
    that count is tied to the buffers bget searches, and the machine's panic to bget's. */
module LogCache {
  import opened Bytes
  import opened Buffer
  import opened BufList
  import B = BufState
  import opened BufRun
  import L = LogState

  /** The dirty buffers hold exactly the blocks that the log has pinned, all of one device. */
  ghost predicate Pins(c: B.Cache, dev: nat, s: L.State) {
    && (forall j :: 0 <= j < |c.bufs| && c.bufs[j].dirty ==>
      c.bufs[j].key.dev == dev && c.bufs[j].key.blockno in s.dirty)
    && (forall b :: b in s.dirty ==> exists j :: 0 <= j < |c.bufs| && c.bufs[j].dirty && c.bufs[j].key == Key(dev, b))
  }

  /** bget(k) panics. */
  ghost predicate Panics(c: B.Cache, k: Key) {
    forall i: nat :: !B.Picks(c, k, i)
  }

  // ----- counting dirty buffers

  function DirtyBlocks(bufs: seq<Buf>, n: nat): set<nat>
    requires n <= |bufs|
  {
    if n == 0 then {} else DirtyBlocks(bufs, n - 1) + if bufs[n - 1].dirty then {bufs[n - 1].key.blockno} else {}
  }

  lemma {:induction false} InDirtyBlocks(bufs: seq<Buf>, n: nat, b: nat)
    requires n <= |bufs|
    ensures b in DirtyBlocks(bufs, n) <==> exists j :: 0 <= j < n && bufs[j].dirty && bufs[j].key.blockno == b
  {
    if n > 0 {
      InDirtyBlocks(bufs, n - 1, b);
    }
  }

  /** Different dirty buffers hold different blocks. */
  predicate Apart(bufs: seq<Buf>) {
    forall i, j :: 0 <= i < j < |bufs| && bufs[i].dirty && bufs[j].dirty ==> bufs[i].key.blockno != bufs[j].key.blockno
  }

  /** So there are as many of them as blocks; and all are dirty exactly when there are n. */
  lemma {:induction false} DirtyCount(bufs: seq<Buf>, n: nat)
    requires Apart(bufs) && n <= |bufs|
    ensures |DirtyBlocks(bufs, n)| <= n
    ensures |DirtyBlocks(bufs, n)| == n <==> forall j :: 0 <= j < n ==> bufs[j].dirty
  {
    if n > 0 {
      DirtyCount(bufs, n - 1);
      InDirtyBlocks(bufs, n - 1, bufs[n - 1].key.blockno);
    }
  }

  lemma KeysApart(w: B.World, dev: nat, s: L.State)
    requires B.Inv(w) && Pins(w.c, dev, s)
    ensures Apart(w.c.bufs)
  {
    forall i, j | 0 <= i < j < |w.c.bufs| && w.c.bufs[i].dirty && w.c.bufs[j].dirty
      ensures w.c.bufs[i].key.blockno != w.c.bufs[j].key.blockno
    {
      assert B.BufOk(w.c.bufs[i], w.leaving[i], w.c.disk, w.recorded);
    }
  }

  /** All buffers are dirty exactly when NBUF blocks are pinned. */
  lemma AllDirty(w: B.World, dev: nat, s: L.State)
    requires B.Inv(w) && Pins(w.c, dev, s)
    ensures |w.c.bufs| == NBUF && |s.dirty.Keys| <= NBUF
    ensures |s.dirty.Keys| == NBUF <==> forall j :: 0 <= j < NBUF ==> w.c.bufs[j].dirty
  {
    KeysApart(w, dev, s);
    hide B.Coherent, B.Sorted;
    PinnedBlocks(w.c, dev, s);
    hide Pins;
    DirtyCount(w.c.bufs, |w.c.bufs|);
  }

  lemma PinnedBlocks(c: B.Cache, dev: nat, s: L.State)
    requires Pins(c, dev, s)
    ensures DirtyBlocks(c.bufs, |c.bufs|) == s.dirty.Keys
  {
    forall b ensures b in DirtyBlocks(c.bufs, |c.bufs|) <==> b in s.dirty {
      InDirtyBlocks(c.bufs, |c.bufs|, b);
    }
  }

  /** The log pins at most NBUF blocks. With NBUF pinned bget panics for every other block, whatever
      else is in use; with fewer, and no buffer referenced, it finds a buffer for every block. */
  lemma PinnedPanics(w: B.World, dev: nat, s: L.State, k: Key)
    requires B.Inv(w) && Pins(w.c, dev, s)
    ensures |s.dirty.Keys| <= NBUF
    ensures |s.dirty.Keys| == NBUF && (k.dev != dev || k.blockno !in s.dirty) ==> Panics(w.c, k)
    ensures |s.dirty.Keys| < NBUF && Unreferenced(w.c) ==> !Panics(w.c, k)
  {
    AllDirty(w, dev, s);
    PanicsWhen(w, k);
    hide B.Picks, B.Coherent, B.Sorted;
    if |s.dirty.Keys| < NBUF && Unreferenced(w.c) {
      var j: nat :| j < NBUF && !w.c.bufs[j].dirty;
      assert B.Reusable(w.c.bufs[j]);
    }
  }

  predicate Unreferenced(c: B.Cache) {
    forall j :: 0 <= j < |c.bufs| ==> c.bufs[j].refcnt == 0
  }

  /** The guard of the log machine is bget's: in any cache state, if the machine has no buffer for the
      next round of write_log, then the bread of its log block panics. If it has, and no buffer is
      referenced, then that bread finds a buffer. The bread of the listed block finds its own. */
  lemma GuardIsBget(w: B.World, dev: nat, lay: L.Layout, s: L.State)
    requires B.Inv(w) && Pins(w.c, dev, s)
    requires s.phase.WriteLog? && s.phase.tail < |s.lh| && Distinct(s.lh) && L.Pinned(s)
    requires lay.start + 1 + s.phase.tail !in s.lh
    ensures var to := Key(dev, lay.start + 1 + s.phase.tail);
      && (!L.HasBuffers(lay, s) ==> Panics(w.c, to))
      && (L.HasBuffers(lay, s) && Unreferenced(w.c) ==> !Panics(w.c, to))
    ensures !Panics(w.c, Key(dev, s.lh[s.phase.tail]))
  {
    hide B.Inv, Pins, Panics, Unreferenced, L.HasBuffers;
    PinnedPanics(w, dev, s, Key(dev, lay.start + 1 + s.phase.tail));
    L.WriteLogBuffers(lay, s);
    L.DistinctCount(s.lh, s.dirty.Keys);
    OwnBuffer(w, dev, s, s.lh[s.phase.tail]);
  }

  lemma OwnBuffer(w: B.World, dev: nat, s: L.State, b: nat)
    requires B.Inv(w) && Pins(w.c, dev, s) && b in s.dirty
    ensures !Panics(w.c, Key(dev, b))
  {
    var j: nat :| j < |w.c.bufs| && w.c.bufs[j].dirty && w.c.bufs[j].key == Key(dev, b);
    PanicsWhen(w, Key(dev, b));
    assert B.Cached(w.c, Key(dev, b));
  }
}
