/** The buffer cache as a machine over any number of processes: each action is one critical
    section, or something the holder of a buffer's sleep-lock does alone. */
module BufState {
  import opened Bytes
  import opened Buffer
  import opened BufList

  /** The buffers, the LRU list (most recently released first), the disk. */
  datatype Cache = Cache(bufs: seq<Buf>, order: seq<nat>, disk: map<Key, Block>)

  /** The cache with its history: the contents last recorded for each block by log_write or bwrite
      (at first, the disk's), how many processes are between the two halves of brelse for each
      buffer, and when each buffer was last moved to the front of the list. */
  datatype World = World(c: Cache, recorded: map<Key, Block>, leaving: seq<nat>, stamp: seq<int>, clock: int)

  datatype Action =
    | Get(k: Key, i: nat)            // bget's critical section, choosing buffer i
    | Acquire(i: nat)                // acquiresleep, then iderw if the buffer is not valid
    | Modify(i: nat, x: Block)       // the holder changes b->data
    | LogWrite(i: nat)
    | Write(i: nat)                  // bwrite
    | Unlock(i: nat)                 // brelse: releasesleep
    | Drop(i: nat)                   // brelse: its critical section

  predicate Reusable(b: Buf) {
    b.refcnt == 0 && !b.dirty
  }

  predicate Cached(c: Cache, k: Key) {
    exists j :: 0 <= j < |c.bufs| && c.bufs[j].key == k
  }

  predicate ListIn(c: Cache) {
    forall p :: 0 <= p < |c.order| ==> c.order[p] < |c.bufs|
  }

  /** The buffer at position p of the list is free, and no later one is. */
  predicate LastFree(c: Cache, p: nat)
    requires ListIn(c) && p < |c.order|
  {
    Reusable(c.bufs[c.order[p]]) && forall q :: p < q < |c.order| ==> !Reusable(c.bufs[c.order[q]])
  }

  /** bget returns buffer i: it holds the block, or the block is not cached and i is the last on the
      list that is neither referenced nor dirty. */
  ghost predicate Picks(c: Cache, k: Key, i: nat) {
    && i < |c.bufs| && ListIn(c)
    && (c.bufs[i].key == k || (!Cached(c, k) && exists p :: 0 <= p < |c.order| && c.order[p] == i && LastFree(c, p)))
  }

  // ----- what each step does to the cache

  function SetBuf(c: Cache, i: nat, b: Buf): Cache
    requires i < |c.bufs|
  {
    c.(bufs := c.bufs[i := b])
  }

  /** One more reference, or the buffer set up for another block. */
  function Gotten(b: Buf, k: Key): Buf {
    if b.key == k then b.(refcnt := b.refcnt + 1) else b.(key := k, valid := false, dirty := false, refcnt := 1)
  }

  /** Locked, and read from the disk if need be. */
  function Filled(b: Buf, disk: map<Key, Block>): Buf
    requires b.key in disk
  {
    if b.valid then b.(locked := true) else b.(locked := true, valid := true, dirty := false, data := disk[b.key])
  }

  function Written(c: Cache, i: nat): Cache
    requires i < |c.bufs|
  {
    var b := c.bufs[i];
    SetBuf(c, i, b.(valid := true, dirty := false)).(disk := c.disk[b.key := b.data])
  }

  /** One reference less; with the last one gone, to the front of the list. */
  function Dropped(c: Cache, i: nat): Cache
    requires i < |c.bufs| && 0 < c.bufs[i].refcnt && i in c.order
  {
    var c' := SetBuf(c, i, c.bufs[i].(refcnt := c.bufs[i].refcnt - 1));
    if c.bufs[i].refcnt == 1 then c'.(order := [i] + Without(c.order, IndexOf(c.order, i))) else c'
  }

  // ----- the machine

  ghost predicate Enabled(w: World, a: Action) {
    var c := w.c;
    match a
    case Get(k, i) => k != UNUSED && Picks(c, k, i)
    case Acquire(i) =>                                    // some process holds a reference and waits
      && i < |c.bufs| && i < |w.leaving| && w.leaving[i] < c.bufs[i].refcnt && !c.bufs[i].locked
      && c.bufs[i].key in c.disk
    case Modify(i, _) => i < |c.bufs| && c.bufs[i].locked
    case LogWrite(i) => i < |c.bufs| && c.bufs[i].locked
    case Write(i) => i < |c.bufs| && c.bufs[i].locked
    case Unlock(i) =>                                     // changes to the data have been recorded
      && i < |c.bufs| && i < |w.leaving| && c.bufs[i].locked
      && c.bufs[i].key in w.recorded && c.bufs[i].data == w.recorded[c.bufs[i].key]
    case Drop(i) =>
      && i < |c.bufs| && i < |w.leaving| && i < |w.stamp| && i in c.order
      && 0 < w.leaving[i] && 0 < c.bufs[i].refcnt
  }

  ghost function Next(w: World, a: Action): World
    requires Enabled(w, a)
  {
    var c := w.c;
    match a
    case Get(k, i) => w.(c := SetBuf(c, i, Gotten(c.bufs[i], k)))
    case Acquire(i) => w.(c := SetBuf(c, i, Filled(c.bufs[i], c.disk)))
    case Modify(i, x) => w.(c := SetBuf(c, i, c.bufs[i].(data := x)))
    case LogWrite(i) =>
      w.(c := SetBuf(c, i, c.bufs[i].(dirty := true)), recorded := w.recorded[c.bufs[i].key := c.bufs[i].data])
    case Write(i) => w.(c := Written(c, i), recorded := w.recorded[c.bufs[i].key := c.bufs[i].data])
    case Unlock(i) =>
      w.(c := SetBuf(c, i, c.bufs[i].(locked := false)), leaving := w.leaving[i := w.leaving[i] + 1])
    case Drop(i) =>
      var w' := w.(c := Dropped(c, i), leaving := w.leaving[i := w.leaving[i] - 1]);
      if c.bufs[i].refcnt == 1 then w'.(stamp := w.stamp[i := w.clock], clock := w.clock + 1) else w'
  }

  // ----- the invariant

  /** Every buffer is on the list once, and the list is sorted by when buffers came to its front. */
  ghost predicate Sorted(order: seq<nat>, stamp: seq<int>, clock: int) {
    && |order| == |stamp| == NBUF && Distinct(order)
    && (forall p :: 0 <= p < NBUF ==> order[p] < NBUF)
    && (forall i :: 0 <= i < NBUF ==> i in order)
    && (forall i :: 0 <= i < NBUF ==> stamp[i] < clock)
    && (forall p, q :: 0 <= p < q < NBUF ==> stamp[order[p]] > stamp[order[q]])
  }

  ghost predicate ListOk(w: World) {
    |w.c.bufs| == |w.leaving| == NBUF && Sorted(w.c.order, w.stamp, w.clock)
  }

  /** No two buffers hold the same block; only the key of unused buffers is shared. */
  ghost predicate KeysOk(c: Cache) {
    forall i, j :: 0 <= i < j < |c.bufs| && c.bufs[i].key == c.bufs[j].key ==> c.bufs[i].key == UNUSED
  }

  ghost predicate BufOk(b: Buf, leaving: nat, disk: map<Key, Block>, recorded: map<Key, Block>) {
    && (b.valid ==> b.key in disk && b.key != UNUSED)
    && (b.dirty ==> b.valid)
    && (b.locked ==> b.valid)
    && leaving + (if b.locked then 1 else 0) <= b.refcnt
    && (0 < b.refcnt ==> b.key != UNUSED)
    && (b.valid && !b.locked ==> b.key in recorded && b.data == recorded[b.key])
    && (b.key in disk && !b.dirty && b.key != UNUSED ==> b.key in recorded && recorded[b.key] == disk[b.key])
  }

  ghost predicate Coherent(w: World) {
    && |w.leaving| == |w.c.bufs| && w.recorded.Keys == w.c.disk.Keys
    && (forall i :: 0 <= i < |w.c.bufs| ==> BufOk(w.c.bufs[i], w.leaving[i], w.c.disk, w.recorded))
    && (forall k :: k in w.c.disk && (k == UNUSED || !Cached(w.c, k)) ==>
      k in w.recorded && w.recorded[k] == w.c.disk[k])
  }

  ghost predicate Inv(w: World) {
    ListOk(w) && KeysOk(w.c) && Coherent(w)
  }

  // ----- every action keeps it

  lemma KeyOfAnother(w: World, i: nat, j: nat)
    requires KeysOk(w.c) && i < |w.c.bufs| && j < |w.c.bufs| && i != j && w.c.bufs[i].key != UNUSED
    ensures w.c.bufs[i].key != w.c.bufs[j].key
  {
  }

  lemma GetKeeps(w: World, k: Key, i: nat)
    requires Inv(w) && Enabled(w, Get(k, i))
    ensures KeysOk(Next(w, Get(k, i)).c) && Coherent(Next(w, Get(k, i)))
  {
    var w' := Next(w, Get(k, i));
    hide ListOk;
    forall j | 0 <= j < |w'.c.bufs| ensures BufOk(w'.c.bufs[j], w'.leaving[j], w'.c.disk, w'.recorded) {
      assert BufOk(w.c.bufs[j], w.leaving[j], w.c.disk, w.recorded);
    }
    forall q | q in w.c.disk && (q == UNUSED || !Cached(w'.c, q))
      ensures q in w.recorded && w.recorded[q] == w.c.disk[q]
    {
      if q != UNUSED && Cached(w.c, q) {
        var j :| 0 <= j < |w.c.bufs| && w.c.bufs[j].key == q;
        assert w'.c.bufs[j].key == q || j == i;
        assert BufOk(w.c.bufs[j], w.leaving[j], w.c.disk, w.recorded);
      }
    }
  }

  /** The steps of a holder: the buffer keeps its key, and only its block is recorded or written. */
  lemma HolderKeeps(w: World, w': World, i: nat)
    requires KeysOk(w.c) && Coherent(w) && i < |w.c.bufs| && w.c.bufs[i].key != UNUSED
    requires |w'.c.bufs| == |w.c.bufs| && |w'.leaving| == |w.leaving|
    requires forall j :: 0 <= j < |w.c.bufs| && j != i ==> w'.c.bufs[j] == w.c.bufs[j] && w'.leaving[j] == w.leaving[j]
    requires w'.c.bufs[i].key == w.c.bufs[i].key
    requires w'.c.disk.Keys == w.c.disk.Keys && w'.recorded.Keys == w.recorded.Keys
    requires forall k :: k in w.c.disk && k != w.c.bufs[i].key ==>
      w'.c.disk[k] == w.c.disk[k] && w'.recorded[k] == w.recorded[k]
    requires BufOk(w'.c.bufs[i], w'.leaving[i], w'.c.disk, w'.recorded)
    ensures KeysOk(w'.c) && Coherent(w')
  {
    forall j | 0 <= j < |w'.c.bufs| ensures BufOk(w'.c.bufs[j], w'.leaving[j], w'.c.disk, w'.recorded) {
      if j != i {
        KeyOfAnother(w, i, j);
        assert BufOk(w.c.bufs[j], w.leaving[j], w.c.disk, w.recorded);
      }
    }
    forall k | k in w'.c.disk && (k == UNUSED || !Cached(w'.c, k))
      ensures k in w'.recorded && w'.recorded[k] == w'.c.disk[k]
    {
      assert w'.c.bufs[i].key != k;
      if Cached(w.c, k) {
        var j :| 0 <= j < |w.c.bufs| && w.c.bufs[j].key == k;
        assert w'.c.bufs[j].key == k;
      }
    }
  }

  lemma OthersKeep(w: World, a: Action)
    requires Inv(w) && Enabled(w, a) && !a.Get?
    ensures KeysOk(Next(w, a).c) && Coherent(Next(w, a))
  {
    hide Sorted, KeysOk, Without, IndexOf, Picks;
    assert BufOk(w.c.bufs[a.i], w.leaving[a.i], w.c.disk, w.recorded);
    var w' := Next(w, a);
    HolderKeeps(w, w', a.i);
  }

  /** The list as it is after position p moved to the front, place by place. */
  lemma MovedAt(order: seq<nat>, p: nat, q: nat)
    requires p < |order| && Distinct(order) && 0 < q < |order|
    ensures var order' := [order[p]] + Without(order, p);
      |order'| == |order| && order'[q] == order[if q <= p then q - 1 else q] != order[p]
  {
  }

  lemma MoveToFront(order: seq<nat>, stamp: seq<int>, clock: int, p: nat, i: nat)
    requires Sorted(order, stamp, clock) && p < NBUF && order[p] == i < NBUF
    ensures Sorted([i] + Without(order, p), stamp[i := clock], clock + 1)
  {
    var order', stamp' := [i] + Without(order, p), stamp[i := clock];
    WithoutIs(order, p);
    forall q | 0 < q < NBUF
      ensures order'[q] == order[if q <= p then q - 1 else q] != i && stamp'[order'[q]] == stamp[order'[q]]
    {
      MovedAt(order, p, q);
    }
    assert order'[0] == i;
    hide Without;
  }

  lemma DropKeepsList(w: World, i: nat)
    requires Inv(w) && Enabled(w, Drop(i))
    ensures ListOk(Next(w, Drop(i)))
  {
    hide KeysOk, Coherent, Without, Distinct;
    if w.c.bufs[i].refcnt == 1 {
      MoveToFront(w.c.order, w.stamp, w.clock, IndexOf(w.c.order, i), i);
    }
  }

  lemma NextKeeps(w: World, a: Action)
    requires Inv(w) && Enabled(w, a)
    ensures Inv(Next(w, a))
  {
    if a.Get? {
      GetKeeps(w, a.k, a.i);
    } else {
      OthersKeep(w, a);
      if a.Drop? {
        DropKeepsList(w, a.i);
      }
    }
    hide KeysOk, Coherent;
  }
}
