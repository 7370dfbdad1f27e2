/** What malloc and free do to the headers in memory, and that the heap stays in order. */
module HeapStep {
  import opened FreeList

  /** free, once it has found the free block p that bp goes after. */
  function Freed(hdr: map<nat, Header>, p: nat, bp: nat): map<nat, Header>
    requires p in hdr && bp in hdr
  {
    var next := hdr[p].ptr;
    var h1 := if bp + hdr[bp].size == next && next in hdr
              then hdr[bp := Header(hdr[next].ptr, hdr[bp].size + hdr[next].size)]
              else hdr[bp := Header(next, hdr[bp].size)];
    if p + h1[p].size == bp then h1[p := Header(h1[bp].ptr, h1[p].size + h1[bp].size)]
    else h1[p := Header(bp, h1[p].size)]
  }

  lemma FreedLinks(hdr: map<nat, Header>, ring: seq<Block>, i: nat, b: Block)
    requires Fits(ring, i, b) && Linked(hdr, ring) && b.start in hdr && hdr[b.start].size == b.size && AllApart(b, ring)
    ensures ring[i].start in hdr && Linked(Freed(hdr, ring[i].start, b.start), Inserted(ring, i, b))
  {
    var p, bp := ring[i].start, b.start;
    assert HeaderOk(hdr, ring, i);
    var hdr', mid, r := Freed(hdr, p, bp), Mid(ring, i, b), if JoinsNext(ring, i, b) then i + 2 else i + 1;
    if i + 1 < |ring| {
      assert HeaderOk(hdr, ring, i + 1);
    }
    forall k: nat | k < |ring| && (k < i || r <= k) ensures SameHeader(hdr, hdr', ring[k].start) {
      assert HeaderOk(hdr, ring, k) && Apart(b, ring[k]);
      StartsDiffer(ring, i, k);
    }
    forall k: nat | k < |mid| ensures MidOk(hdr', ring, mid, r, k) {
    }
    Relink(hdr, hdr', ring, i, mid, r);
  }

  lemma StartsDiffer(ring: seq<Block>, i: nat, k: nat)
    requires Ordered(ring) && i < |ring| && k < |ring| && i != k
    ensures ring[i].start != ring[k].start
  {
  }

  /** malloc, at a free block p of exactly the size wanted. */
  function TakenWhole(hdr: map<nat, Header>, prevp: nat, p: nat): map<nat, Header>
    requires prevp in hdr && p in hdr
  {
    hdr[prevp := Header(hdr[p].ptr, hdr[prevp].size)]
  }

  /** malloc, at a larger one: its tail is used. */
  function TakenTail(hdr: map<nat, Header>, p: nat, n: nat): map<nat, Header>
    requires p in hdr && n <= hdr[p].size
  {
    var h1 := hdr[p := Header(hdr[p].ptr, hdr[p].size - n)];
    var q := p + h1[p].size;
    h1[q := Header(if q in h1 then h1[q].ptr else 0, n)]
  }

  lemma WholeLinks(hdr: map<nat, Header>, ring: seq<Block>, j: nat)
    requires Ordered(ring) && Linked(hdr, ring) && 1 <= j < |ring|
    ensures ring[j - 1].start in hdr && ring[j].start in hdr
    ensures Linked(TakenWhole(hdr, ring[j - 1].start, ring[j].start), Patched(ring, j - 1, [ring[j - 1]], j + 1))
  {
    assert HeaderOk(hdr, ring, j - 1) && HeaderOk(hdr, ring, j);
    var hdr', mid := TakenWhole(hdr, ring[j - 1].start, ring[j].start), [ring[j - 1]];
    forall k: nat | k < |ring| && (k < j - 1 || j + 1 <= k) ensures SameHeader(hdr, hdr', ring[k].start) {
      assert HeaderOk(hdr, ring, k);
      StartsDiffer(ring, j - 1, k);
    }
    Relink(hdr, hdr', ring, j - 1, mid, j + 1);
  }

  lemma TailLinks(hdr: map<nat, Header>, ring: seq<Block>, j: nat, n: nat)
    requires Ordered(ring) && Linked(hdr, ring) && 1 <= j < |ring| && 0 < n < ring[j].size
    ensures ring[j].start in hdr && hdr[ring[j].start].size == ring[j].size
    ensures Linked(TakenTail(hdr, ring[j].start, n), Patched(ring, j, [Block(ring[j].start, ring[j].size - n)], j + 1))
  {
    assert HeaderOk(hdr, ring, j);
    var hdr', mid := TakenTail(hdr, ring[j].start, n), [Block(ring[j].start, ring[j].size - n)];
    forall k: nat | k < |ring| && (k < j || j + 1 <= k) ensures SameHeader(hdr, hdr', ring[k].start) {
      assert HeaderOk(hdr, ring, k);
      StartsDiffer(ring, j, k);
    }
    Relink(hdr, hdr', ring, j, mid, j + 1);
  }

  // ----- the whole heap

  /** Putting a block back into the ring keeps the heap, and the ring has that many units more. */
  lemma FreeHeap(hdr: map<nat, Header>, ring: seq<Block>, live: seq<Block>, top: nat, i: nat, b: Block)
    requires Heap(hdr, ring, live, top) && Fits(ring, i, b) && LiveOk(hdr, ring, top, b) && AllApart(b, live)
    ensures ring[i].start in hdr && Heap(Freed(hdr, ring[i].start, b.start), Inserted(ring, i, b), live, top)
    ensures Total(Inserted(ring, i, b)) == Total(ring) + b.size && Inserted(ring, i, b)[0] == ring[0]
  {
    FreedLinks(hdr, ring, i, b);
    InsertKeeps(ring, i, b);
    var hdr', ring' := Freed(hdr, ring[i].start, b.start), Inserted(ring, i, b);
    InsertTop(ring, i, b, top);
    forall k | 0 <= k < |live| ensures LiveOk(hdr', ring', top, live[k]) {
      FreeLive(hdr, ring, top, i, b, live[k]);
    }
    hide Inserted, Freed, Ordered, Linked, LiveOk;
  }

  lemma InsertTop(ring: seq<Block>, i: nat, b: Block, top: nat)
    requires Fits(ring, i, b) && End(ring[|ring| - 1]) <= top && End(b) <= top
    ensures var ring' := Inserted(ring, i, b); ring' != [] && End(ring'[|ring'| - 1]) <= top
  {
    var mid, r := Mid(ring, i, b), if JoinsNext(ring, i, b) then i + 2 else i + 1;
    PatchedAt(ring, i, mid, r, |Inserted(ring, i, b)| - 1);
  }

  /** A live block untouched by it stays live. */
  lemma FreeLive(hdr: map<nat, Header>, ring: seq<Block>, top: nat, i: nat, b: Block, l: Block)
    requires Linked(hdr, ring) && Fits(ring, i, b) && LiveOk(hdr, ring, top, b) && LiveOk(hdr, ring, top, l)
    requires Apart(b, l)
    ensures ring[i].start in hdr && LiveOk(Freed(hdr, ring[i].start, b.start), Inserted(ring, i, b), top, l)
  {
    assert HeaderOk(hdr, ring, i) && Apart(l, ring[i]);
    InsertApart(ring, i, b, l);
    InsertOrdered(ring, i, b);
    hide Inserted, Linked;
    if i == 0 {
      assert l.start != ring[0].start;
    }
  }

  /** A live block starts at no free block. */
  lemma LiveElsewhere(hdr: map<nat, Header>, ring: seq<Block>, top: nat, l: Block, i: nat)
    requires Ordered(ring) && LiveOk(hdr, ring, top, l) && i < |ring|
    ensures l.start != ring[i].start
  {
    assert Apart(l, ring[i]);
  }

  /** The block malloc takes. */
  function TakenBlock(ring: seq<Block>, j: nat, n: nat): Block
    requires j < |ring| && n <= ring[j].size
  {
    Block(End(ring[j]) - n, n)
  }

  function TakenRing(ring: seq<Block>, j: nat, n: nat): seq<Block>
    requires 1 <= j < |ring| && n <= ring[j].size
  {
    if n == ring[j].size then Patched(ring, j - 1, [ring[j - 1]], j + 1)
    else Patched(ring, j, [Block(ring[j].start, ring[j].size - n)], j + 1)
  }

  function TakenHeaders(hdr: map<nat, Header>, prevp: nat, p: nat, n: nat): map<nat, Header>
    requires prevp in hdr && p in hdr && n <= hdr[p].size
  {
    if hdr[p].size == n then TakenWhole(hdr, prevp, p) else TakenTail(hdr, p, n)
  }

  /** Each block of the ring that remains is one of the old ones or the front part of ring[j]. */
  lemma TakenAt(ring: seq<Block>, j: nat, n: nat, k: nat) returns (i: nat)
    requires Ordered(ring) && 1 <= j < |ring| && 0 < n <= ring[j].size && k < |TakenRing(ring, j, n)|
    ensures var x := TakenRing(ring, j, n)[k];
      i < |ring| && x.start == ring[i].start && x.size <= ring[i].size && (i == j ==> End(x) == End(ring[j]) - n)
  {
    hide Ordered;
    if n == ring[j].size {
      PatchedAt(ring, j - 1, [ring[j - 1]], j + 1, k);
      i := if k < j then k else k + 1;
    } else {
      PatchedAt(ring, j, [Block(ring[j].start, ring[j].size - n)], j + 1, k);
      i := k;
    }
  }

  /** A block apart from the old ring is apart from what remains, and so is the block taken. */
  lemma TakenApart(ring: seq<Block>, j: nat, n: nat, l: Block)
    requires Ordered(ring) && 1 <= j < |ring| && 0 < n <= ring[j].size
    requires AllApart(l, ring) || l == TakenBlock(ring, j, n)
    ensures AllApart(l, TakenRing(ring, j, n))
  {
    var ring' := TakenRing(ring, j, n);
    forall k | 0 <= k < |ring'| ensures Apart(l, ring'[k]) {
      var i := TakenAt(ring, j, n, k);
      assert AllApart(l, ring) ==> Apart(l, ring[i]);
    }
  }

  lemma TakenShape(hdr: map<nat, Header>, ring: seq<Block>, j: nat, n: nat)
    requires Ordered(ring) && Linked(hdr, ring) && 1 <= j < |ring| && 0 < n <= ring[j].size
    ensures ring[j - 1].start in hdr && ring[j].start in hdr && hdr[ring[j].start].size == ring[j].size
    ensures Linked(TakenHeaders(hdr, ring[j - 1].start, ring[j].start, n), TakenRing(ring, j, n))
    ensures Ordered(TakenRing(ring, j, n)) && TakenRing(ring, j, n)[0] == ring[0]
    ensures Total(TakenRing(ring, j, n)) + n == Total(ring)
  {
    assert HeaderOk(hdr, ring, j - 1) && HeaderOk(hdr, ring, j);
    if n == ring[j].size {
      WholeLinks(hdr, ring, j);
      RemoveKeeps(ring, j);
    } else {
      TailLinks(hdr, ring, j, n);
      ShrinkKeeps(ring, j, n);
    }
  }

  lemma TakenLive(hdr: map<nat, Header>, ring: seq<Block>, top: nat, j: nat, n: nat, l: Block)
    requires Ordered(ring) && Linked(hdr, ring) && 1 <= j < |ring| && 0 < n <= ring[j].size && LiveOk(hdr, ring, top, l)
    ensures ring[j - 1].start in hdr && ring[j].start in hdr && hdr[ring[j].start].size == ring[j].size
    ensures Apart(l, TakenBlock(ring, j, n))
    ensures LiveOk(TakenHeaders(hdr, ring[j - 1].start, ring[j].start, n), TakenRing(ring, j, n), top, l)
  {
    TakenShape(hdr, ring, j, n);
    TakenApart(ring, j, n, l);
    LiveElsewhere(hdr, ring, top, l, j - 1);
    LiveElsewhere(hdr, ring, top, l, j);
    assert Apart(l, ring[j]);
    hide TakenRing, Linked;
  }

  lemma TakenTop(ring: seq<Block>, top: nat, j: nat, n: nat)
    requires Ordered(ring) && 1 <= j < |ring| && 0 < n <= ring[j].size && End(ring[|ring| - 1]) <= top
    ensures TakenRing(ring, j, n) != [] && End(TakenRing(ring, j, n)[|TakenRing(ring, j, n)| - 1]) <= top
    ensures End(ring[j]) <= top
  {
    var ring' := TakenRing(ring, j, n);
    assert ring' != [];
    var k := |ring'| - 1;
    var i := TakenAt(ring, j, n, k);
    hide TakenRing;
  }

  lemma TakenHeader(hdr: map<nat, Header>, ring: seq<Block>, j: nat, n: nat)
    requires Ordered(ring) && Linked(hdr, ring) && 1 <= j < |ring| && 0 < n <= ring[j].size
    ensures ring[j - 1].start in hdr && ring[j].start in hdr && hdr[ring[j].start].size == ring[j].size
    ensures var h, b := TakenHeaders(hdr, ring[j - 1].start, ring[j].start, n), TakenBlock(ring, j, n);
      b.start in h && h[b.start].size == n && ring[0].start < b.start
  {
    assert HeaderOk(hdr, ring, j - 1) && HeaderOk(hdr, ring, j);
    StartsDiffer(ring, j - 1, j);
  }

  lemma TakenNew(hdr: map<nat, Header>, ring: seq<Block>, top: nat, j: nat, n: nat)
    requires Ordered(ring) && Linked(hdr, ring) && 1 <= j < |ring| && 0 < n <= ring[j].size
    requires End(ring[|ring| - 1]) <= top
    ensures ring[j - 1].start in hdr && ring[j].start in hdr && hdr[ring[j].start].size == ring[j].size
    ensures LiveOk(TakenHeaders(hdr, ring[j - 1].start, ring[j].start, n), TakenRing(ring, j, n), top,
      TakenBlock(ring, j, n))
    ensures End(TakenRing(ring, j, n)[|TakenRing(ring, j, n)| - 1]) <= top
  {
    hide TakenRing, Linked;
    TakenShape(hdr, ring, j, n);
    TakenTop(ring, top, j, n);
    TakenHeader(hdr, ring, j, n);
    TakenApart(ring, j, n, TakenBlock(ring, j, n));
    hide TakenHeaders, Ordered, AllApart;
  }

  lemma TakeHeap(hdr: map<nat, Header>, ring: seq<Block>, live: seq<Block>, top: nat, j: nat, n: nat)
    requires Heap(hdr, ring, live, top) && 1 <= j < |ring| && 0 < n <= ring[j].size
    ensures ring[j - 1].start in hdr && ring[j].start in hdr && hdr[ring[j].start].size == ring[j].size
    ensures Heap(TakenHeaders(hdr, ring[j - 1].start, ring[j].start, n), TakenRing(ring, j, n),
      live + [TakenBlock(ring, j, n)], top)
    ensures Total(TakenRing(ring, j, n)) + n == Total(ring) && TakenRing(ring, j, n)[0] == ring[0]
  {
    TakenShape(hdr, ring, j, n);
    TakenNew(hdr, ring, top, j, n);
    forall k | 0 <= k < |live|
      ensures LiveOk(TakenHeaders(hdr, ring[j - 1].start, ring[j].start, n), TakenRing(ring, j, n), top, live[k])
      ensures Apart(live[k], TakenBlock(ring, j, n))
    {
      TakenLive(hdr, ring, top, j, n, live[k]);
    }
    hide TakenRing, TakenHeaders, TakenBlock, Ordered, Linked, LiveOk;
  }

  /** Fresh memory above everything, with its size written in its header. */
  lemma GrowHeap(hdr: map<nat, Header>, ring: seq<Block>, live: seq<Block>, top: nat, core: nat, h: Header)
    requires Heap(hdr, ring, live, top) && ring[0].start < top <= core && 0 < h.size
    ensures Heap(hdr[core := h], ring, live, core + h.size)
    ensures LiveOk(hdr[core := h], ring, core + h.size, Block(core, h.size)) && AllApart(Block(core, h.size), live)
  {
    var hdr', b := hdr[core := h], Block(core, h.size);
    forall i: nat | i < |ring| ensures HeaderOk(hdr', ring, i) && End(ring[i]) <= top && ring[i].start != core {
      assert HeaderOk(hdr, ring, i);
    }
    forall k | 0 <= k < |live| ensures LiveOk(hdr', ring, core + h.size, live[k]) && Apart(b, live[k]) {
      assert LiveOk(hdr, ring, top, live[k]);
    }
    hide HeaderOk;
  }

  lemma TotalWithout(live: seq<Block>, k: nat)
    requires k < |live|
    ensures Total(live[..k] + live[k + 1..]) + live[k].size == Total(live)
  {
    TotalAppend(live[..k], live[k + 1..]);
    TotalAppend(live[..k], live[k..]);
    assert live[..k] + live[k..] == live;
    assert live[k..][1..] == live[k + 1..];
  }

  /** A live block is set aside to be freed. */
  lemma SetAside(hdr: map<nat, Header>, ring: seq<Block>, live: seq<Block>, top: nat, k: nat)
    requires Heap(hdr, ring, live, top) && k < |live|
    ensures Heap(hdr, ring, live[..k] + live[k + 1..], top)
    ensures LiveOk(hdr, ring, top, live[k]) && AllApart(live[k], live[..k] + live[k + 1..])
  {
    var rest := live[..k] + live[k + 1..];
    hide Ordered, Linked, LiveOk;
    forall l | 0 <= l < |rest| ensures rest[l] == live[if l < k then l else l + 1] {
    }
  }

  /** No two blocks of the heap, free or in use, share a unit. */
  lemma BlocksApart(hdr: map<nat, Header>, ring: seq<Block>, live: seq<Block>, top: nat, i: nat, j: nat)
    requires Heap(hdr, ring, live, top) && i < j < |ring + live|
    ensures Apart((ring + live)[i], (ring + live)[j])
  {
    if i < |ring| <= j {
      assert LiveOk(hdr, ring, top, live[j - |ring|]);
      assert Apart(live[j - |ring|], ring[i]);
    }
  }
}
