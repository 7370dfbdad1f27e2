/** The free list of the K&R allocator: blocks in address order, counted in units of one header. */
module FreeList {
  /** A block: where its header is, and its size in units including the header. */
  datatype Block = Block(start: nat, size: nat)

  datatype Header = Header(ptr: nat, size: nat)

  function End(b: Block): nat {
    b.start + b.size
  }

  predicate Apart(a: Block, b: Block) {
    End(a) <= b.start || End(b) <= a.start
  }

  /** The ring from `base`, which has no units: blocks are not empty, in strict address order, and
      no two adjacent blocks touch. */
  ghost predicate Ordered(ring: seq<Block>) {
    && ring != [] && ring[0].size == 0
    && (forall i :: 1 <= i < |ring| ==> 0 < ring[i].size)
    && (forall i, j :: 0 <= i < j < |ring| ==> End(ring[i]) < ring[j].start)
  }

  /** The address that the header of ring[i] points to; the last one points back to base. */
  function NextStart(ring: seq<Block>, i: nat): nat
    requires i < |ring|
  {
    if i + 1 < |ring| then ring[i + 1].start else ring[0].start
  }

  predicate HeaderOk(hdr: map<nat, Header>, ring: seq<Block>, i: nat)
    requires i < |ring|
  {
    ring[i].start in hdr && hdr[ring[i].start] == Header(NextStart(ring, i), ring[i].size)
  }

  /** The headers in memory form the ring. */
  ghost predicate Linked(hdr: map<nat, Header>, ring: seq<Block>) {
    forall i: nat :: i < |ring| ==> HeaderOk(hdr, ring, i)
  }

  /** The ring with ring[i..r] replaced by mid. */
  function Patched(ring: seq<Block>, i: nat, mid: seq<Block>, r: nat): (res: seq<Block>)
    requires i <= r <= |ring|
    ensures |res| == i + |mid| + |ring| - r
  {
    ring[..i] + mid + ring[r..]
  }

  lemma PatchedAt(ring: seq<Block>, i: nat, mid: seq<Block>, r: nat, k: nat)
    requires i <= r <= |ring| && k < i + |mid| + |ring| - r
    ensures Patched(ring, i, mid, r)[k] ==
      if k < i then ring[k] else if k < i + |mid| then mid[k - i] else ring[k - i - |mid| + r]
  {
  }

  lemma PatchedNext(ring: seq<Block>, i: nat, mid: seq<Block>, r: nat, k: nat)
    requires i <= r <= |ring| && 0 < |mid| && k < i + |mid| + |ring| - r
    requires i < |ring| && mid[0].start == ring[i].start
    ensures NextStart(Patched(ring, i, mid, r), k) ==
      if k < i then NextStart(ring, k)
      else if k + 1 < i + |mid| then mid[k + 1 - i].start
      else if k + 1 == i + |mid| then (if r < |ring| then ring[r].start else ring[0].start)
      else NextStart(ring, k - i - |mid| + r)
  {
    PatchedAt(ring, i, mid, r, 0);
    if k + 1 < i + |mid| + |ring| - r {
      PatchedAt(ring, i, mid, r, k + 1);
    }
  }

  predicate SameHeader(hdr: map<nat, Header>, hdr': map<nat, Header>, a: nat) {
    a in hdr && a in hdr' && hdr'[a] == hdr[a]
  }

  predicate MidOk(hdr: map<nat, Header>, ring: seq<Block>, mid: seq<Block>, r: nat, k: nat)
    requires k < |mid| && ring != []
  {
    var next := if k + 1 < |mid| then mid[k + 1].start else if r < |ring| then ring[r].start else ring[0].start;
    mid[k].start in hdr && hdr[mid[k].start] == Header(next, mid[k].size)
  }

  /** Relinking: headers outside the replaced stretch are as they were, those of mid lead from one to
      the next and then on. */
  lemma Relink(hdr: map<nat, Header>, hdr': map<nat, Header>, ring: seq<Block>, i: nat, mid: seq<Block>, r: nat)
    requires Linked(hdr, ring) && i < r <= |ring| && 0 < |mid| && mid[0].start == ring[i].start
    requires forall k: nat :: k < |ring| && (k < i || r <= k) ==> SameHeader(hdr, hdr', ring[k].start)
    requires forall k: nat :: k < |mid| ==> MidOk(hdr', ring, mid, r, k)
    ensures Linked(hdr', Patched(ring, i, mid, r))
  {
    var ring' := Patched(ring, i, mid, r);
    forall k: nat | k < |ring'| ensures HeaderOk(hdr', ring', k) {
      PatchedAt(ring, i, mid, r, k);
      PatchedNext(ring, i, mid, r, k);
      if k < i {
        assert HeaderOk(hdr, ring, k) && SameHeader(hdr, hdr', ring[k].start);
      } else if k >= i + |mid| {
        var j := k - i - |mid| + r;
        assert HeaderOk(hdr, ring, j) && SameHeader(hdr, hdr', ring[j].start);
      } else {
        assert MidOk(hdr', ring, mid, r, k - i);
      }
    }
  }

  // ----- putting a block back

  /** b belongs after ring[i]: no address of it is in a block of the ring. */
  ghost predicate Fits(ring: seq<Block>, i: nat, b: Block) {
    && Ordered(ring) && i < |ring| && 0 < b.size && End(ring[i]) <= b.start && ring[0].start < b.start
    && (i + 1 < |ring| ==> End(b) <= ring[i + 1].start)
  }

  predicate JoinsNext(ring: seq<Block>, i: nat, b: Block) {
    i + 1 < |ring| && End(b) == ring[i + 1].start
  }

  /** b merged with the block that follows it, if they touch. */
  function WithNext(ring: seq<Block>, i: nat, b: Block): Block {
    if JoinsNext(ring, i, b) then Block(b.start, b.size + ring[i + 1].size) else b
  }

  /** What takes the place of ring[i], and of ring[i + 1] if b touches it. */
  function Mid(ring: seq<Block>, i: nat, b: Block): seq<Block>
    requires i < |ring|
  {
    var c := WithNext(ring, i, b);
    if End(ring[i]) == b.start then [Block(ring[i].start, ring[i].size + c.size)] else [ring[i], c]
  }

  function Inserted(ring: seq<Block>, i: nat, b: Block): seq<Block>
    requires i < |ring|
  {
    Patched(ring, i, Mid(ring, i, b), if JoinsNext(ring, i, b) then i + 2 else i + 1)
  }

  /** Units of the blocks of a sequence. */
  function Total(s: seq<Block>): nat {
    if s == [] then 0 else s[0].size + Total(s[1..])
  }

  lemma {:induction false} TotalAppend(s: seq<Block>, t: seq<Block>)
    ensures Total(s + t) == Total(s) + Total(t)
  {
    if s == [] {
      assert s + t == t;
    } else {
      TotalAppend(s[1..], t);
      assert (s + t)[1..] == s[1..] + t;
    }
  }

  lemma TotalPatched(ring: seq<Block>, i: nat, mid: seq<Block>, r: nat)
    requires i <= r <= |ring|
    ensures Total(Patched(ring, i, mid, r)) + Total(ring[i..r]) == Total(ring) + Total(mid)
  {
    TotalAppend(ring[..i] + mid, ring[r..]);
    TotalAppend(ring[..i], mid);
    TotalAppend(ring[..i], ring[i..r]);
    TotalAppend(ring[..r], ring[r..]);
    assert ring[..i] + ring[i..r] == ring[..r];
    assert ring[..r] + ring[r..] == ring;
  }

  /** Free and coalesce: the ring stays ordered and fully coalesced, and gains exactly b's units. */
  lemma InsertKeeps(ring: seq<Block>, i: nat, b: Block)
    requires Fits(ring, i, b)
    ensures Ordered(Inserted(ring, i, b)) && Total(Inserted(ring, i, b)) == Total(ring) + b.size
    ensures Inserted(ring, i, b)[0] == ring[0]
  {
    InsertTotal(ring, i, b);
    InsertOrdered(ring, i, b);
  }

  lemma InsertTotal(ring: seq<Block>, i: nat, b: Block)
    requires Fits(ring, i, b)
    ensures Total(Inserted(ring, i, b)) == Total(ring) + b.size
  {
    var mid, r := Mid(ring, i, b), if JoinsNext(ring, i, b) then i + 2 else i + 1;
    TotalPatched(ring, i, mid, r);
    if JoinsNext(ring, i, b) {
      assert ring[i..r] == [ring[i], ring[i + 1]];
    } else {
      assert ring[i..r] == [ring[i]];
    }
    TotalSmall(mid);
    TotalSmall(ring[i..r]);
  }

  lemma TotalSmall(s: seq<Block>)
    ensures |s| == 1 ==> Total(s) == s[0].size
    ensures |s| == 2 ==> Total(s) == s[0].size + s[1].size
  {
    if |s| == 2 {
      assert s[1..] == [s[1]];
    }
  }

  lemma InsertOrdered(ring: seq<Block>, i: nat, b: Block)
    requires Fits(ring, i, b)
    ensures Ordered(Inserted(ring, i, b)) && Inserted(ring, i, b)[0] == ring[0]
  {
    var mid, r := Mid(ring, i, b), if JoinsNext(ring, i, b) then i + 2 else i + 1;
    var ring' := Inserted(ring, i, b);
    forall k, l | 0 <= k < l < |ring'| ensures End(ring'[k]) < ring'[l].start {
      PatchedAt(ring, i, mid, r, k);
      PatchedAt(ring, i, mid, r, l);
    }
    forall k | 0 <= k < |ring'| ensures k == 0 ==> ring'[k] == ring[0]
                                ensures k > 0 ==> 0 < ring'[k].size
    {
      PatchedAt(ring, i, mid, r, k);
    }
  }

  // ----- taking a block out

  lemma RemoveKeeps(ring: seq<Block>, j: nat)
    requires Ordered(ring) && 1 <= j < |ring|
    ensures var ring' := Patched(ring, j - 1, [ring[j - 1]], j + 1);
      Ordered(ring') && Total(ring') + ring[j].size == Total(ring) && ring'[0] == ring[0]
  {
    var mid := [ring[j - 1]];
    var ring' := Patched(ring, j - 1, mid, j + 1);
    TotalPatched(ring, j - 1, mid, j + 1);
    assert ring[j - 1..j + 1] == [ring[j - 1], ring[j]];
    TotalSmall(ring[j - 1..j + 1]);
    TotalSmall(mid);
    forall k: nat | k < |ring'| ensures ring'[k] == ring[if k < j then k else k + 1] {
      PatchedAt(ring, j - 1, mid, j + 1, k);
    }
    hide Patched;
  }

  lemma ShrinkKeeps(ring: seq<Block>, j: nat, n: nat)
    requires Ordered(ring) && 1 <= j < |ring| && 0 < n < ring[j].size
    ensures var ring' := Patched(ring, j, [Block(ring[j].start, ring[j].size - n)], j + 1);
      Ordered(ring') && Total(ring') + n == Total(ring) && ring'[0] == ring[0]
  {
    var mid := [Block(ring[j].start, ring[j].size - n)];
    var ring' := Patched(ring, j, mid, j + 1);
    TotalPatched(ring, j, mid, j + 1);
    assert ring[j..j + 1] == [ring[j]];
    TotalSmall(ring[j..j + 1]);
    TotalSmall(mid);
    forall k: nat | k < |ring'| ensures ring'[k] == if k == j then mid[0] else ring[k] {
      PatchedAt(ring, j, mid, j + 1, k);
    }
    hide Patched;
  }

  // ----- live blocks

  ghost predicate AllApart(b: Block, s: seq<Block>) {
    forall i :: 0 <= i < |s| ==> Apart(b, s[i])
  }

  /** A block in use: above base, inside the memory obtained, its size in its header, and apart from
      every free block. */
  ghost predicate LiveOk(hdr: map<nat, Header>, ring: seq<Block>, top: nat, b: Block) {
    && ring != [] && ring[0].start < b.start && 0 < b.size && End(b) <= top
    && b.start in hdr && hdr[b.start].size == b.size && AllApart(b, ring)
  }

  ghost predicate Heap(hdr: map<nat, Header>, ring: seq<Block>, live: seq<Block>, top: nat) {
    && Ordered(ring) && Linked(hdr, ring) && End(ring[|ring| - 1]) <= top
    && (forall k :: 0 <= k < |live| ==> LiveOk(hdr, ring, top, live[k]))
    && (forall k, l :: 0 <= k < l < |live| ==> Apart(live[k], live[l]))
  }

  lemma MergeApart(x: Block, y: Block, l: Block)
    requires End(x) == y.start && Apart(l, x) && Apart(l, y) && 0 < l.size && 0 < x.size
    ensures Apart(l, Block(x.start, x.size + y.size))
  {
  }

  /** A block apart from the ring and from b stays apart when b is put back. */
  lemma InsertApart(ring: seq<Block>, i: nat, b: Block, l: Block)
    requires Fits(ring, i, b) && AllApart(l, ring) && Apart(l, b) && 0 < l.size
    ensures AllApart(l, Inserted(ring, i, b))
  {
    var mid, r := Mid(ring, i, b), if JoinsNext(ring, i, b) then i + 2 else i + 1;
    var c := WithNext(ring, i, b);
    assert Apart(l, c);
    assert Apart(l, ring[i]);
    if End(ring[i]) == b.start {
      MergeApart(ring[i], c, l);
    }
    var ring' := Inserted(ring, i, b);
    forall k | 0 <= k < |ring'| ensures Apart(l, ring'[k]) {
      PatchedAt(ring, i, mid, r, k);
    }
  }

  /** Where a block apart from the ring belongs. */
  lemma PlaceOf(ring: seq<Block>, b: Block, i: nat)
    requires Ordered(ring) && 0 < b.size && AllApart(b, ring) && i < |ring|
    requires ring[i].start < b.start && (i + 1 < |ring| ==> b.start < ring[i + 1].start) && ring[0].start < b.start
    ensures Fits(ring, i, b)
  {
    assert Apart(b, ring[i]);
    if i + 1 < |ring| {
      assert Apart(b, ring[i + 1]);
    }
  }
}
