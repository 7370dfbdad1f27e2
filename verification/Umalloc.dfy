/** The user-level allocator. Addresses are counted in units of one header (8 bytes). */
module Umalloc {
  import opened FreeList
  import opened HeapStep

  const UNIT := 8
  const UINT_MOD := 0x1_0000_0000
  const INT_MAX := 0x7fff_ffff
  const MORE := 4096                 // the least that morecore asks for, in units

  /** The units for a request: the bytes rounded up to whole units and one for the header, computed in
      32 bits. */
  function Units(nbytes: nat): nat {
    (nbytes + UNIT - 1) % UINT_MOD / UNIT + 1
  }

  function Asked(nu: nat): nat {
    if nu < MORE then MORE else nu
  }

  /** The bytes that the user of a block of n units may use. */
  function Room(n: nat): int {
    (n - 1) * UNIT
  }

  /** sbrk takes an int: a larger request arrives as a negative number, which asks for less memory. */
  predicate SbrkTakes(nu: nat) {
    Asked(nu) * UNIT <= INT_MAX
  }

  /** How sbrk leaves the break when it answers core to a request for nu units. */
  predicate SbrkAnswers(nu: nat, core: int, after: nat) {
    core != -1 ==> if SbrkTakes(nu) then after == core + Asked(nu) else after <= core
  }

  /** Requests whose size arithmetic is right: the units hold the bytes asked for, and the argument
      of sbrk is a positive int. */
  predicate RightSize(nbytes: nat) {
    nbytes <= Room(Units(nbytes)) && SbrkTakes(Units(nbytes))
  }

  /** The block has the room asked for if and only if the rounding does not wrap, and otherwise it has
      none; sbrk's argument is right if and only if the request is below 2 GB less two headers, or the
      rounding wraps. */
  lemma RightSizeExactly(nbytes: nat)
    requires nbytes < UINT_MOD
    ensures nbytes <= Room(Units(nbytes)) <==> nbytes <= UINT_MOD - UNIT
    ensures UINT_MOD - UNIT < nbytes ==> Units(nbytes) == 1 && Room(Units(nbytes)) == 0
    ensures SbrkTakes(Units(nbytes)) <==> nbytes <= INT_MAX - 15 || UINT_MOD - UNIT < nbytes
    ensures RightSize(nbytes) <==> nbytes <= INT_MAX - 15
  {
  }

  // ----- going round the ring

  function Round(len: nat, j: nat): nat
    requires j < len
  {
    if j + 1 < len then j + 1 else 0
  }

  /** i was passed on the way round from f (not included) to j (not included). */
  predicate Passed(f: nat, j: nat, i: nat) {
    if f < j then f < i < j else f < i || i < j
  }

  function Back(len: nat, j: nat): nat
    requires 0 < len
  {
    if j == 0 then len - 1 else j - 1
  }

  /** Some free block has n units. */
  ghost predicate Suits(ring: seq<Block>, n: nat) {
    exists i: nat :: i < |ring| && n <= ring[i].size
  }

  lemma NothingSuits(base: nat, n: nat)
    requires 0 < n
    ensures !Suits([], n) && !Suits([Block(base, 0)], n)
  {
  }

  lemma SuitsAt(ring: seq<Block>, j: nat, n: nat)
    requires j < |ring| && n <= ring[j].size
    ensures Suits(ring, n)
  {
  }

  lemma SuitsLess(ring: seq<Block>, m: nat, n: nat)
    requires Suits(ring, n) && m <= n
    ensures Suits(ring, m)
  {
  }

  /** Everything passed is too small. */
  ghost predicate Small(ring: seq<Block>, n: nat, f: nat, j: nat) {
    forall i: nat :: i < |ring| && Passed(f, j, i) ==> ring[i].size < n
  }

  lemma StartRound(ring: seq<Block>, n: nat, f: nat)
    requires f < |ring|
    ensures Round(|ring|, f) < |ring| && Back(|ring|, Round(|ring|, f)) == f && Small(ring, n, f, Round(|ring|, f))
  {
  }

  /** One step further round. */
  lemma GoRound(ring: seq<Block>, n: nat, f: nat, j: nat)
    requires f < |ring| && j < |ring| && j != f && Small(ring, n, f, j) && ring[j].size < n
    ensures Round(|ring|, j) < |ring| && Back(|ring|, Round(|ring|, j)) == j && Small(ring, n, f, Round(|ring|, j))
    ensures 0 <= Left(|ring|, f, Round(|ring|, j)) < Left(|ring|, f, j)
  {
  }

  /** All the way round. */
  lemma NoneSuits(ring: seq<Block>, n: nat, f: nat)
    requires f < |ring| && Small(ring, n, f, f) && ring[f].size < n
    ensures !Suits(ring, n)
  {
  }

  lemma OnePlace(hdr: map<nat, Header>, ring: seq<Block>, live: seq<Block>, top: nat, f: nat, j: nat)
    requires Heap(hdr, ring, live, top) && f < |ring| && j < |ring| && ring[f].start == ring[j].start
    ensures f == j
  {
  }

  lemma LiveFacts(hdr: map<nat, Header>, ring: seq<Block>, top: nat, b: Block)
    requires LiveOk(hdr, ring, top, b)
    ensures 0 < b.size && ring != [] && ring[0].start < b.start && AllApart(b, ring) && b.start in hdr
  {
  }

  lemma HeapLinked(hdr: map<nat, Header>, ring: seq<Block>, live: seq<Block>, top: nat, i: nat, b: Block)
    requires Heap(hdr, ring, live, top) && i < |ring| && LiveOk(hdr, ring, top, b)
    ensures ring[i].start in hdr && hdr[ring[i].start].ptr in hdr && b.start in hdr
  {
    NextInMemory(hdr, ring, i);
  }

  lemma AboveBase(hdr: map<nat, Header>, ring: seq<Block>, live: seq<Block>, top: nat, i: nat)
    requires Heap(hdr, ring, live, top) && i < |ring|
    ensures ring[0].start <= ring[i].start && (i + 1 < |ring| ==> ring[0].start < ring[i + 1].start)
    ensures ring[0].size == 0
  {
  }

  lemma NextInMemory(hdr: map<nat, Header>, ring: seq<Block>, i: nat)
    requires Linked(hdr, ring) && i < |ring|
    ensures ring[i].start in hdr && hdr[ring[i].start].ptr in hdr
  {
    assert HeaderOk(hdr, ring, i);
    assert HeaderOk(hdr, ring, if i + 1 < |ring| then i + 1 else 0);
  }

  /** The block put back is all or part of a block of the new ring, and ring[i] is still there. */
  lemma WhereItWent(ring: seq<Block>, i: nat, b: Block)
    requires Fits(ring, i, b)
    ensures var ring' := Inserted(ring, i, b); i < |ring'| && ring'[i].start == ring[i].start
    ensures Suits(Inserted(ring, i, b), b.size)
  {
    var mid, r := Mid(ring, i, b), if JoinsNext(ring, i, b) then i + 2 else i + 1;
    PatchedAt(ring, i, mid, r, i);
    PatchedAt(ring, i, mid, r, i + |mid| - 1);
    assert b.size <= Inserted(ring, i, b)[i + |mid| - 1].size;
  }

  lemma TakenKeepsPrev(ring: seq<Block>, j: nat, n: nat)
    requires 1 <= j < |ring| && n <= ring[j].size
    ensures j - 1 < |TakenRing(ring, j, n)| && TakenRing(ring, j, n)[j - 1].start == ring[j - 1].start
  {
    if n == ring[j].size {
      PatchedAt(ring, j - 1, [ring[j - 1]], j + 1, j - 1);
    } else {
      PatchedAt(ring, j, [Block(ring[j].start, ring[j].size - n)], j + 1, j - 1);
    }
  }

  /** Steps left until j comes round to f. */
  function Left(len: nat, f: nat, j: nat): int {
    if f < j then len - j + f else f - j
  }

  class Allocator {
    const base: nat
    var hdr: map<nat, Header>
    var freep: nat                   // 0 until the first malloc
    ghost var ring: seq<Block>
    ghost var live: seq<Block>
    ghost var top: nat               // the end of the heap
    ghost var brk: nat               // the end of the process's memory
    ghost var obtained: nat          // units obtained from sbrk

    ghost predicate Ready()
      reads this
    {
      && 0 < base && Heap(hdr, ring, live, top) && ring[0] == Block(base, 0)
      && Total(ring) + Total(live) == obtained
    }

    ghost predicate At(p: nat, i: nat)
      reads this
    {
      i < |ring| && ring[i].start == p
    }

    ghost predicate Valid()
      reads this
    {
      && 0 < base < top
      && if freep == 0 then ring == [] && live == [] && obtained == 0
         else Ready() && exists f: nat :: At(freep, f)
    }

    /** The heap lies in memory that the process has. */
    ghost predicate Backed()
      reads this
    {
      top <= brk
    }

    constructor (base: nat, brk: nat)
      requires 0 < base < brk
      ensures Valid() && Backed() && live == [] && obtained == 0 && top == brk
    {
      this.base := base;
      hdr, freep := map[], 0;
      ring, live, top, obtained := [], [], brk, 0;
      this.brk := brk;
    }

    /** The search loop of free: ends at the free block that b goes after. */
    method Place(bp: nat, ghost b: Block) returns (p: nat, ghost i: nat)
      requires Valid() && freep != 0 && b.start == bp && 0 < b.size && base < bp && AllApart(b, ring)
      ensures At(p, i) && Fits(ring, i, b)
    {
      p := freep;
      ghost var want := Below(ring, bp);
      i :| At(p, i);
      while !(bp > p && bp < NextOf(p, i))
        invariant At(p, i)
        decreases if i <= want then want - i else |ring| - i + want
      {
        if p >= NextOf(p, i) && (bp > p || bp < NextOf(p, i)) {
          break;
        }
        assert i != want;
        p := NextOf(p, i);
        i := Round(|ring|, i);
      }
      PlaceOf(ring, b, i);
    }

    /** The link of a free block p. */
    function NextOf(p: nat, ghost i: nat): (q: nat)
      requires Ready() && At(p, i)
      reads this
      ensures q == NextStart(ring, i) && At(q, Round(|ring|, i)) && (i + 1 < |ring| ==> p < q)
    {
      assert HeaderOk(hdr, ring, i);
      hdr[p].ptr
    }

    function SizeOf(p: nat, ghost i: nat): (n: nat)
      requires Ready() && At(p, i)
      reads this
      ensures n == ring[i].size
    {
      assert HeaderOk(hdr, ring, i);
      hdr[p].size
    }

    /** The relinking in free, once it has found p. */
    method Splice(p: nat, bp: nat)
      requires p in hdr && bp in hdr && (bp + hdr[bp].size == hdr[p].ptr ==> hdr[p].ptr in hdr)
      modifies `hdr
      ensures hdr == Freed(old(hdr), p, bp)
    {
      var next := hdr[p].ptr;
      if bp + hdr[bp].size == next {
        hdr := hdr[bp := Header(hdr[next].ptr, hdr[bp].size + hdr[next].size)];
      } else {
        hdr := hdr[bp := Header(next, hdr[bp].size)];
      }
      if p + hdr[p].size == bp {
        hdr := hdr[p := Header(hdr[bp].ptr, hdr[p].size + hdr[bp].size)];
      } else {
        hdr := hdr[p := Header(bp, hdr[p].size)];
      }
    }

    /** free, of a block that is in no list and not counted. */
    method PutBack(bp: nat, ghost b: Block)
      requires Valid() && freep != 0 && b.start == bp && LiveOk(hdr, ring, top, b) && AllApart(b, live)
      modifies this
      ensures Valid() && freep != 0 && live == old(live) && top == old(top) && brk == old(brk)
      ensures obtained == old(obtained) + b.size
      ensures Suits(ring, b.size)
    {
      hide Heap, Freed, Inserted, Total, LiveOk, AllApart, Suits;
      var p: nat;
      ghost var i: nat;
      LiveFacts(hdr, ring, top, b);
      p, i := Place(bp, b);
      FreeHeap(hdr, ring, live, top, i, b);
      HeapLinked(hdr, ring, live, top, i, b);
      WhereItWent(ring, i, b);
      AboveBase(hdr, ring, live, top, i);
      Splice(p, bp);
      ring := Inserted(ring, i, b);
      obtained := obtained + b.size;
      freep := p;
      assert At(freep, i);
    }

    /** free(ap), where ap was returned by malloc for the live block k. */
    method Free(ap: nat, ghost k: nat)
      requires Valid() && k < |live| && ap == live[k].start + 1
      modifies this
      ensures Valid() && live == old(live)[..k] + old(live)[k + 1..]
      ensures top == old(top) && brk == old(brk) && obtained == old(obtained)
      ensures Total(ring) == old(Total(ring)) + old(live[k].size)
    {
      hide Heap, Total, LiveOk, AllApart;
      ghost var b := live[k];
      SetAside(hdr, ring, live, top, k);
      TotalWithout(live, k);
      ghost var f: nat :| At(freep, f);
      live := live[..k] + live[k + 1..];
      obtained := obtained - b.size;
      assert At(freep, f);
      PutBack(ap - 1, b);
    }

    /** morecore(nu), where sbrk answers core: the old break, or -1. What sbrk does not take as a positive
        number makes the process no larger, but it still answers the old break; so the heap then
        ends within the process's memory exactly when sbrk takes the request. */
    method Morecore(nu: nat, core: int, ghost after: nat) returns (p: nat)
      requires Valid() && freep != 0 && 0 < nu && SbrkAnswers(nu, core, after)
      requires core == -1 || top <= core
      modifies this
      ensures Backed() <==> if core == -1 then old(Backed()) else SbrkTakes(nu)
      ensures Valid() && freep != 0 && live == old(live)
      ensures core == -1 ==> p == 0 && ring == old(ring) && freep == old(freep) && hdr == old(hdr)
      ensures core == -1 ==> obtained == old(obtained) && top == old(top)
      ensures core != -1 ==> p == freep && obtained == old(obtained) + Asked(nu) && top == core + Asked(nu)
      ensures core != -1 ==> Suits(ring, nu)
    {
      hide Heap, Total, LiveOk, AllApart, Suits;
      if core == -1 {
        return 0;
      }
      var n := if nu < MORE then MORE else nu;
      var h := Header(if core in hdr then hdr[core].ptr else 0, n);
      GrowHeap(hdr, ring, live, top, core, h);
      hdr := hdr[core := h];
      top, brk := core + n, after;
      ghost var f: nat :| old(At(freep, f));
      assert At(freep, f);
      PutBack(core, Block(core, n));
      SuitsLess(ring, nu, n);
      p := freep;
    }

    /** The first call of malloc. */
    method First()
      requires Valid() && freep == 0
      modifies this
      ensures Valid() && freep == base && old(ring) == [] && ring == [Block(base, 0)]
      ensures live == old(live) && obtained == old(obtained) && top == old(top) && brk == old(brk)
    {
      hdr := hdr[base := Header(base, 0)];
      freep := base;
      ring := [Block(base, 0)];
      assert At(freep, 0);
    }

    method Cut(prevp: nat, p: nat, n: nat) returns (q: nat)
      requires prevp in hdr && p in hdr && n <= hdr[p].size
      modifies `hdr
      ensures hdr == TakenHeaders(old(hdr), prevp, p, n) && q == p + old(hdr)[p].size - n
    {
      q := p;
      if hdr[p].size == n {
        hdr := hdr[prevp := Header(hdr[p].ptr, hdr[prevp].size)];
      } else {
        hdr := hdr[p := Header(hdr[p].ptr, hdr[p].size - n)];
        q := p + hdr[p].size;
        hdr := hdr[q := Header(if q in hdr then hdr[q].ptr else 0, n)];
      }
    }

    /** malloc's last step: the block p of the ring is large enough. */
    method Take(prevp: nat, p: nat, n: nat, ghost j: nat) returns (ap: nat)
      requires Ready() && At(p, j) && 1 <= j && At(prevp, j - 1) && 0 < n <= ring[j].size && base < top
      modifies this
      ensures Valid() && freep == prevp != 0 && ap > 1 && live == old(live) + [Block(ap - 1, n)]
      ensures obtained == old(obtained) && top == old(top) && brk == old(brk)
    {
      hide Heap, TakenRing, TakenHeaders, Total;
      TakeHeap(hdr, ring, live, top, j, n);
      TotalAppend(live, [TakenBlock(ring, j, n)]);
      TotalSmall([TakenBlock(ring, j, n)]);
      TakenKeepsPrev(ring, j, n);
      AboveBase(hdr, ring, live, top, j - 1);
      var q := Cut(prevp, p, n);
      live := live + [TakenBlock(ring, j, n)];
      ring := TakenRing(ring, j, n);
      freep := prevp;
      assert At(freep, j - 1);
      return q + 1;
    }

    /** malloc(nbytes), where sbrk would answer core; it is asked at most once, and only when no free
        block is large enough. The new block has the room asked for exactly when the size arithmetic does
        not wrap; a request of the last few bytes below 4 GB is given a block without any room. The heap
        stays within the process's memory except for a request that sbrk takes for a negative number. */
    method Malloc(nbytes: nat, core: int, ghost after: nat) returns (ap: nat)
      requires Valid() && nbytes < UINT_MOD
      requires SbrkAnswers(Units(nbytes), core, after) && (core == -1 || top <= core)
      modifies this
      ensures Valid() && freep != 0
      ensures Backed() <==>
        if core == -1 || Suits(old(ring), Units(nbytes)) then old(Backed()) else SbrkTakes(Units(nbytes))
      ensures ap != 0 ==> live == old(live) + [Block(ap - 1, Units(nbytes))]
      ensures ap != 0 ==> (nbytes <= Room(live[|live| - 1].size) <==> nbytes <= UINT_MOD - UNIT)
      ensures ap != 0 && UINT_MOD - UNIT < nbytes ==> Room(live[|live| - 1].size) == 0
      ensures ap == 0 ==> core == -1 && !Suits(old(ring), Units(nbytes)) && live == old(live)
      ensures obtained == old(obtained) +
        if Suits(old(ring), Units(nbytes)) || core == -1 then 0 else Asked(Units(nbytes))
      ensures top == if Suits(old(ring), Units(nbytes)) || core == -1 then old(top) else core + Asked(Units(nbytes))
    {
      hide Heap, Total, Suits, Small, Round, Back, Left, Valid;
      RightSizeExactly(nbytes);
      var nunits := (nbytes + UNIT - 1) % UINT_MOD / UNIT + 1;
      ghost var suited := Suits(ring, nunits);
      if freep == 0 {
        First();
        NothingSuits(base, nunits);
      }
      var prevp := freep;
      ghost var f := Where();
      var p := NextOf(prevp, f);
      StartRound(ring, nunits, f);
      ghost var j, grown := Round(|ring|, f), false;
      while SizeOf(p, j) < nunits
        invariant Valid() && Ready() && freep != 0 && At(freep, f) && At(p, j) && live == old(live)
        invariant At(prevp, Back(|ring|, j)) && Small(ring, nunits, f, j)
        invariant grown ==> core != -1 && !suited && Suits(ring, nunits)
        invariant grown ==> obtained == old(obtained) + Asked(nunits) && top == core + Asked(nunits)
        invariant !grown ==> (suited <==> Suits(ring, nunits)) && obtained == old(obtained) && top == old(top)
        invariant Backed() <==> if grown then SbrkTakes(nunits) else old(Backed())
        decreases if grown then 0 else 1, Left(|ring|, f, j)
      {
        if p == freep {
          OnePlace(hdr, ring, live, top, f, j);
          NoneSuits(ring, nunits, f);
          p := Morecore(nunits, core, after);
          if p == 0 {
            return 0;
          }
          f := Where();
          j, grown := f, true;
          StartRound(ring, nunits, f);
        } else {
          GoRound(ring, nunits, f, j);
        }
        prevp := p;
        p := NextOf(p, j);
        j := Round(|ring|, j);
      }
      SuitsAt(ring, j, nunits);
      LastSteps(j, nunits, prevp);
      ap := Take(prevp, p, nunits, j);
    }

    /** Where freep is in the ring. */
    ghost method Where() returns (f: nat)
      requires Valid() && freep != 0
      ensures Ready() && At(freep, f) && base < top
    {
      f :| At(freep, f);
    }

    lemma LastSteps(j: nat, n: nat, prevp: nat)
      requires Valid() && Ready() && j < |ring| && 0 < n <= ring[j].size && At(prevp, Back(|ring|, j))
      ensures 1 <= j && At(prevp, j - 1) && base < top
    {
    }
  }

  /** How many blocks of the ring, not counting the first, start below bp. */
  function Below(ring: seq<Block>, bp: nat): (k: nat)
    requires Ordered(ring) && ring[0].start < bp
    ensures k < |ring| && ring[k].start < bp && (k + 1 < |ring| ==> bp <= ring[k + 1].start)
    decreases |ring|
  {
    if |ring| == 1 || ring[|ring| - 1].start < bp then |ring| - 1
    else Below(ring[..|ring| - 1], bp)
  }
}
