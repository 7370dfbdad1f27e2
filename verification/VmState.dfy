/** Physical pages, who owns each, and the two-level page tables in them. Addresses are page numbers:
    physical page p is at p * PGSIZE, virtual page v at v * PGSIZE. */
module VmState {
  const NP := 57344                  // PHYSTOP / PGSIZE
  const UPAGES := 524288             // KERNBASE / PGSIZE: user virtual pages
  const VPAGES := 1048576            // all virtual pages
  const ENTRIES := 1024              // NPDENTRIES and NPTENTRIES
  const PGSIZE := 4096
  const KERNBASE := 0x8000_0000

  /** A page as 1024 words. */
  datatype Page = Page(w: seq<nat>)

  /** Who owns a page: the free list; the rest of the kernel; the code that has just taken it from
      the free list; or an address space, named by its directory's page, as the directory, the page
      table for one directory entry, or the frame of one user page. */
  datatype Owner = Free | Kernel | Loose | Dir | Table(d: nat, x: nat) | Frame(d: nat, v: nat)

  datatype State = State(pages: seq<Page>, free: seq<nat>, own: seq<Owner>)

  // ----- entries

  predicate Present(w: nat) {
    w % 2 == 1
  }

  function PageOf(w: nat): nat {
    w / PGSIZE
  }

  function FlagsOf(w: nat): nat {
    w % PGSIZE
  }

  /** A present entry for page p with the given permissions. */
  function Entry(p: nat, perm: nat): nat {
    p * PGSIZE + if perm % 2 == 1 then perm else perm + 1
  }

  lemma EntryIs(p: nat, perm: nat)
    requires perm < PGSIZE
    ensures Present(Entry(p, perm)) && PageOf(Entry(p, perm)) == p
    ensures FlagsOf(Entry(p, perm)) == if perm % 2 == 1 then perm else perm + 1
  {
    var f := if perm % 2 == 1 then perm else perm + 1;
    assert Entry(p, perm) == PGSIZE * p + f;
    assert (PGSIZE * p + f) % 2 == (2 * (2048 * p) + f) % 2 == f % 2;
  }

  predicate Sized(s: State) {
    |s.pages| == |s.own| == NP && forall p :: 0 <= p < NP ==> |s.pages[p].w| == ENTRIES
  }

  function Word(s: State, p: nat, i: nat): nat
    requires Sized(s) && p < NP && i < ENTRIES
  {
    s.pages[p].w[i]
  }

  predicate HasTable(s: State, d: nat, x: nat)
    requires Sized(s) && d < NP && x < ENTRIES
  {
    Present(Word(s, d, x)) && PageOf(Word(s, d, x)) < NP
  }

  function TableOf(s: State, d: nat, x: nat): nat
    requires Sized(s) && d < NP && x < ENTRIES && HasTable(s, d, x)
  {
    PageOf(Word(s, d, x))
  }

  /** The page table entry of virtual page v, 0 where there is no page table. */
  function Pte(s: State, d: nat, v: nat): nat
    requires Sized(s) && d < NP && v < VPAGES
  {
    if HasTable(s, d, v / ENTRIES) then Word(s, TableOf(s, d, v / ENTRIES), v % ENTRIES) else 0
  }

  // ----- the invariant

  predicate Distinct(q: seq<nat>) {
    forall i, j :: 0 <= i < j < |q| ==> q[i] != q[j]
  }

  /** The kernel address of page p, or null. */
  function Link(q: seq<nat>, i: nat): nat {
    if i < |q| then q[i] * PGSIZE + KERNBASE else 0
  }

  /** The free list holds exactly the free pages, each once, and is threaded through their first words. */
  ghost predicate FreeOk(s: State)
    requires Sized(s)
  {
    && Distinct(s.free)
    && (forall i :: 0 <= i < |s.free| ==> s.free[i] < NP)
    && (forall i :: 0 <= i < |s.free| ==> Word(s, s.free[i], 0) == Link(s.free, i + 1))
    && (forall p :: 0 <= p < NP ==> (s.own[p] == Free <==> p in s.free))
  }

  /** The page is a directory, page table or frame of d. */
  predicate Of(o: Owner, d: nat) {
    (o.Table? || o.Frame?) && o.d == d
  }

  ghost predicate TablesOk(s: State, d: nat)
    requires Sized(s) && d < NP
  {
    && (forall x :: 0 <= x < ENTRIES && Present(Word(s, d, x)) ==>
        PageOf(Word(s, d, x)) < NP && s.own[PageOf(Word(s, d, x))] == Table(d, x))
    && (forall p :: 0 <= p < NP && s.own[p].Table? && s.own[p].d == d ==>
        s.own[p].x < ENTRIES && HasTable(s, d, s.own[p].x) && TableOf(s, d, s.own[p].x) == p)
  }

  ghost predicate FramesOk(s: State, d: nat)
    requires Sized(s) && d < NP
  {
    && (forall v :: 0 <= v < UPAGES && Present(Pte(s, d, v)) ==>
        PageOf(Pte(s, d, v)) < NP && s.own[PageOf(Pte(s, d, v))] == Frame(d, v))
    && (forall p :: 0 <= p < NP && s.own[p].Frame? && s.own[p].d == d ==>
        s.own[p].v < UPAGES && Present(Pte(s, d, s.own[p].v)) && PageOf(Pte(s, d, s.own[p].v)) == p)
  }

  /** An address space owns exactly its directory, the page tables the directory points to, and the
      frames its user pages are mapped to, each through one entry. */
  ghost predicate DirOk(s: State, d: nat)
    requires Sized(s)
  {
    d < NP && s.own[d] == Dir && TablesOk(s, d) && FramesOk(s, d)
  }

  ghost predicate Inv(s: State, dirs: set<nat>) {
    && Sized(s) && FreeOk(s)
    && (forall d :: d in dirs ==> DirOk(s, d))
    && (forall p :: 0 <= p < NP && s.own[p] == Dir ==> p in dirs)
    && (forall p :: 0 <= p < NP && (s.own[p].Table? || s.own[p].Frame?) ==> s.own[p].d in dirs)
  }

  // ----- what a step outside an address space leaves alone

  /** Pages of d and what they own are as they were. */
  ghost predicate Apart(s: State, s': State, d: nat)
    requires Sized(s) && Sized(s') && d < NP
  {
    && s'.own[d] == s.own[d] && s'.pages[d] == s.pages[d]
    && (forall p :: 0 <= p < NP && s.own[p].Table? && s.own[p].d == d ==> s'.pages[p] == s.pages[p])
    && (forall p :: 0 <= p < NP && (Of(s.own[p], d) || Of(s'.own[p], d)) ==> s'.own[p] == s.own[p])
  }

  lemma ApartKeeps(s: State, s': State, d: nat)
    requires Sized(s) && Sized(s') && DirOk(s, d) && Apart(s, s', d)
    ensures DirOk(s', d) && forall v :: 0 <= v < VPAGES ==> Pte(s', d, v) == Pte(s, d, v)
  {
    forall x | 0 <= x < ENTRIES ensures Word(s', d, x) == Word(s, d, x) {
    }
    forall v | 0 <= v < VPAGES ensures Pte(s', d, v) == Pte(s, d, v) {
      var x := v / ENTRIES;
      assert Word(s', d, x) == Word(s, d, x);
      if HasTable(s, d, x) {
        assert Of(s.own[TableOf(s, d, x)], d);
      }
    }
    assert TablesOk(s', d);
    assert FramesOk(s', d);
  }
}
