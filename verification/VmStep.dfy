/** The single steps of kalloc.c and vm.c, and that each keeps pages and owners in order. */
module VmStep {
  import opened VmState

  function Zero(): Page {
    Page(seq(ENTRIES, _ => 0))
  }

  const JUNK := 0x01010101

  /** What kfree leaves in a page: junk, and the link to the rest of the list. */
  function FreePage(next: nat): Page {
    Page(seq(ENTRIES, i => if i == 0 then next else JUNK))
  }

  /** kalloc */
  function Taken(s: State): State
    requires Sized(s) && s.free != [] && s.free[0] < NP
  {
    s.(free := s.free[1..], own := s.own[s.free[0] := Loose])
  }

  /** kfree */
  function Freed(s: State, p: nat): State
    requires Sized(s) && p < NP
  {
    State(s.pages[p := FreePage(Link(s.free, 0))], [p] + s.free, s.own[p := Free])
  }

  function SetWord(s: State, p: nat, i: nat, w: nat): State
    requires Sized(s) && p < NP && i < ENTRIES
  {
    s.(pages := s.pages[p := Page(s.pages[p].w[i := w])])
  }

  function Filled(s: State, p: nat, x: Page): State
    requires Sized(s) && p < NP
  {
    s.(pages := s.pages[p := x])
  }

  function Given(s: State, p: nat, o: Owner): State
    requires Sized(s) && p < NP
  {
    s.(own := s.own[p := o])
  }

  // ----- kalloc and kfree

  lemma TakenKeeps(s: State, dirs: set<nat>)
    requires Inv(s, dirs) && s.free != []
    ensures s.free[0] < NP && s.own[s.free[0]] == Free && Inv(Taken(s), dirs)
    ensures forall d, v :: d in dirs && 0 <= v < VPAGES ==> Pte(Taken(s), d, v) == Pte(s, d, v)
  {
    var p, s' := s.free[0], Taken(s);
    assert p in s.free;
    assert s.free == [p] + s'.free;
    forall i | 0 <= i < |s'.free| ensures Word(s', s'.free[i], 0) == Link(s'.free, i + 1) {
      assert Word(s, s.free[i + 1], 0) == Link(s.free, i + 2);
    }
    assert FreeOk(s');
    forall d | d in dirs ensures DirOk(s', d) && forall v :: 0 <= v < VPAGES ==> Pte(s', d, v) == Pte(s, d, v) {
      ApartKeeps(s, s', d);
    }
  }

  /** A page that no address space uses goes back to the free list. */
  lemma FreedKeeps(s: State, dirs: set<nat>, p: nat)
    requires Inv(s, dirs) && p < NP && (s.own[p].Loose? || s.own[p].Kernel?)
    ensures Inv(Freed(s, p), dirs)
    ensures forall d, v :: d in dirs && 0 <= v < VPAGES ==> Pte(Freed(s, p), d, v) == Pte(s, d, v)
  {
    var s' := Freed(s, p);
    FreedList(s, p);
    forall d | d in dirs ensures DirOk(s', d) && forall v :: 0 <= v < VPAGES ==> Pte(s', d, v) == Pte(s, d, v) {
      ApartKeeps(s, s', d);
    }
  }

  lemma FreedList(s: State, p: nat)
    requires Sized(s) && FreeOk(s) && p < NP && !s.own[p].Free?
    ensures Sized(Freed(s, p)) && FreeOk(Freed(s, p))
  {
    var s' := Freed(s, p);
    assert p !in s.free;
    forall i | 0 <= i < |s'.free| ensures Word(s', s'.free[i], 0) == Link(s'.free, i + 1) {
      if i > 0 {
        assert Word(s, s.free[i - 1], 0) == Link(s.free, i);
        assert s'.free[i] in s.free;
      }
    }
  }

  /** Contents and owners of pages that are not free change without touching the free list. */
  lemma ListUntouched(s: State, s': State)
    requires Sized(s) && Sized(s') && FreeOk(s) && s'.free == s.free
    requires forall p :: 0 <= p < NP ==> (s'.own[p] == Free <==> s.own[p] == Free)
    requires forall p :: 0 <= p < NP && s.own[p] == Free ==> s'.pages[p] == s.pages[p]
    ensures FreeOk(s')
  {
    forall i | 0 <= i < |s'.free| ensures Word(s', s'.free[i], 0) == Link(s'.free, i + 1) {
      assert s.free[i] in s.free;
      assert Word(s, s.free[i], 0) == Link(s.free, i + 1);
    }
  }

  lemma FilledKeeps(s: State, dirs: set<nat>, p: nat, x: Page)
    requires Inv(s, dirs) && p < NP && (s.own[p].Loose? || s.own[p].Kernel? || s.own[p].Frame?) && |x.w| == ENTRIES
    ensures Inv(Filled(s, p, x), dirs)
    ensures forall d, v :: d in dirs && 0 <= v < VPAGES ==> Pte(Filled(s, p, x), d, v) == Pte(s, d, v)
  {
    var s' := Filled(s, p, x);
    ListUntouched(s, s');
    forall d | d in dirs ensures DirOk(s', d) && forall v :: 0 <= v < VPAGES ==> Pte(s', d, v) == Pte(s, d, v) {
      ApartKeeps(s, s', d);
    }
  }

  // ----- a new page table

  /** walkpgdir hangs the zeroed page p into the directory. */
  function Hung(s: State, d: nat, x: nat, p: nat): State
    requires Sized(s) && d < NP && p < NP && x < ENTRIES
  {
    Given(SetWord(s, d, x, Entry(p, 6)), p, Table(d, x))
  }

  lemma HungSelf(s: State, d: nat, x: nat, p: nat)
    requires Sized(s) && DirOk(s, d) && p < NP && x < ENTRIES && s.own[p].Loose? && s.pages[p] == Zero()
    requires !Present(Word(s, d, x))
    ensures DirOk(Hung(s, d, x, p), d) && HasTable(Hung(s, d, x, p), d, x)
    ensures forall v :: 0 <= v < VPAGES ==> Pte(Hung(s, d, x, p), d, v) == Pte(s, d, v)
  {
    var s' := Hung(s, d, x, p);
    EntryIs(p, 6);
    hide Entry, Present, PageOf;
    forall y | 0 <= y < ENTRIES ensures Word(s', d, y) == if y == x then Entry(p, 6) else Word(s, d, y) {
    }
    forall v | 0 <= v < VPAGES ensures Pte(s', d, v) == Pte(s, d, v) {
      var y := v / ENTRIES;
      if y == x {
        assert TableOf(s', d, y) == p;
      } else if HasTable(s, d, y) {
        assert s.own[TableOf(s, d, y)] == Table(d, y);
      }
    }
    assert TablesOk(s', d);
    assert FramesOk(s', d);
  }

  lemma HungKeeps(s: State, dirs: set<nat>, d: nat, x: nat, p: nat)
    requires Inv(s, dirs) && d in dirs && p < NP && x < ENTRIES && s.own[p].Loose? && s.pages[p] == Zero()
    requires !Present(Word(s, d, x))
    ensures Inv(Hung(s, d, x, p), dirs) && HasTable(Hung(s, d, x, p), d, x)
    ensures forall e, v :: e in dirs && 0 <= v < VPAGES ==> Pte(Hung(s, d, x, p), e, v) == Pte(s, e, v)
  {
    var s' := Hung(s, d, x, p);
    assert DirOk(s, d);
    HungSelf(s, d, x, p);
    ListUntouched(s, s');
    forall e | e in dirs ensures DirOk(s', e) && forall v :: 0 <= v < VPAGES ==> Pte(s', e, v) == Pte(s, e, v) {
      if e != d {
        ApartKeeps(s, s', e);
      }
    }
    hide DirOk, FreeOk;
  }

  // ----- mapping and unmapping a page

  /** *pte = w, where v has a page table. */
  function PteSet(s: State, d: nat, v: nat, w: nat): State
    requires Sized(s) && d < NP && v < VPAGES && HasTable(s, d, v / ENTRIES)
  {
    SetWord(s, TableOf(s, d, v / ENTRIES), v % ENTRIES, w)
  }

  lemma PteSetIs(s: State, d: nat, v: nat, w: nat)
    requires Sized(s) && d < NP && s.own[d] == Dir && TablesOk(s, d) && v < VPAGES && HasTable(s, d, v / ENTRIES)
    ensures var s' := PteSet(s, d, v, w);
      && Sized(s') && TablesOk(s', d) && s'.pages[d] == s.pages[d]
      && (forall x :: 0 <= x < ENTRIES ==> HasTable(s', d, x) == HasTable(s, d, x))
      && (forall u :: 0 <= u < VPAGES ==> Pte(s', d, u) == if u == v then w else Pte(s, d, u))
  {
    var s', t := PteSet(s, d, v, w), TableOf(s, d, v / ENTRIES);
    assert s.own[t] == Table(d, v / ENTRIES);
    hide PageOf, Present;
    forall x | 0 <= x < ENTRIES ensures Word(s', d, x) == Word(s, d, x) {
    }
    forall u | 0 <= u < VPAGES ensures Pte(s', d, u) == if u == v then w else Pte(s, d, u) {
      var x := u / ENTRIES;
      assert Word(s', d, x) == Word(s, d, x);
      if HasTable(s, d, x) && x != v / ENTRIES {
        assert s.own[TableOf(s, d, x)] == Table(d, x);
      }
    }
  }

  /** Only entries of d change, and nothing that d owns or uses belongs to another. */
  lemma OthersApart(s: State, s': State, dirs: set<nat>, d: nat)
    requires Inv(s, dirs) && d in dirs && Sized(s') && FreeOk(s') && DirOk(s', d)
    requires forall p :: 0 <= p < NP && !s.own[p].Free? && !s.own[p].Loose? && !Of(s.own[p], d) ==>
      s'.own[p] == s.own[p] && (p != d ==> s'.pages[p] == s.pages[p])
    requires forall p :: 0 <= p < NP && (s.own[p].Free? || s.own[p].Loose? || Of(s.own[p], d)) ==>
      s'.own[p].Free? || s'.own[p].Loose? || Of(s'.own[p], d)
    ensures Inv(s', dirs)
    ensures forall e, v :: e in dirs && e != d && 0 <= v < VPAGES ==> Pte(s', e, v) == Pte(s, e, v)
  {
    forall e | e in dirs
      ensures DirOk(s', e) && (e != d ==> forall v :: 0 <= v < VPAGES ==> Pte(s', e, v) == Pte(s, e, v))
    {
      if e != d {
        assert DirOk(s, e);
        ApartKeeps(s, s', e);
      }
    }
    hide DirOk, FreeOk;
  }

  /** A loose page becomes the frame of user page v. */
  function Mapped(s: State, d: nat, v: nat, f: nat, perm: nat): State
    requires Sized(s) && d < NP && v < VPAGES && HasTable(s, d, v / ENTRIES) && f < NP
  {
    Given(PteSet(s, d, v, Entry(f, perm)), f, Frame(d, v))
  }

  lemma MappedSelf(s: State, d: nat, v: nat, f: nat, perm: nat)
    requires Sized(s) && DirOk(s, d) && v < UPAGES && HasTable(s, d, v / ENTRIES) && !Present(Pte(s, d, v))
    requires f < NP && s.own[f].Loose? && perm < PGSIZE
    ensures var s' := Mapped(s, d, v, f, perm);
      Sized(s') && DirOk(s', d) && forall u :: 0 <= u < VPAGES ==>
        Pte(s', d, u) == if u == v then Entry(f, perm) else Pte(s, d, u)
  {
    var m := PteSet(s, d, v, Entry(f, perm));
    PteSetIs(s, d, v, Entry(f, perm));
    EntryIs(f, perm);
    var s' := Mapped(s, d, v, f, perm);
    hide Entry, Present, PageOf;
    forall x | 0 <= x < ENTRIES ensures Word(s', d, x) == Word(m, d, x) {
    }
    forall u | 0 <= u < VPAGES ensures Pte(s', d, u) == Pte(m, d, u) {
    }
    assert TablesOk(s', d);
    hide TablesOk;
    assert FramesOk(s', d);
  }

  lemma MappedKeeps(s: State, dirs: set<nat>, d: nat, v: nat, f: nat, perm: nat)
    requires Inv(s, dirs) && d in dirs && d < NP && v < UPAGES && HasTable(s, d, v / ENTRIES) && !Present(Pte(s, d, v))
    requires f < NP && s.own[f].Loose? && perm < PGSIZE
    ensures var s' := Mapped(s, d, v, f, perm);
      && Inv(s', dirs)
      && forall e, u :: e in dirs && 0 <= u < VPAGES ==>
        Pte(s', e, u) == if e == d && u == v then Entry(f, perm) else Pte(s, e, u)
  {
    assert DirOk(s, d);
    MappedSelf(s, d, v, f, perm);
    var s', t := Mapped(s, d, v, f, perm), TableOf(s, d, v / ENTRIES);
    assert s.own[t] == Table(d, v / ENTRIES);
    ListUntouched(s, s');
    OthersApart(s, s', dirs, d);
    hide DirOk, FreeOk;
  }

  /** A kernel page is mapped; the frame belongs to no one. */
  lemma KernelMapped(s: State, dirs: set<nat>, d: nat, v: nat, w: nat)
    requires Inv(s, dirs) && d in dirs && d < NP && UPAGES <= v < VPAGES && HasTable(s, d, v / ENTRIES)
    ensures var s' := PteSet(s, d, v, w);
      && Inv(s', dirs)
      && forall e, u :: e in dirs && 0 <= u < VPAGES ==> Pte(s', e, u) == if e == d && u == v then w else Pte(s, e, u)
  {
    assert DirOk(s, d);
    PteSetIs(s, d, v, w);
    var s', t := PteSet(s, d, v, w), TableOf(s, d, v / ENTRIES);
    assert s.own[t] == Table(d, v / ENTRIES);
    assert FramesOk(s', d);
    ListUntouched(s, s');
    OthersApart(s, s', dirs, d);
    hide DirOk, FreeOk;
  }

  /** deallocuvm at page v: the frame, if there is one, is freed and its entry cleared. */
  function Unmapped(s: State, d: nat, v: nat): (r: State)
    requires Sized(s) && d < NP && v < VPAGES
    ensures Sized(r)
  {
    var f := PageOf(Pte(s, d, v));
    if !Present(Pte(s, d, v)) || NP <= f || !HasTable(Freed(s, f), d, v / ENTRIES) then s
    else PteSet(Freed(s, f), d, v, 0)
  }

  lemma UnmappedSelf(s: State, d: nat, v: nat)
    requires Sized(s) && FreeOk(s) && DirOk(s, d) && v < UPAGES && Present(Pte(s, d, v))
    ensures var f, s' := PageOf(Pte(s, d, v)), Unmapped(s, d, v);
      && f < NP && s.own[f] == Frame(d, v) && HasTable(s, d, v / ENTRIES) && HasTable(Freed(s, f), d, v / ENTRIES)
      && s' == PteSet(Freed(s, f), d, v, 0) && Sized(s') && DirOk(s', d) && FreeOk(s')
      && forall u :: 0 <= u < VPAGES ==> Pte(s', d, u) == if u == v then 0 else Pte(s, d, u)
  {
    var f, t := PageOf(Pte(s, d, v)), TableOf(s, d, v / ENTRIES);
    var m, s' := Freed(s, f), Unmapped(s, d, v);
    assert s.own[t] == Table(d, v / ENTRIES);
    hide Present, PageOf;
    FreedList(s, f);
    FrameGone(s, d, f, m);
    PteSetIs(m, d, v, 0);
    ListUntouched(m, s');
    hide TablesOk, FreeOk;
    assert FramesOk(s', d);
  }

  /** A frame's page is not where entries are. */
  lemma FrameGone(s: State, d: nat, f: nat, m: State)
    requires Sized(s) && DirOk(s, d) && f < NP && s.own[f].Frame? && m == Freed(s, f)
    ensures Sized(m) && TablesOk(m, d) && m.own[d] == Dir
    ensures forall x :: 0 <= x < ENTRIES ==> HasTable(m, d, x) == HasTable(s, d, x) && Word(m, d, x) == Word(s, d, x)
    ensures forall u :: 0 <= u < VPAGES ==> Pte(m, d, u) == Pte(s, d, u)
  {
    hide Present, PageOf;
    forall x | 0 <= x < ENTRIES ensures Word(m, d, x) == Word(s, d, x) {
    }
    forall u | 0 <= u < VPAGES ensures Pte(m, d, u) == Pte(s, d, u) {
      var x := u / ENTRIES;
      assert Word(m, d, x) == Word(s, d, x);
      if HasTable(s, d, x) {
        assert s.own[TableOf(s, d, x)] == Table(d, x);
      }
    }
  }

  lemma UnmappedKeeps(s: State, dirs: set<nat>, d: nat, v: nat)
    requires Inv(s, dirs) && d in dirs && d < NP && v < UPAGES
    ensures var s' := Unmapped(s, d, v);
      && Inv(s', dirs)
      && forall e, u :: e in dirs && 0 <= u < VPAGES ==>
        Pte(s', e, u) == if e == d && u == v && Present(Pte(s, d, v)) then 0 else Pte(s, e, u)
  {
    if Present(Pte(s, d, v)) {
      assert DirOk(s, d);
      UnmappedSelf(s, d, v);
      var s', t := Unmapped(s, d, v), TableOf(s, d, v / ENTRIES);
      assert s.own[t] == Table(d, v / ENTRIES);
      hide Present, PageOf;
      OthersApart(s, s', dirs, d);
      hide DirOk, FreeOk;
    }
  }

  // ----- a range of pages

  /** The page-by-page walk. */
  function UnmapRange(s: State, d: nat, a: nat, b: nat): (r: State)
    requires Sized(s) && d < NP && b <= VPAGES
    ensures Sized(r)
    decreases b - a
  {
    if a >= b then s else UnmapRange(Unmapped(s, d, a), d, a + 1, b)
  }

  lemma {:induction false} RangePte(s: State, dirs: set<nat>, d: nat, a: nat, b: nat, e: nat, u: nat)
    requires Inv(s, dirs) && d in dirs && d < NP && b <= UPAGES && e in dirs && e < NP && u < VPAGES
    ensures Inv(UnmapRange(s, d, a, b), dirs)
    ensures Pte(UnmapRange(s, d, a, b), e, u) ==
      if e == d && a <= u < b && Present(Pte(s, d, u)) then 0 else Pte(s, e, u)
    decreases b - a
  {
    hide FreeOk, DirOk, Unmapped, Pte;
    if a < b {
      UnmappedPte(s, dirs, d, a, e, u);
      RangePte(Unmapped(s, d, a), dirs, d, a + 1, b, e, u);
    }
  }

  lemma UnmappedPte(s: State, dirs: set<nat>, d: nat, v: nat, e: nat, u: nat)
    requires Inv(s, dirs) && d in dirs && d < NP && v < UPAGES && e in dirs && e < NP && u < VPAGES
    ensures Inv(Unmapped(s, d, v), dirs)
    ensures Pte(Unmapped(s, d, v), e, u) == if e == d && u == v && Present(Pte(s, d, v)) then 0 else Pte(s, e, u)
  {
    hide Inv;
    UnmappedKeeps(s, dirs, d, v);
  }

  lemma RangeKeeps(s: State, dirs: set<nat>, d: nat, a: nat, b: nat)
    requires Inv(s, dirs) && d in dirs && d < NP && b <= UPAGES
    ensures Inv(UnmapRange(s, d, a, b), dirs)
    ensures forall e, u :: e in dirs && e < NP && 0 <= u < VPAGES ==>
      Pte(UnmapRange(s, d, a, b), e, u) == if e == d && a <= u < b && Present(Pte(s, d, u)) then 0 else Pte(s, e, u)
  {
    hide FreeOk, DirOk, UnmapRange, Pte;
    RangePte(s, dirs, d, a, b, d, 0);
    forall e, u | e in dirs && e < NP && 0 <= u < VPAGES
      ensures Pte(UnmapRange(s, d, a, b), e, u) ==
        if e == d && a <= u < b && Present(Pte(s, d, u)) then 0 else Pte(s, e, u)
    {
      RangePte(s, dirs, d, a, b, e, u);
    }
  }

  /** Who owns what after a step of the walk. */
  lemma UnmappedOwners(s: State, dirs: set<nat>, d: nat, v: nat, p: nat)
    requires Inv(s, dirs) && d in dirs && d < NP && v < UPAGES && p < NP
    ensures Unmapped(s, d, v).own[p] == if s.own[p] == Frame(d, v) then Free else s.own[p]
    ensures s.own[p] != Frame(d, v) && s.own[p] != Table(d, v / ENTRIES) ==> Unmapped(s, d, v).pages[p] == s.pages[p]
  {
    assert DirOk(s, d);
    if Present(Pte(s, d, v)) {
      UnmappedSelf(s, d, v);
      assert s.own[TableOf(s, d, v / ENTRIES)] == Table(d, v / ENTRIES);
    }
  }

  /** The walk frees exactly the frames of the range. */
  lemma {:induction false} RangeOwners(s: State, dirs: set<nat>, d: nat, a: nat, b: nat, p: nat)
    requires Inv(s, dirs) && d in dirs && d < NP && b <= UPAGES && p < NP
    ensures UnmapRange(s, d, a, b).own[p] ==
      if s.own[p].Frame? && s.own[p].d == d && a <= s.own[p].v < b then Free else s.own[p]
    ensures !Of(s.own[p], d) ==> UnmapRange(s, d, a, b).pages[p] == s.pages[p]
    decreases b - a
  {
    hide FreeOk, DirOk, Unmapped, Pte;
    if a < b {
      UnmappedOwners(s, dirs, d, a, p);
      UnmappedPte(s, dirs, d, a, d, a);
      RangeOwners(Unmapped(s, d, a), dirs, d, a + 1, b, p);
    }
  }

  /** Where there is no page table the walk does nothing: the rest of the table may be skipped. */
  lemma {:induction false} SkipIsRight(s: State, d: nat, a: nat, b: nat, c: nat)
    requires Sized(s) && d < NP && a <= c <= b <= VPAGES && a < VPAGES && c <= (a / ENTRIES + 1) * ENTRIES
    requires !HasTable(s, d, a / ENTRIES)
    ensures UnmapRange(s, d, a, b) == UnmapRange(s, d, c, b)
    decreases c - a
  {
    if a < c {
      assert Unmapped(s, d, a) == s;
      if a + 1 < c {
        assert (a + 1) / ENTRIES == a / ENTRIES;
        SkipIsRight(s, d, a + 1, b, c);
      }
    }
  }

  lemma SkipTable(s: State, d: nat, a: nat, b: nat)
    requires Sized(s) && d < NP && a < b <= VPAGES && !HasTable(s, d, a / ENTRIES)
    ensures UnmapRange(s, d, a, b) == UnmapRange(s, d, (a / ENTRIES + 1) * ENTRIES, b)
  {
    var c := (a / ENTRIES + 1) * ENTRIES;
    assert a < c;
    if c <= b {
      SkipIsRight(s, d, a, b, c);
    } else {
      SkipIsRight(s, d, a, b, b);
    }
  }

  lemma RangeFirst(s: State, d: nat, a: nat, b: nat)
    requires Sized(s) && d < NP && a < b <= VPAGES
    ensures UnmapRange(s, d, a, b) == UnmapRange(Unmapped(s, d, a), d, a + 1, b)
  {
  }

  lemma RangeEmpty(s: State, d: nat, a: nat, b: nat)
    requires Sized(s) && d < NP && b <= VPAGES && b <= a
    ensures UnmapRange(s, d, a, b) == s
  {
  }
}
