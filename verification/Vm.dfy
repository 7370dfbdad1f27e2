/** kalloc.c and the address-space functions of vm.c. */
module Vm {
  import opened VmState
  import opened VmStep
  import opened VmFree
  import opened VmRoom

  /** How mappages ends: all pages mapped; no page left for a page table; a page that is mapped already,
      where the kernel panics. */
  datatype Outcome = Done | Failed | Remap

  class Memory {
    var pages: seq<Page>
    var freelist: nat                // kmem.freelist: the kernel address of the first free page, or null
    ghost var free: seq<nat>
    ghost var own: seq<Owner>
    ghost var dirs: set<nat>

    ghost function S(): State
      reads this
    {
      State(pages, free, own)
    }

    ghost predicate Valid()
      reads this
    {
      Inv(S(), dirs) && freelist == Link(free, 0)
    }

    /** At boot every page is the kernel's. */
    constructor (mem: seq<Page>)
      requires |mem| == NP && forall p :: 0 <= p < NP ==> |mem[p].w| == ENTRIES
      ensures Valid() && NoneLoose(S()) && dirs == {} && free == [] && forall p :: 0 <= p < NP ==> own[p] == Kernel
    {
      pages, freelist := mem, 0;
      free, own, dirs := [], seq(NP, _ => Kernel), {};
    }

    /** freerange, from page a up to page b. */
    method Freerange(a: nat, b: nat)
      requires Valid() && b <= NP && forall p :: a <= p < b ==> own[p] == Kernel
      modifies this
      ensures Valid() && dirs == old(dirs) && SameEntries(old(S()), S(), dirs)
      ensures forall p :: 0 <= p < NP ==> own[p] == if a <= p < b then Free else old(own)[p]
    {
      hide FreeOk, DirOk, Pte;
      var p := a;
      while p < b
        invariant a <= p && (p <= b || p == a) && Valid() && dirs == old(dirs) && SameEntries(old(S()), S(), dirs)
        invariant forall q :: 0 <= q < NP ==> own[q] == if a <= q < p then Free else old(own)[q]
      {
        Kfree(p);
        p := p + 1;
      }
    }

    method Kalloc() returns (p: int)
      requires Valid()
      modifies this
      ensures Valid() && dirs == old(dirs)
      ensures p == -1 <==> old(free) == []
      ensures p == -1 ==> S() == old(S())
      ensures p != -1 ==> old(free) != [] && p == old(free)[0] < NP && S() == old(Taken(S())) && own[p].Loose?
      ensures p != -1 ==> SameEntries(old(S()), S(), dirs) && forall d :: Extended(old(S()), S(), d, p)
    {
      hide FreeOk, DirOk, Pte, PageKept;
      if freelist == 0 {
        return -1;
      }
      ghost var s := S();
      TakenKeeps(s, dirs);
      TakenExtended(s);
      NextLink(s);
      p := (freelist - KERNBASE) / PGSIZE;
      freelist := pages[p].w[0];
      own := own[p := Loose];
      free := free[1..];
      assert S() == Taken(s);
    }

    /** kfree of a page that no address space uses. */
    method Kfree(p: nat)
      requires Valid() && p < NP && (own[p].Loose? || own[p].Kernel?)
      modifies this
      ensures Valid() && dirs == old(dirs) && S() == old(Freed(S(), p)) && SameEntries(old(S()), S(), dirs)
    {
      FreedKeeps(S(), dirs, p);
      PutFree(p);
      hide Inv;
    }

    /** The body of kfree. */
    method PutFree(p: nat)
      requires Sized(S()) && p < NP && freelist == Link(free, 0)
      modifies this
      ensures S() == old(Freed(S(), p)) && freelist == Link(free, 0) && dirs == old(dirs)
    {
      var junk := Page(seq(ENTRIES, _ => JUNK));
      pages := pages[p := junk];
      pages := pages[p := Page(pages[p].w[0 := freelist])];
      assert pages[p].w == FreePage(freelist).w;
      freelist := p * PGSIZE + KERNBASE;
      free := [p] + free;
      own := own[p := Free];
    }

    method Memset(p: nat)
      requires Valid() && p < NP && own[p].Loose?
      modifies this
      ensures Valid() && dirs == old(dirs) && own == old(own) && free == old(free) && S() == old(Filled(S(), p, Zero()))
      ensures SameEntries(old(S()), S(), dirs) && forall d :: Extended(old(S()), S(), d, -1)
    {
      FilledKeeps(S(), dirs, p, Zero());
      pages := pages[p := Page(seq(ENTRIES, _ => 0))];
      assert pages[p].w == Zero().w;
      hide Inv;
    }

    method Memmove(p: nat, from: nat)
      requires Valid() && p < NP && from < NP && own[p].Loose?
      modifies this
      ensures Valid() && dirs == old(dirs) && S() == old(Filled(S(), p, pages[from]))
      ensures SameEntries(old(S()), S(), dirs)
    {
      FilledKeeps(S(), dirs, p, pages[from]);
      pages := pages[p := pages[from]];
      hide Inv;
    }

    /** walkpgdir without allocation: the page table of v, or -1. */
    method Lookup(d: nat, v: nat) returns (t: int)
      requires Valid() && d in dirs && v < VPAGES
      ensures d < NP && (t == -1 <==> !HasTable(S(), d, v / ENTRIES))
      ensures t != -1 ==> t == TableOf(S(), d, v / ENTRIES) && Pte(S(), d, v) == pages[t].w[v % ENTRIES]
    {
      DirFacts(S(), dirs, d);
      hide Inv;
      var pde := pages[d].w[v / ENTRIES];
      if pde % 2 == 1 {
        EntryInRange(S(), dirs, d, v / ENTRIES);
        return pde / PGSIZE;
      }
      return -1;
    }

    /** walkpgdir with allocation: -1 only when memory has run out. */
    method Walk(d: nat, v: nat) returns (t: int)
      requires Valid() && d in dirs && v < VPAGES
      modifies this
      ensures Valid() && d < NP && dirs == old(dirs) && SameEntries(old(S()), S(), dirs)
      ensures Extended(old(S()), S(), d, -1)
      ensures t == -1 <==> !HasTable(old(S()), d, v / ENTRIES) && old(free) == []
      ensures t == -1 || HasTable(old(S()), d, v / ENTRIES) ==> S() == old(S())
      ensures t != -1 ==> HasTable(S(), d, v / ENTRIES) && t == TableOf(S(), d, v / ENTRIES)
      ensures t != -1 ==> |free| == |old(free)| - if HasTable(old(S()), d, v / ENTRIES) then 0 else 1
      ensures t != -1 ==> Gained(old(S()), S(), d, v / ENTRIES, v / ENTRIES + 1)
      ensures LooseKept(old(S()), S())
    {
      hide FreeOk, DirOk, Pte, PageKept;
      ghost var s0 := S();
      t := Lookup(d, v);
      ExtendedSelf(s0, d);
      if t == -1 {
        t := Kalloc();
        if t == -1 {
          return -1;
        }
        ghost var s1 := S();
        Memset(t);
        ghost var s2 := S();
        NewTable(s0, s2, dirs, d, v / ENTRIES, t);
        HungKeeps(s2, dirs, d, v / ENTRIES, t);
        TakenApart(s0, s2, dirs, d, t);
        HungGains(s0, s2, d, v / ENTRIES, t);
        pages := pages[d := Page(pages[d].w[v / ENTRIES := Entry(t, 6)])];
        own := own[t := Table(d, v / ENTRIES)];
        assert S() == Hung(s2, d, v / ENTRIES, t);
      } else {
        GainedNothing(s0, s0, d, v / ENTRIES);
      }
    }

    /** One round of mappages: p becomes v's frame; a frame of a user page must be loose. */
    method MapPage(d: nat, v: nat, p: nat, perm: nat) returns (r: Outcome)
      requires Valid() && d in dirs && d < NP && v < VPAGES && perm < PGSIZE
      requires v < UPAGES ==> p < NP && own[p].Loose?
      modifies this
      ensures Valid() && dirs == old(dirs) && Extended(old(S()), S(), d, -1)
      ensures r == Remap <==> Present(Pte(old(S()), d, v))
      ensures r == Failed <==> !HasTable(old(S()), d, v / ENTRIES) && old(free) == []
      ensures r != Done ==> S() == old(S())
      ensures r == Done ==> Sets(old(S()), S(), dirs, d, v, 1, p, perm)
      ensures r == Done ==> |free| == |old(free)| - if HasTable(old(S()), d, v / ENTRIES) then 0 else 1
      ensures r == Done ==> Gained(old(S()), S(), d, v / ENTRIES, v / ENTRIES + 1)
      ensures r == Done && v < UPAGES ==> own[p] == Frame(d, v) && pages[p] == old(pages[p])
    {
      hide FreeOk, DirOk, PageKept, Extended, Entry, Gained;
      ghost var s0 := S();
      var t := Walk(d, v);
      if t == -1 {
        return Failed;
      }
      ghost var s1 := S();
      ExtendedSelf(s0, d);
      if pages[t].w[v % ENTRIES] % 2 == 1 {
        TableThere(s0, s1, dirs, d, v, t);
        return Remap;
      }
      var w := Entry(p, perm);
      EntryInRange(s1, dirs, d, v / ENTRIES);
      DirFacts(s1, dirs, d);
      if v < UPAGES {
        MappedKeeps(s1, dirs, d, v, p, perm);
        MappedExtended(s1, dirs, d, v, p, perm);
        pages := pages[t := Page(pages[t].w[v % ENTRIES := w])];
        own := own[p := Frame(d, v)];
        assert S() == Mapped(s1, d, v, p, perm);
      } else {
        KernelMapped(s1, dirs, d, v, w);
        KernelExtended(s1, dirs, d, v, w);
        pages := pages[t := Page(pages[t].w[v % ENTRIES := w])];
        assert S() == PteSet(s1, d, v, w);
      }
      GainedSame(s0, s1, S(), d, v / ENTRIES, v / ENTRIES + 1);
      ExtendedTrans(s0, s1, S(), d, -1, -1, -1);
      hide Pte;
      return Done;
    }

    /** mappages, from virtual page v to page last; user pages are mapped one at a time. It succeeds
        exactly when none of the pages is mapped and there are pages for the missing page tables. */
    method MapPages(d: nat, v: nat, last: nat, p: nat, perm: nat) returns (r: Outcome)
      requires Valid() && d in dirs && d < NP && v <= last < VPAGES && perm < PGSIZE
      requires v < UPAGES ==> v == last && p < NP && own[p].Loose?
      modifies this
      ensures Valid() && dirs == old(dirs) && Extended(old(S()), S(), d, -1)
      ensures r == Done <==> Vacant(old(S()), d, v, last + 1) && TablesFor(old(S()), d, v, last + 1) <= |old(free)|
      ensures r == Remap <==> Remapped(old(S()), d, v, last, |old(free)|)
      ensures r == Done ==> Sets(old(S()), S(), dirs, d, v, last + 1 - v, p, perm)
      ensures r == Done ==> |free| == |old(free)| - TablesFor(old(S()), d, v, last + 1)
      ensures r == Done ==> Gained(old(S()), S(), d, v / ENTRIES, Through(v, last + 1))
      ensures r == Done && v < UPAGES ==> own[p] == Frame(d, v) && pages[p] == old(pages[p])
      ensures r != Done && v < UPAGES ==> S() == old(S())
      ensures r != Done && UPAGES <= v ==>
        forall e, u :: e in dirs && e < NP && 0 <= u < VPAGES && (e != d || u < UPAGES) ==>
          Pte(S(), e, u) == Pte(old(S()), e, u)
    {
      hide FreeOk, DirOk, PageKept, Extended, Entry, Pte, Gained, TablesFor, HasTable;
      ghost var s0 := S();
      var a, pa := v, p;
      ExtendedSelf(s0, d);
      GainedStarts(s0, d, v);
      while true
        invariant Valid() && dirs == old(dirs) && Extended(s0, S(), d, -1)
        invariant v <= a <= last && pa == p + a - v && Sets(s0, S(), dirs, d, v, a - v, p, perm)
        invariant a == v ==> S() == s0
        invariant Vacant(s0, d, v, a) && Gained(s0, S(), d, v / ENTRIES, Through(v, a))
        invariant |free| == |old(free)| - TablesFor(s0, d, v, a)
        decreases last - a
      {
        ghost var s1 := S();
        OneMoreTable(s0, s1, d, v, a);
        TablesMono(s0, d, v, a + 1, last + 1);
        r := MapPage(d, a, pa, perm);
        ExtendedTrans(s0, s1, S(), d, -1, -1, -1);
        if r != Done {
          NotDone(s0, s1, d, v, a, last, |old(free)|, r == Remap);
          return;
        }
        SetsOneMore(s0, s1, S(), dirs, d, v, a - v, p, perm);
        OneMoreGained(s0, s1, S(), d, v, a);
        if a == last {
          return;
        }
        a := a + 1;
        pa := pa + 1;
      }
    }

    /** deallocuvm, from page a up to page b: in one go what the page-by-page walk does. */
    method Dealloc(d: nat, from: nat, to: nat)
      requires Valid() && d in dirs && d < NP && to <= UPAGES
      modifies this
      ensures Valid() && dirs == old(dirs) && S() == old(UnmapRange(S(), d, from, to))
    {
      hide FreeOk, DirOk, Pte, Unmapped, UnmapRange;
      ghost var goal := UnmapRange(S(), d, from, to);
      var a := from;
      while a < to
        invariant Valid() && dirs == old(dirs)
        invariant UnmapRange(S(), d, a, to) == goal
      {
        var t := Lookup(d, a);
        if t == -1 {
          SkipTable(S(), d, a, to);
          a := (a / ENTRIES + 1) * ENTRIES - 1;
        } else {
          RangeFirst(S(), d, a, to);
          Clear(d, a, t);
        }
        a := a + 1;
      }
      RangeEmpty(S(), d, a, to);
    }

    /** deallocuvm at a page that has a page table t. */
    method Clear(d: nat, a: nat, t: nat)
      requires Valid() && d in dirs && d < NP && a < UPAGES && HasTable(S(), d, a / ENTRIES)
      requires t == TableOf(S(), d, a / ENTRIES)
      modifies this
      ensures Valid() && dirs == old(dirs) && S() == old(Unmapped(S(), d, a))
    {
      ghost var s0 := S();
      UnmappedKeeps(s0, dirs, d, a);
      DirFacts(s0, dirs, d);
      assert DirOk(s0, d);
      hide FreeOk, DirOk;
      var pte := pages[t].w[a % ENTRIES];
      if pte % 2 == 1 {
        var pa := pte / PGSIZE;
        UnmapFacts(s0, dirs, d, a, t);
        PutFree(pa);
        pages := pages[t := Page(pages[t].w[a % ENTRIES := 0])];
        assert S() == PteSet(Freed(s0, pa), d, a, 0);
      }
    }

    method Freevm(d: nat)
      requires Valid() && d in dirs && d < NP
      modifies this
      ensures Valid() && dirs == old(dirs) - {d} && Released(old(S()), S(), d) && SameEntries(old(S()), S(), dirs)
    {
      hide FreeOk, DirOk, Torn, NoFrames, Released, SameEntries, UnmapRange;
      ghost var s0 := S();
      Dealloc(d, 0, UPAGES);
      ghost var s1 := S();
      FramesGone(s0, s1, dirs, d);
      TornStarts(s0, s1, dirs, d);
      FreeTables(d, s1);
      TornEnds(s0, s1, S(), dirs, d);
      PutFree(d);
      dirs := dirs - {d};
    }

    /** freevm's loop over the directory. */
    method FreeTables(d: nat, ghost s: State)
      requires d < NP && Sized(s) && Torn(s, S(), dirs, d, 0) && freelist == Link(free, 0)
      modifies this
      ensures Torn(s, S(), dirs, d, ENTRIES) && freelist == Link(free, 0) && dirs == old(dirs)
    {
      hide Torn;
      for i := 0 to ENTRIES
        invariant Torn(s, S(), dirs, d, i) && dirs == old(dirs) && freelist == Link(free, 0)
      {
        TornStep(s, S(), dirs, d, i);
        var pde := pages[d].w[i];
        if pde % 2 == 1 {
          PutFree(pde / PGSIZE);
        }
      }
    }

    /** setupkvm; `data` is the physical page where the kernel's writable data start. It succeeds exactly
        when there are pages for the directory and the page tables of the four rows. */
    method Setupkvm(data: nat) returns (d: int)
      requires Valid() && NoneLoose(S()) && EXTMEM < data < NP
      modifies this
      ensures Valid() && NoneLoose(S()) && SameEntries(old(S()), S(), old(dirs))
      ensures d != -1 <==> KERNELPAGES <= |old(free)|
      ensures d == -1 ==> dirs == old(dirs) && Restored(old(S()), S())
      ensures d != -1 ==> 0 <= d < NP && d !in old(dirs) && dirs == old(dirs) + {d} && Extended(old(S()), S(), d, -1)
      ensures d != -1 ==> old(own)[d].Free? && |free| == |old(free)| - KERNELPAGES
      ensures d != -1 ==> forall u :: 0 <= u < VPAGES ==> Pte(S(), d, u) == KernelEntry(data, u)
      ensures d != -1 ==> KernelTables(S(), d, data, 4)
    {
      hide FreeOk, DirOk, Pte, PageKept, Extended, SameEntries, Sets, KernelEntry, Entry, Restored, Released, NoneLoose;
      hide NoneOf, KernelTables, TablesFor, Gained, Vacant, RowEnd, HasTable;
      ghost var s0, dirs0 := S(), dirs;
      d := Kalloc();
      if d == -1 {
        NothingChanged(s0, dirs0);
        return;
      }
      ghost var s1 := S();
      Memset(d);
      NewDirectory(s0, s1, S(), dirs0, d);
      NotYet(s0, dirs0, d);
      own := own[d := Dir];
      dirs := dirs + {d};
      RowEnds(data);
      for k := 0 to 4
        invariant Valid() && dirs == dirs0 + {d} && SameEntries(s0, S(), dirs0) && Extended(s0, S(), d, -1)
        invariant KernelUpTo(S(), d, data, k) && KernelTables(S(), d, data, k)
        invariant |free| == |old(free)| - 1 - TablesUpTo(data, k)
      {
        ghost var s := S();
        var (v, last, p, perm) := Kmap(data, k);
        KmapUnmapped(s, d, data, k);
        KmapTables(s, d, data, k);
        var r := MapPages(d, v, last, p, perm);
        ExtendedTrans(s0, s, S(), d, -1, -1, -1);
        if r != Done {
          OnlyKernel(s0, s, S(), dirs0, d);
          ghost var s2 := S();
          Freevm(d);
          GaveBack(s0, s2, S(), dirs0, d);
          return -1;
        }
        KmapMapped(s0, s, S(), dirs0, d, data, k);
        KmapGained(s, S(), d, data, k);
      }
      KernelDone(S(), d, data);
      StillNoneLoose(s0, S(), d);
    }

    /** deallocuvm; sizes in bytes. */
    method Deallocuvm(d: nat, oldsz: nat, newsz: nat) returns (sz: nat)
      requires Valid() && d in dirs && d < NP && oldsz <= KERNBASE
      modifies this
      ensures Valid() && dirs == old(dirs) && sz == if newsz >= oldsz then oldsz else newsz
      ensures S() == if newsz >= oldsz then old(S()) else old(UnmapRange(S(), d, Up(newsz), Up(oldsz)))
    {
      if newsz >= oldsz {
        return oldsz;
      }
      Dealloc(d, Up(newsz), Up(oldsz));
      return newsz;
    }

    /** allocuvm; sizes in bytes. It panics exactly when it comes to a page that is mapped already before
        memory runs out, and fails exactly when memory runs out before that. A failure takes back the whole
        range, and so unmaps what was mapped there; where nothing was, the mapping is as before. */
    method Allocuvm(d: nat, oldsz: nat, newsz: nat) returns (panics: bool, sz: nat)
      requires Valid() && NoneLoose(S()) && d in dirs && d < NP
      modifies this
      ensures panics <==> oldsz <= newsz < KERNBASE && AllocPanics(old(S()), d, Up(oldsz), Up(newsz), |old(free)|)
      ensures !panics ==> Valid() && NoneLoose(S()) && dirs == old(dirs)
      ensures newsz >= KERNBASE ==> sz == 0 && S() == old(S())
      ensures newsz < oldsz && newsz < KERNBASE ==> sz == oldsz && S() == old(S())
      ensures !panics && oldsz <= newsz < KERNBASE ==>
        var lo, hi := Up(oldsz), Up(newsz);
        if Vacant(old(S()), d, lo, hi) && AllocNeeds(old(S()), d, lo, hi) <= |old(free)| then
          && sz == newsz && |free| == |old(free)| - AllocNeeds(old(S()), d, lo, hi)
          && Grown(old(S()), S(), dirs, d, lo, hi) && Extended(old(S()), S(), d, -1)
        else
          && sz == 0 && Cleared(old(S()), S(), dirs, d, lo, hi) && GaveUp(old(S()), S(), d, lo, hi)
          && (Vacant(old(S()), d, lo, hi) ==> SameMapping(old(S()), S(), dirs) && TablesOnly(old(S()), S(), d))
    {
      hide FreeOk, DirOk, PageKept, Extended, Grown, SameEntries, Sets, NoneLoose, SameMapping, TablesOnly, Entry;
      hide TablesFor, Gained, HasTable, Through, Pte, Cleared, GaveUp, AllocPanics, AllocNeeds, Vacant;
      panics := false;
      if newsz >= KERNBASE {
        return false, 0;
      }
      if newsz < oldsz {
        return false, oldsz;
      }
      ghost var s0 := S();
      var a := Up(oldsz);
      GrownStarts(s0, dirs, d, a);
      GainedStarts(s0, d, a);
      NoneNeeded(s0, d, a);
      while a < Up(newsz)
        invariant Valid() && NoneLoose(S()) && dirs == old(dirs) && Up(oldsz) <= a <= Up(newsz) <= UPAGES && !panics
        invariant Grown(s0, S(), dirs, d, Up(oldsz), a) && Extended(s0, S(), d, -1)
        invariant Gained(s0, S(), d, Up(oldsz) / ENTRIES, Through(Up(oldsz), a)) && Vacant(s0, d, Up(oldsz), a)
        invariant |free| == |old(free)| - AllocNeeds(s0, d, Up(oldsz), a)
      {
        ghost var s := S();
        GrownNext(s0, S(), dirs, d, Up(oldsz), a);
        OneMoreNeeded(s0, S(), d, Up(oldsz), a);
        var r, mem := Grow(d, a, s0, Up(oldsz));
        RoundEnds(s0, s, d, Up(oldsz), a, Up(newsz), |s0.free|, r);
        if r == Remap {
          return true, 0;
        }
        if r == Failed {
          TakeBack(d, oldsz, newsz, mem, s0, a);
          return false, 0;
        }
        OneMoreGained(s0, s, S(), d, Up(oldsz), a);
        a := a + 1;
      }
      NeverRemaps(s0, d, Up(oldsz), Up(newsz), |s0.free|);
      return false, newsz;
    }

    /** allocuvm's way out when memory has run out. */
    method TakeBack(d: nat, oldsz: nat, newsz: nat, mem: int, ghost s0: State, ghost a: nat)
      requires Valid() && Inv(s0, dirs) && NoneLoose(s0) && d in dirs && d < NP && newsz < KERNBASE
      requires Up(oldsz) <= a < Up(newsz)
      requires Grown(s0, S(), dirs, d, Up(oldsz), a) && Extended(s0, S(), d, mem)
      requires mem == -1 || (0 <= mem < NP && own[mem].Loose? && s0.own[mem].Free?)
      modifies this
      ensures Valid() && NoneLoose(S()) && dirs == old(dirs)
      ensures Cleared(s0, S(), dirs, d, Up(oldsz), Up(newsz)) && GaveUp(s0, S(), d, Up(oldsz), Up(newsz))
      ensures Vacant(s0, d, Up(oldsz), Up(newsz)) ==> SameMapping(s0, S(), dirs) && TablesOnly(s0, S(), d)
    {
      hide FreeOk, DirOk, PageKept, Extended, Grown, SameEntries, NoneLoose, SameMapping, TablesOnly, Yielded, Pte;
      hide UnmapRange, Cleared, GaveUp, Vacant;
      ghost var s1 := S();
      var _ := Deallocuvm(d, newsz, oldsz);
      ghost var s2 := S();
      UndoneEntries(s0, s1, s2, dirs, d, Up(oldsz), a, Up(newsz));
      UndoneOwners(s0, s1, s2, dirs, d, Up(oldsz), a, Up(newsz), mem);
      if mem != -1 {
        Kfree(mem);
      }
      AllBack(s0, s2, S(), dirs, d, Up(oldsz), Up(newsz), mem);
      if Vacant(s0, d, Up(oldsz), Up(newsz)) {
        NothingLost(s0, S(), dirs, d, Up(oldsz), Up(newsz));
      }
    }

    /** One round of allocuvm; mem is the page it has taken, or -1. */
    method Grow(d: nat, a: nat, ghost s0: State, ghost lo: nat) returns (r: Outcome, mem: int)
      requires Valid() && NoneLoose(S()) && d in dirs && d < NP && lo <= a < UPAGES && Sized(s0)
      requires Grown(s0, S(), dirs, d, lo, a) && Extended(s0, S(), d, -1)
      modifies this
      ensures Valid() && dirs == old(dirs)
      ensures r == Remap <==> Present(Pte(old(S()), d, a)) && old(free) != []
      ensures r == Done <==>
        !Present(Pte(old(S()), d, a)) && (if HasTable(old(S()), d, a / ENTRIES) then 1 else 2) <= |old(free)|
      ensures r == Done ==> |free| == |old(free)| - if HasTable(old(S()), d, a / ENTRIES) then 1 else 2
      ensures r == Done ==> Gained(old(S()), S(), d, a / ENTRIES, a / ENTRIES + 1)
      ensures r == Done ==> NoneLoose(S()) && Grown(s0, S(), dirs, d, lo, a + 1) && Extended(s0, S(), d, -1)
      ensures r == Failed ==> Grown(s0, S(), dirs, d, lo, a) && Extended(s0, S(), d, mem)
      ensures r == Failed && mem != -1 ==> 0 <= mem < NP && own[mem].Loose? && s0.own[mem].Free?
    {
      hide FreeOk, DirOk, PageKept, Extended, Grown, SameEntries, Sets, NoneLoose, Entry, Pte, OneLoose, Vacant;
      ghost var s := S();
      mem := Kalloc();
      if mem == -1 {
        return Failed, -1;
      }
      ghost var s1 := S();
      Memset(mem);
      ghost var s2 := S();
      TookOne(s0, s, s1, s2, dirs, d, mem, lo, a);
      TakenApart(s, s2, dirs, d, mem);
      TableForOne(s2, d, a);
      RemapsOne(s2, d, a, |s2.free|);
      r := MapPages(d, a, a, mem, 6);
      if r == Done {
        GainedFrom(s, s2, S(), d, a / ENTRIES);
        GrownMore(s0, s2, S(), dirs, d, mem, lo, a);
      }
    }

    /** copyuvm: the first sz bytes of src's user memory, in a new address space. It panics exactly when it
        comes to a page that src does not have before memory runs out, and fails exactly when memory runs
        out before that. */
    method Copyuvm(src: nat, sz: nat, data: nat) returns (panics: bool, d: int)
      requires Valid() && NoneLoose(S()) && EXTMEM < data < NP && src in dirs && src < NP && sz <= KERNBASE
      modifies this
      ensures panics <==> CopyPanics(old(S()), src, Up(sz), |old(free)|)
      ensures !panics ==> Valid() && NoneLoose(S()) && SameEntries(old(S()), S(), old(dirs))
      ensures !panics && d == -1 ==> dirs == old(dirs) && Restored(old(S()), S())
      ensures !panics ==> (d != -1 <==> AllThere(old(S()), src, Up(sz)) && CopyNeeds(Up(sz)) <= |old(free)|)
      ensures !panics && d != -1 ==>
        && 0 <= d < NP && d !in old(dirs) && dirs == old(dirs) + {d} && Extended(old(S()), S(), d, -1)
        && Copied(old(S()), S(), src, d, data, Up(sz)) && |free| == |old(free)| - CopyNeeds(Up(sz))
    {
      hide FreeOk, DirOk, Pte, PageKept, Extended, SameEntries, Sets, KernelEntry, Entry, Restored, Released, NoneLoose;
      hide NoneOf, Copied, AllThere, CopyPanics, CopyNeeds, KernelTables;
      ghost var s0, dirs0 := S(), dirs;
      panics := false;
      d := Setupkvm(data);
      CopyNeedsStart();
      NoPagesYet(s0, src);
      if d == -1 {
        OutOfPages(s0, src, 0, Up(sz), |s0.free|);
        return;
      }
      CopyStarts(s0, S(), dirs0, src, d, data);
      var ok;
      panics, ok := CopyAll(src, Up(sz), d, data, s0, dirs0);
      if !panics && !ok {
        ghost var s2 := S();
        Freevm(d);
        GaveBack(s0, s2, S(), dirs0, d);
        d := -1;
      }
    }

    /** The loop of copyuvm. */
    method CopyAll(src: nat, n: nat, d: nat, data: nat, ghost s0: State, ghost dirs0: set<nat>)
        returns (panics: bool, ok: bool)
      requires Valid() && NoneLoose(S()) && Inv(s0, dirs0) && src in dirs0 && src < NP && EXTMEM < data < NP
      requires d !in dirs0 && d < NP && dirs == dirs0 + {d} && s0.own[d].Free? && n <= UPAGES
      requires SameEntries(s0, S(), dirs0) && Extended(s0, S(), d, -1) && Copied(s0, S(), src, d, data, 0)
      requires KernelTables(S(), d, data, 4) && |free| == |s0.free| - CopyNeeds(0)
      modifies this
      ensures panics <==> CopyPanics(s0, src, n, |s0.free|)
      ensures !panics ==> Valid() && NoneLoose(S()) && dirs == old(dirs) && SameEntries(s0, S(), dirs0)
      ensures !panics ==> Extended(s0, S(), d, -1)
      ensures !panics ==> (ok <==> AllThere(s0, src, n) && CopyNeeds(n) <= |s0.free|)
      ensures !panics && ok ==> Copied(s0, S(), src, d, data, n) && |free| == |s0.free| - CopyNeeds(n)
    {
      hide FreeOk, DirOk, Pte, PageKept, Extended, SameEntries, KernelEntry, NoneLoose, Copied, KernelTables;
      hide TablesFor, Gained, HasTable, Through, CopyNeeds, CopyPanics, AllThere;
      ghost var s1 := S();
      GainedStarts(s1, d, 0);
      NoPagesYet(s0, src);
      panics, ok := false, true;
      for i := 0 to n
        invariant Valid() && NoneLoose(S()) && dirs == old(dirs) && SameEntries(s0, S(), dirs0)
        invariant Extended(s0, S(), d, -1)
        invariant Copied(s0, S(), src, d, data, i) && !panics && ok
        invariant AllThere(s0, src, i) && Gained(s1, S(), d, 0, Through(0, i)) && |free| == |s0.free| - CopyNeeds(i)
      {
        ghost var s := S();
        OneMoreCopy(s1, S(), d, data, i);
        panics, ok := CopyPage(src, i, d, data, s0, dirs0);
        if panics {
          MissesPage(s0, src, i, n, |s0.free|);
          return;
        }
        OneMoreThere(s0, src, i);
        if !ok {
          OutOfPages(s0, src, i + 1, n, |s0.free|);
          return;
        }
        OneMoreGained(s1, s, S(), d, 0, i);
      }
      NeverPanics(s0, src, n, |s0.free|);
    }

    /** One round of copyuvm. */
    method CopyPage(src: nat, i: nat, d: nat, data: nat, ghost s0: State, ghost dirs0: set<nat>)
        returns (panics: bool, ok: bool)
      requires Valid() && NoneLoose(S()) && Inv(s0, dirs0) && src in dirs0 && src < NP && EXTMEM < data < NP
      requires d !in dirs0 && d < NP && dirs == dirs0 + {d} && s0.own[d].Free? && i < UPAGES
      requires SameEntries(s0, S(), dirs0) && Extended(s0, S(), d, -1) && Copied(s0, S(), src, d, data, i)
      modifies this
      ensures panics <==> !Present(Pte(s0, src, i))
      ensures !panics ==> Valid() && NoneLoose(S()) && dirs == old(dirs) && SameEntries(s0, S(), dirs0)
      ensures !panics ==> Extended(s0, S(), d, -1)
      ensures !panics ==> (ok <==> (if HasTable(old(S()), d, i / ENTRIES) then 1 else 2) <= |old(free)|)
      ensures !panics && ok ==> |free| == |old(free)| - if HasTable(old(S()), d, i / ENTRIES) then 1 else 2
      ensures !panics && ok ==> Gained(old(S()), S(), d, i / ENTRIES, i / ENTRIES + 1)
      ensures !panics && ok ==> Copied(s0, S(), src, d, data, i + 1)
    {
      hide FreeOk, DirOk, Pte, PageKept, Extended, SameEntries, Sets, KernelEntry, Entry, NoneLoose, NoneOf, Copied;
      hide OneLoose, TablesFor, Gained;
      ghost var s := S();
      SourceSame(s0, s, dirs0, src, i);
      panics, ok := false, false;
      var t := Lookup(src, i);
      LookupNone(s, src, i, t);
      if t == -1 {
        return true, false;
      }
      var pte := pages[t].w[i % ENTRIES];
      if pte % 2 == 0 {
        return true, false;
      }
      var pa, flags := pte / PGSIZE, pte % PGSIZE;
      SourceFrame(s0, s, dirs0, src, d, i, data);
      var mem := Kalloc();
      if mem == -1 {
        return;
      }
      ghost var s1 := S();
      Memmove(mem, pa);
      ghost var s2 := S();
      CopyTook(s0, s, s1, s2, dirs0, src, d, data, mem, pa, i);
      TakenApart(s, s2, dirs, d, mem);
      TableForOne(s2, d, i);
      VacantOne(s2, d, i);
      var r := MapPages(d, i, i, mem, flags);
      ok := r == Done;
      if !ok {
        Kfree(mem);
        CopyReturned(s0, s2, S(), dirs0, d, mem);
        return;
      }
      GainedFrom(s, s2, S(), d, i / ENTRIES);
      DirFacts(s2, dirs, d);
      CopyMore(s0, s2, S(), dirs0, src, d, data, mem, i);
    }
  }

  ghost predicate LooseKept(s0: State, s: State)
    requires Sized(s0) && Sized(s)
  {
    forall p :: 0 <= p < NP && s0.own[p].Loose? ==> s.own[p].Loose? && s.pages[p] == s0.pages[p]
  }

  /** None of the pages from v up to b is mapped. */
  ghost predicate Vacant(s: State, d: nat, v: nat, b: nat)
    requires Sized(s) && d < NP && b <= VPAGES
  {
    forall u :: v <= u < b ==> !Present(Pte(s, d, u))
  }

  /** mappages comes to a mapped page before it runs out of pages for page tables. */
  ghost predicate Remapped(s: State, d: nat, v: nat, last: nat, free: nat)
    requires Sized(s) && d < NP && v <= last < VPAGES
  {
    exists u :: v <= u <= last && RemapsAt(s, d, v, u, free)
  }

  ghost predicate RemapsAt(s: State, d: nat, v: nat, u: nat, free: nat)
    requires Sized(s) && d < NP && v <= u < VPAGES
  {
    Vacant(s, d, v, u) && Present(Pte(s, d, u)) && TablesFor(s, d, v, u) <= free
  }

  /** The round at page a, which did not succeed, decides how mappages ends. */
  lemma NotDone(s0: State, s: State, d: nat, v: nat, a: nat, last: nat, free: nat, remap: bool)
    requires Sized(s0) && Sized(s) && d < NP && v <= a <= last < VPAGES && Vacant(s0, d, v, a)
    requires Pte(s, d, a) == Pte(s0, d, a) && (remap <==> Present(Pte(s, d, a)))
    requires TablesFor(s0, d, v, a) <= free && (!remap ==> free < TablesFor(s0, d, v, a + 1))
    ensures remap <==> Remapped(s0, d, v, last, free)
    ensures !(Vacant(s0, d, v, last + 1) && TablesFor(s0, d, v, last + 1) <= free)
  {
    hide Pte, TablesFor, Present;
    TablesMono(s0, d, v, a + 1, last + 1);
    if remap {
      assert RemapsAt(s0, d, v, a, free);
    } else {
      forall u | v <= u <= last ensures !RemapsAt(s0, d, v, u, free) {
        if a < u {
          TablesMono(s0, d, v, a + 1, u);
        }
      }
    }
  }

  /** Taking and filling a page leaves the directory alone. */
  lemma TakenApart(s: State, s2: State, dirs: set<nat>, d: nat, f: nat)
    requires Inv(s, dirs) && d in dirs && d < NP && s.free != [] && f == s.free[0] < NP && Sized(s2)
    requires s2.pages == s.pages[f := s2.pages[f]]
    ensures s2.pages[d] == s.pages[d] && forall x :: 0 <= x < ENTRIES ==> (HasTable(s2, d, x) <==> HasTable(s, d, x))
  {
    DirFacts(s, dirs, d);
    assert f in s.free;
    forall x | 0 <= x < ENTRIES ensures HasTable(s2, d, x) <==> HasTable(s, d, x) {
      assert Word(s2, d, x) == Word(s, d, x);
    }
  }

  lemma VacantOne(s: State, d: nat, a: nat)
    requires Sized(s) && d < NP && a < VPAGES && !Present(Pte(s, d, a))
    ensures Vacant(s, d, a, a + 1) && forall free :: !Remapped(s, d, a, a, free)
  {
    hide Pte, TablesFor;
  }

  lemma GainedFrom(s: State, s2: State, s': State, d: nat, x: nat)
    requires Sized(s) && Sized(s2) && Sized(s') && d < NP && Gained(s2, s', d, x, x + 1)
    requires forall y :: 0 <= y < ENTRIES ==> (HasTable(s2, d, y) <==> HasTable(s, d, y))
    ensures Gained(s, s', d, x, x + 1)
  {
    hide HasTable;
  }

  /** A mapped page has its page table already. */
  lemma TableThere(s0: State, s1: State, dirs: set<nat>, d: nat, v: nat, t: nat)
    requires Inv(s1, dirs) && d in dirs && Sized(s0) && d < NP && v < VPAGES && SameEntries(s0, s1, dirs)
    requires HasTable(s1, d, v / ENTRIES) && t == TableOf(s1, d, v / ENTRIES) && Present(s1.pages[t].w[v % ENTRIES])
    ensures Present(Pte(s0, d, v)) && HasTable(s0, d, v / ENTRIES)
  {
    assert Pte(s0, d, v) == Pte(s1, d, v);
  }

  /** The entries from v on, n of them, map d to the pages from p on; all others are as they were. */
  ghost predicate Sets(s: State, s': State, dirs: set<nat>, d: nat, v: nat, n: nat, p: nat, perm: nat)
    requires Sized(s) && Sized(s')
  {
    forall e, u :: e in dirs && e < NP && 0 <= u < VPAGES ==>
      Pte(s', e, u) == if e == d && v <= u < v + n then Entry(p + u - v, perm) else Pte(s, e, u)
  }

  lemma MappedExtended(s: State, dirs: set<nat>, d: nat, v: nat, f: nat, perm: nat)
    requires Inv(s, dirs) && d in dirs && d < NP && v < UPAGES && HasTable(s, d, v / ENTRIES) && f < NP
    requires s.own[f].Loose?
    ensures Sized(Mapped(s, d, v, f, perm)) && Extended(s, Mapped(s, d, v, f, perm), d, -1)
  {
    EntryInRange(s, dirs, d, v / ENTRIES);
    var s' := Mapped(s, d, v, f, perm);
    forall p | 0 <= p < NP ensures PageKept(s, s', d, -1, p) {
    }
  }

  lemma KernelExtended(s: State, dirs: set<nat>, d: nat, v: nat, w: nat)
    requires Inv(s, dirs) && d in dirs && d < NP && v < VPAGES && HasTable(s, d, v / ENTRIES)
    ensures Sized(PteSet(s, d, v, w)) && Extended(s, PteSet(s, d, v, w), d, -1)
  {
    EntryInRange(s, dirs, d, v / ENTRIES);
    var s' := PteSet(s, d, v, w);
    forall p | 0 <= p < NP ensures PageKept(s, s', d, -1, p) {
    }
  }

  lemma DirFacts(s: State, dirs: set<nat>, d: nat)
    requires Inv(s, dirs) && d in dirs
    ensures Sized(s) && d < NP && s.own[d] == Dir
  {
    assert DirOk(s, d);
  }

  lemma EntryInRange(s: State, dirs: set<nat>, d: nat, x: nat)
    requires Inv(s, dirs) && d in dirs && d < NP && x < ENTRIES && Present(Word(s, d, x))
    ensures HasTable(s, d, x) && s.own[PageOf(Word(s, d, x))] == Table(d, x)
  {
    assert DirOk(s, d);
  }

  /** A page just taken and zeroed is hung in as a page table. */
  lemma NewTable(s0: State, s2: State, dirs: set<nat>, d: nat, x: nat, t: nat)
    requires Inv(s0, dirs) && d in dirs && x < ENTRIES && s0.free != [] && t == s0.free[0] < NP
    requires s2 == Filled(Taken(s0), t, Zero())
    requires d < NP && !HasTable(s0, d, x)
    ensures !Present(Word(s2, d, x)) && s2.pages[t] == Zero() && s2.own[t].Loose? && Sized(s2)
    ensures Sized(Hung(s2, d, x, t)) && Extended(s0, Hung(s2, d, x, t), d, -1) && LooseKept(s0, Hung(s2, d, x, t))
  {
    DirFacts(s0, dirs, d);
    assert t in s0.free;
    if Present(Word(s0, d, x)) {
      EntryInRange(s0, dirs, d, x);
    }
    var s' := Hung(s2, d, x, t);
    forall p | 0 <= p < NP ensures PageKept(s0, s', d, -1, p) {
    }
  }

  lemma ExtendedSelf(s: State, d: nat)
    requires Sized(s)
    ensures Extended(s, s, d, -1)
  {
  }

  lemma TakenExtended(s: State)
    requires Sized(s) && s.free != [] && s.free[0] < NP && s.own[s.free[0]].Free?
    ensures Sized(Taken(s)) && forall d :: Extended(s, Taken(s), d, s.free[0])
  {
    var s' := Taken(s);
    forall d ensures Extended(s, s', d, s.free[0]) {
      forall p | 0 <= p < NP ensures PageKept(s, s', d, s.free[0], p) {
      }
    }
  }

  /** The first word of the first free page leads to the second. */
  lemma NextLink(s: State)
    requires Sized(s) && FreeOk(s) && s.free != []
    ensures s.free[0] < NP && s.pages[s.free[0]].w[0] == Link(s.free[1..], 0)
    ensures (Link(s.free, 0) - KERNBASE) / PGSIZE == s.free[0]
  {
    assert Word(s, s.free[0], 0) == Link(s.free, 1);
  }

  lemma SetsOneMore(s0: State, s1: State, s2: State, dirs: set<nat>, d: nat, v: nat, n: nat, p: nat, perm: nat)
    requires Sized(s0) && Sized(s1) && Sized(s2)
    requires Sets(s0, s1, dirs, d, v, n, p, perm) && Sets(s1, s2, dirs, d, v + n, 1, p + n, perm)
    ensures Sets(s0, s2, dirs, d, v, n + 1, p, perm)
  {
    hide Pte, Entry;
  }

  lemma UnmapFacts(s: State, dirs: set<nat>, d: nat, a: nat, t: nat)
    requires Inv(s, dirs) && d in dirs && d < NP && a < UPAGES && HasTable(s, d, a / ENTRIES)
    requires t == TableOf(s, d, a / ENTRIES)
    requires Present(s.pages[t].w[a % ENTRIES])
    ensures var f := PageOf(s.pages[t].w[a % ENTRIES]);
      && f < NP && f != t && f != d && HasTable(Freed(s, f), d, a / ENTRIES)
        && TableOf(Freed(s, f), d, a / ENTRIES) == t
      && Unmapped(s, d, a) == PteSet(Freed(s, f), d, a, 0)
  {
    assert DirOk(s, d);
    EntryInRange(s, dirs, d, a / ENTRIES);
    UnmappedSelf(s, d, a);
  }

  /** deallocuvm of all user memory. */
  lemma FramesGone(s0: State, s1: State, dirs: set<nat>, d: nat)
    requires Inv(s0, dirs) && d in dirs && d < NP && s1 == UnmapRange(s0, d, 0, UPAGES)
    ensures Inv(s1, dirs) && NoFrames(s0, s1, dirs, d)
  {
    assert DirOk(s0, d);
    hide UnmapRange, Pte;
    RangeKeeps(s0, dirs, d, 0, UPAGES);
    forall p | 0 <= p < NP
      ensures s1.own[p] == if s0.own[p].Frame? && s0.own[p].d == d then Free else s0.own[p]
      ensures !Of(s0.own[p], d) ==> s1.pages[p] == s0.pages[p]
    {
      RangeOwners(s0, dirs, d, 0, UPAGES, p);
    }
    hide Inv;
  }

  // ----- the kernel part of an address space

  const EXTMEM := 256                // in pages
  const DEVSPACE := 1040384
  const PTE_W := 2

  /** Row k of kmap: first and last virtual page, first physical page, permissions. */
  function Kmap(data: nat, k: nat): (nat, nat, nat, nat)
    requires EXTMEM < data < NP && k < 4
  {
    if k == 0 then (UPAGES, UPAGES + EXTMEM - 1, 0, PTE_W)
    else if k == 1 then (UPAGES + EXTMEM, UPAGES + data - 1, EXTMEM, 0)
    else if k == 2 then (UPAGES + data, UPAGES + NP - 1, data, PTE_W)
    else (DEVSPACE, VPAGES - 1, DEVSPACE, PTE_W)
  }

  /** What the layout comment of vm.c promises for virtual page u. */
  function KernelEntry(data: nat, u: nat): nat {
    if u < UPAGES then 0
    else if u < UPAGES + EXTMEM then Entry(u - UPAGES, PTE_W)          // I/O space
    else if u < UPAGES + data then Entry(u - UPAGES, 0)                // kernel text, read-only
    else if u < UPAGES + NP then Entry(u - UPAGES, PTE_W)              // kernel data and memory
    else if u < DEVSPACE then 0
    else Entry(u, PTE_W)                                               // devices, mapped direct
  }

  predicate InRow(data: nat, k: nat, u: nat)
    requires EXTMEM < data < NP && k < 4
  {
    Kmap(data, k).0 <= u <= Kmap(data, k).1
  }

  ghost predicate KernelUpTo(s: State, d: nat, data: nat, k: nat)
    requires Sized(s) && d < NP && EXTMEM < data < NP && k <= 4
  {
    forall u :: 0 <= u < VPAGES ==>
      Pte(s, d, u) == if exists j: nat :: j < k && InRow(data, j, u) then KernelEntry(data, u) else 0
  }

  lemma KmapUnmapped(s: State, d: nat, data: nat, k: nat)
    requires Sized(s) && d < NP && EXTMEM < data < NP && k < 4 && KernelUpTo(s, d, data, k)
    ensures var (v, last, p, perm) := Kmap(data, k);
      && UPAGES <= v <= last < VPAGES && perm < PGSIZE && Vacant(s, d, v, last + 1)
      && forall free :: !Remapped(s, d, v, last, free)
  {
    hide Pte, KernelEntry, TablesFor;
    var (v, last, p, perm) := Kmap(data, k);
    assert Vacant(s, d, v, last + 1);
  }

  // ----- the page tables of the kernel part

  /** The directory and the page tables of the kernel part: 56 for memory, 8 for devices. */
  const KERNELPAGES := 65

  /** One past the last directory entry of the first k rows, leaving the devices out. */
  function RowEnd(data: nat, k: nat): nat {
    if k == 0 then 512 else if k == 1 then 513 else if k == 2 then 512 + (data + ENTRIES - 1) / ENTRIES else 568
  }

  function TablesUpTo(data: nat, k: nat): int {
    RowEnd(data, k) - 512 + if k < 4 then 0 else 8
  }

  ghost predicate KernelTables(s: State, d: nat, data: nat, k: nat)
    requires Sized(s) && d < NP
  {
    forall x :: 0 <= x < ENTRIES ==> (HasTable(s, d, x) <==> 512 <= x < RowEnd(data, k) || (4 <= k && 1016 <= x))
  }

  /** The directory entries that row k covers. */
  lemma KmapRange(data: nat, k: nat)
    requires EXTMEM < data < NP && k < 4
    ensures var (v, last, p, perm) := Kmap(data, k);
      && (k < 3 ==> 512 <= v / ENTRIES <= RowEnd(data, k) <= RowEnd(data, k + 1) == Through(v, last + 1) <= 568)
      && (k == 3 ==> v / ENTRIES == 1016 && Through(v, last + 1) == ENTRIES)
  {
  }

  /** The page tables that row k is the first to need. */
  lemma KmapTables(s: State, d: nat, data: nat, k: nat)
    requires Sized(s) && d < NP && EXTMEM < data < NP && k < 4 && KernelTables(s, d, data, k)
    ensures var (v, last, p, perm) := Kmap(data, k);
      TablesFor(s, d, v, last + 1) == TablesUpTo(data, k + 1) - TablesUpTo(data, k)
    ensures TablesUpTo(data, k + 1) < KERNELPAGES
  {
    var (v, last, p, perm) := Kmap(data, k);
    KmapRange(data, k);
    hide HasTable, RowEnd, Through;
    if k < 3 {
      MissingFrom(s, d, v / ENTRIES, RowEnd(data, k), RowEnd(data, k + 1));
    } else {
      MissingAll(s, d, 1016, ENTRIES);
    }
    RowEnds(data);
  }

  lemma RowEnds(data: nat)
    ensures RowEnd(data, 0) == 512 && RowEnd(data, 3) == RowEnd(data, 4) == 568
  {
  }

  lemma KmapGained(s: State, s': State, d: nat, data: nat, k: nat)
    requires Sized(s) && Sized(s') && d < NP && EXTMEM < data < NP && k < 4 && KernelTables(s, d, data, k)
    requires var (v, last, p, perm) := Kmap(data, k); Gained(s, s', d, v / ENTRIES, Through(v, last + 1))
    ensures KernelTables(s', d, data, k + 1)
  {
    var (v, last, p, perm) := Kmap(data, k);
    KmapRange(data, k);
    RowEnds(data);
    hide HasTable, RowEnd, Through;
    forall x | 0 <= x < ENTRIES
      ensures HasTable(s', d, x) <==> 512 <= x < RowEnd(data, k + 1) || (4 <= k + 1 && 1016 <= x)
    {
    }
  }

  lemma KmapMapped(s0: State, s: State, s': State, dirs: set<nat>, d: nat, data: nat, k: nat)
    requires Sized(s0) && Sized(s) && Sized(s') && d < NP && d !in dirs && EXTMEM < data < NP && k < 4
    requires KernelUpTo(s, d, data, k)
    requires var (v, last, p, perm) := Kmap(data, k); Sets(s, s', dirs + {d}, d, v, last + 1 - v, p, perm)
    requires SameEntries(s0, s, dirs)
    ensures KernelUpTo(s', d, data, k + 1) && SameEntries(s0, s', dirs)
  {
    hide Pte, Entry;
    var (v, last, p, perm) := Kmap(data, k);
    forall u | 0 <= u < VPAGES
      ensures Pte(s', d, u) == if exists j: nat :: j < k + 1 && InRow(data, j, u) then KernelEntry(data, u) else 0
    {
      assert InRow(data, k, u) <==> v <= u <= last;
      assert Pte(s', d, u) == if v <= u < v + (last + 1 - v) then Entry(p + u - v, perm) else Pte(s, d, u);
      if v <= u <= last {
        assert KernelEntry(data, u) == Entry(p + u - v, perm);
      }
    }
  }

  lemma KernelDone(s: State, d: nat, data: nat)
    requires Sized(s) && d < NP && EXTMEM < data < NP && KernelUpTo(s, d, data, 4)
    ensures forall u :: 0 <= u < VPAGES ==> Pte(s, d, u) == KernelEntry(data, u)
  {
    hide Pte, Entry;
    forall u | 0 <= u < VPAGES ensures Pte(s, d, u) == KernelEntry(data, u) {
      assert InRow(data, 0, u) || InRow(data, 1, u) || InRow(data, 2, u) || InRow(data, 3, u)
        || KernelEntry(data, u) == 0;
    }
  }

  /** The owners are all as they were, and so are the contents of pages in use. */
  ghost predicate Restored(s0: State, s: State)
    requires Sized(s0) && Sized(s)
  {
    s.own == s0.own && forall p :: 0 <= p < NP && !s0.own[p].Free? ==> s.pages[p] == s0.pages[p]
  }

  lemma NothingChanged(s: State, dirs: set<nat>)
    requires Sized(s)
    ensures Restored(s, s) && SameEntries(s, s, dirs)
  {
    hide Pte;
  }

  lemma NewDirectory(s0: State, s1: State, s2: State, dirs: set<nat>, d: nat)
    requires Inv(s0, dirs) && s0.free != [] && d == s0.free[0] < NP && s1 == Taken(s0) && s2 == Filled(s1, d, Zero())
    requires Inv(s2, dirs) && SameEntries(s0, s1, dirs) && SameEntries(s1, s2, dirs)
    ensures var s := Given(s2, d, Dir);
      && Inv(s, dirs + {d}) && d !in dirs && s0.own[d].Free? && SameEntries(s0, s, dirs) && Extended(s0, s, d, -1)
      && forall data :: EXTMEM < data < NP ==> KernelUpTo(s, d, data, 0) && KernelTables(s, d, data, 0)
  {
    assert d in s0.free;
    NewDir(s2, dirs, d);
    var s := Given(s2, d, Dir);
    forall p | 0 <= p < NP ensures PageKept(s0, s, d, -1, p) {
    }
    hide FreeOk, Pte;
  }

  /** A mapping of kernel pages that stopped half way. */
  lemma OnlyKernel(s0: State, s: State, s': State, dirs: set<nat>, d: nat)
    requires Sized(s0) && Sized(s) && Sized(s') && SameEntries(s0, s, dirs) && d !in dirs
    requires forall e, u :: e in dirs + {d} && e < NP && 0 <= u < VPAGES && (e != d || u < UPAGES) ==>
      Pte(s', e, u) == Pte(s, e, u)
    ensures SameEntries(s0, s', dirs)
  {
    hide Pte;
  }

  /** A new address space that is freed again leaves no trace. */
  lemma GaveBack(s0: State, s: State, s': State, dirs: set<nat>, d: nat)
    requires Sized(s0) && Sized(s) && Sized(s') && d < NP && s0.own[d].Free? && Extended(s0, s, d, -1)
    requires Released(s, s', d)
    requires NoneLoose(s0) && NoneOf(s0, d)
    requires SameEntries(s0, s, dirs) && SameEntries(s, s', dirs)
    ensures Restored(s0, s') && SameEntries(s0, s', dirs) && NoneLoose(s')
  {
    hide Pte;
    forall p | 0 <= p < NP ensures s'.own[p] == s0.own[p] && (!s0.own[p].Free? ==> s'.pages[p] == s0.pages[p]) {
      assert PageKept(s0, s, d, -1, p);
    }
    assert s'.own == s0.own;
  }

  ghost predicate NoneLoose(s: State)
    requires Sized(s)
  {
    forall p :: 0 <= p < NP ==> !s.own[p].Loose?
  }

  ghost predicate NoneOf(s: State, d: nat)
    requires Sized(s)
  {
    forall p :: 0 <= p < NP ==> !Of(s.own[p], d)
  }

  lemma NotYet(s: State, dirs: set<nat>, d: nat)
    requires Inv(s, dirs) && d !in dirs
    ensures NoneOf(s, d)
  {
  }

  lemma StillNoneLoose(s0: State, s: State, d: nat)
    requires Sized(s0) && Sized(s) && NoneLoose(s0) && Extended(s0, s, d, -1)
    ensures NoneLoose(s)
  {
    forall p | 0 <= p < NP ensures !s.own[p].Loose? {
      assert PageKept(s0, s, d, -1, p);
    }
  }

  // ----- growing and copying

  /** PGROUNDUP, in pages. */
  function Up(sz: nat): nat {
    (sz + PGSIZE - 1) / PGSIZE
  }

  /** The user pages from lo up to a are mapped to fresh zeroed frames; all other entries are as they were. */
  ghost predicate Grown(s0: State, s: State, dirs: set<nat>, d: nat, lo: nat, a: nat)
    requires Sized(s0) && Sized(s)
  {
    && (forall e, u :: e in dirs && e < NP && 0 <= u < VPAGES && !(e == d && lo <= u < a) ==>
      Pte(s, e, u) == Pte(s0, e, u))
    && (d in dirs && d < NP ==> forall u :: lo <= u < a && u < VPAGES ==> Fresh(s0, s, d, u))
  }

  ghost predicate Fresh(s0: State, s: State, d: nat, u: nat)
    requires Sized(s0) && Sized(s) && d < NP && u < VPAGES
  {
    var f := PageOf(Pte(s, d, u));
    f < NP && Pte(s, d, u) == Entry(f, 6) && s0.own[f].Free? && s.own[f] == Frame(d, u) && s.pages[f] == Zero()
  }

  /** Every page that is mapped was and is mapped by the same entry. */
  ghost predicate SameMapping(s0: State, s: State, dirs: set<nat>)
    requires Sized(s0) && Sized(s)
  {
    forall e, u :: e in dirs && e < NP && 0 <= u < VPAGES ==>
      Pte(s, e, u) == Pte(s0, e, u) || (!Present(Pte(s, e, u)) && !Present(Pte(s0, e, u)))
  }

  /** The only pages that changed hands are free pages that became page tables of d. */
  ghost predicate TablesOnly(s0: State, s: State, d: nat)
    requires Sized(s0) && Sized(s)
  {
    forall p :: 0 <= p < NP ==> s.own[p] == s0.own[p] || (s0.own[p].Free? && s.own[p].Table? && s.own[p].d == d)
  }

  lemma GrownStarts(s: State, dirs: set<nat>, d: nat, a: nat)
    requires Sized(s)
    ensures Grown(s, s, dirs, d, a, a) && Extended(s, s, d, -1)
  {
    hide Pte;
  }

  /** Only f is loose. */
  ghost predicate OneLoose(s: State, f: int)
    requires Sized(s)
  {
    forall p :: 0 <= p < NP && s.own[p].Loose? ==> p == f
  }

  lemma GrownNext(s0: State, s: State, dirs: set<nat>, d: nat, lo: nat, a: nat)
    requires Sized(s0) && Sized(s) && d in dirs && d < NP && a < VPAGES && Grown(s0, s, dirs, d, lo, a)
    ensures Pte(s, d, a) == Pte(s0, d, a)
  {
  }

  /** A page was taken and zeroed. */
  lemma TookOne(s0: State, s: State, s1: State, s2: State, dirs: set<nat>, d: nat, f: nat, lo: nat, a: nat)
    requires Sized(s0) && Inv(s, dirs) && NoneLoose(s) && d < NP && s.free != [] && f == s.free[0] < NP
    requires s1 == Taken(s) && s2 == Filled(s1, f, Zero()) && Sized(s2) && SameEntries(s, s1, dirs)
    requires SameEntries(s1, s2, dirs)
    requires Grown(s0, s, dirs, d, lo, a) && Extended(s0, s, d, -1) && d in dirs && a < VPAGES
    ensures Grown(s0, s2, dirs, d, lo, a) && Extended(s0, s2, d, f) && OneLoose(s2, f) && s0.own[f].Free?
    ensures Pte(s2, d, a) == Pte(s, d, a)
  {
    assert f in s.free;
    hide Pte;
    assert PageKept(s0, s, d, -1, f);
    forall p | 0 <= p < NP ensures PageKept(s0, s2, d, f, p) {
      assert PageKept(s0, s, d, -1, p);
    }
    forall u | lo <= u < a && u < VPAGES ensures Fresh(s0, s2, d, u) {
      assert Fresh(s0, s, d, u);
    }
  }

  lemma GrownMore(s0: State, s2: State, s: State, dirs: set<nat>, d: nat, f: nat, lo: nat, a: nat)
    requires Sized(s0) && Sized(s2) && Sized(s) && d in dirs && d < NP && f < NP && lo <= a < VPAGES && s0.own[f].Free?
    requires Grown(s0, s2, dirs, d, lo, a) && Extended(s0, s2, d, f) && OneLoose(s2, f) && s2.pages[f] == Zero()
    requires Sets(s2, s, dirs, d, a, 1, f, 6) && Extended(s2, s, d, -1) && s.own[f] == Frame(d, a)
    requires s.pages[f] == s2.pages[f]
    ensures Grown(s0, s, dirs, d, lo, a + 1) && Extended(s0, s, d, -1) && NoneLoose(s)
  {
    ExtendedTrans(s0, s2, s, d, f, -1, -1);
    EntryIs(f, 6);
    hide Pte, Entry, PageOf;
    forall u | lo <= u < a + 1 && u < VPAGES ensures Fresh(s0, s, d, u) {
      if u < a {
        assert Fresh(s0, s2, d, u);
        assert PageKept(s2, s, d, -1, PageOf(Pte(s2, d, u)));
      }
    }
    forall p | 0 <= p < NP ensures !s.own[p].Loose? {
      assert PageKept(s2, s, d, -1, p);
    }
  }

  /** The pages from lo up to hi of d are not mapped; every other entry is as before. */
  ghost predicate Cleared(s0: State, s: State, dirs: set<nat>, d: nat, lo: nat, hi: nat)
    requires Sized(s0) && Sized(s)
  {
    forall e, u :: e in dirs && e < NP && 0 <= u < VPAGES ==>
      if e == d && lo <= u < hi then !Present(Pte(s, e, u)) else Pte(s, e, u) == Pte(s0, e, u)
  }

  /** The only pages that changed hands are free pages that became page tables of d, or page f if it is
      still held, and frames of d's pages from lo up to hi, which are free. */
  ghost predicate Yielded(s0: State, s: State, d: nat, lo: nat, hi: nat, f: int)
    requires Sized(s0) && Sized(s)
  {
    forall p :: 0 <= p < NP ==> PageYielded(s0.own[p], s.own[p], d, lo, hi, p == f)
  }

  predicate PageYielded(o: Owner, o': Owner, d: nat, lo: nat, hi: nat, held: bool) {
    || o' == o
    || (o.Free? && ((o'.Table? && o'.d == d) || (o'.Loose? && held)))
    || (o.Frame? && o.d == d && lo <= o.v < hi && o'.Free?)
  }

  ghost predicate GaveUp(s0: State, s: State, d: nat, lo: nat, hi: nat)
    requires Sized(s0) && Sized(s)
  {
    Yielded(s0, s, d, lo, hi, -1)
  }

  /** deallocuvm takes back what allocuvm had mapped. */
  lemma UndoneEntries(s0: State, s1: State, s2: State, dirs: set<nat>, d: nat, lo: nat, a: nat, hi: nat)
    requires Sized(s0) && Inv(s1, dirs) && d in dirs && d < NP && lo <= a <= hi <= UPAGES
    requires Grown(s0, s1, dirs, d, lo, a)
    requires s2 == UnmapRange(s1, d, lo, hi)
    ensures Sized(s2) && Cleared(s0, s2, dirs, d, lo, hi)
  {
    hide Pte, DirOk, FreeOk, UnmapRange, Fresh, Present;
    assert Sized(s2);
    forall e, u | e in dirs && e < NP && 0 <= u < VPAGES
      ensures if e == d && lo <= u < hi then !Present(Pte(s2, e, u)) else Pte(s2, e, u) == Pte(s0, e, u)
    {
      RangePte(s1, dirs, d, lo, hi, e, u);
      ZeroNotPresent();
    }
  }

  lemma ZeroNotPresent()
    ensures !Present(0)
  {
  }

  lemma UndoneOwner(s0: State, s1: State, s2: State, dirs: set<nat>, d: nat, lo: nat, a: nat, hi: nat, f: int, p: nat)
    requires Inv(s0, dirs) && Inv(s1, dirs) && d in dirs && d < NP && lo <= a <= hi <= UPAGES && NoneLoose(s0) && p < NP
    requires Grown(s0, s1, dirs, d, lo, a) && Extended(s0, s1, d, f) && s2 == UnmapRange(s1, d, lo, hi)
    ensures PageYielded(s0.own[p], s2.own[p], d, lo, hi, p == f)
    ensures s1.own[p].Loose? ==> s2.own[p].Loose?
  {
    assert DirOk(s0, d) && DirOk(s1, d) && PageKept(s0, s1, d, f, p);
    RangeOwners(s1, dirs, d, lo, hi, p);
    hide UnmapRange, FreeOk, TablesOk, PageOf, Present;
    if s1.own[p].Frame? && s1.own[p].d == d {
      var v := s1.own[p].v;
      if s0.own[p].Free? {
        assert Pte(s1, d, v) != Pte(s0, d, v);
      }
    }
  }

  lemma UndoneOwners(s0: State, s1: State, s2: State, dirs: set<nat>, d: nat, lo: nat, a: nat, hi: nat, f: int)
    requires Inv(s0, dirs) && Inv(s1, dirs) && d in dirs && d < NP && lo <= a <= hi <= UPAGES && NoneLoose(s0)
    requires Sized(s2)
    requires Grown(s0, s1, dirs, d, lo, a) && Extended(s0, s1, d, f) && s2 == UnmapRange(s1, d, lo, hi)
    ensures Yielded(s0, s2, d, lo, hi, f) && (0 <= f < NP && s1.own[f].Loose? ==> s2.own[f].Loose?)
  {
    hide FreeOk, DirOk, Grown, Extended, Pte, UnmapRange, NoneLoose, PageYielded;
    forall p | 0 <= p < NP
      ensures PageYielded(s0.own[p], s2.own[p], d, lo, hi, p == f)
      ensures s1.own[p].Loose? ==> s2.own[p].Loose?
    {
      UndoneOwner(s0, s1, s2, dirs, d, lo, a, hi, f, p);
    }
  }

  lemma AllBack(s0: State, s2: State, s: State, dirs: set<nat>, d: nat, lo: nat, hi: nat, f: int)
    requires Sized(s0) && Sized(s2) && Sized(s) && Cleared(s0, s2, dirs, d, lo, hi) && NoneLoose(s0)
    requires Yielded(s0, s2, d, lo, hi, f)
    requires f == -1 ==> s == s2
    requires f != -1 ==> 0 <= f < NP && s == Freed(s2, f) && s0.own[f].Free? && SameEntries(s2, s, dirs)
    ensures Cleared(s0, s, dirs, d, lo, hi) && GaveUp(s0, s, d, lo, hi) && NoneLoose(s)
  {
    hide Pte;
  }

  /** Where nothing was mapped, nothing is lost. */
  lemma NothingLost(s0: State, s: State, dirs: set<nat>, d: nat, lo: nat, hi: nat)
    requires Inv(s0, dirs) && Sized(s) && d in dirs && d < NP && hi <= UPAGES && Vacant(s0, d, lo, hi)
    requires Cleared(s0, s, dirs, d, lo, hi) && GaveUp(s0, s, d, lo, hi) && NoneLoose(s)
    ensures SameMapping(s0, s, dirs) && TablesOnly(s0, s, d)
  {
    assert DirOk(s0, d);
    hide Pte, FreeOk, TablesOk, PageOf;
  }

  // ----- when allocuvm succeeds, fails and panics

  /** The pages that mapping the pages from lo up to a takes: their frames and the missing page tables. */
  function AllocNeeds(s: State, d: nat, lo: nat, a: nat): int
    requires Sized(s) && d < NP && lo < VPAGES && a <= VPAGES
  {
    a - lo + TablesFor(s, d, lo, a)
  }

  /** Page u is mapped, and there is still a page to take when allocuvm comes to it. */
  ghost predicate AllocStops(s: State, d: nat, lo: nat, u: nat, free: nat)
    requires Sized(s) && d < NP && lo <= u < VPAGES
  {
    Vacant(s, d, lo, u) && Present(Pte(s, d, u)) && AllocNeeds(s, d, lo, u) < free
  }

  ghost predicate AllocPanics(s: State, d: nat, lo: nat, hi: nat, free: nat)
    requires Sized(s) && d < NP && hi <= VPAGES
  {
    exists u :: lo <= u < hi && AllocStops(s, d, lo, u, free)
  }

  lemma NoneNeeded(s: State, d: nat, lo: nat)
    requires Sized(s) && d < NP && lo < VPAGES
    ensures AllocNeeds(s, d, lo, lo) == 0 && Vacant(s, d, lo, lo)
  {
    GainedStarts(s, d, lo);
    hide TablesFor;
  }

  lemma OneMoreNeeded(s0: State, s: State, d: nat, lo: nat, a: nat)
    requires Sized(s0) && Sized(s) && d < NP && lo <= a < VPAGES && Gained(s0, s, d, lo / ENTRIES, Through(lo, a))
    ensures AllocNeeds(s0, d, lo, a + 1) == AllocNeeds(s0, d, lo, a) + if HasTable(s, d, a / ENTRIES) then 1 else 2
  {
    hide TablesFor, Gained, HasTable;
    OneMoreTable(s0, s, d, lo, a);
  }

  lemma NeedsMono(s: State, d: nat, lo: nat, a: nat, b: nat)
    requires Sized(s) && d < NP && lo < VPAGES && lo <= a <= b <= VPAGES
    ensures AllocNeeds(s, d, lo, a) <= AllocNeeds(s, d, lo, b)
  {
    hide TablesFor;
    TablesMono(s, d, lo, a, b);
  }

  /** How the round at page a decides the outcome. */
  lemma RoundEnds(s0: State, s: State, d: nat, lo: nat, a: nat, hi: nat, free: nat, r: Outcome)
    requires Sized(s0) && Sized(s) && d < NP && lo <= a < hi <= VPAGES && Vacant(s0, d, lo, a)
    requires Pte(s, d, a) == Pte(s0, d, a)
    requires r == Remap <==> Present(Pte(s, d, a)) && AllocNeeds(s0, d, lo, a) < free
    requires r == Done <==> !Present(Pte(s, d, a)) && AllocNeeds(s0, d, lo, a + 1) <= free
    ensures r == Done ==> Vacant(s0, d, lo, a + 1)
    ensures r == Remap ==> AllocPanics(s0, d, lo, hi, free)
    ensures r == Failed ==> !AllocPanics(s0, d, lo, hi, free)
    ensures r == Failed ==> !(Vacant(s0, d, lo, hi) && AllocNeeds(s0, d, lo, hi) <= free)
  {
    hide Pte, AllocNeeds, Present;
    NeedsMono(s0, d, lo, a + 1, hi);
    if r == Remap {
      assert AllocStops(s0, d, lo, a, free);
    } else if r == Failed {
      forall u | lo <= u < hi ensures !AllocStops(s0, d, lo, u, free) {
        if a < u {
          NeedsMono(s0, d, lo, a + 1, u);
        }
      }
    }
  }

  lemma NeverRemaps(s: State, d: nat, lo: nat, hi: nat, free: nat)
    requires Sized(s) && d < NP && hi <= VPAGES && Vacant(s, d, lo, hi)
    ensures !AllocPanics(s, d, lo, hi, free)
  {
    hide Pte, AllocNeeds;
  }

  /** One page is remapped exactly when it is mapped: it has its page table then. */
  lemma RemapsOne(s: State, d: nat, a: nat, free: nat)
    requires Sized(s) && d < NP && a < VPAGES
    ensures Vacant(s, d, a, a + 1) <==> !Present(Pte(s, d, a))
    ensures Remapped(s, d, a, a, free) <==> Present(Pte(s, d, a))
    ensures Present(Pte(s, d, a)) ==> HasTable(s, d, a / ENTRIES)
  {
    GainedStarts(s, d, a);
    if Present(Pte(s, d, a)) {
      assert RemapsAt(s, d, a, a, free);
    }
  }

  // ----- copyuvm

  /** The first n user pages of d are copies of those of src, with the same flags, in frames that were
      free; d has no other user pages, and the kernel part is set up. */
  ghost predicate Copied(s0: State, s: State, src: nat, d: nat, data: nat, n: nat)
    requires Sized(s0) && Sized(s) && src < NP && d < NP
  {
    && (forall u :: 0 <= u < n && u < VPAGES ==> CopyOf(s0, s, src, d, u))
    && (forall u :: n <= u < VPAGES ==> Pte(s, d, u) == KernelEntry(data, u))
  }

  ghost predicate CopyOf(s0: State, s: State, src: nat, d: nat, u: nat)
    requires Sized(s0) && Sized(s) && src < NP && d < NP && u < VPAGES
  {
    var w, w' := Pte(s0, src, u), Pte(s, d, u);
    && Present(w) && Present(w') && FlagsOf(w') == FlagsOf(w) && PageOf(w) < NP && PageOf(w') < NP
    && s.own[PageOf(w')] == Frame(d, u) && s0.own[PageOf(w')].Free? && s.pages[PageOf(w')] == s0.pages[PageOf(w)]
  }

  lemma CopyStarts(s0: State, s: State, dirs: set<nat>, src: nat, d: nat, data: nat)
    requires Inv(s0, dirs) && Sized(s) && src < NP && d < NP && d !in dirs
    requires forall u :: 0 <= u < VPAGES ==> Pte(s, d, u) == KernelEntry(data, u)
    ensures Copied(s0, s, src, d, data, 0) && NoneOf(s0, d)
  {
    hide Pte, KernelEntry;
    NotYet(s0, dirs, d);
  }

  lemma SourceSame(s0: State, s: State, dirs: set<nat>, src: nat, i: nat)
    requires Sized(s0) && Sized(s) && SameEntries(s0, s, dirs) && src in dirs && src < NP && i < VPAGES
    ensures Pte(s, src, i) == Pte(s0, src, i)
  {
  }

  lemma LookupNone(s: State, src: nat, i: nat, t: int)
    requires Sized(s) && src < NP && i < VPAGES && (t == -1 <==> !HasTable(s, src, i / ENTRIES))
    ensures t == -1 ==> !Present(Pte(s, src, i))
  {
  }

  // ----- when copyuvm succeeds, fails and panics

  /** The pages that copying n user pages takes: the kernel part, the frames, and their page tables. */
  function CopyNeeds(n: nat): nat {
    KERNELPAGES + n + (n + ENTRIES - 1) / ENTRIES
  }

  ghost predicate AllThere(s: State, src: nat, n: nat)
    requires Sized(s) && src < NP && n <= VPAGES
  {
    forall v :: 0 <= v < n ==> Present(Pte(s, src, v))
  }

  ghost predicate CopyPanics(s: State, src: nat, n: nat, free: nat)
    requires Sized(s) && src < NP && n <= VPAGES
  {
    exists v :: 0 <= v < n && StopsAt(s, src, v, free)
  }

  ghost predicate StopsAt(s: State, src: nat, v: nat, free: nat)
    requires Sized(s) && src < NP && v < VPAGES
  {
    AllThere(s, src, v) && !Present(Pte(s, src, v)) && CopyNeeds(v) <= free
  }

  lemma NoPagesYet(s: State, src: nat)
    requires Sized(s) && src < NP
    ensures AllThere(s, src, 0)
  {
  }

  lemma OneMoreThere(s: State, src: nat, i: nat)
    requires Sized(s) && src < NP && i < VPAGES && AllThere(s, src, i) && Present(Pte(s, src, i))
    ensures AllThere(s, src, i + 1)
  {
    hide Pte;
  }

  lemma CopyNeedsStart()
    ensures CopyNeeds(0) == KERNELPAGES
  {
  }

  lemma CopyNeedsMono(m: nat, n: nat)
    requires m <= n
    ensures CopyNeeds(m) <= CopyNeeds(n)
  {
  }

  /** Memory runs out before page m. */
  lemma OutOfPages(s: State, src: nat, m: nat, n: nat, free: nat)
    requires Sized(s) && src < NP && m <= n <= VPAGES && free < CopyNeeds(m) && AllThere(s, src, m)
    ensures !CopyPanics(s, src, n, free) && free < CopyNeeds(n)
  {
    hide CopyNeeds, Pte;
    CopyNeedsMono(m, n);
    forall v | 0 <= v < n ensures !StopsAt(s, src, v, free) {
      if m <= v {
        CopyNeedsMono(m, v);
      }
    }
  }

  lemma MissesPage(s: State, src: nat, m: nat, n: nat, free: nat)
    requires Sized(s) && src < NP && m < n <= VPAGES && CopyNeeds(m) <= free && AllThere(s, src, m)
    requires !Present(Pte(s, src, m))
    ensures CopyPanics(s, src, n, free)
  {
    assert StopsAt(s, src, m, free);
  }

  lemma NeverPanics(s: State, src: nat, n: nat, free: nat)
    requires Sized(s) && src < NP && n <= VPAGES && AllThere(s, src, n)
    ensures !CopyPanics(s, src, n, free)
  {
    hide CopyNeeds, Pte;
  }

  /** What the next page takes. */
  lemma OneMoreCopy(s1: State, s: State, d: nat, data: nat, i: nat)
    requires Sized(s1) && Sized(s) && d < NP && i < UPAGES && KernelTables(s1, d, data, 4)
    requires Gained(s1, s, d, 0, Through(0, i))
    ensures CopyNeeds(i + 1) == CopyNeeds(i) + if HasTable(s, d, i / ENTRIES) then 1 else 2
  {
    hide HasTable, Through, Gained;
    assert forall x :: 0 <= x < UPAGES / ENTRIES ==> !HasTable(s1, d, x);
    TablesFromZero(s1, d, i);
    TablesFromZero(s1, d, i + 1);
    OneMoreTable(s1, s, d, 0, i);
  }

  /** The source frame holds what it held, and the child has nothing at page i yet. */
  lemma SourceFrame(s0: State, s: State, dirs: set<nat>, src: nat, d: nat, i: nat, data: nat)
    requires Inv(s0, dirs) && Sized(s) && src in dirs && src < NP && d !in dirs && d < NP && i < UPAGES
    requires Present(Pte(s0, src, i)) && s0.own[d].Free?
    requires Extended(s0, s, d, -1) && Copied(s0, s, src, d, data, i)
    ensures PageOf(Pte(s0, src, i)) < NP && s0.own[PageOf(Pte(s0, src, i))] == Frame(src, i)
    ensures s.own[PageOf(Pte(s0, src, i))] == Frame(src, i)
    ensures s.pages[PageOf(Pte(s0, src, i))] == s0.pages[PageOf(Pte(s0, src, i))]
    ensures Pte(s, d, i) == 0
  {
    assert DirOk(s0, src);
    var f := PageOf(Pte(s0, src, i));
    assert PageKept(s0, s, d, -1, f);
    assert KernelEntry(data, i) == 0;
  }

  lemma CopyTook(s0: State, s: State, s1: State, s2: State, dirs: set<nat>, src: nat, d: nat, data: nat, f: nat,
    pa: nat, i: nat)
    requires Inv(s0, dirs) && Inv(s, dirs + {d}) && NoneLoose(s) && src < NP && d < NP && s.free != []
    requires f == s.free[0] < NP && pa < NP && i < VPAGES
    requires s1 == Taken(s) && s2 == Filled(s1, f, s1.pages[pa]) && SameEntries(s, s1, dirs + {d})
    requires SameEntries(s0, s, dirs)
    requires Sized(s1) && Sized(s2) && SameEntries(s1, s2, dirs + {d})
    requires Copied(s0, s, src, d, data, i) && Extended(s0, s, d, -1) && s.own[pa].Frame?
    ensures Copied(s0, s2, src, d, data, i) && Extended(s0, s2, d, f) && OneLoose(s2, f) && s0.own[f].Free?
    ensures SameEntries(s0, s2, dirs)
    ensures s2.own[f].Loose? && Pte(s2, d, i) == Pte(s, d, i) && s2.pages[f] == s.pages[pa]
  {
    HeldExtends(s0, s, s2, d, f);
    hide Pte, KernelEntry, DirOk, Extended;
    forall u | 0 <= u < i && u < VPAGES ensures CopyOf(s0, s2, src, d, u) {
      assert CopyOf(s0, s, src, d, u);
    }
  }

  /** Taking a free page and filling it. */
  lemma HeldExtends(s0: State, s: State, s2: State, d: nat, f: nat)
    requires Sized(s0) && Sized(s) && FreeOk(s) && NoneLoose(s) && s.free != [] && f == s.free[0] < NP && Sized(s2)
    requires s2.own == s.own[f := Loose] && s2.pages == s.pages[f := s2.pages[f]] && Extended(s0, s, d, -1)
    ensures Extended(s0, s2, d, f) && OneLoose(s2, f) && s0.own[f].Free? && s.own[f].Free?
  {
    assert f in s.free;
    hide FreeOk;
    assert PageKept(s0, s, d, -1, f);
    forall p | 0 <= p < NP ensures PageKept(s0, s2, d, f, p) {
      assert PageKept(s0, s, d, -1, p);
    }
  }

  lemma CopyReturned(s0: State, s2: State, s: State, dirs: set<nat>, d: nat, f: nat)
    requires Sized(s0) && Sized(s2) && Sized(s) && f < NP && s == Freed(s2, f) && s0.own[f].Free? && OneLoose(s2, f)
    requires Extended(s0, s2, d, f) && SameEntries(s0, s2, dirs) && SameEntries(s2, s, dirs + {d})
    ensures Extended(s0, s, d, -1) && NoneLoose(s) && SameEntries(s0, s, dirs)
  {
    hide Pte;
    forall p | 0 <= p < NP ensures PageKept(s0, s, d, -1, p) {
      assert PageKept(s0, s2, d, f, p);
    }
  }

  lemma CopyMore(s0: State, s2: State, s: State, dirs: set<nat>, src: nat, d: nat, data: nat, f: nat, i: nat)
    requires Sized(s0) && Sized(s2) && Sized(s) && src < NP && d < NP && d !in dirs && f < NP && i < UPAGES
    requires s0.own[f].Free?
    requires Present(Pte(s0, src, i)) && PageOf(Pte(s0, src, i)) < NP
    requires s2.pages[f] == s0.pages[PageOf(Pte(s0, src, i))]
    requires Copied(s0, s2, src, d, data, i) && Extended(s0, s2, d, f) && OneLoose(s2, f) && SameEntries(s0, s2, dirs)
    requires Sets(s2, s, dirs + {d}, d, i, 1, f, FlagsOf(Pte(s0, src, i))) && Extended(s2, s, d, -1)
    requires s.own[f] == Frame(d, i) && s.pages[f] == s2.pages[f] && s2.own[d].Dir?
    ensures Copied(s0, s, src, d, data, i + 1) && Extended(s0, s, d, -1) && NoneLoose(s) && SameEntries(s0, s, dirs)
  {
    ExtendedTrans(s0, s2, s, d, f, -1, -1);
    FlagsPresent(Pte(s0, src, i));
    EntryIs(f, FlagsOf(Pte(s0, src, i)));
    assert FlagsOf(Entry(f, FlagsOf(Pte(s0, src, i)))) == FlagsOf(Pte(s0, src, i));
    hide Pte, Entry, PageOf, FlagsOf, Present, KernelEntry;
    forall u | 0 <= u < i + 1 && u < VPAGES ensures CopyOf(s0, s, src, d, u) {
      if u < i {
        assert CopyOf(s0, s2, src, d, u);
        assert PageKept(s2, s, d, -1, PageOf(Pte(s2, d, u)));
      }
    }
    forall p | 0 <= p < NP ensures !s.own[p].Loose? {
      assert PageKept(s2, s, d, -1, p);
    }
  }

  lemma FlagsPresent(w: nat)
    ensures FlagsOf(w) < PGSIZE && FlagsOf(w) % 2 == w % 2
  {
    assert w == PGSIZE * (w / PGSIZE) + FlagsOf(w);
    assert PGSIZE * (w / PGSIZE) == 2 * (2048 * (w / PGSIZE));
  }
}
