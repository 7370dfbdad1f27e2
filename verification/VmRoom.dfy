/** How many pages the address-space functions need: a page table is taken for a directory entry the
    first time a page under it is mapped. */
module VmRoom {
  import opened VmState
  import opened VmStep

  /** How many of the directory entries from lo up to hi have no page table. */
  function Missing(s: State, d: nat, lo: nat, hi: nat): nat
    requires Sized(s) && d < NP && hi <= ENTRIES
  {
    if hi <= lo then 0 else Missing(s, d, lo, hi - 1) + if HasTable(s, d, hi - 1) then 0 else 1
  }

  /** The directory entries from lo up to hi have page tables now; the others have one if they had one. */
  ghost predicate Gained(s: State, s': State, d: nat, lo: nat, hi: nat)
    requires Sized(s) && Sized(s') && d < NP
  {
    forall x :: 0 <= x < ENTRIES ==> (HasTable(s', d, x) <==> HasTable(s, d, x) || lo <= x < hi)
  }

  lemma {:induction false} MissingMono(s: State, d: nat, lo: nat, mid: nat, hi: nat)
    requires Sized(s) && d < NP && mid <= hi <= ENTRIES
    ensures Missing(s, d, lo, mid) <= Missing(s, d, lo, hi)
    decreases hi
  {
    if mid < hi && lo < hi {
      MissingMono(s, d, lo, mid, hi - 1);
    }
  }

  /** Without any page table in the range, all are missing. */
  lemma {:induction false} MissingAll(s: State, d: nat, lo: nat, hi: nat)
    requires Sized(s) && d < NP && lo <= hi <= ENTRIES
    requires forall x :: lo <= x < hi ==> !HasTable(s, d, x)
    ensures Missing(s, d, lo, hi) == hi - lo
    decreases hi
  {
    if lo < hi {
      MissingAll(s, d, lo, hi - 1);
    }
  }

  /** With page tables for the entries below mid, only those from mid on are missing. */
  lemma {:induction false} MissingFrom(s: State, d: nat, lo: nat, mid: nat, hi: nat)
    requires Sized(s) && d < NP && lo <= mid <= hi <= ENTRIES
    requires forall x :: lo <= x < hi ==> (HasTable(s, d, x) <==> x < mid)
    ensures Missing(s, d, lo, hi) == hi - mid
    decreases hi
  {
    if mid < hi {
      MissingFrom(s, d, lo, mid, hi - 1);
    } else if lo < hi {
      MissingFrom(s, d, lo, mid - 1, hi - 1);
    }
  }

  lemma GainedNothing(s: State, s': State, d: nat, x: nat)
    requires Sized(s) && Sized(s') && d < NP && x < ENTRIES && HasTable(s, d, x) && s'.pages[d] == s.pages[d]
    ensures Gained(s, s', d, x, x + 1)
  {
    forall y | 0 <= y < ENTRIES ensures HasTable(s', d, y) <==> HasTable(s, d, y) {
      assert Word(s', d, y) == Word(s, d, y);
    }
  }

  /** Hanging a page table in. */
  lemma HungGains(s: State, s2: State, d: nat, x: nat, t: nat)
    requires Sized(s) && Sized(s2) && d < NP && x < ENTRIES && t < NP && s2.pages[d] == s.pages[d]
    ensures Sized(Hung(s2, d, x, t)) && Gained(s, Hung(s2, d, x, t), d, x, x + 1)
  {
    EntryIs(t, 6);
    var s' := Hung(s2, d, x, t);
    hide Entry;
    forall y | 0 <= y < ENTRIES ensures HasTable(s', d, y) <==> HasTable(s, d, y) || x <= y < x + 1 {
      assert Word(s', d, y) == if y == x then Entry(t, 6) else Word(s, d, y);
    }
  }

  lemma GainedSame(s: State, s1: State, s': State, d: nat, lo: nat, hi: nat)
    requires Sized(s) && Sized(s1) && Sized(s') && d < NP && Gained(s, s1, d, lo, hi) && s'.pages[d] == s1.pages[d]
    ensures Gained(s, s', d, lo, hi)
  {
    forall y | 0 <= y < ENTRIES ensures HasTable(s', d, y) <==> HasTable(s1, d, y) {
      assert Word(s', d, y) == Word(s1, d, y);
    }
  }

  // ----- a range of pages

  /** One past the last directory entry of the pages from v up to a. */
  function Through(v: nat, a: nat): nat {
    if a <= v then v / ENTRIES else (a - 1) / ENTRIES + 1
  }

  /** The page tables that are missing for the pages from v up to a. */
  function TablesFor(s: State, d: nat, v: nat, a: nat): nat
    requires Sized(s) && d < NP && v < VPAGES && a <= VPAGES
  {
    Missing(s, d, v / ENTRIES, Through(v, a))
  }

  lemma ThroughNext(v: nat, a: nat)
    requires v <= a < VPAGES
    ensures v / ENTRIES <= Through(v, a) <= ENTRIES && Through(v, a + 1) == a / ENTRIES + 1
    ensures Through(v, a) == a / ENTRIES || Through(v, a) == a / ENTRIES + 1
    ensures Through(v, a) == a / ENTRIES + 1 ==> v / ENTRIES <= a / ENTRIES
  {
  }

  /** Mapping one more page takes a page table exactly when its directory entry has none by now. */
  lemma OneMoreTable(s0: State, s: State, d: nat, v: nat, a: nat)
    requires Sized(s0) && Sized(s) && d < NP && v <= a < VPAGES && Gained(s0, s, d, v / ENTRIES, Through(v, a))
    ensures TablesFor(s0, d, v, a + 1) == TablesFor(s0, d, v, a) + if HasTable(s, d, a / ENTRIES) then 0 else 1
  {
    ThroughNext(v, a);
    hide HasTable, Through;
    var x := a / ENTRIES;
    if Through(v, a) == x {
      assert Missing(s0, d, v / ENTRIES, x + 1) == Missing(s0, d, v / ENTRIES, x) + if HasTable(s0, d, x) then 0 else 1;
    }
  }

  lemma OneMoreGained(s0: State, s: State, s': State, d: nat, v: nat, a: nat)
    requires Sized(s0) && Sized(s) && Sized(s') && d < NP && v <= a < VPAGES
    requires Gained(s0, s, d, v / ENTRIES, Through(v, a)) && Gained(s, s', d, a / ENTRIES, a / ENTRIES + 1)
    ensures Gained(s0, s', d, v / ENTRIES, Through(v, a + 1))
  {
    ThroughNext(v, a);
    hide HasTable, Through;
    forall x | 0 <= x < ENTRIES
      ensures HasTable(s', d, x) <==> HasTable(s0, d, x) || v / ENTRIES <= x < Through(v, a + 1)
    {
    }
  }

  lemma TablesMono(s: State, d: nat, v: nat, a: nat, b: nat)
    requires Sized(s) && d < NP && v < VPAGES && v <= a <= b <= VPAGES
    ensures TablesFor(s, d, v, a) <= TablesFor(s, d, v, b)
  {
    MissingMono(s, d, v / ENTRIES, Through(v, a), Through(v, b));
  }

  lemma GainedStarts(s: State, d: nat, v: nat)
    requires Sized(s) && d < NP && v < VPAGES
    ensures Gained(s, s, d, v / ENTRIES, Through(v, v)) && TablesFor(s, d, v, v) == 0
  {
  }

  /** One page needs at most one page table. */
  lemma TableForOne(s: State, d: nat, v: nat)
    requires Sized(s) && d < NP && v < VPAGES
    ensures TablesFor(s, d, v, v + 1) == if HasTable(s, d, v / ENTRIES) then 0 else 1
    ensures Through(v, v + 1) == v / ENTRIES + 1
  {
    var x := v / ENTRIES;
    assert Missing(s, d, x, x + 1) == Missing(s, d, x, x) + if HasTable(s, d, x) then 0 else 1;
  }

  /** How many page tables n pages from the first one need when there are none. */
  lemma TablesFromZero(s: State, d: nat, n: nat)
    requires Sized(s) && d < NP && n <= UPAGES && forall x :: 0 <= x < UPAGES / ENTRIES ==> !HasTable(s, d, x)
    ensures TablesFor(s, d, 0, n) == (n + ENTRIES - 1) / ENTRIES
  {
    MissingAll(s, d, 0, Through(0, n));
  }
}
