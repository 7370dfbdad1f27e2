/** Taking an address space apart, and how states of one operation relate. */
module VmFree {
  import opened VmState
  import opened VmStep

  /** Every page of s was in s0 the same owner's with the same contents, except that pages of d's
      directory and page tables may have other contents, free or loose pages may have become d's, and
      the free page f may have become loose. */
  ghost predicate Extended(s0: State, s: State, d: nat, f: int)
    requires Sized(s0) && Sized(s)
  {
    forall p :: 0 <= p < NP ==> PageKept(s0, s, d, f, p)
  }

  ghost predicate PageKept(s0: State, s: State, d: nat, f: int, p: nat)
    requires Sized(s0) && Sized(s) && p < NP
  {
    var o, o' := s0.own[p], s.own[p];
    if o.Free? then o'.Free? || (o'.Loose? && p == f) || (o'.Dir? && p == d) || Of(o', d)
    else if o.Loose? then o'.Loose? || Of(o', d)
    else o' == o && (s.pages[p] == s0.pages[p] || p == d || (o.Table? && o.d == d))
  }

  lemma ExtendedTrans(s0: State, s1: State, s2: State, d: nat, f: int, g: int, h: int)
    requires Sized(s0) && Sized(s1) && Sized(s2) && Extended(s0, s1, d, f) && Extended(s1, s2, d, g)
    requires forall p :: 0 <= p < NP && (p == f || p == g) && s2.own[p].Loose? ==> p == h
    ensures Extended(s0, s2, d, h)
  {
    forall p | 0 <= p < NP ensures PageKept(s0, s2, d, h, p) {
      assert PageKept(s0, s1, d, f, p) && PageKept(s1, s2, d, g, p);
    }
  }

  /** The entries of all address spaces are as they were. */
  ghost predicate SameEntries(s: State, s': State, dirs: set<nat>)
    requires Sized(s) && Sized(s')
  {
    forall e, u :: e in dirs && e < NP && 0 <= u < VPAGES ==> Pte(s', e, u) == Pte(s, e, u)
  }

  // ----- an address space on its way out

  /** Everything but d is in order; pages may still be d's. */
  ghost predicate InvBut(s: State, dirs: set<nat>, d: nat) {
    && Sized(s) && FreeOk(s)
    && (forall e :: e in dirs && e != d ==> DirOk(s, e))
    && (forall p :: 0 <= p < NP && s.own[p] == Dir ==> p in dirs)
    && (forall p :: 0 <= p < NP && (s.own[p].Table? || s.own[p].Frame?) ==> s.own[p].d in dirs)
  }

  /** d has no frames left, and its page tables for entries below k are freed. */
  ghost predicate Dying(s: State, d: nat, k: nat)
    requires Sized(s)
  {
    && d < NP && s.own[d] == Dir
    && (forall p :: 0 <= p < NP && s.own[p].Frame? ==> s.own[p].d != d)
    && (forall x :: k <= x < ENTRIES && Present(Word(s, d, x)) ==>
        PageOf(Word(s, d, x)) < NP && s.own[PageOf(Word(s, d, x))] == Table(d, x))
    && (forall p :: 0 <= p < NP && s.own[p].Table? && s.own[p].d == d ==>
        k <= s.own[p].x < ENTRIES && Present(Word(s, d, s.own[p].x)) && PageOf(Word(s, d, s.own[p].x)) == p)
  }

  lemma StartsDying(s: State, dirs: set<nat>, d: nat)
    requires Inv(s, dirs) && d in dirs
    requires forall p :: 0 <= p < NP && s.own[p].Frame? ==> s.own[p].d != d
    ensures InvBut(s, dirs, d) && Dying(s, d, 0)
  {
    assert DirOk(s, d);
  }

  function TableFreed(s: State, d: nat, k: nat): State
    requires Sized(s) && d < NP && k < ENTRIES && (Present(Word(s, d, k)) ==> PageOf(Word(s, d, k)) < NP)
  {
    if Present(Word(s, d, k)) then Freed(s, PageOf(Word(s, d, k))) else s
  }

  lemma TableFreedDying(s: State, d: nat, k: nat)
    requires Sized(s) && Dying(s, d, k) && k < ENTRIES
    ensures Present(Word(s, d, k)) ==> PageOf(Word(s, d, k)) < NP
    ensures var s' := TableFreed(s, d, k);
      && Sized(s') && Dying(s', d, k + 1)
      && (forall p :: 0 <= p < NP ==> s'.own[p] == if s.own[p] == Table(d, k) then Free else s.own[p])
      && (forall p :: 0 <= p < NP && !Of(s.own[p], d) ==> s'.pages[p] == s.pages[p])
  {
    hide Present, PageOf;
    var s' := TableFreed(s, d, k);
    forall x | 0 <= x < ENTRIES ensures Word(s', d, x) == Word(s, d, x) {
    }
  }

  lemma TableFreedKeeps(s: State, dirs: set<nat>, d: nat, k: nat)
    requires InvBut(s, dirs, d) && Dying(s, d, k) && k < ENTRIES
    ensures Present(Word(s, d, k)) ==> PageOf(Word(s, d, k)) < NP
    ensures InvBut(TableFreed(s, d, k), dirs, d)
    ensures forall e, u :: e in dirs && e != d && 0 <= u < VPAGES ==> Pte(TableFreed(s, d, k), e, u) == Pte(s, e, u)
  {
    hide Present, PageOf, Pte;
    TableFreedDying(s, d, k);
    var s' := TableFreed(s, d, k);
    if Present(Word(s, d, k)) {
      FreedList(s, PageOf(Word(s, d, k)));
      forall e | e in dirs && e != d
        ensures DirOk(s', e) && forall u :: 0 <= u < VPAGES ==> Pte(s', e, u) == Pte(s, e, u)
      {
        ApartKeeps(s, s', e);
      }
    }
    hide DirOk, FreeOk, Dying;
  }

  lemma DirFreedKeeps(s: State, dirs: set<nat>, d: nat)
    requires InvBut(s, dirs, d) && Dying(s, d, ENTRIES)
    ensures Inv(Freed(s, d), dirs - {d})
    ensures forall e, u :: e in dirs && e != d && 0 <= u < VPAGES ==> Pte(Freed(s, d), e, u) == Pte(s, e, u)
  {
    var s' := Freed(s, d);
    FreedList(s, d);
    forall e | e in dirs && e != d
      ensures DirOk(s', e) && forall u :: 0 <= u < VPAGES ==> Pte(s', e, u) == Pte(s, e, u)
    {
      ApartKeeps(s, s', e);
    }
    hide DirOk, FreeOk;
  }

  // ----- a new directory

  lemma NewDir(s: State, dirs: set<nat>, d: nat)
    requires Inv(s, dirs) && d < NP && s.own[d].Loose? && s.pages[d] == Zero()
    ensures var s' := Given(s, d, Dir);
      && Inv(s', dirs + {d})
      && (forall v :: 0 <= v < VPAGES ==> Pte(s', d, v) == 0)
      && (forall e, u :: e in dirs && 0 <= u < VPAGES ==> Pte(s', e, u) == Pte(s, e, u))
  {
    var s' := Given(s, d, Dir);
    ListUntouched(s, s');
    forall x | 0 <= x < ENTRIES ensures Word(s', d, x) == 0 {
    }
    assert DirOk(s', d);
    forall e | e in dirs ensures DirOk(s', e) && forall u :: 0 <= u < VPAGES ==> Pte(s', e, u) == Pte(s, e, u) {
      ApartKeeps(s, s', e);
    }
    hide DirOk, FreeOk;
  }

  /** After freevm: d's pages are free, every other page is as it was. */
  ghost predicate Released(s: State, s': State, d: nat)
    requires Sized(s) && Sized(s')
  {
    forall p :: 0 <= p < NP ==>
      if p == d || Of(s.own[p], d) then s'.own[p].Free?
      else s'.own[p] == s.own[p] && (s.own[p].Free? || s'.pages[p] == s.pages[p])
  }

  /** The part of freevm after deallocuvm, with the page tables of entries below k freed. */
  ghost predicate Torn(s: State, s': State, dirs: set<nat>, d: nat, k: nat)
    requires Sized(s)
  {
    && InvBut(s', dirs, d) && Dying(s', d, k) && SameEntries(s, s', dirs - {d})
    && (forall p :: 0 <= p < NP ==>
      s'.own[p] == if s.own[p].Table? && s.own[p].d == d && s.own[p].x < k then Free else s.own[p])
    && (forall p :: 0 <= p < NP && !Of(s.own[p], d) ==> s'.pages[p] == s.pages[p])
  }

  /** After deallocuvm of all user memory: d's frames are free, every other page is as it was. */
  ghost predicate NoFrames(s0: State, s: State, dirs: set<nat>, d: nat)
    requires Sized(s0) && Sized(s)
  {
    && SameEntries(s0, s, dirs - {d})
    && (forall p :: 0 <= p < NP ==> s.own[p] == if s0.own[p].Frame? && s0.own[p].d == d then Free else s0.own[p])
    && (forall p :: 0 <= p < NP && !Of(s0.own[p], d) ==> s.pages[p] == s0.pages[p])
    && (forall p :: 0 <= p < NP && s0.own[p].Table? && s0.own[p].d == d ==> s0.own[p].x < ENTRIES)
  }

  lemma TornStarts(s0: State, s: State, dirs: set<nat>, d: nat)
    requires Sized(s0) && Inv(s, dirs) && d in dirs && NoFrames(s0, s, dirs, d)
    ensures Torn(s, s, dirs, d, 0)
  {
    StartsDying(s, dirs, d);
    hide InvBut, Dying, Inv, Pte;
  }

  lemma TornStep(s: State, m: State, dirs: set<nat>, d: nat, k: nat)
    requires Sized(s) && d < NP && Torn(s, m, dirs, d, k) && k < ENTRIES
    ensures Sized(m) && (Present(Word(m, d, k)) ==> PageOf(Word(m, d, k)) < NP)
    ensures Torn(s, TableFreed(m, d, k), dirs, d, k + 1)
  {
    TableFreedDying(m, d, k);
    TableFreedKeeps(m, dirs, d, k);
    hide Pte, Dying, InvBut, TableFreed;
  }

  /** The directory goes last. */
  lemma TornEnds(s0: State, s: State, m: State, dirs: set<nat>, d: nat)
    requires Sized(s0) && Sized(s) && d < NP && Torn(s, m, dirs, d, ENTRIES) && NoFrames(s0, s, dirs, d)
    ensures Sized(m) && Inv(Freed(m, d), dirs - {d}) && Released(s0, Freed(m, d), d)
    ensures SameEntries(s0, Freed(m, d), dirs - {d})
  {
    DirFreedKeeps(m, dirs, d);
    hide Pte, Dying, FreeOk, DirOk;
  }
}
