/** The LRU list of the buffer cache. Buffers are the elements of a static array, so the links
    `prev` and `next` are positions in it; the list head is one more position. */
module BufList {
  import opened Bytes

  const NBUF := 30
  const HEAD := 30              // the position of bcache.head

  datatype Links = Links(next: seq<nat>, prev: seq<nat>)

  /** What follows position i of the list, and what precedes it; the head closes the ring. */
  function After(order: seq<nat>, i: int): nat
    requires -1 <= i < |order|
  {
    if i + 1 < |order| then order[i + 1] else HEAD
  }

  function Before(order: seq<nat>, i: int): nat
    requires 0 <= i <= |order|
  {
    if 0 < i then order[i - 1] else HEAD
  }

  predicate Sized(l: Links) {
    |l.next| == |l.prev| == NBUF + 1
  }

  /** The links form one ring through the head and the buffers of `order`, each once. */
  ghost predicate Linked(l: Links, order: seq<nat>) {
    && Sized(l) && Distinct(order)
    && (forall i :: 0 <= i < |order| ==> order[i] < NBUF)
    && l.next[HEAD] == After(order, -1) && l.prev[HEAD] == Before(order, |order|)
    && (forall i {:trigger After(order, i)} :: 0 <= i < |order| ==> l.next[order[i]] == After(order, i))
    && (forall i {:trigger Before(order, i)} :: 0 <= i < |order| ==> l.prev[order[i]] == Before(order, i))
  }

  /** Taking b out: its two neighbours are linked to each other. */
  function Unlinked(l: Links, b: nat): Links
    requires Sized(l) && b < NBUF && l.next[b] <= HEAD && l.prev[b] <= HEAD
  {
    Links(l.next[l.prev[b] := l.next[b]], l.prev[l.next[b] := l.prev[b]])
  }

  /** Putting b in between the list head and what was first. */
  function Pushed(l: Links, b: nat): Links
    requires Sized(l) && b < NBUF && l.next[HEAD] <= HEAD
  {
    var first := l.next[HEAD];
    Links(l.next[b := first][HEAD := b], l.prev[b := HEAD][first := b])
  }

  /** A sequence without its k-th element. */
  function Without<T>(s: seq<T>, k: nat): seq<T>
    requires k < |s|
  {
    s[..k] + s[k + 1..]
  }

  lemma WithoutIs<T>(s: seq<T>, k: nat)
    requires k < |s| && Distinct(s)
    ensures Distinct(Without(s, k)) && s[k] !in Without(s, k)
    ensures forall x :: x in s && x != s[k] ==> x in Without(s, k)
    ensures forall x :: x in Without(s, k) ==> x in s
  {
    forall i | 0 <= i < |Without(s, k)| ensures Without(s, k)[i] == s[if i < k then i else i + 1] {
    }
    forall x | x in s && x != s[k] ensures x in Without(s, k) {
      var i :| 0 <= i < |s| && s[i] == x;
      assert Without(s, k)[if i < k then i else i - 1] == x;
    }
  }

  lemma LinkedNodes(l: Links, order: seq<nat>, k: nat)
    requires Linked(l, order) && k < |order|
    ensures order[k] < NBUF && l.next[order[k]] == After(order, k) <= HEAD
    ensures l.prev[order[k]] == Before(order, k) <= HEAD
    ensures l.next[HEAD] <= HEAD
  {
  }

  /** Positions before and after a removed one. */
  lemma WithoutAt(order: seq<nat>, k: nat, i: nat)
    requires k < |order| && i < |order| - 1
    ensures var j := if i < k then i else i + 1; Without(order, k)[i] == order[j]
    ensures After(Without(order, k), i) ==
      if i == k - 1 then After(order, k) else After(order, if i < k then i else i + 1)
    ensures Before(Without(order, k), i) ==
      if i == k then Before(order, k) else Before(order, if i < k then i else i + 1)
  {
  }

  lemma UnlinkAt(l: Links, order: seq<nat>, k: nat, i: nat)
    requires Linked(l, order) && k < |order| && i < |order| - 1
    requires order[k] < NBUF && l.next[order[k]] == After(order, k) <= HEAD
    requires l.prev[order[k]] == Before(order, k) <= HEAD
    ensures var l', order' := Unlinked(l, order[k]), Without(order, k);
      order'[i] < NBUF && l'.next[order'[i]] == After(order', i) && l'.prev[order'[i]] == Before(order', i)
  {
    WithoutAt(order, k, i);
    var j := if i < k then i else i + 1;
    hide Without;
    LinkedNodes(l, order, j);
    assert order[j] == Before(order, k) <==> j == k - 1;
    assert order[j] == After(order, k) <==> j == k + 1;
  }

  /** Taking a buffer out leaves the ring of the others. */
  lemma UnlinkKeeps(l: Links, order: seq<nat>, k: nat)
    requires Linked(l, order) && k < |order|
    ensures order[k] < NBUF && l.next[order[k]] <= HEAD && l.prev[order[k]] <= HEAD
    ensures Linked(Unlinked(l, order[k]), Without(order, k))
  {
    LinkedNodes(l, order, k);
    WithoutIs(order, k);
    var l', order' := Unlinked(l, order[k]), Without(order, k);
    UnlinkHead(l, order, k);
    forall i | 0 <= i < |order'|
      ensures order'[i] < NBUF && l'.next[order'[i]] == After(order', i) && l'.prev[order'[i]] == Before(order', i)
    {
      hide Linked;
      UnlinkAt(l, order, k, i);
    }
    hide Distinct, Unlinked, Before, After;
  }

  lemma UnlinkHead(l: Links, order: seq<nat>, k: nat)
    requires Linked(l, order) && k < |order|
    requires order[k] < NBUF && l.next[order[k]] == After(order, k) <= HEAD
    requires l.prev[order[k]] == Before(order, k) <= HEAD
    ensures var l', order' := Unlinked(l, order[k]), Without(order, k);
      l'.next[HEAD] == After(order', -1) && l'.prev[HEAD] == Before(order', |order'|)
  {
  }

  lemma PushAt(l: Links, order: seq<nat>, b: nat, i: nat)
    requires Linked(l, order) && b < NBUF && b !in order && l.next[HEAD] <= HEAD && i <= |order|
    ensures var l', order' := Pushed(l, b), [b] + order;
      order'[i] < NBUF && l'.next[order'[i]] == After(order', i) && l'.prev[order'[i]] == Before(order', i)
  {
    var order' := [b] + order;
    if i > 0 {
      LinkedNodes(l, order, i - 1);
      assert order'[i] == order[i - 1] != b;
      assert order[i - 1] == After(order, -1) <==> i == 1;
      assert After(order', i) == After(order, i - 1);
      assert Before(order', i) == if i == 1 then b else Before(order, i - 1);
    }
  }

  lemma PushEnds(l: Links, order: seq<nat>, b: nat)
    requires Linked(l, order) && b < NBUF && b !in order && l.next[HEAD] <= HEAD
    ensures var l', order' := Pushed(l, b), [b] + order;
      Sized(l') && Distinct(order') && l'.next[HEAD] == After(order', -1) && l'.prev[HEAD] == Before(order', |order'|)
  {
    if order != [] {
      assert ([b] + order)[|order|] == order[|order| - 1];
    }
  }

  /** Putting a buffer that is not on the list at its front. */
  lemma PushKeeps(l: Links, order: seq<nat>, b: nat)
    requires Linked(l, order) && b < NBUF && b !in order && l.next[HEAD] <= HEAD
    ensures Linked(Pushed(l, b), [b] + order)
  {
    PushEnds(l, order, b);
    var l', order' := Pushed(l, b), [b] + order;
    forall i | 0 <= i < |order'|
      ensures order'[i] < NBUF && l'.next[order'[i]] == After(order', i) && l'.prev[order'[i]] == Before(order', i)
    {
      hide Linked;
      PushAt(l, order, b, i);
    }
    hide Distinct, Pushed, After, Before;
  }
}
