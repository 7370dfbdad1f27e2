/** The buffer cache as its code is written: buffers in an array, a doubly linked ring through
    them, and the searches that follow the links. */
module Bio {
  import opened Bytes
  import opened Buffer
  import opened BufList
  import opened BufState

  class BufferCache {
    var bufs: seq<Buf>
    var links: Links                 // bufs[i].next and bufs[i].prev, and at HEAD those of bcache.head
    var disk: map<Key, Block>
    ghost var order: seq<nat>        // the ring read off from head.next

    ghost predicate Valid()
      reads this
    {
      && |bufs| == NBUF == |order| && Linked(links, order)
      && forall i :: 0 <= i < NBUF ==> i in order
    }

    ghost function C(): Cache
      reads this
    {
      Cache(bufs, order, disk)
    }

    // binit
    constructor (disk0: map<Key, Block>, data0: Block)
      ensures Valid() && disk == disk0
      ensures forall i :: 0 <= i < NBUF ==> bufs[i] == Buf(UNUSED, false, false, false, 0, data0)
      ensures forall p :: 0 <= p < NBUF ==> order[p] == NBUF - 1 - p
    {
      var l := Links(seq(NBUF + 1, _ => HEAD), seq(NBUF + 1, _ => HEAD));
      ghost var o: seq<nat> := [];
      for i := 0 to NBUF
        invariant Linked(l, o) && |o| == i
        invariant forall p :: 0 <= p < i ==> o[p] == i - 1 - p
      {
        PushKeeps(l, o, i);
        l := Pushed(l, i);
        o := [i] + o;
      }
      forall i | 0 <= i < NBUF ensures i in o {
        assert o[NBUF - 1 - i] == i;
      }
      bufs := seq(NBUF, _ => Buf(UNUSED, false, false, false, 0, data0));
      links, disk, order := l, disk0, o;
    }

    // bget, first loop: from head.next along next
    method Lookup(k: Key) returns (b: nat)
      requires Valid()
      ensures b == HEAD ==> !Cached(C(), k)
      ensures b != HEAD ==> b < NBUF && bufs[b].key == k
    {
      b := links.next[HEAD];
      ghost var p := 0;
      while b != HEAD
        invariant p <= NBUF && b == After(order, p - 1)
        invariant forall q :: 0 <= q < p ==> bufs[order[q]].key != k
        decreases NBUF - p
      {
        if bufs[b].key == k {
          return;
        }
        LinkedNodes(links, order, p);
        b := links.next[b];
        p := p + 1;
      }
      forall j | 0 <= j < NBUF ensures bufs[j].key != k {
        assert j in order;
      }
    }

    // bget, second loop: from head.prev along prev
    method Victim() returns (b: nat)
      requires Valid()
      ensures b == HEAD ==> forall j :: 0 <= j < NBUF ==> !Reusable(bufs[j])
      ensures b != HEAD ==> exists p :: 0 <= p < |order| && order[p] == b && LastFree(C(), p)
    {
      b := links.prev[HEAD];
      ghost var p := NBUF;
      while b != HEAD
        invariant 0 <= p <= NBUF && b == Before(order, p)
        invariant forall q :: p <= q < NBUF ==> !Reusable(bufs[order[q]])
        decreases p
      {
        if bufs[b].refcnt == 0 && !bufs[b].dirty {
          assert LastFree(C(), p - 1);
          return;
        }
        LinkedNodes(links, order, p - 1);
        b := links.prev[b];
        p := p - 1;
      }
      forall j | 0 <= j < NBUF ensures !Reusable(bufs[j]) {
        assert j in order;
      }
    }

    /** bget up to acquiresleep; ok is false for its panic. */
    method Get(k: Key) returns (ok: bool, b: nat)
      requires Valid() && k != UNUSED
      modifies this
      ensures Valid()
      ensures ok ==> old(Picks(C(), k, b)) && b < old(|bufs|) && C() == old(SetBuf(C(), b, Gotten(bufs[b], k)))
      ensures !ok ==> C() == old(C()) && !Cached(C(), k) && forall j :: 0 <= j < NBUF ==> !Reusable(bufs[j])
    {
      b := Lookup(k);
      if b != HEAD {
        bufs := bufs[b := bufs[b].(refcnt := bufs[b].refcnt + 1)];
        return true, b;
      }
      b := Victim();
      ok := b != HEAD;
      if ok {
        assert bufs[b].key != k;
        bufs := bufs[b := bufs[b].(key := k, valid := false, dirty := false, refcnt := 1)];
      }
    }

    /** The rest of bread: the buffer is locked, and filled from the disk if it is not valid. */
    method Acquire(b: nat)
      requires Valid() && b < NBUF && !bufs[b].locked && 0 < bufs[b].refcnt && bufs[b].key in disk
      requires bufs[b].dirty ==> bufs[b].valid
      modifies this
      ensures Valid() && C() == old(SetBuf(C(), b, Filled(bufs[b], disk)))
    {
      bufs := bufs[b := bufs[b].(locked := true)];
      if !bufs[b].valid {
        Iderw(b);
      }
    }

    /** What iderw has done when it returns: memide.c does it at once, ide.c through its queue. */
    method Iderw(b: nat)
      requires Valid() && b < NBUF && bufs[b].locked && bufs[b].key in disk
      requires !bufs[b].valid || bufs[b].dirty
      modifies this
      ensures Valid() && links == old(links) && order == old(order)
      ensures old(bufs[b]).dirty ==>
        bufs == old(bufs)[b := old(bufs[b]).(valid := true, dirty := false)]
          && disk == old(disk)[bufs[b].key := bufs[b].data]
      ensures !old(bufs[b]).dirty ==>
        disk == old(disk) && bufs == old(bufs)[b := old(bufs[b]).(valid := true, data := disk[old(bufs[b]).key])]
    {
      if bufs[b].dirty {
        disk := disk[bufs[b].key := bufs[b].data];
        bufs := bufs[b := bufs[b].(dirty := false)];
      } else {
        bufs := bufs[b := bufs[b].(data := disk[bufs[b].key])];
      }
      bufs := bufs[b := bufs[b].(valid := true)];
    }

    method Bwrite(b: nat)
      requires Valid() && b < NBUF && bufs[b].locked && bufs[b].key in disk
      modifies this
      ensures Valid() && C() == old(Written(C(), b))
    {
      bufs := bufs[b := bufs[b].(dirty := true)];
      Iderw(b);
    }

    /** brelse after releasesleep. */
    method Drop(b: nat)
      requires Valid() && b < NBUF && 0 < bufs[b].refcnt
      modifies this
      ensures Valid() && C() == old(Dropped(C(), b))
    {
      bufs := bufs[b := bufs[b].(refcnt := bufs[b].refcnt - 1)];
      if bufs[b].refcnt == 0 {
        MoveToHead(b);
      }
    }

    method MoveToHead(b: nat)
      requires Valid() && b < NBUF
      modifies this
      ensures Valid() && bufs == old(bufs) && disk == old(disk)
      ensures b in old(order) && order == [b] + Without(old(order), IndexOf(old(order), b))
    {
      ghost var p := IndexOf(order, b);
      UnlinkKeeps(links, order, p);
      WithoutIs(order, p);
      links := Unlinked(links, b);
      PushKeeps(links, Without(order, p), b);
      links := Pushed(links, b);
      order := [b] + Without(order, p);
    }
  }
}
