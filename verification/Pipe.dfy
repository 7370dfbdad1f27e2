/** The pipe's ring buffer, with counters that wrap at 32 bits. */
module Pipe {
  import opened Bytes

  const PIPESIZE := 512

  datatype Ring = Ring(data: seq<Byte>, nread: Uint, nwrite: Uint, readopen: bool, writeopen: bool)

  function Empty(): Ring {
    Ring(seq(PIPESIZE, _ => 0), 0, 0, true, true)
  }

  /** How many bytes are in the pipe: the counters' difference, as unsigned arithmetic gives it. */
  function Count(r: Ring): nat {
    (r.nwrite - r.nread) % UINT_MOD
  }

  predicate Ok(r: Ring) {
    |r.data| == PIPESIZE && Count(r) <= PIPESIZE
  }

  predicate IsFull(r: Ring) {
    r.nwrite == (r.nread + PIPESIZE) % UINT_MOD
  }

  predicate IsEmpty(r: Ring) {
    r.nread == r.nwrite
  }

  /** The tests in the code mean what they should, also after the counters have wrapped. */
  lemma TestsAreRight(r: Ring)
    requires Ok(r)
    ensures IsFull(r) <==> Count(r) == PIPESIZE
    ensures IsEmpty(r) <==> Count(r) == 0
  {
  }

  /** The bytes in the pipe, oldest first. */
  function Contents(r: Ring): (s: seq<Byte>)
    requires Ok(r)
    ensures |s| == Count(r)
  {
    seq<Byte>(Count(r), i requires 0 <= i < Count(r) => r.data[(r.nread + i) % PIPESIZE])
  }

  function Stored(r: Ring, b: Byte): Ring
    requires Ok(r)
  {
    r.(data := r.data[r.nwrite % PIPESIZE := b], nwrite := (r.nwrite + 1) % UINT_MOD)
  }

  function First(r: Ring): Byte
    requires Ok(r)
  {
    r.data[r.nread % PIPESIZE]
  }

  function Taken(r: Ring): Ring {
    r.(nread := (r.nread + 1) % UINT_MOD)
  }

  /** Two places of the ring coincide only if they are a multiple of its size apart. */
  lemma PlacesDiffer(a: nat, i: nat, n: nat)
    requires i < n < PIPESIZE
    ensures (a + i) % PIPESIZE != (a + n) % PIPESIZE
  {
  }

  /** The write position, reduced twice, is the read position plus the count. */
  lemma WritePlace(r: Ring)
    ensures r.nwrite % PIPESIZE == (r.nread + Count(r)) % PIPESIZE
  {
    if r.nwrite >= r.nread {
      assert Count(r) == r.nwrite - r.nread;
    } else {
      assert Count(r) == r.nwrite - r.nread + UINT_MOD;
    }
  }

  lemma StoreAppends(r: Ring, b: Byte)
    requires Ok(r) && !IsFull(r)
    ensures Ok(Stored(r, b)) && Contents(Stored(r, b)) == Contents(r) + [b]
  {
    TestsAreRight(r);
    WritePlace(r);
    var r', n := Stored(r, b), Count(r);
    assert Count(r') == n + 1;
    forall i | 0 <= i <= n ensures Contents(r')[i] == (Contents(r) + [b])[i] {
      if i < n {
        PlacesDiffer(r.nread, i, n);
      }
    }
  }

  lemma TakeRemovesFirst(r: Ring)
    requires Ok(r) && !IsEmpty(r)
    ensures Ok(Taken(r)) && Contents(r) == [First(r)] + Contents(Taken(r))
  {
    TestsAreRight(r);
    var r', n := Taken(r), Count(r);
    assert Count(r') == n - 1;
    forall i | 0 <= i < n - 1 ensures Contents(r')[i] == Contents(r)[i + 1] {
      WrapPlace(r.nread, i);
    }
  }

  /** The ring's size divides the range of the counters. */
  lemma WrapPlace(a: Uint, i: nat)
    ensures ((a + 1) % UINT_MOD + i) % PIPESIZE == (a + i + 1) % PIPESIZE
  {
    if a + 1 == UINT_MOD {
      assert UINT_MOD == 8388608 * PIPESIZE;
    }
  }

  lemma Regroup(got: seq<Byte>, b: Byte, rest: seq<Byte>)
    ensures got + ([b] + rest) == got + [b] + rest
  {
  }

  lemma OneMore(s: seq<Byte>, addr: seq<Byte>, i: nat, j: nat)
    requires i <= j < |addr|
    ensures s + addr[i..j] + [addr[j]] == s + addr[i..j + 1]
  {
  }

  class PipeBuffer {
    var data: array<Byte>
    var nread: Uint
    var nwrite: Uint
    var readopen: bool
    var writeopen: bool

    ghost function R(): Ring
      reads this, data
    {
      Ring(data[..], nread, nwrite, readopen, writeopen)
    }

    ghost predicate Valid()
      reads this, data
    {
      data.Length == PIPESIZE && Ok(R())
    }

    // pipealloc
    constructor ()
      ensures Valid() && Contents(R()) == [] && readopen && writeopen && fresh(data)
    {
      data := new Byte[PIPESIZE](_ => 0);
      nread, nwrite, readopen, writeopen := 0, 0, true, true;
    }

    /** pipewrite while it holds the lock: stores from addr[i] on, until all is stored or the pipe is
        full; the caller then wakes the readers, and sleeps or returns. */
    method Fill(addr: seq<Byte>, i: nat) returns (j: nat)
      requires Valid() && i <= |addr|
      modifies this, data
      ensures Valid() && data == old(data) && readopen == old(readopen) && writeopen == old(writeopen)
      ensures nread == old(nread)
      ensures i <= j <= |addr| && (j < |addr| ==> Count(R()) == PIPESIZE)
      ensures Contents(R()) == old(Contents(R())) + addr[i..j]
    {
      hide Contents, Count;
      j := i;
      assert Contents(R()) == Contents(R()) + addr[i..j];
      while j < |addr| && nwrite != (nread + PIPESIZE) % UINT_MOD
        invariant Valid() && data == old(data) && readopen == old(readopen) && writeopen == old(writeopen)
        invariant nread == old(nread)
        invariant i <= j <= |addr| && Contents(R()) == old(Contents(R())) + addr[i..j]
      {
        StoreAppends(R(), addr[j]);
        OneMore(old(Contents(R())), addr, i, j);
        data[nwrite % PIPESIZE] := addr[j];
        nwrite := (nwrite + 1) % UINT_MOD;
        j := j + 1;
      }
      TestsAreRight(R());
    }

    /** piperead after its wait: up to n bytes, in order. */
    method Drain(n: nat) returns (got: seq<Byte>)
      requires Valid()
      modifies `nread
      ensures Valid()
      ensures old(Contents(R())) == got + Contents(R())
      ensures |got| == if n < old(Count(R())) then n else old(Count(R()))
    {
      hide Contents, Count;
      got := [];
      ghost var all := Contents(R());
      assert got + all == all;
      while |got| < n && nread != nwrite
        invariant Valid() && |got| <= n && all == got + Contents(R())
      {
        TakeRemovesFirst(R());
        Regroup(got, First(R()), Contents(Taken(R())));
        got := got + [data[nread % PIPESIZE]];
        nread := (nread + 1) % UINT_MOD;
      }
      TestsAreRight(R());
    }
  }
}
