/** ide.c as it is written: the queue threads through the buffers' qnext fields. */
module IdeDriver {
  import opened Bytes
  import opened Buffer
  import opened BufList
  import opened IdeState

  /** The chain that starts at `idequeue` and follows qnext. Position i of `link` is bufs[i].qnext,
      the last is idequeue itself; the value HEAD stands for the null pointer. */
  ghost predicate Chained(link: seq<nat>, queue: seq<nat>) {
    && |link| == NBUF + 1 && Distinct(queue)
    && (forall j :: 0 <= j < |queue| ==> queue[j] < NBUF)
    && link[HEAD] == After(queue, -1)
    && (forall j {:trigger After(queue, j)} :: 0 <= j < |queue| ==> link[queue[j]] == After(queue, j))
  }

  /** Writing b where the chain ends appends b. */
  lemma AppendKeeps(link: seq<nat>, queue: seq<nat>, b: nat)
    requires Chained(link, queue) && b < NBUF && b !in queue
    ensures var last := if queue == [] then HEAD else queue[|queue| - 1];
      last < |link| && link[last] == HEAD && Chained(link[b := HEAD][last := b], queue + [b])
  {
    var queue', last := queue + [b], if queue == [] then HEAD else queue[|queue| - 1];
    var link' := link[b := HEAD][last := b];
    if queue != [] {
      assert link[last] == After(queue, |queue| - 1);
    }
    forall j | 0 <= j < |queue'| ensures link'[queue'[j]] == After(queue', j) {
      if j < |queue| {
        assert link[queue[j]] == After(queue, j);
        assert queue'[j] == queue[j];
      }
    }
  }

  lemma PopKeeps(link: seq<nat>, queue: seq<nat>)
    requires Chained(link, queue) && queue != []
    ensures link[HEAD] == queue[0] < NBUF && link[queue[0]] <= HEAD
    ensures Chained(link[HEAD := link[queue[0]]], queue[1..])
  {
    var queue', link' := queue[1..], link[HEAD := link[queue[0]]];
    assert link[queue[0]] == After(queue, 0) == After(queue', -1);
    forall j | 0 <= j < |queue'| ensures link'[queue'[j]] == After(queue', j) {
      assert queue'[j] == queue[j + 1];
      assert link[queue[j + 1]] == After(queue, j + 1) == After(queue', j);
    }
  }

  class Driver {
    var bufs: seq<Buf>
    var link: seq<nat>
    var dev: Device
    var disk: map<Key, Block>
    ghost var queue: seq<nat>
    ghost var inside: set<nat>

    ghost predicate Valid()
      reads this
    {
      |bufs| == NBUF && Chained(link, queue) && Inv(S())
    }

    ghost function S(): Ide
      reads this
    {
      Ide(bufs, queue, dev, disk, inside)
    }

    constructor (bufs0: seq<Buf>, disk0: map<Key, Block>)
      requires |bufs0| == NBUF && forall k :: k in disk0 ==> GoodKey(k)
      ensures Valid() && S() == Ide(bufs0, [], Idle, disk0, {})
    {
      bufs, disk, dev := bufs0, disk0, Idle;
      link := seq(NBUF + 1, _ => HEAD);
      queue, inside := [], {};
    }

    /** idestart: none of its panics happens. */
    method Start(b: nat)
      requires b < NBUF == |bufs| && GoodKey(bufs[b].key)
      modifies `dev
      ensures dev == Busy(CommandFor(bufs[b]))
    {
      var sector := bufs[b].key.blockno;
      var drive := 0xe0 + bufs[b].key.dev % 2 * 16 + sector / 16777216 % 16;
      dev := Busy(Command(1, sector % 256, sector / 256 % 256, sector / 65536 % 256, drive, bufs[b].dirty,
        bufs[b].data));
    }

    /** iderw, until it sleeps. */
    method Submit(b: nat)
      requires Valid() && Enabled(S(), IdeState.Submit(b))
      modifies this
      ensures Valid() && S() == old(Next(S(), IdeState.Submit(b)))
    {
      ghost var s := S();
      SubmitKeeps(s, b);
      assert b !in queue;
      var pp := EndOfQueue();
      AppendKeeps(link, queue, b);
      link := link[b := HEAD];
      link := link[pp := b];
      if link[HEAD] == b {
        FirstIs(queue, b);
        assert disk == s.disk && bufs[b].key in disk;
        Start(b);
      } else {
        assert queue != [];
      }
      queue := queue + [b];
      inside := inside + {b};
      hide Inv, CommandFor, Wanting;
    }

    /** The walk along the queue to its last link, which is still empty. */
    method EndOfQueue() returns (pp: nat)
      requires Valid()
      ensures pp == if queue == [] then HEAD else queue[|queue| - 1]
      ensures pp < |link|
    {
      hide Inv;
      pp := HEAD;
      ghost var j := -1;
      while link[pp] != HEAD
        invariant -1 <= j < |queue| && pp == (if j < 0 then HEAD else queue[j])
        invariant link[pp] == After(queue, j)
        decreases |queue| - j
      {
        pp := link[pp];
        j := j + 1;
        assert link[queue[j]] == After(queue, j);
      }
    }

    /** ideintr, when the device has raised its interrupt or has nothing to do. */
    method Interrupt()
      requires Valid() && !dev.Busy?
      modifies this
      ensures Valid()
      ensures old(dev).Idle? ==> S() == old(S())
      ensures old(dev).Done? ==> old(Enabled(S(), IdeState.Interrupt)) && S() == old(Next(S(), IdeState.Interrupt))
    {
      var b := link[HEAD];
      if b == HEAD {
        assert queue == [];
        return;
      }
      ghost var s := S();
      QueueMoves(s);
      InterruptKeeps(s);
      PopKeeps(link, queue);
      link := link[HEAD := link[b]];
      if !bufs[b].dirty {
        bufs := bufs[b := bufs[b].(data := dev.out)];
      }
      bufs := bufs[b := bufs[b].(valid := true, dirty := false)];
      queue := queue[1..];
      assert bufs == s.bufs[b := Finished(s.bufs[b], s.dev.out)];
      if link[HEAD] != HEAD {
        assert |queue| > 0 && link[HEAD] == queue[0] == s.queue[1];
        assert queue[0] in s.queue && bufs[queue[0]] == s.bufs[queue[0]] && bufs[queue[0]].key in disk;
        Start(link[HEAD]);
      } else {
        assert queue == [];
        dev := Idle;
      }
      hide Inv, CommandFor, Wanting;
    }
  }

  /** After an append, the first is b only if the queue was empty. */
  lemma FirstIs(queue: seq<nat>, b: nat)
    requires b !in queue && (queue + [b])[0] == b
    ensures queue == []
  {
  }
}
