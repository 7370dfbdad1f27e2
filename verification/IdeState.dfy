/** The IDE driver as a machine: requests are queued, the device works on the first, its interrupt
    completes it. The in-memory disk, which does the same at once, is the specification. */
module IdeState {
  import opened Bytes
  import opened Buffer

  const FSSIZE := 1000

  /** What idestart puts in the ports 0x1f2 to 0x1f6, and for a write the data sent to 0x1f0. */
  datatype Command = Command(count: nat, low: nat, mid: nat, high: nat, drive: nat, write: bool, data: Block)

  /** The drive: nothing to do, at work, or finished with its interrupt raised. */
  datatype Device = Idle | Busy(cmd: Command) | Done(cmd: Command, out: Block)

  /** The buffers, the queue, the device, the two disks, and who is inside iderw. */
  datatype Ide = Ide(bufs: seq<Buf>, queue: seq<nat>, dev: Device, disk: map<Key, Block>, inside: set<nat>)

  datatype Action =
    | Submit(i: nat)               // iderw up to its sleep
    | Complete                     // the device finishes its command
    | Interrupt                    // ideintr
    | Return(i: nat)               // iderw returns
    | Other(i: nat, b: Buf)        // anything else done to a buffer by the rest of the kernel

  /** The sector of a block; a block is one sector. */
  predicate GoodKey(k: Key) {
    k.dev < 2 && k.blockno < FSSIZE
  }

  function CommandFor(b: Buf): Command {
    var sector := b.key.blockno;
    Command(1, sector % 256, sector / 256 % 256, sector / 65536 % 256,
            0xe0 + b.key.dev % 2 * 16 + sector / 16777216 % 16, b.dirty, b.data)
  }

  /** Which sector of which drive the ports name. */
  function Target(c: Command): Key {
    Key(c.drive / 16 % 2, c.low + 256 * c.mid + 65536 * c.high + 16777216 * (c.drive % 16))
  }

  /** The ports say what was meant. */
  lemma CommandTarget(b: Buf)
    requires GoodKey(b.key)
    ensures Target(CommandFor(b)) == b.key
  {
    assert b.key.blockno / 16777216 % 16 == 0;
  }

  // ----- the specification: memide's iderw

  /** The flags say there is something to do. */
  predicate Wanting(b: Buf) {
    !(b.valid && !b.dirty)
  }

  function MemBuf(b: Buf, disk: map<Key, Block>): Buf
    requires b.key in disk
  {
    if b.dirty then b.(valid := true, dirty := false) else b.(valid := true, data := disk[b.key])
  }

  function MemDisk(b: Buf, disk: map<Key, Block>): map<Key, Block> {
    if b.dirty then disk[b.key := b.data] else disk
  }

  // ----- the machine

  /** What ideintr does to the first buffer, given what the device read. */
  function Finished(b: Buf, out: Block): Buf {
    if b.dirty then b.(valid := true, dirty := false) else b.(valid := true, data := out)
  }

  predicate Enabled(s: Ide, a: Action) {
    match a
    case Submit(i) => i < |s.bufs| && i !in s.inside && s.bufs[i].locked && Wanting(s.bufs[i])
      && s.bufs[i].key in s.disk
    case Complete => s.dev.Busy? && Target(s.dev.cmd) in s.disk
    case Interrupt => s.dev.Done? && s.queue != [] && s.queue[0] < |s.bufs| && (|s.queue| > 1 ==> s.queue[1] < |s.bufs|)
    case Return(i) => i < |s.bufs| && i in s.inside && !Wanting(s.bufs[i])
    case Other(i, b) => i < |s.bufs| && i !in s.inside
  }

  function Next(s: Ide, a: Action): Ide
    requires Enabled(s, a)
  {
    match a
    case Submit(i) =>
      s.(queue := s.queue + [i], inside := s.inside + {i},
         dev := if s.queue == [] then Busy(CommandFor(s.bufs[i])) else s.dev)
    case Complete =>
      var cmd := s.dev.cmd;
      s.(dev := Done(cmd, s.disk[Target(cmd)]), disk := if cmd.write then s.disk[Target(cmd) := cmd.data] else s.disk)
    case Interrupt =>
      var bufs := s.bufs[s.queue[0] := Finished(s.bufs[s.queue[0]], s.dev.out)];
      s.(bufs := bufs, queue := s.queue[1..], dev := if |s.queue| > 1 then Busy(CommandFor(bufs[s.queue[1]])) else Idle)
    case Return(i) => s.(inside := s.inside - {i})
    case Other(i, b) => s.(bufs := s.bufs[i := b])
  }

  // ----- the invariant

  ghost predicate Inv(s: Ide) {
    && Distinct(s.queue)
    && (forall k :: k in s.disk ==> GoodKey(k))
    && (forall i :: i in s.inside ==> i < |s.bufs|)
    && (forall i :: i in s.queue ==> i in s.inside)
    && (forall i :: i in s.queue ==> Wanting(s.bufs[i]) && s.bufs[i].key in s.disk)
    && (forall i :: i in s.inside && i !in s.queue ==> !Wanting(s.bufs[i]))
    && (s.dev.Idle? <==> s.queue == [])
    && (!s.dev.Idle? ==> s.queue[0] in s.queue && s.dev.cmd == CommandFor(s.bufs[s.queue[0]]))
  }

  lemma SubmitKeeps(s: Ide, i: nat)
    requires Inv(s) && Enabled(s, Submit(i))
    ensures Inv(Next(s, Submit(i)))
  {
    var s' := Next(s, Submit(i));
    hide CommandFor, Wanting, GoodKey;
    assert forall j :: j in s'.queue <==> j in s.queue || j == i;
  }

  lemma TailIs(q: seq<nat>)
    requires q != [] && Distinct(q)
    ensures Distinct(q[1..]) && q[0] !in q[1..]
    ensures forall j :: j in q <==> j == q[0] || j in q[1..]
    ensures |q| > 1 ==> q[1..][0] == q[1] && q[1] in q
  {
    assert q == [q[0]] + q[1..];
  }

  lemma InterruptKeeps(s: Ide)
    requires Inv(s) && Enabled(s, Interrupt)
    ensures Inv(Next(s, Interrupt))
  {
    TailIs(s.queue);
    hide CommandFor, GoodKey, Distinct;
    assert s.queue[0] in s.inside;
  }

  lemma NextKeeps(s: Ide, a: Action)
    requires Inv(s) && Enabled(s, a)
    ensures Inv(Next(s, a))
  {
    match a
    case Submit(i) => SubmitKeeps(s, i);
    case Interrupt => InterruptKeeps(s);
    case Complete =>
      CommandTarget(s.bufs[s.queue[0]]);
      assert s.queue[0] in s.queue;
    case Return(i) => assert i !in s.queue;
    case Other(i, b) => assert i !in s.queue;
  }

  // ----- refinement of the in-memory disk

  /** The buffers as the in-memory disk has them: the request whose command the device has finished
      counts as done although its interrupt is still to come. */
  ghost function Seen(s: Ide): seq<Buf>
    requires Inv(s)
  {
    if s.dev.Done? then
      assert s.queue[0] in s.queue;
      s.bufs[s.queue[0] := Finished(s.bufs[s.queue[0]], s.dev.out)]
    else s.bufs
  }

  /** Every step is a step of the in-memory disk or none at all: the device finishing is memide's
      iderw of the first request; queueing, the interrupt and returning change nothing. */
  lemma StepRefines(s: Ide, a: Action)
    requires Inv(s) && Enabled(s, a)
    ensures Inv(Next(s, a))
    ensures a.Complete? ==> s.queue != [] && s.queue[0] < |s.bufs| && s.bufs[s.queue[0]].key in s.disk
    ensures a.Complete? ==> Next(s, a).disk == MemDisk(Seen(s)[s.queue[0]], s.disk)
    ensures a.Complete? ==> Seen(Next(s, a)) == Seen(s)[s.queue[0] := MemBuf(Seen(s)[s.queue[0]], s.disk)]
    ensures !a.Complete? ==> Next(s, a).disk == s.disk
    ensures a.Other? ==> Seen(Next(s, a)) == Seen(s)[a.i := a.b]
    ensures a.Submit? || a.Interrupt? || a.Return? ==> Seen(Next(s, a)) == Seen(s)
  {
    NextKeeps(s, a);
    if s.queue != [] {
      assert s.queue[0] in s.queue;
      CommandTarget(s.bufs[s.queue[0]]);
    }
    hide CommandFor, Target, GoodKey, Distinct;
  }

  /** iderw does not get stuck: while requests wait, the device is at work or its interrupt is up. */
  lemma QueueMoves(s: Ide)
    requires Inv(s) && s.queue != []
    ensures Enabled(s, Complete) || Enabled(s, Interrupt)
  {
    assert s.queue[0] in s.queue;
    assert |s.queue| > 1 ==> s.queue[1] in s.queue;
    CommandTarget(s.bufs[s.queue[0]]);
  }

  /** A sleeper wakes to find its request done exactly when the request has left the queue. */
  lemma ReturnsWhenServed(s: Ide, i: nat)
    requires Inv(s) && i in s.inside
    ensures Enabled(s, Return(i)) <==> i !in s.queue
  {
  }
}
