/** Several operations in the inode layer at once. Each works on inodes whose locks it holds, and every
    step is what one buffer's lock makes atomic: a change of one block and its log_write, or a change of
    a locked inode in memory. Unlock stands for the last change made under the lock. Blocks between
    balloc and the pointer that records them are `loose`. */
module FsShare {
  import opened Bytes
  import opened Bitmap
  import opened Dinode
  import opened FsState
  import opened FsGrow
  import opened FsData
  import opened FsTrunc

  /** What the holder of an inode's lock is doing; itrunc has gone through the first n pointers. */
  datatype Work = Writing | Freeing(n: nat)

  /** An allocated block that no pointer records yet: for which inode, and whether bzero has been done. */
  datatype Loose = Loose(inum: nat, zeroed: bool)

  datatype Shared = Shared(fs: Fs, own: Owners, ms: seq<nat>, busy: map<nat, Work>, loose: map<nat, Loose>)

  datatype Action =
    | Lock(i: nat)
    | Unlock(i: nat)
    | Take(i: nat, r: nat)               // balloc: the bit
    | Zero(i: nat, r: nat)               // balloc: bzero
    | MapDirect(i: nat, r: nat)          // bmap: a direct pointer
    | MapTable(i: nat, r: nat)           // bmap: the indirect block
    | MapEntry(i: nat, r: nat)           // bmap: an entry of it
    | Put(i: nat, bn: nat, x: Block)     // writei: a block of data
    | Change(i: nat, ip: Inode)          // fields of the inode other than its pointers
    | Store(i: nat)                      // iupdate
    | StartFree(i: nat)                  // itrunc begins
    | FreePtr(i: nat)                    // its next pointer
    | FreeTable(i: nat)                  // the indirect block; its pointers are all gone
    | Ialloc(i: nat, ip: Inode)          // an inode of type 0 gets a type

  // ----- the invariant

  /** A bit is set exactly when the block is metadata, owned or loose. */
  ghost predicate BitsAgree(sb: Super, fs: Fs, own: Owners, loose: map<nat, Loose>)
    requires Shape(sb, fs)
  {
    && (forall b :: b in own || b in loose ==> sb.datastart <= b < sb.size)
    && (forall b :: b in own ==> b !in loose)
    && (forall b :: 0 <= b < sb.size ==> (Allocated(sb, fs, b) <==> b < sb.datastart || b in own || b in loose))
  }

  /** Blocks n to m of inode i are mapped and owned; direct pointers before n are cleared. */
  ghost predicate MapsFrom(sb: Super, fs: Fs, own: Owners, i: nat, n: nat, m: nat)
    requires Shape(sb, fs) && i < sb.ninodes
  {
    && m <= MAXFILE && n <= MAXFILE
    && (forall bn :: n <= bn < m ==> Ptr(sb, fs, i, bn) in own && own[Ptr(sb, fs, i, bn)] == Data(i, bn))
    && (forall bn :: m <= bn < MAXFILE || (0 <= bn < n && bn < NDIRECT) ==> Ptr(sb, fs, i, bn) == 0)
    && (TableOf(sb, fs, i) != 0 ==> TableOf(sb, fs, i) in own && own[TableOf(sb, fs, i)] == Table(i))
    && (NDIRECT < m ==> TableOf(sb, fs, i) != 0)
  }

  function From(s: Shared, i: nat): nat {
    if i in s.busy && s.busy[i].Freeing? then s.busy[i].n else 0
  }

  ghost predicate LooseOk(s: Shared) {
    forall b :: b in s.loose ==>
      && s.loose[b].inum in s.busy
      && (s.loose[b].zeroed ==> b < |s.fs.blocks| && s.fs.blocks[b] == ZeroBlock())
  }

  /** itrunc has not passed the pointer to b. */
  predicate Ahead(s: Shared, b: nat)
    requires b in s.own
  {
    s.own[b].Data? ==> From(s, s.own[b].inum) <= s.own[b].bn
  }

  ghost predicate SInv(sb: Super, s: Shared) {
    && Shape(sb, s.fs) && |s.ms| == sb.ninodes
    && BitsAgree(sb, s.fs, s.own, s.loose) && LooseOk(s)
    && (forall b :: b in s.own ==> Placed(sb, s.fs, s.own, b) && Ahead(s, b))
    && (forall i :: 0 <= i < sb.ninodes ==> MapsFrom(sb, s.fs, s.own, i, From(s, i), s.ms[i]))
    && (forall i :: 0 <= i < sb.ninodes && i !in s.busy ==> Settled(sb, s.fs, i, s.ms[i]))
  }

  /** Nobody is at work. */
  predicate AtRest(s: Shared) {
    s.busy == map[] && s.loose == map[]
  }

  lemma IdleInv(sb: Super, s: Shared)
    requires AtRest(s)
    ensures SInv(sb, s) <==> Inv(sb, s.fs, s.own, s.ms, IDLE)
  {
    hide Ptr, Allocated, Settled, Placed;
    if SInv(sb, s) {
      assert BitsMatch(sb, s.fs, s.own);
      forall i | 0 <= i < sb.ninodes ensures Maps(sb, s.fs, s.own, i, s.ms[i]) {
        assert MapsFrom(sb, s.fs, s.own, i, From(s, i), s.ms[i]);
      }
    }
    if Inv(sb, s.fs, s.own, s.ms, IDLE) {
      forall i | 0 <= i < sb.ninodes ensures MapsFrom(sb, s.fs, s.own, i, From(s, i), s.ms[i]) {
        assert Maps(sb, s.fs, s.own, i, s.ms[i]);
      }
    }
  }

  // ----- the steps

  /** Inode i is locked, and itrunc is not at work on it. */
  predicate Locked(s: Shared, i: nat) {
    i in s.busy && s.busy[i] == Writing
  }

  predicate LooseFor(s: Shared, r: nat, i: nat) {
    r in s.loose && s.loose[r].inum == i
  }

  ghost predicate Enabled(sb: Super, s: Shared, a: Action) {
    && Shape(sb, s.fs) && |s.ms| == sb.ninodes && a.i < sb.ninodes
    && match a
       case Lock(i) => i !in s.busy
       case Unlock(i) =>
         Locked(s, i) && Settled(sb, s.fs, i, s.ms[i]) && forall b :: b in s.loose ==> s.loose[b].inum != i
       case Take(i, r) => Locked(s, i) && r < sb.size && !Allocated(sb, s.fs, r)
       case Zero(i, r) => Locked(s, i) && LooseFor(s, r, i) && r < sb.size
       case MapDirect(i, r) => Locked(s, i) && LooseFor(s, r, i) && s.ms[i] < NDIRECT && r < UINT_MOD
       case MapTable(i, r) =>
         Locked(s, i) && LooseFor(s, r, i) && s.loose[r].zeroed && TableOf(sb, s.fs, i) == 0 && r < UINT_MOD
       case MapEntry(i, r) =>
         && Locked(s, i) && LooseFor(s, r, i) && NDIRECT <= s.ms[i] < MAXFILE && r < UINT_MOD
         && 0 < TableOf(sb, s.fs, i) < sb.size
       case Put(i, bn, _) => Locked(s, i) && bn < s.ms[i] && bn < MAXFILE && Ptr(sb, s.fs, i, bn) < sb.size
       case Change(i, ip) => Locked(s, i) && ip.addrs == s.fs.inodes[i].addrs && ip.size <= MAXSIZE
       case Store(i) => Locked(s, i)
       case StartFree(i) => Locked(s, i)
       case FreePtr(i) =>
         i in s.busy && s.busy[i].Freeing? && s.busy[i].n < MAXFILE && Ptr(sb, s.fs, i, s.busy[i].n) < sb.size
       case FreeTable(i) => i in s.busy && s.busy[i] == Freeing(MAXFILE) && TableOf(sb, s.fs, i) < sb.size
       case Ialloc(i, ip) =>
         && i !in s.busy && s.fs.inodes[i].kind == 0 && s.fs.inodes[i].size == 0
         && ip.size == 0 && ip.addrs == s.fs.inodes[i].addrs
  }

  /** One bit set. */
  function MarkUsed(sb: Super, fs: Fs, r: nat): Fs
    requires Shape(sb, fs) && r < sb.size
  {
    var bb := BBlock(sb, r);
    fs.(blocks := fs.blocks[bb := SetBlockBit(fs.blocks[bb], r % BPB)])
  }

  /** The pointer bn of inode i is given up: its block is free, a direct pointer is cleared. */
  function DropPtr(sb: Super, fs: Fs, i: nat, bn: nat): Fs
    requires Shape(sb, fs) && i < sb.ninodes && bn < MAXFILE && Ptr(sb, fs, i, bn) < sb.size
  {
    var p := Ptr(sb, fs, i, bn);
    var fs' := if p == 0 then fs else FreeBlock(sb, fs, p);
    if bn < NDIRECT then fs'.(inodes := fs.inodes[i := fs.inodes[i].(addrs := fs.inodes[i].addrs[bn := 0])]) else fs'
  }

  function DropTable(sb: Super, fs: Fs, i: nat): Fs
    requires Shape(sb, fs) && i < sb.ninodes && TableOf(sb, fs, i) < sb.size
  {
    var t := TableOf(sb, fs, i);
    var fs' := if t == 0 then fs else FreeBlock(sb, fs, t);
    fs'.(inodes := fs.inodes[i := fs.inodes[i].(addrs := fs.inodes[i].addrs[NDIRECT := 0])])
  }

  ghost function Next(sb: Super, s: Shared, a: Action): Shared
    requires Enabled(sb, s, a)
  {
    var fs := s.fs;
    match a
    case Lock(i) => s.(busy := s.busy[i := Writing])
    case Unlock(i) => s.(busy := s.busy - {i})
    case Take(i, r) => s.(fs := MarkUsed(sb, fs, r), loose := s.loose[r := Loose(i, false)])
    case Zero(i, r) => s.(fs := PutBlock(sb, fs, r, ZeroBlock()), loose := s.loose[r := Loose(i, true)])
    case MapDirect(i, r) =>
      s.(fs := SetAddr(sb, fs, i, s.ms[i], r), own := s.own[r := Data(i, s.ms[i])], ms := s.ms[i := s.ms[i] + 1],
         loose := s.loose - {r})
    case MapTable(i, r) =>
      s.(fs := SetAddr(sb, fs, i, NDIRECT, r), own := s.own[r := Table(i)], loose := s.loose - {r})
    case MapEntry(i, r) =>
      s.(fs := SetEntry(sb, fs, TableOf(sb, fs, i), s.ms[i] - NDIRECT, r), own := s.own[r := Data(i, s.ms[i])],
         ms := s.ms[i := s.ms[i] + 1], loose := s.loose - {r})
    case Put(i, bn, x) => s.(fs := PutBlock(sb, fs, Ptr(sb, fs, i, bn), x))
    case Change(i, ip) => s.(fs := fs.(inodes := fs.inodes[i := ip]))
    case Store(i) => s.(fs := Stored(sb, fs, i))
    case StartFree(i) => s.(busy := s.busy[i := Freeing(0)])
    case FreePtr(i) =>
      var n := s.busy[i].n;
      s.(fs := DropPtr(sb, fs, i, n), own := s.own - {Ptr(sb, fs, i, n)}, busy := s.busy[i := Freeing(n + 1)])
    case FreeTable(i) =>
      s.(fs := DropTable(sb, fs, i), own := s.own - {TableOf(sb, fs, i)}, ms := s.ms[i := 0],
         busy := s.busy[i := Writing])
    case Ialloc(i, ip) => s.(fs := Stored(sb, fs.(inodes := fs.inodes[i := ip]), i))
  }

  // ----- what a step for inode i leaves alone

  /** Other inodes, their blocks and their state are as before. */
  ghost predicate Aside(sb: Super, s: Shared, s': Shared, i: nat)
    requires Shape(sb, s.fs) && Shape(sb, s'.fs) && |s.ms| == |s'.ms| == sb.ninodes
  {
    && (forall j :: 0 <= j < sb.ninodes && j != i ==>
      && s'.fs.inodes[j] == s.fs.inodes[j] && s'.ms[j] == s.ms[j]
      && StoredInode(sb, s'.fs, j) == StoredInode(sb, s.fs, j)
      && (j in s'.busy <==> j in s.busy) && From(s', j) == From(s, j))
    && (forall b :: b in s'.own && s'.own[b].inum != i ==> b in s.own && s'.own[b] == s.own[b])
    && (forall b :: b in s.own && s.own[b].inum != i ==>
      && b in s'.own && s'.own[b] == s.own[b] && b < |s.fs.blocks| == |s'.fs.blocks|
      && s'.fs.blocks[b] == s.fs.blocks[b])
  }

  lemma PtrSame(sb: Super, fs: Fs, fs': Fs, j: nat, bm: nat)
    requires Shape(sb, fs) && Shape(sb, fs') && j < sb.ninodes && bm < MAXFILE
    requires fs'.inodes[j].addrs == fs.inodes[j].addrs
    requires var t := TableOf(sb, fs, j); 0 < t < sb.size ==> fs'.blocks[t] == fs.blocks[t]
    ensures Ptr(sb, fs', j, bm) == Ptr(sb, fs, j, bm)
  {
  }

  lemma OtherPtrs(sb: Super, s: Shared, s': Shared, i: nat, j: nat)
    requires SInv(sb, s) && Shape(sb, s'.fs) && |s'.ms| == sb.ninodes && Aside(sb, s, s', i) && j < sb.ninodes && j != i
    ensures forall bm :: 0 <= bm < MAXFILE ==> Ptr(sb, s'.fs, j, bm) == Ptr(sb, s.fs, j, bm)
  {
    hide Placed, BitsAgree, LooseOk, Ptr, Settled, From;
    assert MapsFrom(sb, s.fs, s.own, j, From(s, j), s.ms[j]);
    hide SInv;
    forall bm | 0 <= bm < MAXFILE ensures Ptr(sb, s'.fs, j, bm) == Ptr(sb, s.fs, j, bm) {
      PtrSame(sb, s.fs, s'.fs, j, bm);
    }
  }

  lemma SameMaps(sb: Super, fs: Fs, own: Owners, fs': Fs, own': Owners, j: nat, n: nat, m: nat)
    requires Shape(sb, fs) && Shape(sb, fs') && j < sb.ninodes && MapsFrom(sb, fs, own, j, n, m)
    requires forall bm :: 0 <= bm < MAXFILE ==> Ptr(sb, fs', j, bm) == Ptr(sb, fs, j, bm)
    requires TableOf(sb, fs', j) == TableOf(sb, fs, j)
    requires forall b :: b in own && own[b].inum == j ==> b in own' && own'[b] == own[b]
    ensures MapsFrom(sb, fs', own', j, n, m)
  {
    hide Ptr;
  }

  lemma OtherMaps(sb: Super, s: Shared, s': Shared, i: nat, j: nat)
    requires SInv(sb, s) && Shape(sb, s'.fs) && |s'.ms| == sb.ninodes && Aside(sb, s, s', i) && j < sb.ninodes && j != i
    ensures MapsFrom(sb, s'.fs, s'.own, j, From(s', j), s'.ms[j])
    ensures forall bm :: 0 <= bm < MAXFILE ==> Ptr(sb, s'.fs, j, bm) == Ptr(sb, s.fs, j, bm)
    ensures j !in s'.busy ==> Settled(sb, s'.fs, j, s'.ms[j])
  {
    hide Placed, BitsAgree, LooseOk, Ptr, MapsFrom, From, StoredInode;
    OtherPtrs(sb, s, s', i, j);
    SameMaps(sb, s.fs, s.own, s'.fs, s'.own, j, From(s, j), s.ms[j]);
  }

  /** A step for inode i keeps the invariant if it does so for inode i and for the bits. */
  lemma StepKeeps(sb: Super, s: Shared, s': Shared, i: nat)
    requires SInv(sb, s) && Shape(sb, s'.fs) && |s'.ms| == sb.ninodes && Aside(sb, s, s', i) && i < sb.ninodes
    requires BitsAgree(sb, s'.fs, s'.own, s'.loose) && LooseOk(s')
    requires MapsFrom(sb, s'.fs, s'.own, i, From(s', i), s'.ms[i])
    requires forall b :: b in s'.own && s'.own[b].inum == i ==> Placed(sb, s'.fs, s'.own, b) && Ahead(s', b)
    requires i !in s'.busy ==> Settled(sb, s'.fs, i, s'.ms[i])
    ensures SInv(sb, s')
  {
    hide BitsAgree, LooseOk, MapsFrom, Settled, Ptr;
    forall j | 0 <= j < sb.ninodes
      ensures MapsFrom(sb, s'.fs, s'.own, j, From(s', j), s'.ms[j])
      ensures j !in s'.busy ==> Settled(sb, s'.fs, j, s'.ms[j])
    {
      if j != i {
        OtherMaps(sb, s, s', i, j);
      }
    }
    forall b | b in s'.own ensures Placed(sb, s'.fs, s'.own, b) && Ahead(s', b) {
      if s'.own[b].inum != i {
        assert Placed(sb, s.fs, s.own, b) && Ahead(s, b);
        OtherMaps(sb, s, s', i, s.own[b].inum);
      }
    }
  }

  /** Inode i itself, when its pointers and its indirect block are as before. */
  lemma SelfKeeps(sb: Super, s: Shared, s': Shared, i: nat)
    requires SInv(sb, s) && Shape(sb, s'.fs) && |s'.ms| == sb.ninodes && i < sb.ninodes
    requires s'.own == s.own && s'.ms[i] == s.ms[i] && From(s', i) == From(s, i)
    requires s'.fs.inodes[i].addrs == s.fs.inodes[i].addrs
    requires var t := TableOf(sb, s.fs, i); t in s.own && t < sb.size ==> s'.fs.blocks[t] == s.fs.blocks[t]
    ensures MapsFrom(sb, s'.fs, s'.own, i, From(s', i), s'.ms[i])
    ensures forall b :: b in s'.own && s'.own[b].inum == i ==> Placed(sb, s'.fs, s'.own, b) && Ahead(s', b)
    ensures forall bm :: 0 <= bm < MAXFILE ==> Ptr(sb, s'.fs, i, bm) == Ptr(sb, s.fs, i, bm)
  {
    hide Placed, BitsAgree, LooseOk, Ptr, Settled, From;
    assert MapsFrom(sb, s.fs, s.own, i, From(s, i), s.ms[i]);
    forall bm | 0 <= bm < MAXFILE ensures Ptr(sb, s'.fs, i, bm) == Ptr(sb, s.fs, i, bm) {
      PtrSame(sb, s.fs, s'.fs, i, bm);
    }
    hide MapsFrom;
    SameMaps(sb, s.fs, s.own, s'.fs, s'.own, i, From(s, i), s.ms[i]);
    forall b | b in s'.own && s'.own[b].inum == i ensures Placed(sb, s'.fs, s'.own, b) && Ahead(s', b) {
      assert Ahead(s, b);
      SamePlaced(sb, s.fs, s.own, s'.fs, i, b);
    }
  }

  lemma SamePlaced(sb: Super, fs: Fs, own: Owners, fs': Fs, i: nat, b: nat)
    requires Shape(sb, fs) && Shape(sb, fs') && i < sb.ninodes && b in own && own[b].inum == i && Placed(sb, fs, own, b)
    requires forall bm :: 0 <= bm < MAXFILE ==> Ptr(sb, fs', i, bm) == Ptr(sb, fs, i, bm)
    requires TableOf(sb, fs', i) == TableOf(sb, fs, i)
    ensures Placed(sb, fs', own, b)
  {
    hide Ptr;
  }

  // ----- effects on the blocks

  lemma StoredSame(sb: Super, fs: Fs, fs': Fs, j: nat)
    requires Shape(sb, fs) && Shape(sb, fs') && j < sb.ninodes
    requires forall b :: 0 <= b < sb.bmapstart ==> fs'.blocks[b] == fs.blocks[b]
    ensures StoredInode(sb, fs', j) == StoredInode(sb, fs, j)
  {
    assert IBlock(sb, j) < sb.bmapstart;
  }

  lemma BitsSame(sb: Super, fs: Fs, fs': Fs, b: nat)
    requires Shape(sb, fs) && Shape(sb, fs') && b < sb.size
    requires forall c :: sb.bmapstart <= c < sb.datastart ==> fs'.blocks[c] == fs.blocks[c]
    ensures Allocated(sb, fs', b) == Allocated(sb, fs, b)
  {
    assert sb.bmapstart <= BBlock(sb, b) < sb.datastart;
  }

  /** Setting or clearing a bit changes one bitmap block. */
  lemma BitEffect(sb: Super, fs: Fs, r: nat, b: nat)
    requires Shape(sb, fs) && r < sb.size && b < sb.size
    ensures Shape(sb, MarkUsed(sb, fs, r)) && Shape(sb, FreeBlock(sb, fs, r))
    ensures Allocated(sb, MarkUsed(sb, fs, r), b) <==> Allocated(sb, fs, b) || b == r
    ensures Allocated(sb, FreeBlock(sb, fs, r), b) <==> Allocated(sb, fs, b) && b != r
  {
    var bb := BBlock(sb, r);
    if BBlock(sb, b) == bb {
      BlockBitOfSet(fs.blocks[bb], r % BPB, b % BPB);
      assert b / BPB == r / BPB;
    }
  }

  lemma BitFrame(sb: Super, fs: Fs, r: nat)
    requires Shape(sb, fs) && r < sb.size
    ensures Shape(sb, MarkUsed(sb, fs, r)) && Shape(sb, FreeBlock(sb, fs, r))
    ensures MarkUsed(sb, fs, r).inodes == FreeBlock(sb, fs, r).inodes == fs.inodes
    ensures forall b :: 0 <= b < sb.bmapstart || sb.datastart <= b < sb.size ==>
      MarkUsed(sb, fs, r).blocks[b] == FreeBlock(sb, fs, r).blocks[b] == fs.blocks[b]
  {
    assert sb.bmapstart <= BBlock(sb, r) < sb.datastart;
  }

  /** The invariant, and nothing changed for other inodes. */
  ghost predicate Keeps(sb: Super, s: Shared, s': Shared, i: nat) {
    SInv(sb, s) && SInv(sb, s') && Aside(sb, s, s', i)
  }

  // ----- steps that change no pointer

  /** The pointers of all inodes are as before, and so is everything about inodes other than i. */
  ghost predicate NoPtr(sb: Super, s: Shared, s': Shared, i: nat)
    requires Shape(sb, s.fs)
  {
    && Shape(sb, s'.fs) && s'.own == s.own && s'.ms == s.ms && i < sb.ninodes
    && (forall j :: 0 <= j < sb.ninodes && j != i ==>
      && s'.fs.inodes[j] == s.fs.inodes[j] && (j in s'.busy <==> j in s.busy) && From(s', j) == From(s, j)
      && StoredInode(sb, s'.fs, j) == StoredInode(sb, s.fs, j))
    && s'.fs.inodes[i].addrs == s.fs.inodes[i].addrs && From(s', i) == From(s, i)
    && (forall b :: b in s.own && (s.own[b].Table? || s.own[b].inum != i) && b < sb.size ==>
      s'.fs.blocks[b] == s.fs.blocks[b])
  }

  lemma NoPtrAside(sb: Super, s: Shared, s': Shared, i: nat)
    requires SInv(sb, s) && NoPtr(sb, s, s', i)
    ensures Aside(sb, s, s', i)
    ensures MapsFrom(sb, s'.fs, s'.own, i, From(s', i), s'.ms[i])
    ensures forall b :: b in s'.own && s'.own[b].inum == i ==> Placed(sb, s'.fs, s'.own, b) && Ahead(s', b)
  {
    hide MapsFrom, Placed, Settled, Ptr, StoredInode, LooseOk, Allocated, From;
    TableIn(sb, s, i);
    SelfKeeps(sb, s, s', i);
  }

  lemma TableIn(sb: Super, s: Shared, i: nat)
    requires SInv(sb, s) && i < sb.ninodes
    ensures var t := TableOf(sb, s.fs, i); t in s.own && t < sb.size ==> t != 0 && s.own[t] == Table(i)
    ensures var t := TableOf(sb, s.fs, i); t != 0 ==> t in s.own && s.own[t] == Table(i) && sb.datastart <= t < sb.size
  {
    hide Placed, Settled, Ptr, Allocated;
    assert MapsFrom(sb, s.fs, s.own, i, From(s, i), s.ms[i]);
  }

  lemma NoPtrKeeps(sb: Super, s: Shared, s': Shared, i: nat)
    requires SInv(sb, s) && NoPtr(sb, s, s', i)
    requires BitsAgree(sb, s'.fs, s'.own, s'.loose) && LooseOk(s')
    requires i !in s'.busy ==> Settled(sb, s'.fs, i, s'.ms[i])
    ensures SInv(sb, s') && Aside(sb, s, s', i)
  {
    hide MapsFrom, Placed, Settled, Ptr, StoredInode, LooseOk, Allocated, From, BitsAgree, Aside;
    NoPtrAside(sb, s, s', i);
    StepKeeps(sb, s, s', i);
  }

  // ----- each step keeps the invariant

  lemma TakeBits(sb: Super, s: Shared, i: nat, r: nat)
    requires SInv(sb, s) && Enabled(sb, s, Take(i, r))
    ensures Shape(sb, MarkUsed(sb, s.fs, r))
    ensures BitsAgree(sb, MarkUsed(sb, s.fs, r), s.own, s.loose[r := Loose(i, false)])
  {
    hide MapsFrom, Placed, Settled, Ptr, LooseOk, MarkUsed;
    BitFrame(sb, s.fs, r);
    forall b | 0 <= b < sb.size ensures Allocated(sb, MarkUsed(sb, s.fs, r), b) <==> Allocated(sb, s.fs, b) || b == r {
      BitEffect(sb, s.fs, r, b);
    }
    hide Allocated;
  }

  /** A change of the bitmap alone. */
  lemma BitmapOnly(sb: Super, s: Shared, s': Shared, i: nat)
    requires SInv(sb, s) && Shape(sb, s'.fs) && i < sb.ninodes && s' == s.(fs := s'.fs, loose := s'.loose)
    requires s'.fs.inodes == s.fs.inodes
    requires forall b :: 0 <= b < sb.bmapstart || sb.datastart <= b < sb.size ==> s'.fs.blocks[b] == s.fs.blocks[b]
    ensures NoPtr(sb, s, s', i)
  {
    hide MapsFrom, Placed, Settled, Ptr, LooseOk, Allocated, StoredInode;
    forall j | 0 <= j < sb.ninodes ensures StoredInode(sb, s'.fs, j) == StoredInode(sb, s.fs, j) {
      StoredSame(sb, s.fs, s'.fs, j);
    }
  }

  /** Loose blocks that were there keep their contents. */
  lemma LooseKeep(sb: Super, s: Shared, s': Shared)
    requires SInv(sb, s) && |s'.fs.blocks| == |s.fs.blocks|
    requires forall b :: b in s'.loose ==> s'.loose[b].inum in s'.busy
    requires forall b :: b in s'.loose && s'.loose[b].zeroed ==>
      b < |s.fs.blocks| && (s'.fs.blocks[b] == ZeroBlock() ||
        (b in s.loose && s.loose[b] == s'.loose[b] && s'.fs.blocks[b] == s.fs.blocks[b]))
    ensures LooseOk(s')
  {
    hide MapsFrom, Placed, Settled, Ptr, BitsAgree;
  }

  lemma TakeKeeps(sb: Super, s: Shared, i: nat, r: nat)
    requires SInv(sb, s) && Enabled(sb, s, Take(i, r))
    ensures Keeps(sb, s, Next(sb, s, Take(i, r)), i)
  {
    hide Allocated, MapsFrom, Placed, Settled, Ptr, StoredInode, NoPtr, MarkUsed, ZeroBlock, Aside;
    var s' := Next(sb, s, Take(i, r));
    BitFrame(sb, s.fs, r);
    LooseKeep(sb, s, s');
    BitmapOnly(sb, s, s', i);
    TakeBits(sb, s, i, r);
    hide LooseOk, BitsAgree;
    NoPtrKeeps(sb, s, s', i);
  }

  lemma BitsKeep(sb: Super, fs: Fs, fs': Fs, own: Owners, loose: map<nat, Loose>, loose': map<nat, Loose>)
    requires Shape(sb, fs) && Shape(sb, fs') && BitsAgree(sb, fs, own, loose) && loose'.Keys == loose.Keys
    requires forall b :: sb.bmapstart <= b < sb.datastart ==> fs'.blocks[b] == fs.blocks[b]
    ensures BitsAgree(sb, fs', own, loose')
  {
    forall b | 0 <= b < sb.size ensures Allocated(sb, fs', b) == Allocated(sb, fs, b) {
      BitsSame(sb, fs, fs', b);
    }
    hide Allocated;
    assert forall b :: b in loose' <==> b in loose.Keys;
  }

  /** A change of one data block that is loose, or holds data of inode i. */
  lemma DataOnly(sb: Super, s: Shared, s': Shared, i: nat, c: nat, x: Block)
    requires SInv(sb, s) && i < sb.ninodes && sb.datastart <= c < sb.size
    requires s' == s.(fs := PutBlock(sb, s.fs, c, x), loose := s'.loose) && s'.loose.Keys == s.loose.Keys
    requires c in s.own ==> s.own[c].Data? && s.own[c].inum == i
    ensures NoPtr(sb, s, s', i) && BitsAgree(sb, s'.fs, s'.own, s'.loose)
  {
    hide MapsFrom, Placed, Settled, Ptr, LooseOk, Allocated, StoredInode, BitsAgree;
    forall j | 0 <= j < sb.ninodes ensures StoredInode(sb, s'.fs, j) == StoredInode(sb, s.fs, j) {
      StoredSame(sb, s.fs, s'.fs, j);
    }
    BitsKeep(sb, s.fs, s'.fs, s.own, s.loose, s'.loose);
  }

  lemma ZeroKeeps(sb: Super, s: Shared, i: nat, r: nat)
    requires SInv(sb, s) && Enabled(sb, s, Zero(i, r))
    ensures Keeps(sb, s, Next(sb, s, Zero(i, r)), i)
  {
    hide Allocated, MapsFrom, Placed, Settled, Ptr, StoredInode, NoPtr, ZeroBlock, Aside;
    var s' := Next(sb, s, Zero(i, r));
    assert r in s.loose && r !in s.own && sb.datastart <= r < sb.size;
    assert s'.loose.Keys == s.loose.Keys;
    LooseKeep(sb, s, s');
    hide LooseOk, BitsAgree;
    DataOnly(sb, s, s', i, r, ZeroBlock());
    NoPtrKeeps(sb, s, s', i);
  }

  lemma OwnedPtr(sb: Super, s: Shared, i: nat, bn: nat)
    requires SInv(sb, s) && i < sb.ninodes && From(s, i) <= bn < s.ms[i]
    ensures bn < MAXFILE
    ensures var p := Ptr(sb, s.fs, i, bn); p in s.own && s.own[p] == Data(i, bn) && sb.datastart <= p < sb.size
    ensures Ptr(sb, s.fs, i, bn) !in s.loose
  {
    hide Placed, Settled, Ptr, LooseOk, Allocated;
    assert MapsFrom(sb, s.fs, s.own, i, From(s, i), s.ms[i]);
  }

  lemma PutKeeps(sb: Super, s: Shared, i: nat, bn: nat, x: Block)
    requires SInv(sb, s) && Enabled(sb, s, Put(i, bn, x))
    ensures Keeps(sb, s, Next(sb, s, Put(i, bn, x)), i)
  {
    hide Allocated, MapsFrom, Placed, Settled, Ptr, StoredInode, NoPtr, ZeroBlock, BitsAgree, Aside;
    var s' := Next(sb, s, Put(i, bn, x));
    OwnedPtr(sb, s, i, bn);
    LooseKeep(sb, s, s');
    hide LooseOk;
    DataOnly(sb, s, s', i, Ptr(sb, s.fs, i, bn), x);
    NoPtrKeeps(sb, s, s', i);
  }

  lemma ChangeKeeps(sb: Super, s: Shared, i: nat, ip: Inode)
    requires SInv(sb, s) && Enabled(sb, s, Change(i, ip))
    ensures Keeps(sb, s, Next(sb, s, Change(i, ip)), i)
  {
    hide Allocated, MapsFrom, Placed, Settled, Ptr, StoredInode, ZeroBlock, BitsAgree, Aside;
    var s' := Next(sb, s, Change(i, ip));
    forall j | 0 <= j < sb.ninodes ensures StoredInode(sb, s'.fs, j) == StoredInode(sb, s.fs, j) {
      StoredSame(sb, s.fs, s'.fs, j);
    }
    BitsKeep(sb, s.fs, s'.fs, s.own, s.loose, s'.loose);
    LooseKeep(sb, s, s');
    hide LooseOk;
    NoPtrKeeps(sb, s, s', i);
  }

  lemma StoreNoPtr(sb: Super, s: Shared, s': Shared, i: nat, ip: Inode)
    requires SInv(sb, s) && i < sb.ninodes && ip.addrs == s.fs.inodes[i].addrs && ip.size <= MAXSIZE
    requires Shape(sb, s.fs.(inodes := s.fs.inodes[i := ip]))
    requires s' == s.(fs := Stored(sb, s.fs.(inodes := s.fs.inodes[i := ip]), i))
    ensures NoPtr(sb, s, s', i) && BitsAgree(sb, s'.fs, s'.own, s'.loose) && LooseOk(s')
    ensures StoredInode(sb, s'.fs, i) == ip == s'.fs.inodes[i]
  {
    hide MapsFrom, Placed, Settled, Ptr, StoredInode, Stored, BitsAgree, Allocated, ZeroBlock, GetDinode;
    var fs1 := s.fs.(inodes := s.fs.inodes[i := ip]);
    StoredEffect(sb, fs1, i);
    StoredBlocks(sb, fs1, i);
    forall j | 0 <= j < sb.ninodes ensures StoredInode(sb, fs1, j) == StoredInode(sb, s.fs, j) {
      StoredSame(sb, s.fs, fs1, j);
    }
    BitsKeep(sb, s.fs, s'.fs, s.own, s.loose, s'.loose);
    LooseArea(sb, s);
    LooseKeep(sb, s, s');
  }

  lemma LooseArea(sb: Super, s: Shared)
    requires SInv(sb, s)
    ensures forall b :: b in s.own || b in s.loose ==> sb.datastart <= b < sb.size
  {
    hide MapsFrom, Placed, Settled, Ptr, Allocated, LooseOk;
  }

  lemma StoredBlocks(sb: Super, fs: Fs, i: nat)
    requires Shape(sb, fs) && i < sb.ninodes
    ensures forall b :: sb.bmapstart <= b < sb.size ==> Stored(sb, fs, i).blocks[b] == fs.blocks[b]
  {
    assert IBlock(sb, i) < sb.bmapstart;
  }

  lemma StoreKeeps(sb: Super, s: Shared, i: nat)
    requires SInv(sb, s) && Enabled(sb, s, Store(i))
    ensures Keeps(sb, s, Next(sb, s, Store(i)), i)
  {
    hide Allocated, MapsFrom, Placed, Settled, Ptr, StoredInode, Stored, BitsAgree, LooseOk, NoPtr, Aside;
    var s' := Next(sb, s, Store(i));
    assert s.fs.(inodes := s.fs.inodes[i := s.fs.inodes[i]]) == s.fs;
    StoreNoPtr(sb, s, s', i, s.fs.inodes[i]);
    NoPtrKeeps(sb, s, s', i);
  }

  lemma IallocKeeps(sb: Super, s: Shared, i: nat, ip: Inode)
    requires SInv(sb, s) && Enabled(sb, s, Ialloc(i, ip))
    ensures Keeps(sb, s, Next(sb, s, Ialloc(i, ip)), i)
  {
    hide Allocated, MapsFrom, Placed, Ptr, StoredInode, Stored, BitsAgree, LooseOk, NoPtr, Aside;
    var s' := Next(sb, s, Ialloc(i, ip));
    assert Settled(sb, s.fs, i, s.ms[i]);
    StoreNoPtr(sb, s, s', i, ip);
    StillSettled(sb, s, s', i);
    NoPtrKeeps(sb, s, s', i);
  }

  lemma StillSettled(sb: Super, s: Shared, s': Shared, i: nat)
    requires Shape(sb, s.fs) && |s.ms| == sb.ninodes && NoPtr(sb, s, s', i) && Settled(sb, s.fs, i, s.ms[i])
    requires s'.fs.inodes[i].size == s.fs.inodes[i].size && StoredInode(sb, s'.fs, i) == s'.fs.inodes[i]
    ensures Settled(sb, s'.fs, i, s'.ms[i])
  {
  }

  /** Locks, and the start of itrunc. */
  lemma LockKeeps(sb: Super, s: Shared, a: Action)
    requires SInv(sb, s) && Enabled(sb, s, a) && (a.Lock? || a.Unlock? || a.StartFree?)
    ensures Keeps(sb, s, Next(sb, s, a), a.i)
  {
    hide Allocated, MapsFrom, Placed, Ptr, StoredInode, BitsAgree, Settled, Aside;
    var s' := Next(sb, s, a);
    LooseKeep(sb, s, s');
    hide LooseOk;
    NoPtrKeeps(sb, s, s', a.i);
  }

  // ----- recording a loose block

  lemma RecordBits(sb: Super, fs: Fs, fs': Fs, own: Owners, loose: map<nat, Loose>, r: nat, o: Owner)
    requires Shape(sb, fs) && Shape(sb, fs') && BitsAgree(sb, fs, own, loose) && r in loose
    requires forall b :: sb.bmapstart <= b < sb.datastart ==> fs'.blocks[b] == fs.blocks[b]
    ensures BitsAgree(sb, fs', own[r := o], loose - {r})
  {
    forall b | 0 <= b < sb.size ensures Allocated(sb, fs', b) == Allocated(sb, fs, b) {
      BitsSame(sb, fs, fs', b);
    }
    hide Allocated;
  }

  /** Inode i with one more pointer. */
  lemma GrowSelf(sb: Super, fs: Fs, fs': Fs, own: Owners, i: nat, m: nat, r: nat)
    requires Shape(sb, fs) && Shape(sb, fs') && i < sb.ninodes && m < MAXFILE && MapsFrom(sb, fs, own, i, 0, m)
    requires forall bm :: 0 <= bm < MAXFILE ==> Ptr(sb, fs', i, bm) == if bm == m then r else Ptr(sb, fs, i, bm)
    requires TableOf(sb, fs', i) == TableOf(sb, fs, i) && (NDIRECT <= m ==> TableOf(sb, fs, i) != 0)
    requires r !in own
    ensures MapsFrom(sb, fs', own[r := Data(i, m)], i, 0, m + 1)
  {
    hide Ptr;
  }

  lemma GrowSelfPlaced(sb: Super, fs: Fs, fs': Fs, own: Owners, i: nat, m: nat, r: nat, b: nat)
    requires Shape(sb, fs) && Shape(sb, fs') && i < sb.ninodes && m < MAXFILE && MapsFrom(sb, fs, own, i, 0, m)
    requires forall bm :: 0 <= bm < MAXFILE ==> Ptr(sb, fs', i, bm) == if bm == m then r else Ptr(sb, fs, i, bm)
    requires TableOf(sb, fs', i) == TableOf(sb, fs, i)
    requires b == r || (b in own && own[b].inum == i && 0 < b && Placed(sb, fs, own, b))
    ensures Placed(sb, fs', own[r := Data(i, m)], b)
  {
    hide Ptr;
  }

  /** A new pointer, direct or not, to the loose block r. */
  lemma GrowKeepsAll(sb: Super, s: Shared, s': Shared, i: nat, r: nat)
    requires SInv(sb, s) && i < sb.ninodes && Locked(s, i) && LooseFor(s, r, i) && s.ms[i] < MAXFILE
    requires NDIRECT <= s.ms[i] ==> TableOf(sb, s.fs, i) != 0
    requires s' == s.(fs := s'.fs, own := s.own[r := Data(i, s.ms[i])], ms := s.ms[i := s.ms[i] + 1],
                      loose := s.loose - {r})
    requires Shape(sb, s'.fs) && Aside(sb, s, s', i) && TableOf(sb, s'.fs, i) == TableOf(sb, s.fs, i)
    requires forall b :: sb.bmapstart <= b < sb.datastart ==> s'.fs.blocks[b] == s.fs.blocks[b]
    requires forall b :: b in s'.loose && b < sb.size ==> s'.fs.blocks[b] == s.fs.blocks[b]
    requires forall bm :: 0 <= bm < MAXFILE ==>
      Ptr(sb, s'.fs, i, bm) == if bm == s.ms[i] then r else Ptr(sb, s.fs, i, bm)
    ensures Keeps(sb, s, s', i)
  {
    hide Allocated, Placed, Settled, Ptr, StoredInode, Aside, MapsFrom, BitsAgree, ZeroBlock;
    LooseArea(sb, s);
    LooseKeep(sb, s, s');
    hide LooseOk;
    RecordBits(sb, s.fs, s'.fs, s.own, s.loose, r, Data(i, s.ms[i]));
    assert r !in s.own by {
      LooseNotOwned(sb, s, r);
    }
    GrowSelf(sb, s.fs, s'.fs, s.own, i, s.ms[i], r);
    forall b | b in s'.own && s'.own[b].inum == i ensures Placed(sb, s'.fs, s'.own, b) && Ahead(s', b) {
      GrowSelfPlaced(sb, s.fs, s'.fs, s.own, i, s.ms[i], r, b);
    }
    StepKeeps(sb, s, s', i);
  }

  lemma LooseNotOwned(sb: Super, s: Shared, r: nat)
    requires SInv(sb, s) && r in s.loose
    ensures r !in s.own
  {
    hide Allocated, Placed, Settled, Ptr, MapsFrom, LooseOk;
  }

  /** What makes a step one for inode i alone. */
  lemma MakeAside(sb: Super, s: Shared, s': Shared, i: nat)
    requires SInv(sb, s) && Shape(sb, s'.fs) && |s'.ms| == sb.ninodes
    requires forall j :: 0 <= j < sb.ninodes && j != i ==>
      && s'.fs.inodes[j] == s.fs.inodes[j] && s'.ms[j] == s.ms[j]
      && (j in s'.busy <==> j in s.busy) && From(s', j) == From(s, j)
    requires forall b :: 0 <= b < sb.bmapstart ==> s'.fs.blocks[b] == s.fs.blocks[b]
    requires forall b :: b in s'.own && s'.own[b].inum != i ==> b in s.own && s'.own[b] == s.own[b]
    requires forall b :: b in s.own && s.own[b].inum != i ==>
      b in s'.own && s'.own[b] == s.own[b] && (b < sb.size ==> s'.fs.blocks[b] == s.fs.blocks[b])
    ensures Aside(sb, s, s', i)
  {
    hide Allocated, Placed, Settled, Ptr, MapsFrom, StoredInode, LooseOk, From;
    forall j | 0 <= j < sb.ninodes ensures StoredInode(sb, s'.fs, j) == StoredInode(sb, s.fs, j) {
      StoredSame(sb, s.fs, s'.fs, j);
    }
  }

  lemma MapDirectKeeps(sb: Super, s: Shared, i: nat, r: nat)
    requires SInv(sb, s) && Enabled(sb, s, MapDirect(i, r))
    ensures Keeps(sb, s, Next(sb, s, MapDirect(i, r)), i)
  {
    hide Allocated, Placed, Settled, Ptr, MapsFrom, StoredInode, LooseOk, Aside, BitsAgree;
    var s' := Next(sb, s, MapDirect(i, r));
    LooseNotOwned(sb, s, r);
    MakeAside(sb, s, s', i);
    forall bm | 0 <= bm < MAXFILE
      ensures Ptr(sb, s'.fs, i, bm) == if bm == s.ms[i] then r else Ptr(sb, s.fs, i, bm)
    {
      SetAddrPtr(sb, s.fs, i, s.ms[i], r, i, bm);
    }
    GrowKeepsAll(sb, s, s', i, r);
  }

  lemma MapEntryKeeps(sb: Super, s: Shared, i: nat, r: nat)
    requires SInv(sb, s) && Enabled(sb, s, MapEntry(i, r))
    ensures Keeps(sb, s, Next(sb, s, MapEntry(i, r)), i)
  {
    hide Allocated, Placed, Settled, Ptr, MapsFrom, StoredInode, LooseOk, Aside, BitsAgree;
    var s', t := Next(sb, s, MapEntry(i, r)), TableOf(sb, s.fs, i);
    LooseNotOwned(sb, s, r);
    TableIn(sb, s, i);
    if t in s.loose {
      LooseNotOwned(sb, s, t);
    }
    MakeAside(sb, s, s', i);
    forall bm | 0 <= bm < MAXFILE
      ensures Ptr(sb, s'.fs, i, bm) == if bm == s.ms[i] then r else Ptr(sb, s.fs, i, bm)
    {
      SetEntryPtr(sb, s.fs, i, s.ms[i] - NDIRECT, r, i, bm);
    }
    GrowKeepsAll(sb, s, s', i, r);
  }

  /** Inode i with an indirect block, all of whose entries are 0. */
  lemma TableSelf(sb: Super, fs: Fs, fs': Fs, own: Owners, i: nat, m: nat, r: nat)
    requires Shape(sb, fs) && Shape(sb, fs') && i < sb.ninodes && MapsFrom(sb, fs, own, i, 0, m)
    requires forall bm :: 0 <= bm < MAXFILE ==> Ptr(sb, fs', i, bm) == Ptr(sb, fs, i, bm)
    requires TableOf(sb, fs', i) == r && TableOf(sb, fs, i) == 0 && r !in own
    ensures MapsFrom(sb, fs', own[r := Table(i)], i, 0, m)
    ensures forall b :: b in own && own[b].inum == i && 0 < b && Placed(sb, fs, own, b) ==>
      Placed(sb, fs', own[r := Table(i)], b)
  {
    hide Ptr;
  }

  lemma ZeroTablePtr(sb: Super, fs: Fs, i: nat, r: Uint, bm: nat)
    requires Shape(sb, fs) && i < sb.ninodes && bm < MAXFILE && TableOf(sb, fs, i) == 0
    requires 0 < r < sb.size && fs.blocks[r] == ZeroBlock()
    ensures Shape(sb, SetAddr(sb, fs, i, NDIRECT, r))
    ensures Ptr(sb, SetAddr(sb, fs, i, NDIRECT, r), i, bm) == Ptr(sb, fs, i, bm)
  {
    if NDIRECT <= bm {
      WordOfZero(bm - NDIRECT);
    }
  }

  lemma MapTableKeeps(sb: Super, s: Shared, i: nat, r: nat)
    requires SInv(sb, s) && Enabled(sb, s, MapTable(i, r))
    ensures Keeps(sb, s, Next(sb, s, MapTable(i, r)), i)
  {
    hide Allocated, Placed, Settled, Ptr, MapsFrom, StoredInode, Aside, BitsAgree, ZeroBlock;
    var s' := Next(sb, s, MapTable(i, r));
    LooseArea(sb, s);
    LooseNotOwned(sb, s, r);
    LooseKeep(sb, s, s');
    assert s.fs.blocks[r] == ZeroBlock();
    hide LooseOk;
    MakeAside(sb, s, s', i);
    forall bm | 0 <= bm < MAXFILE ensures Ptr(sb, s'.fs, i, bm) == Ptr(sb, s.fs, i, bm) {
      ZeroTablePtr(sb, s.fs, i, r, bm);
    }
    RecordBits(sb, s.fs, s'.fs, s.own, s.loose, r, Table(i));
    TableSelf(sb, s.fs, s'.fs, s.own, i, s.ms[i], r);
    assert Placed(sb, s'.fs, s'.own, r) by {
      NewTable(sb, s'.fs, s'.own, i, r);
    }
    StepKeeps(sb, s, s', i);
  }

  lemma NewTable(sb: Super, fs: Fs, own: Owners, i: nat, r: nat)
    requires Shape(sb, fs) && i < sb.ninodes && TableOf(sb, fs, i) == r && r in own && own[r] == Table(i)
    ensures Placed(sb, fs, own, r)
  {
  }

  // ----- giving blocks back

  /** The blocks and bits after block p is given back, if there is one; and inode i changed. */
  ghost predicate Gave(sb: Super, fs: Fs, fs': Fs, i: nat, p: nat)
    requires Shape(sb, fs)
  {
    && Shape(sb, fs')
    && (forall j :: 0 <= j < sb.ninodes && j != i ==> fs'.inodes[j] == fs.inodes[j])
    && (forall b :: 0 <= b < sb.bmapstart || sb.datastart <= b < sb.size ==> fs'.blocks[b] == fs.blocks[b])
    && (forall b :: 0 <= b < sb.size ==> (Allocated(sb, fs', b) <==> Allocated(sb, fs, b) && (p == 0 || b != p)))
  }

  lemma DropBlock(sb: Super, fs: Fs, i: nat, n: nat, p: nat)
    requires Shape(sb, fs) && i < sb.ninodes && n <= NDIRECT && p < sb.size
    ensures var fs1 := if p == 0 then fs else FreeBlock(sb, fs, p);
      && Gave(sb, fs, fs1, i, p)
      && Gave(sb, fs, fs1.(inodes := fs.inodes[i := fs.inodes[i].(addrs := fs.inodes[i].addrs[n := 0])]), i, p)
  {
    var fs1 := if p == 0 then fs else FreeBlock(sb, fs, p);
    var fs2 := fs1.(inodes := fs.inodes[i := fs.inodes[i].(addrs := fs.inodes[i].addrs[n := 0])]);
    BitFrame(sb, fs, p);
    hide FreeBlock;
    forall b | 0 <= b < sb.size
      ensures Allocated(sb, fs1, b) <==> Allocated(sb, fs, b) && (p == 0 || b != p)
      ensures Allocated(sb, fs2, b) == Allocated(sb, fs1, b)
    {
      BitEffect(sb, fs, p, b);
      BitsSame(sb, fs1, fs2, b);
    }
    hide Allocated;
  }

  lemma GaveBits(sb: Super, fs: Fs, fs': Fs, own: Owners, loose: map<nat, Loose>, i: nat, p: nat)
    requires Shape(sb, fs) && Gave(sb, fs, fs', i, p) && BitsAgree(sb, fs, own, loose) && (p == 0 || p in own)
    ensures BitsAgree(sb, fs', own - {p}, loose)
  {
    hide Allocated;
  }

  /** Inode i after its n-th pointer was given up. */
  lemma DropSelf(sb: Super, fs: Fs, fs': Fs, own: Owners, i: nat, n: nat, m: nat)
    requires Shape(sb, fs) && Shape(sb, fs') && i < sb.ninodes && n < MAXFILE && MapsFrom(sb, fs, own, i, n, m)
    requires forall bm :: 0 <= bm < MAXFILE ==>
      Ptr(sb, fs', i, bm) == if bm == n && n < NDIRECT then 0 else Ptr(sb, fs, i, bm)
    requires TableOf(sb, fs', i) == TableOf(sb, fs, i)
    ensures MapsFrom(sb, fs', own - {Ptr(sb, fs, i, n)}, i, n + 1, m)
  {
    hide Ptr;
    var p, own' := Ptr(sb, fs, i, n), own - {Ptr(sb, fs, i, n)};
    forall bn | n + 1 <= bn < m ensures Ptr(sb, fs', i, bn) in own' && own'[Ptr(sb, fs', i, bn)] == Data(i, bn) {
      assert n < m && own[p] == Data(i, n);
    }
  }

  lemma DropPlaced(sb: Super, s: Shared, s': Shared, i: nat, n: nat, b: nat)
    requires Shape(sb, s.fs) && Shape(sb, s'.fs) && i < sb.ninodes && n < MAXFILE && From(s, i) == n
    requires From(s', i) == n + 1 && s'.own == s.own - {Ptr(sb, s.fs, i, n)}
    requires forall bm :: 0 <= bm < MAXFILE ==>
      Ptr(sb, s'.fs, i, bm) == if bm == n && n < NDIRECT then 0 else Ptr(sb, s.fs, i, bm)
    requires TableOf(sb, s'.fs, i) == TableOf(sb, s.fs, i)
    requires b in s'.own && s.own[b].inum == i && Placed(sb, s.fs, s.own, b) && Ahead(s, b)
    ensures Placed(sb, s'.fs, s'.own, b) && Ahead(s', b)
  {
    hide Ptr, From;
  }

  lemma DropPtrs(sb: Super, fs: Fs, i: nat, n: nat, bm: nat)
    requires Shape(sb, fs) && i < sb.ninodes && n < MAXFILE && bm < MAXFILE && Ptr(sb, fs, i, n) < sb.size
    requires TableOf(sb, fs, i) != 0 ==> sb.datastart <= TableOf(sb, fs, i) < sb.size
    ensures var fs' := DropPtr(sb, fs, i, n);
      && Shape(sb, fs') && TableOf(sb, fs', i) == TableOf(sb, fs, i)
      && Ptr(sb, fs', i, bm) == if bm == n && n < NDIRECT then 0 else Ptr(sb, fs, i, bm)
  {
    BitFrame(sb, fs, Ptr(sb, fs, i, n));
    hide FreeBlock;
  }

  lemma DropGave(sb: Super, fs: Fs, i: nat, n: nat)
    requires Shape(sb, fs) && i < sb.ninodes && n < MAXFILE && Ptr(sb, fs, i, n) < sb.size
    ensures Gave(sb, fs, DropPtr(sb, fs, i, n), i, Ptr(sb, fs, i, n))
  {
    hide FreeBlock, Gave, Ptr;
    DropBlock(sb, fs, i, if n < NDIRECT then n else 0, Ptr(sb, fs, i, n));
  }

  /** The next pointer is 0, or names a block that inode i owns. */
  lemma NextOwned(sb: Super, s: Shared, i: nat, n: nat)
    requires SInv(sb, s) && i < sb.ninodes && From(s, i) == n < MAXFILE
    ensures var p := Ptr(sb, s.fs, i, n); p == 0 || (p in s.own && s.own[p] == Data(i, n))
  {
    hide Allocated, Placed, Settled, Ptr, LooseOk, BitsAgree, From;
    assert MapsFrom(sb, s.fs, s.own, i, From(s, i), s.ms[i]);
  }

  /** A block of inode i given back, as far as the others are concerned. */
  lemma GaveFrame(sb: Super, s: Shared, s': Shared, i: nat, p: nat)
    requires SInv(sb, s) && Gave(sb, s.fs, s'.fs, i, p) && (p == 0 || (p in s.own && s.own[p].inum == i))
    requires i in s.busy && i in s'.busy && i < sb.ninodes && |s'.ms| == sb.ninodes
    requires s' == s.(fs := s'.fs, own := s.own - {p}, ms := s'.ms, busy := s.busy[i := s'.busy[i]])
    requires forall j :: 0 <= j < sb.ninodes && j != i ==> s'.ms[j] == s.ms[j]
    ensures Shape(sb, s'.fs) && Aside(sb, s, s', i) && BitsAgree(sb, s'.fs, s'.own, s'.loose) && LooseOk(s')
  {
    hide Allocated, Placed, Settled, Ptr, MapsFrom, StoredInode, Aside, BitsAgree, ZeroBlock;
    LooseArea(sb, s);
    LooseKeep(sb, s, s');
    hide LooseOk;
    MakeAside(sb, s, s', i);
    GaveBits(sb, s.fs, s'.fs, s.own, s.loose, i, p);
  }

  lemma FreePtrKeeps(sb: Super, s: Shared, i: nat)
    requires SInv(sb, s) && Enabled(sb, s, FreePtr(i))
    ensures Keeps(sb, s, Next(sb, s, FreePtr(i)), i)
  {
    hide Allocated, Placed, Settled, Ptr, MapsFrom, StoredInode, Aside, BitsAgree, LooseOk, Gave, DropPtr;
    var s', n, p := Next(sb, s, FreePtr(i)), s.busy[i].n, Ptr(sb, s.fs, i, s.busy[i].n);
    DropGave(sb, s.fs, i, n);
    NextOwned(sb, s, i, n);
    TableIn(sb, s, i);
    GaveFrame(sb, s, s', i, p);
    forall bm | 0 <= bm < MAXFILE
      ensures Ptr(sb, s'.fs, i, bm) == if bm == n && n < NDIRECT then 0 else Ptr(sb, s.fs, i, bm)
      ensures TableOf(sb, s'.fs, i) == TableOf(sb, s.fs, i)
    {
      DropPtrs(sb, s.fs, i, n, bm);
    }
    DropSelf(sb, s.fs, s'.fs, s.own, i, n, s.ms[i]);
    forall b | b in s'.own && s'.own[b].inum == i ensures Placed(sb, s'.fs, s'.own, b) && Ahead(s', b) {
      DropPlaced(sb, s, s', i, n, b);
    }
    StepKeeps(sb, s, s', i);
  }

  /** All pointers are gone. */
  lemma EmptySelf(sb: Super, s: Shared, s': Shared, i: nat)
    requires SInv(sb, s) && Enabled(sb, s, FreeTable(i)) && s' == Next(sb, s, FreeTable(i)) && Shape(sb, s'.fs)
    ensures MapsFrom(sb, s'.fs, s'.own, i, 0, 0)
    ensures forall b :: b in s'.own ==> s'.own[b].inum != i
  {
    hide Allocated, Settled, LooseOk, BitsAgree, FreeBlock;
    assert MapsFrom(sb, s.fs, s.own, i, From(s, i), s.ms[i]);
    forall bm | 0 <= bm < NDIRECT ensures s.fs.inodes[i].addrs[bm] == 0 {
      assert Ptr(sb, s.fs, i, bm) == 0;
    }
    forall b | b in s'.own ensures s'.own[b].inum != i {
      assert Placed(sb, s.fs, s.own, b) && Ahead(s, b);
    }
  }

  lemma FreeTableKeeps(sb: Super, s: Shared, i: nat)
    requires SInv(sb, s) && Enabled(sb, s, FreeTable(i))
    ensures Keeps(sb, s, Next(sb, s, FreeTable(i)), i)
  {
    hide Allocated, Placed, Settled, Ptr, MapsFrom, StoredInode, Aside, BitsAgree, LooseOk, Gave, FreeBlock;
    var s', t := Next(sb, s, FreeTable(i)), TableOf(sb, s.fs, i);
    DropBlock(sb, s.fs, i, NDIRECT, t);
    assert Gave(sb, s.fs, s'.fs, i, t);
    TableIn(sb, s, i);
    GaveFrame(sb, s, s', i, t);
    EmptySelf(sb, s, s', i);
    StepKeeps(sb, s, s', i);
  }

  lemma NextKeeps(sb: Super, s: Shared, a: Action)
    requires SInv(sb, s) && Enabled(sb, s, a)
    ensures Keeps(sb, s, Next(sb, s, a), a.i)
  {
    hide SInv, Next, Keeps;
    match a
    case Take(i, r) => TakeKeeps(sb, s, i, r);
    case Zero(i, r) => ZeroKeeps(sb, s, i, r);
    case MapDirect(i, r) => MapDirectKeeps(sb, s, i, r);
    case MapTable(i, r) => MapTableKeeps(sb, s, i, r);
    case MapEntry(i, r) => MapEntryKeeps(sb, s, i, r);
    case Put(i, bn, x) => PutKeeps(sb, s, i, bn, x);
    case Change(i, ip) => ChangeKeeps(sb, s, i, ip);
    case Store(i) => StoreKeeps(sb, s, i);
    case FreePtr(i) => FreePtrKeeps(sb, s, i);
    case FreeTable(i) => FreeTableKeeps(sb, s, i);
    case Ialloc(i, ip) => IallocKeeps(sb, s, i, ip);
    case _ => LockKeeps(sb, s, a);
  }
}
