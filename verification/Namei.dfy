/** The inode cache's reference counts, and the walk along a path. */
module Namei {
  import LogState
  import opened Bytes
  import opened Bitmap
  import opened Dinode
  import opened FsState
  import opened FsStep
  import opened FsWrite
  import opened DirState
  import opened Path
  import opened Directory
  import opened FsTrunc
  import opened FsShareRun
  import opened FileSystem

  const NINODE := 50

  /** `valid`: the inode has been read from the disk. */
  datatype Slot = Slot(ref: nat, inum: nat, valid: bool)

  predicate Holds(s: Slot, inum: nat) {
    0 < s.ref && s.inum == inum
  }

  /** An inode is in at most one slot. */
  ghost predicate Unique(slots: seq<Slot>) {
    forall i, j :: 0 <= i < j < |slots| && 0 < slots[i].ref && 0 < slots[j].ref ==> slots[i].inum != slots[j].inum
  }

  function Find(slots: seq<Slot>, inum: nat, i: nat): (k: nat)
    requires i <= |slots|
    ensures i <= k <= |slots| && (k < |slots| ==> Holds(slots[k], inum))
    ensures forall j :: i <= j < k ==> !Holds(slots[j], inum)
    decreases |slots| - i
  {
    if i == |slots| || Holds(slots[i], inum) then i else Find(slots, inum, i + 1)
  }

  /** How many references there are to an inode. */
  function Refs(slots: seq<Slot>, inum: nat): nat {
    var k := Find(slots, inum, 0);
    if k < |slots| then slots[k].ref else 0
  }

  /** References changed by d for one inode and not for the others. */
  ghost predicate RefsMoved(slots: seq<Slot>, slots': seq<Slot>, inum: nat, d: int) {
    forall j: nat :: Refs(slots', j) == Refs(slots, j) + if j == inum then d else 0
  }

  lemma RefsAre(slots: seq<Slot>, i: nat)
    requires Unique(slots) && i < |slots| && 0 < slots[i].ref
    ensures Refs(slots, slots[i].inum) == slots[i].ref && Find(slots, slots[i].inum, 0) == i
  {
    hide Find;
    var k := Find(slots, slots[i].inum, 0);
    assert Holds(slots[i], slots[i].inum);
    assert k == i;
  }

  /** One slot's count changes. */
  lemma CountMoves(slots: seq<Slot>, i: nat, s: Slot)
    requires Unique(slots) && i < |slots| && Unique(slots[i := s])
    requires (slots[i].ref == 0 && Refs(slots, s.inum) == 0) || s.inum == slots[i].inum
    ensures 0 < slots[i].ref || 0 < s.ref ==> RefsMoved(slots, slots[i := s], s.inum, s.ref - slots[i].ref)
  {
    var slots' := slots[i := s];
    if 0 < slots[i].ref || 0 < s.ref {
      forall j: nat ensures Refs(slots', j) == Refs(slots, j) + if j == s.inum then s.ref - slots[i].ref else 0 {
        CountAt(slots, i, s, j);
      }
    }
  }

  lemma CountAt(slots: seq<Slot>, i: nat, s: Slot, j: nat)
    requires Unique(slots) && i < |slots| && Unique(slots[i := s]) && (0 < slots[i].ref || 0 < s.ref)
    requires (slots[i].ref == 0 && Refs(slots, s.inum) == 0) || s.inum == slots[i].inum
    ensures Refs(slots[i := s], j) == Refs(slots, j) + if j == s.inum then s.ref - slots[i].ref else 0
  {
    hide Find;
    var slots' := slots[i := s];
    if 0 < slots[i].ref {
      RefsAre(slots, i);
    }
    if 0 < s.ref {
      RefsAre(slots', i);
    }
    var k, k' := Find(slots, j, 0), Find(slots', j, 0);
    if j != s.inum && k < |slots| {
      RefsAre(slots', k);
    }
  }

  // ----- the walk, on the file system alone

  /** Directories are made of whole entries that name inodes of the disk. */
  ghost predicate DirsOk(sb: Super, fs: Fs) {
    && Shape(sb, fs) && ROOTINO < sb.ninodes
    && forall i :: 0 <= i < sb.ninodes && fs.inodes[i].kind == T_DIR ==> DirOk(sb, fs, i)
  }

  ghost predicate DirOk(sb: Super, fs: Fs, i: nat)
    requires Shape(sb, fs) && i < sb.ninodes
  {
    && fs.inodes[i].size % DESIZE == 0
    && InumsBelow(Content(sb, fs, i), sb.ninodes)
  }

  /** The inode that the components lead to from i, or 0; with `parent`, one level less. */
  ghost function Walk(sb: Super, fs: Fs, i: nat, cs: seq<seq<Byte>>, parent: bool): (r: nat)
    requires DirsOk(sb, fs) && i < sb.ninodes
    ensures r < sb.ninodes
    decreases |cs|
  {
    if cs == [] then (if parent then 0 else i)
    else if fs.inodes[i].kind != T_DIR then 0
    else if parent && |cs| == 1 then i
    else
      var next := Child(sb, fs, i, cs[0]);
      if next == 0 then 0 else Walk(sb, fs, next, cs[1..], parent)
  }

  ghost function Child(sb: Super, fs: Fs, i: nat, name: seq<Byte>): (r: nat)
    requires DirsOk(sb, fs) && i < sb.ninodes && fs.inodes[i].kind == T_DIR
    ensures r < sb.ninodes
  {
    assert DirOk(sb, fs, i);
    Lookup(Content(sb, fs, i), name)
  }

  /** namei(path) is the last component looked up in nameiparent(path). */
  lemma {:induction false} LastInParent(sb: Super, fs: Fs, i: nat, cs: seq<seq<Byte>>)
    requires DirsOk(sb, fs) && i < sb.ninodes && 0 < i && cs != []
    ensures var d := Walk(sb, fs, i, cs, true);
      && (d != 0 ==> fs.inodes[d].kind == T_DIR)
      && Walk(sb, fs, i, cs, false) == if d == 0 then 0 else Child(sb, fs, d, cs[|cs| - 1])
    decreases |cs|
  {
    hide DirOk, Child;
    if fs.inodes[i].kind == T_DIR && |cs| > 1 {
      var next := Child(sb, fs, i, cs[0]);
      if next != 0 {
        LastInParent(sb, fs, next, cs[1..]);
        assert cs[1..][|cs| - 2] == cs[|cs| - 1];
      }
    } else if fs.inodes[i].kind == T_DIR {
      assert cs[1..] == [];
    }
  }

  /** Walking along a path is walking along its first part and on from there. */
  lemma {:induction false} WalkOn(sb: Super, fs: Fs, i: nat, cs: seq<seq<Byte>>, ds: seq<seq<Byte>>)
    requires DirsOk(sb, fs) && i < sb.ninodes && 0 < i
    ensures var d := Walk(sb, fs, i, cs, false);
      Walk(sb, fs, i, cs + ds, false) == if d == 0 then 0 else Walk(sb, fs, d, ds, false)
    decreases |cs|
  {
    hide DirOk, Child;
    if cs == [] {
      assert cs + ds == ds;
    } else if fs.inodes[i].kind == T_DIR {
      assert (cs + ds)[0] == cs[0] && (cs + ds)[1..] == cs[1..] + ds;
      var next := Child(sb, fs, i, cs[0]);
      if next != 0 {
        WalkOn(sb, fs, next, cs[1..], ds);
      }
    }
  }

  /** An inode that has a type and links. */
  predicate InUse(ip: Inode) {
    ip.kind != 0 && 0 < ip.nlink
  }

  /** What the link counts are for: the root, and every inode that a directory entry names, is in use. */
  ghost predicate LinksRight(sb: Super, fs: Fs)
    requires DirsOk(sb, fs)
  {
    && InUse(fs.inodes[ROOTINO])
    && forall i :: 0 <= i < sb.ninodes && fs.inodes[i].kind == T_DIR ==> EntriesLinked(sb, fs, i)
  }

  ghost predicate EntriesLinked(sb: Super, fs: Fs, i: nat)
    requires Shape(sb, fs) && i < sb.ninodes
  {
    var c := Content(sb, fs, i);
    forall k :: 0 <= k < Entries(c) && Inum(c, k) != 0 ==> Inum(c, k) < sb.ninodes && InUse(fs.inodes[Inum(c, k)])
  }

  lemma ChildInUse(sb: Super, fs: Fs, i: nat, name: seq<Byte>)
    requires DirsOk(sb, fs) && LinksRight(sb, fs) && i < sb.ninodes && fs.inodes[i].kind == T_DIR
    requires Child(sb, fs, i, name) != 0
    ensures InUse(fs.inodes[Child(sb, fs, i, name)])
  {
    hide Content, Inum, Cut;
    assert EntriesLinked(sb, fs, i);
    var k := FirstHit(Content(sb, fs, i), name, 0);
    assert Hit(Content(sb, fs, i), k, name);
  }

  // ----- the inode cache

  class InodeCache {
    var slots: seq<Slot>

    ghost predicate Valid()
      reads this
    {
      |slots| == NINODE && Unique(slots)
    }

    constructor ()
      ensures Valid() && forall j: nat :: Refs(slots, j) == 0
    {
      slots := seq(NINODE, _ => Slot(0, 0, false));
    }

    /** iget; ok is false for its panic. */
    method Iget(inum: nat) returns (ok: bool, s: nat)
      requires Valid()
      modifies this
      ensures Valid()
      ensures ok ==> s < NINODE && Holds(slots[s], inum) && RefsMoved(old(slots), slots, inum, 1)
      ensures ok ==>
        (forall i :: 0 <= i < NINODE && i != s ==> slots[i] == old(slots[i])) && slots[s].ref == old(slots[s].ref) + 1
      ensures ok && 0 < old(slots[s].ref) ==> old(slots[s].inum) == inum && slots[s].valid == old(slots[s].valid)
      ensures ok && 0 == old(slots[s].ref) ==> !slots[s].valid
      ensures !ok ==> slots == old(slots) && Refs(slots, inum) == 0 && forall i :: 0 <= i < NINODE ==> 0 < slots[i].ref
    {
      hide Find, RefsMoved;
      var empty: nat := NINODE;
      for i := 0 to NINODE
        invariant slots == old(slots) && (empty == NINODE || (empty < i && slots[empty].ref == 0))
        invariant empty == NINODE ==> forall j :: 0 <= j < i ==> 0 < slots[j].ref
        invariant forall j :: 0 <= j < i ==> !Holds(slots[j], inum)
      {
        if 0 < slots[i].ref && slots[i].inum == inum {
          CountMoves(slots, i, Slot(slots[i].ref + 1, inum, slots[i].valid));
          slots := slots[i := Slot(slots[i].ref + 1, inum, slots[i].valid)];
          return true, i;
        }
        if empty == NINODE && slots[i].ref == 0 {
          empty := i;
        }
      }
      if empty == NINODE {
        return false, 0;
      }
      CountMoves(slots, empty, Slot(1, inum, false));
      slots := slots[empty := Slot(1, inum, false)];
      return true, empty;
    }

    method Idup(s: nat)
      requires Valid() && s < NINODE && 0 < slots[s].ref
      modifies this
      ensures Valid() && slots[s] == old(slots[s]).(ref := old(slots[s].ref) + 1)
      ensures RefsMoved(old(slots), slots, slots[s].inum, 1)
    {
      hide Find, RefsMoved;
      CountMoves(slots, s, slots[s].(ref := slots[s].ref + 1));
      slots := slots[s := slots[s].(ref := slots[s].ref + 1)];
    }

    /** ilock, as far as the cache is concerned; ok is false for its panic on a free inode. */
    method Ilock(fs: FileSystem, s: nat) returns (ok: bool)
      requires Valid() && fs.Valid(IDLE) && s < NINODE && 0 < slots[s].ref && slots[s].inum < fs.sb.ninodes
      modifies this
      ensures Valid() && slots == old(slots)[s := old(slots[s]).(valid := true)] && RefsMoved(old(slots), slots, 0, 0)
      ensures ok <==> old(slots[s].valid) || fs.inodes[slots[s].inum].kind != 0
    {
      hide Find, RefsMoved, Inv;
      ShapeOf(fs.sb, fs.Abs(), fs.own, fs.ms, IDLE);
      ok := slots[s].valid || fs.inodes[slots[s].inum].kind != 0;
      CountMoves(slots, s, slots[s].(valid := true));
      SameRefs(slots, slots[s := slots[s].(valid := true)], slots[s].inum);
      slots := slots[s := slots[s].(valid := true)];
    }

    /** The reference is the last one to an inode without links. */
    ghost predicate LastOne(fs: FileSystem, s: nat)
      requires s < |slots| && (slots[s].valid ==> slots[s].inum < |fs.inodes|)
      reads this, fs
    {
      slots[s].valid && slots[s].ref == 1 && fs.inodes[slots[s].inum].nlink == 0
    }

    /** iput: one reference less; the last reference to an inode without links frees the inode and its
        blocks. */
    method Iput(fs: FileSystem, s: nat)
      requires Valid() && fs.Valid(IDLE) && s < NINODE && 0 < slots[s].ref
      requires slots[s].valid ==> slots[s].inum < fs.sb.ninodes
      modifies this, fs`blocks, fs`inodes, fs`own, fs`ms, fs`logged, fs`trace
      ensures Valid() && fs.Valid(IDLE) && RefsMoved(old(slots), slots, old(slots[s].inum), -1)
      ensures old(fs.Traced()) ==> fs.Traced()
      ensures slots[s] ==
        old(slots[s]).(ref := old(slots[s].ref) - 1, valid := old(slots[s].valid) && !old(LastOne(fs, s)))
      ensures forall i :: 0 <= i < NINODE && i != s ==> slots[i] == old(slots[i])
      ensures old(LastOne(fs, s)) ==> Gone(fs.sb, old(fs.Abs()), fs.Abs(), old(slots[s].inum))
      ensures old(LastOne(fs, s)) ==> Shape(fs.sb, old(fs.Abs()))
      ensures old(LastOne(fs, s)) ==>
        && fs.logged == old(fs.logged) + TruncLog(fs.sb, old(fs.Abs()), old(slots[s].inum))
        && |TruncLog(fs.sb, old(fs.Abs()), old(slots[s].inum))| <= fs.sb.size / BPB + 2
      ensures old(fs.Starting()) ==>
        Transaction(fs.sb, old(fs.blocks), fs.trace) && Interleaved(fs.sb, old(fs.blocks), fs.trace)
      ensures old(fs.Shares(IDLE)) ==> fs.Shares(IDLE)
      ensures !old(LastOne(fs, s)) ==>
        fs.Abs() == old(fs.Abs()) && fs.own == old(fs.own) && fs.logged == old(fs.logged) && fs.trace == old(fs.trace)
    {
      hide Find, RefsMoved, Inv, Gone, TruncLog, Transaction, Interleaved, Reached;
      var ip := slots[s];
      ShapeOf(fs.sb, fs.Abs(), fs.own, fs.ms, IDLE);
      fs.TracesNothing();
      fs.SharesNothing();
      fs.WasInterleaved(fs.Starting());
      fs.WasTransaction(fs.Abs(), fs.own, fs.ms, fs.Starting());
      if ip.valid && fs.inodes[ip.inum].nlink == 0 && ip.ref == 1 {
        var panics := fs.FreeInode(ip.inum);
        ip := ip.(valid := false);
      }
      CountMoves(slots, s, ip.(ref := ip.ref - 1));
      slots := slots[s := ip.(ref := ip.ref - 1)];
    }

    /** Valid slots hold inodes of the disk. */
    ghost predicate Within(sb: Super)
      reads this
    {
      forall i :: 0 <= i < |slots| && slots[i].valid ==> slots[i].inum < sb.ninodes
    }

    /** dirlink. For a name that is there, the reference that dirlookup took to its inode is given up again;
        that was not the last one, so nothing is freed. */
    method Dirlink(fs: FileSystem, dp: nat, name: seq<Byte>, inum: nat) returns (r: Outcome)
      requires Valid() && Within(fs.sb)
      requires fs.Valid(IDLE) && dp < fs.sb.ninodes && Shape(fs.sb, fs.Abs())
      requires fs.inodes[dp].kind == T_DIR && fs.inodes[dp].size % DESIZE == 0
      modifies this, fs`blocks, fs`inodes, fs`own, fs`ms, fs`logged, fs`trace
      ensures Valid() && Within(fs.sb) && (r != NoSlot ==> RefsMoved(old(slots), slots, 0, 0))
      ensures (old(fs.Traced()) ==> fs.Traced()) && old(fs.logged) <= fs.logged
      ensures r != Panic && old(fs.Starting()) ==>
        Transaction(fs.sb, old(fs.blocks), fs.trace) && Interleaved(fs.sb, old(fs.blocks), fs.trace)
      ensures r != Panic && old(fs.Shares(IDLE)) ==> fs.Shares(IDLE)
      ensures r != Panic ==> fs.Valid(IDLE) && Shape(fs.sb, fs.Abs())
      ensures r == Exists || r == NoSlot <==> Lookup(Content(fs.sb, old(fs.Abs()), dp), name) != 0
      ensures r == Exists || r == NoSlot ==> fs.Abs() == old(fs.Abs()) && fs.logged == old(fs.logged)
      ensures r == NoSlot ==>
        && Refs(old(slots), Lookup(Content(fs.sb, old(fs.Abs()), dp), name)) == 0
        && forall i :: 0 <= i < NINODE ==> 0 < old(slots)[i].ref
      ensures r == Linked ==> |fs.logged - old(fs.logged)| <= LogState.MAXOPBLOCKS
      ensures r == Linked ==>
        Content(fs.sb, fs.Abs(), dp) == DirState.Linked(Content(fs.sb, old(fs.Abs()), dp), name, inum)
      ensures r == Linked ==> forall j :: 0 <= j < fs.sb.ninodes && j != dp ==>
        Content(fs.sb, fs.Abs(), j) == Content(fs.sb, old(fs.Abs()), j)
      ensures var c := Content(fs.sb, old(fs.Abs()), dp);
        r == Panic <==>
          && Lookup(c, name) == 0
          && (MAXSIZE < EntryEnd(c) || FreeBlocks(fs.sb, old(fs.Abs())) < Needs(old(fs.inodes)[dp].size, EntryEnd(c)))
      ensures r == Panic ==> Full(fs.sb, fs.Abs()) || old(fs.inodes)[dp].size == MAXSIZE
    {
      hide Inv, Content, Ptr, Full, EntryEnd, Needs, FreeBlocks, Transaction, RefsMoved, Refs, Lookup, DirState.Linked;
      hide Interleaved, Reached;
      NoneMoved(slots);
      fs.TracesNothing();
      fs.SharesNothing();
      fs.WasInterleaved(fs.Starting());
      fs.WasTransaction(fs.Abs(), fs.own, fs.ms, fs.Starting());
      var found, _ := Dirlookup(fs, dp, name);
      if found != 0 {
        ghost var s0 := slots;
        var ok, s := Iget(found);
        if !ok {
          return NoSlot;
        }
        ghost var s1 := slots;
        Iput(fs, s);
        RefsBack(s0, s1, slots, found);
        return Exists;
      }
      var ok := AddEntry(fs, dp, name, inum);
      return if ok then Outcome.Linked else Panic;
    }

    /** namex, for a process whose current directory is in slot cwd. With link counts that are right, no
        iput on the way frees an inode, and ilock does not panic. */
    method Namex(fs: FileSystem, path: seq<Byte>, parent: bool, cwd: nat) returns (r: Result, name: seq<Byte>)
      requires Valid() && fs.Valid(IDLE) && DirsOk(fs.sb, fs.Abs()) && IsPath(path)
      requires LinksRight(fs.sb, fs.Abs())
      requires cwd < NINODE && 0 < slots[cwd].ref && 0 < slots[cwd].inum < fs.sb.ninodes
      requires fs.inodes[slots[cwd].inum].kind != 0
      modifies this, fs`blocks, fs`inodes, fs`own, fs`ms, fs`logged, fs`trace
      ensures Valid() && fs.Valid(IDLE) && fs.Abs() == old(fs.Abs()) && fs.logged == old(fs.logged)
      ensures fs.trace == old(fs.trace)
      ensures var start := if path != [] && path[0] == SLASH then ROOTINO else old(slots[cwd].inum);
        var w := Walk(fs.sb, fs.Abs(), start, Components(path), parent);
        match r
        case Found(s) => s < NINODE && Holds(slots[s], w) && 0 < w && RefsMoved(old(slots), slots, w, 1)
        case NotFound => w == 0 && RefsMoved(old(slots), slots, 0, 0)
        case NoInodes => forall i :: 0 <= i < NINODE ==> 0 < slots[i].ref
      ensures parent && r.Found? ==> Components(path) != [] && name == Short(Components(path)[|Components(path)| - 1])
    {
      hide Inv, DirOk, RefsMoved, Refs, Walk, Child, Components, Content, EntriesLinked, Unique;
      hide Transaction, Interleaved, Gone, TruncLog, Replay, FileSystem.Traced, FileSystem.Shares;
      ghost var slots0 := slots;
      var ip: nat := cwd;
      if path != [] && path[0] == SLASH {
        var ok;
        ok, ip := Iget(ROOTINO);
        if !ok {
          return NoInodes, [];
        }
      } else {
        Idup(cwd);
      }
      ghost var start := slots[ip].inum;
      var p := path;
      name := [];
      ghost var cs := Components(path);
      while true
        invariant Valid() && fs.Valid(IDLE) && fs.Abs() == old(fs.Abs()) && fs.logged == old(fs.logged)
        invariant fs.trace == old(fs.trace) && IsPath(p)
        invariant ip < NINODE && 0 < slots[ip].ref && 0 < slots[ip].inum < fs.sb.ninodes
        invariant Stays(fs.inodes[slots[ip].inum], slots[ip]) && RefsMoved(slots0, slots, slots[ip].inum, 1)
        invariant Walk(fs.sb, fs.Abs(), slots[ip].inum, Components(p), parent) ==
          Walk(fs.sb, fs.Abs(), start, cs, parent)
        invariant SameLast(cs, Components(p))
        decreases |p|
      {
        ghost var i, ds, s1 := slots[ip].inum, Components(p), slots;
        WalkCases(fs.sb, fs.Abs(), i, ds, parent);
        var more, elem, rest := Skipelem(p);
        if !more {
          if parent {
            Iput(fs, ip);
            RefsBack(slots0, s1, slots, i);
            return NotFound, name;
          }
          return Found(ip), name;
        }
        p, name := rest, elem;
        var typed := Ilock(fs, ip);
        assert typed;
        SameRefsMoved(slots0, s1, slots, i);
        s1 := slots;
        if fs.inodes[slots[ip].inum].kind != T_DIR {
          Iput(fs, ip);
          RefsBack(slots0, s1, slots, i);
          return NotFound, name;
        }
        if parent && p == [] {
          return Found(ip), name;
        }
        var next: nat;
        r, next := Enter(fs, ip, name, ds[0]);
        if !r.Found? {
          if r.NotFound? {
            RefsBack(slots0, s1, slots, i);
          }
          return;
        }
        RefsOn(slots0, s1, slots, i, slots[next].inum);
        ip := next;
      }
    }

    /** One step down: dirlookup, then iput of the directory. */
    method Enter(fs: FileSystem, ip: nat, name: seq<Byte>, ghost c: seq<Byte>) returns (r: Result, next: nat)
      requires Valid() && fs.Valid(IDLE) && DirsOk(fs.sb, fs.Abs()) && name == Short(c)
      requires ip < NINODE && 0 < slots[ip].ref && slots[ip].inum < fs.sb.ninodes
      requires fs.inodes[slots[ip].inum].kind == T_DIR
      requires LinksRight(fs.sb, fs.Abs()) && Stays(fs.inodes[slots[ip].inum], slots[ip])
      modifies this, fs`blocks, fs`inodes, fs`own, fs`ms, fs`logged, fs`trace
      ensures Valid() && fs.Valid(IDLE) && fs.Abs() == old(fs.Abs()) && fs.logged == old(fs.logged)
      ensures fs.trace == old(fs.trace)
      ensures r.NotFound? ==>
        Child(fs.sb, fs.Abs(), old(slots[ip].inum), c) == 0 && RefsMoved(old(slots), slots, old(slots[ip].inum), -1)
      ensures r.NoInodes? ==> forall i :: 0 <= i < NINODE ==> 0 < slots[i].ref
      ensures r.Found? ==> next < NINODE && 0 < slots[next].ref && 0 < slots[next].inum < fs.sb.ninodes
      ensures r.Found? ==> slots[next].inum == Child(fs.sb, fs.Abs(), old(slots[ip].inum), c)
      ensures r.Found? ==> Stays(fs.inodes[slots[next].inum], slots[next])
      ensures r.Found? ==> Stepped(old(slots), slots, old(slots[ip].inum), slots[next].inum)
    {
      hide Inv, RefsMoved, Refs, Content, Lookup;
      assert DirOk(fs.sb, fs.Abs(), slots[ip].inum);
      ShortLookup(Content(fs.sb, fs.Abs(), slots[ip].inum), c);
      ghost var s1 := slots;
      var inum, _ := Dirlookup(fs, slots[ip].inum, name);
      assert inum == Child(fs.sb, fs.Abs(), s1[ip].inum, c);
      if inum == 0 {
        Iput(fs, ip);
        return NotFound, 0;
      }
      var ok;
      ok, next := Iget(inum);
      if !ok {
        return NoInodes, 0;
      }
      ghost var s2 := slots;
      ChildInUse(fs.sb, fs.Abs(), s1[ip].inum, c);
      Iput(fs, ip);
      SteppedBy(s1, s2, slots, s1[ip].inum, inum);
      return Found(next), next;
    }
  }

  /** NoSlot is iget's panic, Panic is dirlink's or balloc's. */
  datatype Outcome = Exists | Linked | NoSlot | Panic

  lemma NoneMoved(a: seq<Slot>)
    ensures RefsMoved(a, a, 0, 0)
  {
  }

  /** Giving up the reference does not free the inode. */
  predicate Stays(ip: Inode, s: Slot) {
    ip.kind != 0 && (0 < ip.nlink || 1 < s.ref)
  }

  lemma SameRefs(a: seq<Slot>, b: seq<Slot>, i: nat)
    requires RefsMoved(a, b, i, 0)
    ensures RefsMoved(a, b, 0, 0)
  {
    hide Refs;
    forall k: nat ensures Refs(b, k) == Refs(a, k) + if k == 0 then 0 else 0 {
      assert Refs(b, k) == Refs(a, k) + if k == i then 0 else 0;
    }
  }

  lemma SameRefsMoved(a: seq<Slot>, b: seq<Slot>, c: seq<Slot>, i: nat)
    requires RefsMoved(a, b, i, 1) && RefsMoved(b, c, 0, 0)
    ensures RefsMoved(a, c, i, 1)
  {
    hide Refs;
    forall k: nat ensures Refs(c, k) == Refs(a, k) + if k == i then 1 else 0 {
      assert Refs(c, k) == Refs(b, k) + if k == 0 then 0 else 0;
    }
  }

  /** One reference less for i, one more for j. */
  ghost predicate Stepped(a: seq<Slot>, b: seq<Slot>, i: nat, j: nat) {
    forall k: nat :: Refs(b, k) == Refs(a, k) + (if k == j then 1 else 0) - (if k == i then 1 else 0)
  }

  lemma SteppedBy(a: seq<Slot>, b: seq<Slot>, c: seq<Slot>, i: nat, j: nat)
    requires RefsMoved(a, b, j, 1) && RefsMoved(b, c, i, -1)
    ensures Stepped(a, c, i, j)
  {
    hide Refs;
    forall k: nat ensures Refs(c, k) == Refs(a, k) + (if k == j then 1 else 0) - (if k == i then 1 else 0) {
      assert Refs(b, k) == Refs(a, k) + if k == j then 1 else 0;
    }
  }

  lemma RefsBack(a: seq<Slot>, b: seq<Slot>, c: seq<Slot>, i: nat)
    requires RefsMoved(a, b, i, 1) && RefsMoved(b, c, i, -1)
    ensures RefsMoved(a, c, 0, 0)
  {
    hide Refs;
    forall k: nat ensures Refs(c, k) == Refs(a, k) + if k == 0 then 0 else 0 {
      assert Refs(b, k) == Refs(a, k) + if k == i then 1 else 0;
    }
  }

  lemma RefsOn(a: seq<Slot>, b: seq<Slot>, c: seq<Slot>, i: nat, j: nat)
    requires RefsMoved(a, b, i, 1) && Stepped(b, c, i, j)
    ensures RefsMoved(a, c, j, 1)
  {
    hide Refs;
    forall k: nat ensures Refs(c, k) == Refs(a, k) + if k == j then 1 else 0 {
      assert Refs(b, k) == Refs(a, k) + if k == i then 1 else 0;
    }
  }

  lemma WalkCases(sb: Super, fs: Fs, i: nat, cs: seq<seq<Byte>>, parent: bool)
    requires DirsOk(sb, fs) && i < sb.ninodes
    ensures var w := Walk(sb, fs, i, cs, parent);
      if cs == [] then w == (if parent then 0 else i)
      else if fs.inodes[i].kind != T_DIR then w == 0
      else if parent && |cs| == 1 then w == i
      else
        var next := Child(sb, fs, i, cs[0]);
        w == if next == 0 then 0 else Walk(sb, fs, next, cs[1..], parent)
  {
  }

  lemma ShortLookup(c: seq<Byte>, name: seq<Byte>)
    ensures Lookup(c, Short(name)) == Lookup(c, name)
  {
    hide Cut, FirstHit;
    ShortName(name);
    var r, r' := FirstHit(c, name, 0), FirstHit(c, Short(name), 0);
    forall k | 0 <= k < Entries(c) ensures Hit(c, k, Short(name)) == Hit(c, k, name) {
    }
    assert r == r';
  }

  datatype Result = Found(s: nat) | NotFound | NoInodes

  /** The same last component, as long as there is one. */
  predicate SameLast(cs: seq<seq<Byte>>, ds: seq<seq<Byte>>) {
    ds != [] ==> cs != [] && cs[|cs| - 1] == ds[|ds| - 1]
  }
}
