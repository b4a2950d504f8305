/**
  The in-memory inode table of kernel/fs.c as a step system: iget, idup, ilock, iunlock, iput
  and ialloc by any number of threads. A critical section under itable.lock, or the load or
  the write-back of one inode, is one step; iput that frees an inode takes several.

  Threads keep to the rules of the code: they lock only inodes they have a reference to, change
  a copy only while they hold its lock, and write it back before they unlock (a read of a hole
  does not; see `FsRead`). They may call iput on an inode that they have locked, as dirlink does
  when the name is ".", but then have another reference to it. Lookup by name may find any inode
  number at all, since a directory entry is not checked against the inode it names; ilock panics
  when the inode is free.
 */
module Itable {

  /** An inode on disk; kind 0 is free. `body` stands for size, addresses and contents. */
  datatype Dinode = Dinode(kind: nat, nlink: int, body: int)

  /**
    A table entry. `owners` are the threads with a reference, as often as they have one, and
    `dropping` those that freed the inode and are about to drop theirs.
   */
  datatype Slot = Slot(inum: nat, ref: nat, valid: bool, copy: Dinode, lock: int,
                       owners: multiset<nat>, dropping: multiset<nat>)

  datatype Pc =
    | Idle
    | NewInode(i: nat)     // in ialloc, between marking the inode and iget
    | Freeing(k: nat)      // in iput, with the lock, before the inode is free on disk
    | Freed(k: nat)        // in iput, the inode is free on disk
    | Dropping(k: nat)     // in iput, the lock is released

  /** `panicked` is set by ilock when it loads an inode without a type; nothing happens after that. */
  datatype Sys = Sys(disk: seq<Dinode>, slots: seq<Slot>, pcs: seq<Pc>, panicked: bool)

  datatype Step =
    | Find(p: nat, i: nat, k: nat)
    | Dup(p: nat, k: nat)
    | Mark(p: nat, i: nat, kind: nat)
    | Take(p: nat, k: nat)
    | Lock(p: nat, k: nat)
    | Load(p: nat, k: nat)
    | Modify(p: nat, k: nat, copy: Dinode)
    | Update(p: nat, k: nat)
    | Unlock(p: nat, k: nat)
    | Put(p: nat, k: nat)
    | Free(p: nat)
    | Invalidate(p: nat)
    | Drop(p: nat)

  predicate IsIdle(s: Sys, p: nat) { p < |s.pcs| && s.pcs[p].Idle? }

  /** The entry that iget uses: the one in use for the inode, else an unused one. */
  ghost predicate Chosen(s: Sys, i: nat, k: nat) {
    && i < |s.disk| && k < |s.slots|
    && (if s.slots[k].ref > 0 then s.slots[k].inum == i
        else forall j :: 0 <= j < |s.slots| && s.slots[j].ref > 0 ==> s.slots[j].inum != i)
  }

  predicate Holds(s: Sys, p: nat, k: nat) {
    IsIdle(s, p) && k < |s.slots| && s.slots[k].lock == p && s.slots[k].inum < |s.disk|
  }

  /** A thread that holds the lock keeps a reference for it when it puts another one back. */
  predicate Spare(q: Slot, p: nat) { q.lock == p ==> q.owners[p] >= 2 }

  ghost predicate Enabled(s: Sys, a: Step) { !s.panicked && Possible(s, a) }

  ghost predicate Possible(s: Sys, a: Step) {
    match a
    case Find(p, i, k) => IsIdle(s, p) && Chosen(s, i, k)
    case Dup(p, k) => IsIdle(s, p) && k < |s.slots| && p in s.slots[k].owners
    case Mark(p, i, kind) => IsIdle(s, p) && i < |s.disk| && s.disk[i].kind == 0 && kind != 0
    case Take(p, k) => p < |s.pcs| && s.pcs[p].NewInode? && Chosen(s, s.pcs[p].i, k)
    case Lock(p, k) => IsIdle(s, p) && k < |s.slots| && p in s.slots[k].owners && s.slots[k].lock == -1
    case Load(p, k) => Holds(s, p, k) && !s.slots[k].valid
    case Modify(p, k, copy) => Holds(s, p, k) && s.slots[k].valid && copy.kind != 0
    case Update(p, k) => Holds(s, p, k) && s.slots[k].valid
    case Unlock(p, k) => Holds(s, p, k) && s.slots[k].valid && s.slots[k].copy == s.disk[s.slots[k].inum]
    case Put(p, k) => IsIdle(s, p) && k < |s.slots| && p in s.slots[k].owners && Spare(s.slots[k], p)
    case Free(p) => p < |s.pcs| && s.pcs[p].Freeing? && s.pcs[p].k < |s.slots| && s.slots[s.pcs[p].k].inum < |s.disk|
    case Invalidate(p) => p < |s.pcs| && s.pcs[p].Freed? && s.pcs[p].k < |s.slots|
    case Drop(p) => p < |s.pcs| && s.pcs[p].Dropping? && s.pcs[p].k < |s.slots| && s.slots[s.pcs[p].k].ref > 0
  }

  /** One reference more, in an entry that is in use or taken over for inode `i`. */
  function Got(q: Slot, p: nat, i: nat): Slot {
    if q.ref > 0 then q.(ref := q.ref + 1, owners := q.owners + multiset{p})
    else q.(inum := i, ref := 1, valid := false, owners := q.owners + multiset{p})
  }

  /** The test of iput: the last reference to an inode without links. */
  predicate Frees(q: Slot) { q.ref == 1 && q.valid && q.copy.nlink == 0 }

  function SetSlot(s: Sys, k: nat, q: Slot): Sys
    requires k < |s.slots|
  {
    s.(slots := s.slots[k := q])
  }

  function SetPc(s: Sys, p: nat, pc: Pc): Sys
    requires p < |s.pcs|
  {
    s.(pcs := s.pcs[p := pc])
  }

  function SetDisk(s: Sys, i: nat, d: Dinode): Sys
    requires i < |s.disk|
  {
    s.(disk := s.disk[i := d])
  }

  ghost function Do(s: Sys, a: Step): Sys
    requires Enabled(s, a)
  {
    match a
    case Find(p, i, k) => SetSlot(s, k, Got(s.slots[k], p, i))
    case Dup(p, k) => SetSlot(s, k, s.slots[k].(ref := s.slots[k].ref + 1, owners := s.slots[k].owners + multiset{p}))
    case Mark(p, i, kind) => SetPc(SetDisk(s, i, Dinode(kind, 0, 0)), p, NewInode(i))
    case Take(p, k) => SetPc(SetSlot(s, k, Got(s.slots[k], p, s.pcs[p].i)), p, Idle)
    case Lock(p, k) => SetSlot(s, k, s.slots[k].(lock := p))
    case Load(p, k) =>
      var d := s.disk[s.slots[k].inum];
      SetSlot(s, k, s.slots[k].(copy := d, valid := true)).(panicked := d.kind == 0)
    case Modify(p, k, copy) => SetSlot(s, k, s.slots[k].(copy := copy))
    case Update(p, k) => SetDisk(s, s.slots[k].inum, s.slots[k].copy)
    case Unlock(p, k) => SetSlot(s, k, s.slots[k].(lock := -1))
    case Put(p, k) =>
      var q := s.slots[k];
      if Frees(q) then SetPc(SetSlot(s, k, q.(lock := p)), p, Freeing(k))
      else SetSlot(s, k, q.(ref := if q.ref > 0 then q.ref - 1 else 0, owners := q.owners - multiset{p}))
    case Free(p) =>
      var k := s.pcs[p].k;
      var q := s.slots[k];
      var copy := q.copy.(kind := 0, body := 0);
      var t := SetSlot(s, k, q.(copy := copy, owners := q.owners - multiset{p}, dropping := q.dropping + multiset{p}));
      SetPc(SetDisk(t, q.inum, copy), p, Freed(k))
    case Invalidate(p) =>
      var k := s.pcs[p].k;
      SetPc(SetSlot(s, k, s.slots[k].(valid := false, lock := -1)), p, Dropping(k))
    case Drop(p) =>
      var k := s.pcs[p].k;
      SetPc(SetSlot(s, k, s.slots[k].(ref := s.slots[k].ref - 1, dropping := s.slots[k].dropping - multiset{p})),
        p, Idle)
  }

  // ----- what holds in every run -----

  predicate SlotOk(d: Dinode, q: Slot) {
    && q.ref == |q.owners| + |q.dropping|
    && (q.lock != -1 ==> q.lock >= 0 && (q.lock in q.owners || q.lock in q.dropping))
    && (q.ref > 0 && q.valid && q.lock == -1 ==> q.copy == d && d.kind != 0)
  }

  /** Thread `p` at `pc` and entry `k`, whose inode is `d` on disk. */
  predicate ThreadOk(p: nat, pc: Pc, k: nat, q: Slot, d: Dinode) {
    && (pc == Freeing(k) ==> q.lock == p && p in q.owners && q.valid && q.copy == d && d.nlink == 0)
    && (pc == Freed(k) ==> q.lock == p && p in q.dropping)
    && (pc == Dropping(k) ==> q.lock != p && p in q.dropping)
    && (p in q.dropping ==> pc == Freed(k) || pc == Dropping(k))
    && q.dropping[p] <= 1
    && (q.lock == p && q.valid && pc != Freed(k) ==> q.copy.kind != 0)
  }

  predicate PcOk(s: Sys, pc: Pc) {
    match pc
    case Idle => true
    case NewInode(i) => i < |s.disk|
    case Freeing(k) => k < |s.slots|
    case Freed(k) => k < |s.slots|
    case Dropping(k) => k < |s.slots|
  }

  predicate SameInode(a: Slot, b: Slot) { a.ref > 0 && b.ref > 0 && a.inum == b.inum }

  predicate InRange(s: Sys, k: nat) { k < |s.slots| && s.slots[k].inum < |s.disk| }

  predicate SlotAt(s: Sys, k: nat) { InRange(s, k) && SlotOk(s.disk[s.slots[k].inum], s.slots[k]) }

  predicate ThreadAt(s: Sys, p: nat, k: nat) {
    InRange(s, k) && p < |s.pcs| && ThreadOk(p, s.pcs[p], k, s.slots[k], s.disk[s.slots[k].inum])
  }

  /** At most one entry in use for an inode. */
  ghost predicate Unique(s: Sys) {
    forall j, k :: 0 <= j < |s.slots| && 0 <= k < |s.slots| && SameInode(s.slots[j], s.slots[k]) ==> j == k
  }

  /** Only threads are counted in entries. */
  ghost predicate Members(s: Sys) {
    forall k, r: nat :: 0 <= k < |s.slots| && (r in s.slots[k].owners || r in s.slots[k].dropping) ==> r < |s.pcs|
  }

  ghost predicate Sound(s: Sys) {
    && (forall k :: 0 <= k < |s.slots| ==> SlotAt(s, k))
    && (forall p, k :: 0 <= p < |s.pcs| && 0 <= k < |s.slots| ==> ThreadAt(s, p, k))
    && (forall p :: 0 <= p < |s.pcs| ==> PcOk(s, s.pcs[p]))
    && Unique(s) && Members(s)
  }

  /** The entry that a step changes. */
  function Touched(s: Sys, a: Step): nat {
    match a
    case Free(p) => if p < |s.pcs| && s.pcs[p].Freeing? then s.pcs[p].k else 0
    case Invalidate(p) => if p < |s.pcs| && s.pcs[p].Freed? then s.pcs[p].k else 0
    case Drop(p) => if p < |s.pcs| && s.pcs[p].Dropping? then s.pcs[p].k else 0
    case Mark(_, _, _) => 0
    case _ => a.k
  }

  /** A thread that refers to an entry counts in it. */
  lemma Positive(s: Sys, k: nat, p: nat)
    requires Sound(s) && k < |s.slots| && (p in s.slots[k].owners || p in s.slots[k].dropping || s.slots[k].lock == p)
    ensures s.slots[k].ref > 0
  {
    assert SlotAt(s, k);
    var q := s.slots[k];
    assert p in q.owners ==> q.owners == multiset{p} + (q.owners - multiset{p});
    assert p in q.dropping ==> q.dropping == multiset{p} + (q.dropping - multiset{p});
  }

  /** A step that writes an inode to disk does so for the only entry of that inode. */
  lemma OtherInode(s: Sys, a: Step, k: nat)
    requires Sound(s) && Enabled(s, a) && (a.Update? || a.Free?) && k < |s.slots| && s.slots[k].ref > 0
    ensures Touched(s, a) < |s.slots|
    ensures k != Touched(s, a) ==> s.slots[k].inum != s.slots[Touched(s, a)].inum
  {
    var j := Touched(s, a);
    assert ThreadAt(s, a.p, j);
    Positive(s, j, a.p);
    assert SameInode(s.slots[j], s.slots[k]) ==> j == k;
  }

  lemma OnlyOne(m: multiset<nat>, p: nat)
    requires |m| == 1 && p in m
    ensures m == multiset{p}
  {
    assert m == multiset{p} + (m - multiset{p});
  }

  /** Where iput frees, it has the only reference, and nobody has the lock. */
  lemma FreesAlone(s: Sys, p: nat, k: nat)
    requires Sound(s) && k < |s.slots| && p in s.slots[k].owners && Spare(s.slots[k], p) && Frees(s.slots[k])
    ensures s.slots[k].owners == multiset{p} && s.slots[k].dropping == multiset{} && s.slots[k].lock == -1
    ensures InRange(s, k) && s.slots[k].copy == s.disk[s.slots[k].inum] && s.disk[s.slots[k].inum].kind != 0
  {
    var q := s.slots[k];
    assert SlotAt(s, k);
    assert q.owners == multiset{p} + (q.owners - multiset{p});
    OnlyOne(q.owners, p);
  }

  lemma SlotFrame(s: Sys, a: Step, k: nat)
    requires Sound(s) && Enabled(s, a) && k < |s.slots| && (k != Touched(s, a) || a.Mark?)
    ensures SlotAt(Do(s, a), k)
  {
    hide Members;
    assert SlotAt(s, k);
    if (a.Update? || a.Free?) && s.slots[k].ref > 0 {
      OtherInode(s, a, k);
    }
  }

  /** Steps that only add a reference, or that work on an entry under its lock. */
  predicate Plain(a: Step) { !(a.Mark? || a.Put? || a.Free? || a.Invalidate? || a.Drop?) }

  lemma SlotPlain(s: Sys, a: Step)
    requires Plain(a) && Enabled(s, a) && !Do(s, a).panicked && SlotAt(s, a.k) && ThreadAt(s, a.p, a.k)
    ensures SlotAt(Do(s, a), a.k)
  {
    assert |s.slots[a.k].owners + multiset{a.p}| == |s.slots[a.k].owners| + 1;
  }

  lemma Less(m: multiset<nat>, p: nat)
    requires p in m
    ensures |m - multiset{p}| == |m| - 1 && forall r :: r != p && r in m ==> r in m - multiset{p}
  {
    assert m == multiset{p} + (m - multiset{p});
  }

  lemma SlotPut(s: Sys, a: Step)
    requires !Plain(a) && !a.Mark? && Enabled(s, a) && SlotAt(s, Touched(s, a)) && ThreadAt(s, a.p, Touched(s, a))
    ensures SlotAt(Do(s, a), Touched(s, a))
  {
    var p, q := a.p, s.slots[Touched(s, a)];
    if p in q.owners {
      Less(q.owners, p);
    }
    if p in q.dropping {
      Less(q.dropping, p);
    }
    assert |q.dropping + multiset{p}| == |q.dropping| + 1;
  }

  lemma ThreadFrame(s: Sys, a: Step, r: nat, k: nat)
    requires Sound(s) && Enabled(s, a) && r < |s.pcs| && k < |s.slots| && (k != Touched(s, a) || a.Mark?)
    ensures ThreadAt(Do(s, a), r, k)
  {
    hide Members;
    assert SlotAt(s, k) && ThreadAt(s, r, k);
    if s.slots[k].lock == r {
      Positive(s, k, r);
      if a.Update? || a.Free? {
        OtherInode(s, a, k);
      }
    }
  }

  lemma ThreadPlain(s: Sys, a: Step, r: nat)
    requires Plain(a) && Enabled(s, a) && !Do(s, a).panicked && r < |s.pcs|
    requires SlotAt(s, a.k) && ThreadAt(s, a.p, a.k) && ThreadAt(s, r, a.k)
    requires r in s.slots[a.k].owners || r in s.slots[a.k].dropping || s.slots[a.k].lock == r ==> s.slots[a.k].ref > 0
    ensures ThreadAt(Do(s, a), r, a.k)
  {
  }

  lemma ThreadPut(s: Sys, a: Step, r: nat)
    requires !Plain(a) && !a.Mark? && Enabled(s, a) && r < |s.pcs|
    requires SlotAt(s, Touched(s, a)) && ThreadAt(s, a.p, Touched(s, a)) && ThreadAt(s, r, Touched(s, a))
    requires a.Put? && Frees(s.slots[a.k]) ==>
      s.slots[a.k].owners == multiset{a.p} && s.slots[a.k].dropping == multiset{} && s.slots[a.k].lock == -1
    ensures ThreadAt(Do(s, a), r, Touched(s, a))
  {
  }

  lemma TouchedFine(s: Sys, a: Step, r: nat)
    requires Sound(s) && Enabled(s, a) && !Do(s, a).panicked && !a.Mark? && r < |s.pcs|
    ensures SlotAt(Do(s, a), Touched(s, a)) && ThreadAt(Do(s, a), r, Touched(s, a))
  {
    hide SlotOk, ThreadOk, Do, Unique, Members;
    var k := Touched(s, a);
    assert SlotAt(s, k) && ThreadAt(s, a.p, k) && ThreadAt(s, r, k);
    if r in s.slots[k].owners || r in s.slots[k].dropping || s.slots[k].lock == r {
      Positive(s, k, r);
    }
    if Plain(a) {
      SlotPlain(s, a);
      ThreadPlain(s, a, r);
    } else {
      if a.Put? && Frees(s.slots[a.k]) {
        FreesAlone(s, a.p, a.k);
      }
      SlotPut(s, a);
      ThreadPut(s, a, r);
    }
  }

  lemma StepSound(s: Sys, a: Step)
    requires Sound(s) && Enabled(s, a) && !Do(s, a).panicked
    ensures Sound(Do(s, a))
  {
    hide SlotOk, ThreadOk;
    var t := Do(s, a);
    forall k | 0 <= k < |s.slots|
      ensures SlotAt(t, k)
    {
      if k == Touched(s, a) && !a.Mark? { TouchedFine(s, a, a.p); } else { SlotFrame(s, a, k); }
    }
    forall r, k | 0 <= r < |s.pcs| && 0 <= k < |s.slots|
      ensures ThreadAt(t, r, k)
    {
      if k == Touched(s, a) && !a.Mark? { TouchedFine(s, a, r); } else { ThreadFrame(s, a, r, k); }
    }
    StepUnique(s, a);
    StepMembers(s, a);
  }

  /** Only the thread that takes the step can be new in an entry. */
  lemma StepMember(s: Sys, a: Step, k: nat, r: nat)
    requires Enabled(s, a) && k < |s.slots| == |Do(s, a).slots|
    requires r in Do(s, a).slots[k].owners || r in Do(s, a).slots[k].dropping
    ensures r in s.slots[k].owners || r in s.slots[k].dropping || r < |s.pcs|
  {
  }

  lemma StepShape(s: Sys, a: Step)
    requires Enabled(s, a)
    ensures |Do(s, a).slots| == |s.slots| && |Do(s, a).pcs| == |s.pcs|
  {
  }

  lemma StepMembers(s: Sys, a: Step)
    requires Members(s) && Enabled(s, a)
    ensures Members(Do(s, a))
  {
    hide Members, Do, Enabled;
    StepShape(s, a);
    forall k, r: nat | 0 <= k < |s.slots| && (r in Do(s, a).slots[k].owners || r in Do(s, a).slots[k].dropping)
      ensures r < |s.pcs|
    {
      StepMember(s, a, k, r);
      if r in s.slots[k].owners || r in s.slots[k].dropping {
        MemberAt(s, k, r);
      }
    }
    MembersIf(Do(s, a));
  }

  lemma MemberAt(s: Sys, k: nat, r: nat)
    requires Members(s) && k < |s.slots| && (r in s.slots[k].owners || r in s.slots[k].dropping)
    ensures r < |s.pcs|
  {
  }

  lemma MembersIf(s: Sys)
    requires forall k, r: nat :: 0 <= k < |s.slots| && (r in s.slots[k].owners || r in s.slots[k].dropping) ==>
      r < |s.pcs|
    ensures Members(s)
  {
  }

  lemma StepUnique(s: Sys, a: Step)
    requires Sound(s) && Enabled(s, a)
    ensures Unique(Do(s, a)) && forall p :: 0 <= p < |s.pcs| ==> PcOk(Do(s, a), Do(s, a).pcs[p])
  {
    hide Members;
    hide SlotOk, ThreadOk;
    var t := Do(s, a);
    forall j, k | 0 <= j < |t.slots| && 0 <= k < |t.slots| && SameInode(t.slots[j], t.slots[k])
      ensures j == k
    {
      if a.Dup? {
        Positive(s, a.k, a.p);
      }
      assert SameInode(s.slots[j], s.slots[k]) ==> j == k;
    }
  }

  // ----- runs -----

  ghost predicate Legal(s: Sys, run: seq<Step>)
    decreases run
  {
    run == [] || (Enabled(s, run[0]) && Legal(Do(s, run[0]), run[1..]))
  }

  ghost function Exec(s: Sys, run: seq<Step>): Sys
    requires Legal(s, run)
    decreases run
  {
    if run == [] then s else Exec(Do(s, run[0]), run[1..])
  }

  /** Any disk, an empty table, and threads that have done nothing yet. */
  ghost predicate Boot(s: Sys) {
    && !s.panicked
    && (forall k :: 0 <= k < |s.slots| ==>
          && s.slots[k].ref == 0 && s.slots[k].lock == -1 && s.slots[k].inum < |s.disk|
          && s.slots[k].owners == multiset{} && s.slots[k].dropping == multiset{})
    && (forall p :: 0 <= p < |s.pcs| ==> s.pcs[p].Idle?)
  }

  ghost predicate Reachable(s: Sys) {
    exists s0, run :: Boot(s0) && Legal(s0, run) && Exec(s0, run) == s
  }

  lemma {:induction false} RunSound(s: Sys, run: seq<Step>)
    requires Sound(s) && Legal(s, run)
    ensures !Exec(s, run).panicked ==> Sound(Exec(s, run))
    decreases run
  {
    hide Sound, Possible, Do;
    if run != [] {
      var t := Do(s, run[0]);
      if !t.panicked {
        StepSound(s, run[0]);
        RunSound(t, run[1..]);
      }
    }
  }

  lemma ReachableSound(s: Sys)
    requires Reachable(s) && !s.panicked
    ensures Sound(s)
  {
    var s0, run :| Boot(s0) && Legal(s0, run) && Exec(s0, run) == s;
    assert Sound(s0);
    hide Sound, Boot;
    RunSound(s0, run);
  }

  // ----- the theorems about every run -----

  /** One entry per inode in use; and one that is valid and not locked is what the disk has. */
  lemma TableAgrees(s: Sys, j: nat, k: nat)
    requires Reachable(s) && !s.panicked && j < |s.slots| && k < |s.slots| && s.slots[j].ref > 0 && s.slots[k].ref > 0
    ensures s.slots[j].inum == s.slots[k].inum ==> j == k
    ensures s.slots[k].inum < |s.disk|
    ensures s.slots[k].valid && s.slots[k].lock == -1 ==> s.slots[k].copy == s.disk[s.slots[k].inum]
  {
    ReachableSound(s);
    assert SameInode(s.slots[j], s.slots[k]) ==> j == k;
    assert SlotAt(s, k);
  }

  /** Where iput frees, the only thread that it could wait for is the one that calls it. */
  lemma PutWaitsForItself(s: Sys, p: nat, k: nat)
    requires Reachable(s) && !s.panicked && IsIdle(s, p) && k < |s.slots| && p in s.slots[k].owners && Frees(s.slots[k])
    ensures s.slots[k].lock != -1 <==> s.slots[k].lock == p
  {
    ReachableSound(s);
    assert SlotAt(s, k);
    Less(s.slots[k].owners, p);
    OnlyOne(s.slots[k].owners, p);
  }

  /** The lock that iput takes while it holds itable.lock is free: the thread cannot block there, not even on itself. */
  lemma PutNeverBlocks(s: Sys, p: nat, k: nat)
    requires Reachable(s) && Enabled(s, Put(p, k)) && Frees(s.slots[k])
    ensures s.slots[k].lock == -1
  {
    ReachableSound(s);
    FreesAlone(s, p, k);
  }

  /** A reference taken and put back by a thread that has one. */
  lemma GotBack(q: Slot, p: nat, i: nat)
    requires q.ref > 0 && p in q.owners
    ensures var q' := Got(q, p, i);
      && p in q'.owners && Spare(q', p) && !Frees(q') && q'.ref > 0
      && q'.(ref := q'.ref - 1, owners := q'.owners - multiset{p}) == q
  {
    assert Got(q, p, i).owners - multiset{p} == q.owners;
  }

  /** The holder of a lock has a reference. */
  lemma HolderRefers(s: Sys, p: nat, k: nat)
    requires Reachable(s) && !s.panicked && Holds(s, p, k)
    ensures s.slots[k].ref > 0 && p in s.slots[k].owners
  {
    ReachableSound(s);
    hide Reachable;
    assert SlotAt(s, k) && ThreadAt(s, p, k);
    Positive(s, k, p);
  }

  /** A thread that looks up the inode it has locked, as dirlink does for ".", may put it back, which frees nothing. */
  lemma PutUnderLock(s: Sys, p: nat, k: nat)
    requires Reachable(s) && Holds(s, p, k) && Enabled(s, Find(p, s.slots[k].inum, k))
    ensures var t := Do(s, Find(p, s.slots[k].inum, k));
      Enabled(t, Put(p, k)) && !Frees(t.slots[k]) && Do(t, Put(p, k)) == s
  {
    hide Reachable, Got, Frees, Spare, Chosen;
    HolderRefers(s, p, k);
    GotBack(s.slots[k], p, s.slots[k].inum);
    var t := Do(s, Find(p, s.slots[k].inum, k));
    assert t.slots[k] == Got(s.slots[k], p, s.slots[k].inum);
    assert Do(t, Put(p, k)).slots == s.slots;
  }

  /** An inode becomes free only in iput, without links and with its lock held. */
  lemma FreedInPut(s: Sys, a: Step, i: nat)
    requires Reachable(s) && Enabled(s, a) && i < |s.disk| && s.disk[i].kind != 0
    requires i < |Do(s, a).disk| && Do(s, a).disk[i].kind == 0
    ensures a.Free? && s.disk[i].nlink == 0 && s.slots[s.pcs[a.p].k].inum == i && s.slots[s.pcs[a.p].k].lock == a.p
  {
    ReachableSound(s);
    if !a.Free? {
      KindStays(s, a, i);
    } else {
      assert ThreadAt(s, a.p, s.pcs[a.p].k);
    }
  }

  lemma KindStays(s: Sys, a: Step, i: nat)
    requires Sound(s) && Enabled(s, a) && !a.Free? && i < |s.disk| && s.disk[i].kind != 0
    ensures i < |Do(s, a).disk| && Do(s, a).disk[i].kind != 0
  {
    if a.Update? {
      assert ThreadAt(s, a.p, a.k);
    }
  }

  /**
    The last user of a loaded inode without links frees it exactly when no other thread is still
    dropping the entry.
   */
  lemma LastUserFrees(s: Sys, p: nat, k: nat)
    requires Reachable(s) && Enabled(s, Put(p, k)) && s.slots[k].owners == multiset{p}
    requires s.slots[k].valid && s.slots[k].copy.nlink == 0
    ensures Do(s, Put(p, k)).pcs[p] == Freeing(k) <==> s.slots[k].dropping == multiset{}
  {
    ReachableSound(s);
    assert SlotAt(s, k);
  }

  // ----- extending a run -----

  lemma {:induction false} RunThen(s: Sys, run: seq<Step>, a: Step)
    requires Legal(s, run) && Enabled(Exec(s, run), a)
    ensures Legal(s, run + [a]) && Exec(s, run + [a]) == Do(Exec(s, run), a)
    decreases run
  {
    hide Enabled, Do;
    if run == [] {
      assert run + [a] == [a] && [a][1..] == [];
    } else {
      assert (run + [a])[0] == run[0] && (run + [a])[1..] == run[1..] + [a];
      RunThen(Do(s, run[0]), run[1..], a);
    }
  }

  lemma Then(s: Sys, a: Step, t: Sys)
    requires Reachable(s) && Enabled(s, a) && Do(s, a) == t
    ensures Reachable(t)
  {
    hide Enabled, Do, Boot;
    var s0, run :| Boot(s0) && Legal(s0, run) && Exec(s0, run) == s;
    RunThen(s0, run, a);
  }
}
