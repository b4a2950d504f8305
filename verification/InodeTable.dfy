/**
  iget, ialloc, ilock, iunlock, iupdate and iput of kernel/fs.c on the table itself, as one
  thread runs them. `sys` is the state of the step system, and every change is one of its
  steps; the interleavings are there.
 */
module InodeTable {
  import opened Wrappers
  import opened Itable

  /** struct inode; `lock` is the thread that holds its sleep-lock, or -1. */
  datatype Inode = Inode(inum: nat, ref: nat, valid: bool, copy: Dinode, lock: int)

  /** What ialloc comes to: iget panics when every entry is in use. */
  datatype Made = NoInode | NoEntry | Made(k: nat)

  /** What ilock comes to. */
  datatype Locking = Waits | Panics | Locked

  function View(q: Slot): Inode { Inode(q.inum, q.ref, q.valid, q.copy, q.lock) }

  function Table(s: Sys): (t: seq<Inode>)
    ensures |t| == |s.slots|
    ensures forall k :: 0 <= k < |t| ==> t[k] == View(s.slots[k])
  {
    seq(|s.slots|, k requires 0 <= k < |s.slots| => View(s.slots[k]))
  }

  /** The entry in use for an inode, or the table's size. */
  function InUse(t: seq<Inode>, i: nat, k: nat): (r: nat)
    requires k <= |t|
    ensures k <= r <= |t| && (r < |t| ==> t[r].ref > 0 && t[r].inum == i)
    ensures forall j :: k <= j < r ==> !(t[j].ref > 0 && t[j].inum == i)
    decreases |t| - k
  {
    if k == |t| || (t[k].ref > 0 && t[k].inum == i) then k else InUse(t, i, k + 1)
  }

  /** The first entry that is not in use, or the table's size. */
  function Unused(t: seq<Inode>, k: nat): (r: nat)
    requires k <= |t|
    ensures k <= r <= |t| && (r < |t| ==> t[r].ref == 0)
    ensures forall j :: k <= j < r ==> t[j].ref > 0
    decreases |t| - k
  {
    if k == |t| || t[k].ref == 0 then k else Unused(t, k + 1)
  }

  /** The entry that iget returns. */
  function Pick(t: seq<Inode>, i: nat): (r: nat)
    ensures r <= |t|
  {
    if InUse(t, i, 0) < |t| then InUse(t, i, 0) else Unused(t, 0)
  }

  /** One reference more, in an entry that is in use or taken over for inode `i`. */
  function OneMore(q: Inode, i: nat): Inode {
    if q.ref > 0 then q.(ref := q.ref + 1) else q.(inum := i, ref := 1, valid := false)
  }

  lemma GotTable(s: Sys, k: nat, p: nat, i: nat)
    requires k < |s.slots|
    ensures Table(SetSlot(s, k, Got(s.slots[k], p, i))) == Table(s)[k := OneMore(Table(s)[k], i)]
  {
  }

  lemma PickChosen(s: Sys, i: nat)
    requires i < |s.disk| && Pick(Table(s), i) < |s.slots|
    ensures Chosen(s, i, Pick(Table(s), i))
  {
  }

  /** The first free inode from `i` on, or the number of inodes. */
  function FirstFree(disk: seq<Dinode>, i: nat): nat
    decreases |disk| - i
  {
    if i >= |disk| then |disk| else if disk[i].kind == 0 then i else FirstFree(disk, i + 1)
  }

  lemma MarkTable(s: Sys, p: nat, i: nat, kind: nat)
    requires Enabled(s, Mark(p, i, kind))
    ensures Table(Do(s, Mark(p, i, kind))) == Table(s)
  {
  }

  /** An entry that nobody has locked is either not loaded or what the disk has. */
  lemma LockedCopy(s: Sys, p: nat, k: nat)
    requires Reachable(s) && Enabled(s, Lock(p, k))
    ensures s.slots[k].inum < |s.disk| && s.slots[k].ref > 0
    ensures s.slots[k].valid ==> s.slots[k].copy == s.disk[s.slots[k].inum] && s.slots[k].copy.kind != 0
  {
    ReachableSound(s);
    assert SlotAt(s, k);
    Positive(s, k, p);
  }

  lemma LockedEntry(s: Sys, k: nat)
    requires Reachable(s) && !s.panicked && k < |s.slots|
    ensures s.slots[k].inum < |s.disk|
  {
    ReachableSound(s);
    assert SlotAt(s, k);
  }

  lemma LockTable(s: Sys, p: nat, k: nat)
    requires Enabled(s, Lock(p, k)) && s.slots[k].inum < |s.disk|
    ensures var t := Do(s, Lock(p, k));
      && t.disk == s.disk && !t.panicked && Table(t) == Table(s)[k := Table(s)[k].(lock := p)]
      && (!s.slots[k].valid ==> Enabled(t, Load(p, k)))
  {
  }

  lemma LoadTable(s: Sys, p: nat, k: nat)
    requires Enabled(s, Load(p, k))
    ensures var t, d := Do(s, Load(p, k)), s.disk[s.slots[k].inum];
      && t.disk == s.disk && (t.panicked <==> d.kind == 0)
      && Table(t) == Table(s)[k := Table(s)[k].(copy := d, valid := true)]
  {
  }

  lemma PutFacts(s: Sys, p: nat, k: nat)
    requires Reachable(s) && Enabled(s, Put(p, k))
    ensures s.slots[k].ref > 0 && s.slots[k].inum < |s.disk|
    ensures Frees(s.slots[k]) ==> s.slots[k].lock == -1 && s.slots[k].copy == s.disk[s.slots[k].inum]
  {
    ReachableSound(s);
    assert SlotAt(s, k);
    Positive(s, k, p);
    if Frees(s.slots[k]) {
      FreesAlone(s, p, k);
    }
  }

  lemma PutFreesTable(s: Sys, p: nat, k: nat)
    requires Enabled(s, Put(p, k)) && Frees(s.slots[k])
    ensures var t := Do(s, Put(p, k));
      && t.disk == s.disk && !t.panicked && |t.pcs| == |s.pcs| && t.pcs[p] == Freeing(k)
      && Table(t) == Table(s)[k := Table(s)[k].(lock := p)]
  {
  }

  lemma PutDropsTable(s: Sys, p: nat, k: nat)
    requires Enabled(s, Put(p, k)) && !Frees(s.slots[k]) && s.slots[k].ref > 0
    ensures var t := Do(s, Put(p, k));
      t.disk == s.disk && Table(t) == Table(s)[k := Table(s)[k].(ref := s.slots[k].ref - 1)]
  {
  }

  lemma FreeTable(s: Sys, p: nat, k: nat)
    requires !s.panicked && p < |s.pcs| && s.pcs[p] == Freeing(k) && k < |s.slots| && s.slots[k].inum < |s.disk|
    ensures Enabled(s, Free(p))
    ensures var t := Do(s, Free(p));
      var copy := s.slots[k].copy.(kind := 0, body := 0);
      && t.disk == s.disk[s.slots[k].inum := copy] && !t.panicked && |t.pcs| == |s.pcs| && t.pcs[p] == Freed(k)
      && Table(t) == Table(s)[k := Table(s)[k].(copy := copy)]
  {
  }

  lemma InvalidateTable(s: Sys, p: nat, k: nat)
    requires !s.panicked && p < |s.pcs| && s.pcs[p] == Freed(k) && k < |s.slots|
    ensures Enabled(s, Invalidate(p))
    ensures var t := Do(s, Invalidate(p));
      && t.disk == s.disk && !t.panicked && |t.pcs| == |s.pcs| && t.pcs[p] == Dropping(k)
      && Table(t) == Table(s)[k := Table(s)[k].(valid := false, lock := -1)]
  {
  }

  lemma DropTable(s: Sys, p: nat, k: nat)
    requires !s.panicked && p < |s.pcs| && s.pcs[p] == Dropping(k) && k < |s.slots| && s.slots[k].ref > 0
    ensures Enabled(s, Drop(p))
    ensures var t := Do(s, Drop(p));
      t.disk == s.disk && Table(t) == Table(s)[k := Table(s)[k].(ref := s.slots[k].ref - 1)]
  {
  }

  class InodeTable {
    const table: array<Inode>
    var disk: seq<Dinode>
    ghost var sys: Sys

    ghost predicate Valid()
      reads this, table
    {
      Reachable(sys) && sys.disk == disk && table[..] == Table(sys)
    }

    /** One step of the step system. */
    ghost method Step(a: Itable.Step)
      requires Reachable(sys) && Enabled(sys, a)
      modifies this`sys
      ensures Reachable(sys) && sys == Do(old(sys), a)
    {
      Then(sys, a, Do(sys, a));
      sys := Do(sys, a);
    }

    /** iget: the entry in use for the inode, else the first unused one; None when there is neither. */
    method Iget(i: nat) returns (r: Option<nat>)
      modifies table
      ensures r.None? ==> Pick(old(table[..]), i) == table.Length && table[..] == old(table[..])
      ensures r.Some? ==> r.value == Pick(old(table[..]), i) < table.Length
      ensures r.Some? ==> table[..] == old(table[..])[r.value := OneMore(old(table[..])[r.value], i)]
    {
      hide InUse, Unused;
      ghost var t := table[..];
      var empty := table.Length;
      var k := 0;
      while k < table.Length
        invariant 0 <= k <= table.Length && table[..] == t && (0 <= empty < k || empty == table.Length)
        invariant forall j :: 0 <= j < k ==> !(t[j].ref > 0 && t[j].inum == i)
        invariant forall j :: 0 <= j < k && j < empty ==> t[j].ref > 0
        invariant empty < table.Length ==> t[empty].ref == 0
      {
        if table[k].ref > 0 && table[k].inum == i {
          table[k] := table[k].(ref := table[k].ref + 1);
          return Some(k);
        }
        if empty == table.Length && table[k].ref == 0 {
          empty := k;
        }
        k := k + 1;
      }
      if empty == table.Length {
        return None;
      }
      table[empty] := table[empty].(inum := i, ref := 1, valid := false);
      return Some(empty);
    }

    /** iget by a thread that found the number in a directory, in use or not. */
    method IgetNamed(p: nat, i: nat) returns (r: Option<nat>)
      requires Valid() && !sys.panicked && IsIdle(sys, p) && i < |disk|
      modifies this`sys, table
      ensures Valid() && disk == old(disk)
      ensures r.None? ==> sys == old(sys)
      ensures r.Some? ==> Enabled(old(sys), Find(p, i, r.value)) && sys == Do(old(sys), Find(p, i, r.value))
    {
      hide Reachable, Table, Pick;
      r := Iget(i);
      if r.Some? {
        PickChosen(sys, i);
        GotTable(sys, r.value, p, i);
        Step(Find(p, i, r.value));
      }
    }

    /** ialloc: the first free inode from 1 on is marked and gets an entry, if there is one left. */
    method Ialloc(p: nat, kind: nat) returns (r: Made)
      requires Valid() && !sys.panicked && IsIdle(sys, p) && kind != 0
      modifies this`sys, this`disk, table
      ensures Valid()
      ensures r.NoInode? <==> FirstFree(old(disk), 1) == |old(disk)|
      ensures r.NoInode? ==> sys == old(sys)
      ensures !r.NoInode? ==>
        var i := FirstFree(old(disk), 1);
        && Enabled(old(sys), Mark(p, i, kind)) && disk == old(disk)[i := Dinode(kind, 0, 0)]
        && (r.NoEntry? <==> Pick(old(table[..]), i) == table.Length)
        && (r.NoEntry? ==> sys == Do(old(sys), Mark(p, i, kind)))
        && (r.Made? ==> Enabled(Do(old(sys), Mark(p, i, kind)), Take(p, r.k))
                        && sys == Do(Do(old(sys), Mark(p, i, kind)), Take(p, r.k)))
    {
      hide Reachable, Table, Pick;
      var inum := 1;
      while inum < |disk|
        invariant 1 <= inum && FirstFree(disk, inum) == FirstFree(disk, 1)
        invariant sys == old(sys) && disk == old(disk) && table[..] == old(table[..])
      {
        if disk[inum].kind == 0 {
          Step(Mark(p, inum, kind));
          disk := disk[inum := Dinode(kind, 0, 0)];
          MarkTable(old(sys), p, inum, kind);
          var e := Iget(inum);
          if e.None? {
            return NoEntry;
          }
          PickChosen(sys, inum);
          GotTable(sys, e.value, p, inum);
          Step(Take(p, e.value));
          return Made(e.value);
        }
        inum := inum + 1;
      }
      r := NoInode;
    }

    /**
      ilock: it waits while another thread has the lock, panics if the inode it has to load
      is free, and otherwise holds the lock on a copy that is the disk's and has a type.
     */
    method Ilock(p: nat, k: nat) returns (r: Locking)
      requires Valid() && !sys.panicked && IsIdle(sys, p) && k < table.Length && p in sys.slots[k].owners
      modifies this`sys, table
      ensures Valid() && disk == old(disk) && old(table[..])[k].inum < |disk|
      ensures r.Waits? <==> old(table[..])[k].lock != -1
      ensures r.Waits? ==> sys == old(sys)
      ensures !r.Waits? ==> (r.Panics? <==> !old(table[..])[k].valid && disk[old(table[..])[k].inum].kind == 0)
      ensures sys.panicked <==> r.Panics?
      ensures !r.Waits? ==>
        var q := old(table[..])[k];
        table[..] == old(table[..])[k := q.(valid := true, copy := disk[q.inum], lock := p)]
      ensures r.Locked? ==> table[k].copy.kind != 0
    {
      hide Reachable, Table, Do;
      LockedEntry(sys, k);
      if table[k].lock != -1 {
        return Waits;
      }
      LockedCopy(sys, p, k);
      LockTable(sys, p, k);
      Step(Lock(p, k));
      table[k] := table[k].(lock := p);
      r := Locked;
      if !table[k].valid {
        LoadTable(sys, p, k);
        Step(Load(p, k));
        table[k] := table[k].(copy := disk[table[k].inum], valid := true);
        if table[k].copy.kind == 0 {
          r := Panics;
        }
      }
    }

    method Iupdate(p: nat, k: nat)
      requires Valid() && Enabled(sys, Update(p, k))
      modifies this`sys, this`disk
      ensures Valid() && disk == old(disk)[table[k].inum := table[k].copy]
    {
      hide Reachable, Table;
      Step(Update(p, k));
      disk := disk[table[k].inum := table[k].copy];
      assert Table(sys) == Table(old(sys));
    }

    method Iunlock(p: nat, k: nat)
      requires Valid() && Enabled(sys, Unlock(p, k))
      modifies this`sys, table
      ensures Valid() && disk == old(disk) && table[..] == old(table[..])[k := old(table[..])[k].(lock := -1)]
    {
      hide Reachable, Table;
      Step(Unlock(p, k));
      table[k] := table[k].(lock := -1);
      assert table[..] == Table(sys);
    }

    /** iput: the last reference to an inode without links frees it on disk, and one reference goes. */
    method Iput(p: nat, k: nat)
      requires Valid() && Enabled(sys, Put(p, k))
      modifies this`sys, this`disk, table
      ensures Valid() && k < table.Length && table[k].inum == old(table[..])[k].inum < |old(disk)|
      ensures table[k].ref == old(table[..])[k].ref - 1
      ensures var q := old(table[..])[k];
        if q.ref == 1 && q.valid && q.copy.nlink == 0
        then disk == old(disk)[q.inum := q.copy.(kind := 0, body := 0)]
          && !table[k].valid && old(disk)[q.inum].nlink == 0
        else disk == old(disk) && table[k] == q.(ref := q.ref - 1)
      ensures forall j :: 0 <= j < table.Length && j != k ==> table[j] == old(table[..])[j]
    {
      hide Reachable, Table, Do;
      PutFacts(sys, p, k);
      if table[k].ref == 1 && table[k].valid && table[k].copy.nlink == 0 {
        assert table[k].lock == -1;
        PutFreesTable(sys, p, k);
        Step(Put(p, k));
        table[k] := table[k].(lock := p);
        FreeInode(p, k);
      } else {
        PutDropsTable(sys, p, k);
        Step(Put(p, k));
        table[k] := table[k].(ref := table[k].ref - 1);
      }
    }

    /** The part of iput that frees: the disk first, then the entry, then the reference. */
    method FreeInode(p: nat, k: nat)
      requires Valid() && !sys.panicked && p < |sys.pcs| && sys.pcs[p] == Freeing(k)
      requires k < table.Length && table[k].ref > 0
      requires table[k].inum < |disk|
      modifies this`sys, this`disk, table
      ensures Valid() && disk == old(disk)[old(table[..])[k].inum := old(table[..])[k].copy.(kind := 0, body := 0)]
      ensures var q := old(table[..])[k];
        table[..] == old(table[..])[k := Inode(q.inum, q.ref - 1, false, q.copy.(kind := 0, body := 0), -1)]
    {
      hide Reachable, Table, Do, Enabled;
      FreeTable(sys, p, k);
      Step(Free(p));
      table[k] := table[k].(copy := table[k].copy.(kind := 0, body := 0));
      disk := disk[table[k].inum := table[k].copy];
      InvalidateTable(sys, p, k);
      Step(Invalidate(p));
      table[k] := table[k].(valid := false, lock := -1);
      DropTable(sys, p, k);
      Step(Drop(p));
      table[k] := table[k].(ref := table[k].ref - 1);
    }
  }
}
