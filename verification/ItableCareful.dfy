/**
  When ilock can find an inode without a type. A lookup is careful if the inode it names is in
  use and no thread is just freeing or allocating it. In runs of careful lookups ilock always
  finds a type and an inode is freed only by its last user; one careless lookup, in any state
  such runs reach, can be followed by a panic.
 */
module ItableCareful {
  import opened Itable

  /** What makes a lookup of inode `i` careful. */
  ghost predicate Safe(s: Sys, i: nat) {
    && i < |s.disk| && s.disk[i].kind != 0
    && (forall p :: 0 <= p < |s.pcs| ==> !Busy(s, s.pcs[p], i))
  }

  /** A thread that frees or has just marked inode `i`. */
  predicate Busy(s: Sys, pc: Pc, i: nat) {
    pc == NewInode(i) || (pc.Freeing? && pc.k < |s.slots| && s.slots[pc.k].inum == i)
  }

  ghost predicate Careful(s: Sys, a: Step) { a.Find? ==> Safe(s, a.i) }

  // ----- the invariant of careful runs -----

  predicate SlotFine(d: Dinode, q: Slot) {
    (q.owners != multiset{} ==> d.kind != 0) && |q.dropping| <= 1
  }

  predicate ThreadFine(p: nat, pc: Pc, k: nat, q: Slot) {
    && (pc == Freeing(k) ==> q.owners == multiset{p} && q.dropping == multiset{})
    && (pc.NewInode? && q.ref > 0 && q.inum == pc.i ==> q.owners == multiset{})
  }

  predicate PcFine(s: Sys, pc: Pc) {
    pc.NewInode? ==> pc.i < |s.disk| && s.disk[pc.i].kind != 0 && s.disk[pc.i].nlink == 0
  }

  predicate FineAt(s: Sys, k: nat) { InRange(s, k) && SlotFine(s.disk[s.slots[k].inum], s.slots[k]) }

  predicate FineThread(s: Sys, p: nat, k: nat) {
    p < |s.pcs| && k < |s.slots| && ThreadFine(p, s.pcs[p], k, s.slots[k])
  }

  ghost predicate Inv(s: Sys) {
    && !s.panicked && Sound(s)
    && (forall k :: 0 <= k < |s.slots| ==> FineAt(s, k))
    && (forall p, k :: 0 <= p < |s.pcs| && 0 <= k < |s.slots| ==> FineThread(s, p, k))
    && (forall p :: 0 <= p < |s.pcs| ==> PcFine(s, s.pcs[p]))
    && (forall p, r :: 0 <= p < |s.pcs| && 0 <= r < |s.pcs| && s.pcs[p].NewInode? && s.pcs[p] == s.pcs[r] ==> p == r)
  }

  /** Loading finds a type. */
  lemma LoadFine(s: Sys, a: Step)
    requires Inv(s) && Enabled(s, a)
    ensures !Do(s, a).panicked
  {
    if a.Load? {
      assert SlotAt(s, a.k) && ThreadAt(s, a.p, a.k) && FineAt(s, a.k);
    }
  }

  lemma FineUnmoved(s: Sys, a: Step, k: nat)
    requires Enabled(s, a) && k < |s.slots| && (k != Touched(s, a) || a.Mark?) && FineAt(s, k)
    requires s.slots[k].owners != multiset{} && (a.Update? || a.Free?) ==>
      Touched(s, a) < |s.slots| && s.slots[k].inum != s.slots[Touched(s, a)].inum
    ensures FineAt(Do(s, a), k)
  {
  }

  lemma FineFrame(s: Sys, a: Step, k: nat)
    requires Inv(s) && Enabled(s, a) && k < |s.slots| && (k != Touched(s, a) || a.Mark?)
    ensures FineAt(Do(s, a), k)
  {
    hide Do, FineAt;
    assert FineAt(s, k);
    var q := s.slots[k];
    if q.owners != multiset{} {
      var r :| r in q.owners;
      Positive(s, k, r);
      if a.Update? || a.Free? {
        OtherInode(s, a, k);
      }
    }
    FineUnmoved(s, a, k);
  }

  lemma FineTouched(s: Sys, a: Step)
    requires Enabled(s, a) && !a.Mark? && (a.Find? ==> s.disk[a.i].kind != 0) && PcFine(s, s.pcs[a.p])
    requires var k := Touched(s, a);
      SlotAt(s, k) && ThreadAt(s, a.p, k) && FineAt(s, k) && FineThread(s, a.p, k)
    ensures FineAt(Do(s, a), Touched(s, a))
  {
    var p, q := a.p, s.slots[Touched(s, a)];
    if p in q.dropping {
      Less(q.dropping, p);
    }
    assert |q.dropping + multiset{p}| == |q.dropping| + 1;
  }

  lemma FineHere(s: Sys, a: Step)
    requires Inv(s) && Enabled(s, a) && Careful(s, a) && !a.Mark?
    ensures FineAt(Do(s, a), Touched(s, a))
  {
    hide SlotFine, ThreadFine, SlotOk, ThreadOk, PcFine, Do, Unique, Members;
    var k := Touched(s, a);
    assert SlotAt(s, k) && ThreadAt(s, a.p, k) && FineAt(s, k) && FineThread(s, a.p, k) && PcFine(s, s.pcs[a.p]);
    FineTouched(s, a);
  }

  lemma FineThreadTouched(s: Sys, a: Step, r: nat)
    requires Enabled(s, a) && !a.Mark? && r < |s.pcs| && (a.Find? ==> !Busy(s, s.pcs[r], a.i))
    requires s.pcs[r].NewInode? && s.pcs[a.p] == s.pcs[r] ==> a.p == r
    requires var k := Touched(s, a);
      && SlotAt(s, k) && FineAt(s, k) && ThreadAt(s, r, k) && FineThread(s, r, k)
      && ThreadAt(s, a.p, k) && FineThread(s, a.p, k)
    requires a.Put? && Frees(s.slots[a.k]) ==>
      s.slots[a.k].owners == multiset{a.p} && s.slots[a.k].dropping == multiset{}
    ensures FineThread(Do(s, a), r, Touched(s, a))
  {
    var p, q := a.p, s.slots[Touched(s, a)];
    assert p in q.owners && q.owners == multiset{r} ==> p == r;
  }

  lemma FineThreadFrame(s: Sys, a: Step, r: nat, k: nat)
    requires Enabled(s, a) && r < |s.pcs| && k < |s.slots| && (k != Touched(s, a) || a.Mark?)
    requires FineThread(s, r, k) && FineAt(s, k)
    ensures FineThread(Do(s, a), r, k)
  {
    SameSizes(s, a);
    assert Do(s, a).slots[k] == s.slots[k];
  }

  lemma FineThreadStep(s: Sys, a: Step, r: nat, k: nat)
    requires Inv(s) && Enabled(s, a) && Careful(s, a) && r < |s.pcs| && k < |s.slots|
    ensures FineThread(Do(s, a), r, k)
  {
    hide SlotFine, ThreadFine, SlotOk, ThreadOk, Do, Unique, Members;
    assert SlotAt(s, k) && FineAt(s, k) && ThreadAt(s, r, k) && FineThread(s, r, k);
    assert ThreadAt(s, a.p, k) && FineThread(s, a.p, k);
    if k == Touched(s, a) && !a.Mark? {
      if a.Put? && Frees(s.slots[k]) {
        FreesAlone(s, a.p, k);
      }
      FineThreadTouched(s, a, r);
    } else {
      FineThreadFrame(s, a, r, k);
    }
  }

  lemma FinePcs(s: Sys, a: Step, r: nat)
    requires Inv(s) && Enabled(s, a) && r < |s.pcs|
    ensures PcFine(Do(s, a), Do(s, a).pcs[r])
    ensures Do(s, a).pcs[r].NewInode? ==>
      forall p :: 0 <= p < |s.pcs| && Do(s, a).pcs[p] == Do(s, a).pcs[r] ==> p == r
  {
    assert PcFine(s, s.pcs[r]);
    if a.Mark? {
      assert forall p :: 0 <= p < |s.pcs| ==> PcFine(s, s.pcs[p]);
    }
    if (a.Update? || a.Free?) && s.pcs[r].NewInode? {
      var k := Touched(s, a);
      assert ThreadAt(s, a.p, k) && SlotAt(s, k) && FineThread(s, r, k);
      Positive(s, k, a.p);
    }
  }

  lemma StepFine(s: Sys, a: Step)
    requires Inv(s) && Enabled(s, a) && Careful(s, a)
    ensures Inv(Do(s, a))
  {
    hide SlotFine, ThreadFine, PcFine, Do, Possible, Sound, Safe;
    var t := Do(s, a);
    LoadFine(s, a);
    StepSound(s, a);
    SameSizes(s, a);
    forall k | 0 <= k < |s.slots|
      ensures FineAt(t, k)
    {
      if k == Touched(s, a) && !a.Mark? { FineHere(s, a); } else { FineFrame(s, a, k); }
    }
    forall r, k | 0 <= r < |s.pcs| && 0 <= k < |s.slots|
      ensures FineThread(t, r, k)
    {
      FineThreadStep(s, a, r, k);
    }
    forall r | 0 <= r < |s.pcs|
      ensures PcFine(t, t.pcs[r])
      ensures t.pcs[r].NewInode? ==> forall p :: 0 <= p < |s.pcs| && t.pcs[p] == t.pcs[r] ==> p == r
    {
      FinePcs(s, a, r);
    }
  }

  lemma SameSizes(s: Sys, a: Step)
    requires Enabled(s, a)
    ensures var t := Do(s, a); |t.slots| == |s.slots| && |t.pcs| == |s.pcs| && |t.disk| == |s.disk|
  {
  }

  // ----- careful runs -----

  ghost predicate CarefulRun(s: Sys, run: seq<Step>)
    decreases run
  {
    run == [] || (Enabled(s, run[0]) && Careful(s, run[0]) && CarefulRun(Do(s, run[0]), run[1..]))
  }

  lemma {:induction false} RunFine(s: Sys, run: seq<Step>)
    requires Inv(s) && CarefulRun(s, run)
    ensures Legal(s, run) && Inv(Exec(s, run))
    decreases run
  {
    hide Inv, Enabled, Do, Careful;
    if run != [] {
      StepFine(s, run[0]);
      RunFine(Do(s, run[0]), run[1..]);
    }
  }

  /** Some run of careful lookups from the boot state ends in `s`. */
  ghost predicate Trusted(s: Sys) {
    exists s0, run :: Boot(s0) && CarefulRun(s0, run) && Legal(s0, run) && Exec(s0, run) == s
  }

  lemma BootFine(s: Sys)
    requires Boot(s)
    ensures Inv(s)
  {
  }

  lemma TrustedInv(s: Sys)
    requires Trusted(s)
    ensures Inv(s) && Reachable(s)
  {
    hide Inv, Boot;
    var s0, run :| Boot(s0) && CarefulRun(s0, run) && Legal(s0, run) && Exec(s0, run) == s;
    BootFine(s0);
    RunFine(s0, run);
  }

  // ----- the theorems about careful runs -----

  /** A thread that loads an inode it has locked finds a type. */
  lemma LockFindsType(s: Sys, p: nat, k: nat)
    requires Trusted(s) && k < |s.slots| && p in s.slots[k].owners
    ensures s.slots[k].inum < |s.disk| && s.disk[s.slots[k].inum].kind != 0
  {
    TrustedInv(s);
    assert FineAt(s, k);
  }

  /** An inode becomes free only in iput, without links and with no other reference to it. */
  lemma FreedUnused(s: Sys, a: Step, i: nat)
    requires Trusted(s) && Enabled(s, a) && i < |s.disk| && s.disk[i].kind != 0
    requires i < |Do(s, a).disk| && Do(s, a).disk[i].kind == 0
    ensures a.Free? && s.disk[i].nlink == 0
    ensures var q := s.slots[s.pcs[a.p].k]; q.inum == i && q.ref == 1 && q.lock == a.p
    ensures forall j :: 0 <= j < |s.slots| && s.slots[j].ref > 0 && s.slots[j].inum == i ==> j == s.pcs[a.p].k
  {
    TrustedInv(s);
    FreedInPut(s, a, i);
    var k := s.pcs[a.p].k;
    assert FineThread(s, a.p, k) && SlotAt(s, k);
    forall j | 0 <= j < |s.slots| && s.slots[j].ref > 0 && s.slots[j].inum == i
      ensures j == k
    {
      assert SameInode(s.slots[j], s.slots[k]);
    }
  }

  /** An inode with a link is always a careful lookup. */
  lemma LinkedIsSafe(s: Sys, i: nat)
    requires Trusted(s) && i < |s.disk| && s.disk[i].kind != 0 && s.disk[i].nlink != 0
    ensures Safe(s, i)
  {
    TrustedInv(s);
    forall p | 0 <= p < |s.pcs|
      ensures !Busy(s, s.pcs[p], i)
    {
      assert PcFine(s, s.pcs[p]);
      if s.pcs[p].Freeing? && s.pcs[p].k < |s.slots| {
        assert ThreadAt(s, p, s.pcs[p].k);
      }
    }
  }

  // ----- after a careless lookup -----

  /** Some run, with careful lookups only, ends in the panic of ilock. */
  ghost predicate CanPanic(s: Sys) {
    exists run :: CarefulRun(s, run) && Legal(s, run) && Exec(s, run).panicked
  }

  lemma PanicStep(s: Sys, a: Step)
    requires Enabled(s, a) && !a.Find? && (Do(s, a).panicked || CanPanic(Do(s, a)))
    ensures CanPanic(s)
  {
    hide Enabled, Do;
    var t := Do(s, a);
    if t.panicked {
      assert CarefulRun(t, []) && Legal(t, []) && Exec(t, []).panicked;
    }
    var run :| CarefulRun(t, run) && Legal(t, run) && Exec(t, run).panicked;
    var more := [a] + run;
    assert more[0] == a && more[1..] == run;
    assert CarefulRun(s, more) && Legal(s, more) && Exec(s, more).panicked;
  }

  /** Entry `k` is `q` and holds inode `i`, which is `d` on disk, and no other entry holds it. */
  ghost predicate Scene(s: Sys, i: nat, d: Dinode, k: nat, q: Slot) {
    && !s.panicked && i < |s.disk| && s.disk[i] == d && k < |s.slots| && s.slots[k] == q && q.inum == i
    && (forall j :: 0 <= j < |s.slots| && j != k && s.slots[j].ref > 0 ==> s.slots[j].inum != i)
  }

  predicate At(s: Sys, p: nat, pc: Pc) { p < |s.pcs| && s.pcs[p] == pc }

  /** A thread that locks an entry of a free inode panics. */
  lemma LockPanics(s: Sys, i: nat, d: Dinode, k: nat, q: Slot, p: nat)
    requires Scene(s, i, d, k, q) && At(s, p, Idle) && p in q.owners && q.lock == -1 && !q.valid && d.kind == 0
    ensures CanPanic(s)
  {
    var t := Do(s, Lock(p, k));
    PanicStep(t, Load(p, k));
    PanicStep(s, Lock(p, k));
  }

  /** So does one that waits for the thread that freed the inode. */
  lemma FreedPanics(s: Sys, i: nat, d: Dinode, k: nat, q: Slot, p: nat, r: nat)
    requires Scene(s, i, d, k, q) && At(s, p, Idle) && p in q.owners && At(s, r, Freed(k)) && d.kind == 0
    ensures CanPanic(s)
  {
    LockPanics(Do(s, Invalidate(r)), i, d, k, q.(valid := false, lock := -1), p);
    PanicStep(s, Invalidate(r));
  }

  lemma FreeingPanics(s: Sys, i: nat, d: Dinode, k: nat, q: Slot, p: nat, r: nat)
    requires Scene(s, i, d, k, q) && At(s, p, Idle) && p in q.owners && At(s, r, Freeing(k)) && p != r
    ensures CanPanic(s)
  {
    var copy := q.copy.(kind := 0, body := 0);
    var q' := q.(copy := copy, owners := q.owners - multiset{r}, dropping := q.dropping + multiset{r});
    FreedPanics(Do(s, Free(r)), i, copy, k, q', p, r);
    PanicStep(s, Free(r));
  }

  /** A thread whose newly marked inode was freed under it panics when it takes it. */
  lemma TakePanics(s: Sys, i: nat, d: Dinode, k: nat, q: Slot, r: nat)
    requires Scene(s, i, d, k, q) && At(s, r, NewInode(i)) && q.ref == 0 && q.lock == -1 && d.kind == 0
    ensures CanPanic(s)
  {
    var t := Do(s, Take(r, k));
    LockPanics(t, i, d, k, Got(q, r, i), r);
    PanicStep(s, Take(r, k));
  }

  lemma DropPanics(s: Sys, i: nat, d: Dinode, k: nat, q: Slot, p: nat, r: nat)
    requires Scene(s, i, d, k, q) && At(s, p, Dropping(k)) && At(s, r, NewInode(i))
    requires q.ref == 1 && q.lock == -1 && d.kind == 0
    ensures CanPanic(s)
  {
    TakePanics(Do(s, Drop(p)), i, d, k, q.(ref := 0, dropping := q.dropping - multiset{p}), r);
    PanicStep(s, Drop(p));
  }

  /** One that finds the newly marked inode and puts it back frees it. */
  lemma PutPanics(s: Sys, i: nat, d: Dinode, k: nat, q: Slot, p: nat, r: nat)
    requires Scene(s, i, d, k, q) && At(s, p, Idle) && p in q.owners && At(s, r, NewInode(i))
    requires q.ref == 1 && q.lock == -1 && q.valid && q.copy.nlink == 0
    ensures CanPanic(s)
  {
    var s1 := Do(s, Put(p, k));
    var s2 := Do(s1, Free(p));
    var s3 := Do(s2, Invalidate(p));
    var copy := q.copy.(kind := 0, body := 0);
    var q1 := q.(copy := copy, owners := q.owners - multiset{p}, dropping := q.dropping + multiset{p});
    DropPanics(s3, i, copy, k, q1.(valid := false, lock := -1), p, r);
    PanicStep(s2, Invalidate(p));
    PanicStep(s1, Free(p));
    PanicStep(s, Put(p, k));
  }

  lemma FindNewPanics(s: Sys, i: nat, d: Dinode, k: nat, q: Slot, p: nat, r: nat)
    requires Scene(s, i, d, k, q) && At(s, p, Idle) && p in q.owners && At(s, r, NewInode(i))
    requires q.ref == 1 && q.lock == -1 && (q.valid ==> q.copy == d) && d.kind != 0 && d.nlink == 0
    ensures CanPanic(s)
  {
    if q.valid {
      PutPanics(s, i, d, k, q, p, r);
    } else {
      var s1 := Do(s, Lock(p, k));
      var s2 := Do(s1, Load(p, k));
      var s3 := Do(s2, Unlock(p, k));
      PutPanics(s3, i, d, k, q.(copy := d, valid := true), p, r);
      PanicStep(s2, Unlock(p, k));
      PanicStep(s1, Load(p, k));
      PanicStep(s, Lock(p, k));
    }
  }

  /** The same, once a thread that freed the previous inode of that number is through. */
  lemma FindSharedPanics(s: Sys, i: nat, d: Dinode, k: nat, q: Slot, p: nat, r: nat, e: nat)
    requires Scene(s, i, d, k, q) && At(s, p, Idle) && q.owners == multiset{p} && At(s, r, NewInode(i))
    requires q.ref == 2 && q.dropping == multiset{e} && d.kind != 0 && d.nlink == 0
    requires At(s, e, Freed(k)) || (At(s, e, Dropping(k)) && q.lock == -1 && (q.valid ==> q.copy == d))
    ensures CanPanic(s)
  {
    if s.pcs[e].Freed? {
      var t := Do(s, Invalidate(e));
      var q1 := q.(valid := false, lock := -1);
      FindNewPanics(Do(t, Drop(e)), i, d, k, q1.(ref := 1, dropping := q.dropping - multiset{e}), p, r);
      PanicStep(t, Drop(e));
      PanicStep(s, Invalidate(e));
    } else {
      FindNewPanics(Do(s, Drop(e)), i, d, k, q.(ref := 1, dropping := q.dropping - multiset{e}), p, r);
      PanicStep(s, Drop(e));
    }
  }

  /** After a lookup, the entry and what else holds its inode. */
  lemma FoundScene(s: Sys, p: nat, i: nat, k: nat)
    requires Inv(s) && Enabled(s, Find(p, i, k))
    ensures Scene(Do(s, Find(p, i, k)), i, s.disk[i], k, Got(s.slots[k], p, i))
    ensures At(Do(s, Find(p, i, k)), p, Idle) && SlotAt(s, k)
    ensures s.slots[k].ref == 0 ==>
      s.slots[k].lock == -1 && s.slots[k].owners == multiset{} && s.slots[k].dropping == multiset{}
  {
    assert SlotAt(s, k);
    forall j | 0 <= j < |s.slots| && j != k && s.slots[j].ref > 0
      ensures s.slots[j].inum != i
    {
      assert !SameInode(s.slots[j], s.slots[k]);
    }
  }

  /** The only thread that is dropping an entry, and where it is. */
  lemma TheDropper(s: Sys, k: nat) returns (e: nat)
    requires Inv(s) && k < |s.slots| && s.slots[k].owners == multiset{} && s.slots[k].ref > 0
    ensures s.slots[k].ref == 1 && s.slots[k].dropping == multiset{e} && e < |s.pcs|
    ensures s.pcs[e] == Freed(k) || (s.pcs[e] == Dropping(k) && s.slots[k].lock == -1)
  {
    assert SlotAt(s, k) && FineAt(s, k);
    var q := s.slots[k];
    assert |q.dropping| == 1;
    e :| e in q.dropping;
    OnlyOne(q.dropping, e);
    assert ThreadAt(s, e, k);
  }

  lemma FreePanics(s: Sys, p: nat, i: nat, k: nat)
    requires Inv(s) && Enabled(s, Find(p, i, k)) && s.disk[i].kind == 0
    ensures CanPanic(Do(s, Find(p, i, k)))
  {
    var t, q := Do(s, Find(p, i, k)), s.slots[k];
    FoundScene(s, p, i, k);
    if q.ref == 0 {
      LockPanics(t, i, s.disk[i], k, Got(q, p, i), p);
    } else {
      assert FineAt(s, k);
      var e := TheDropper(s, k);
      if s.pcs[e].Freed? {
        FreedPanics(t, i, s.disk[i], k, Got(q, p, i), p, e);
      } else {
        LockPanics(t, i, s.disk[i], k, Got(q, p, i), p);
      }
    }
  }

  lemma BusyPanics(s: Sys, p: nat, i: nat, k: nat, r: nat)
    requires Inv(s) && Enabled(s, Find(p, i, k)) && s.disk[i].kind != 0 && r < |s.pcs| && Busy(s, s.pcs[r], i)
    ensures CanPanic(Do(s, Find(p, i, k)))
  {
    var t, q := Do(s, Find(p, i, k)), s.slots[k];
    FoundScene(s, p, i, k);
    assert PcFine(s, s.pcs[r]);
    if s.pcs[r].Freeing? {
      var j := s.pcs[r].k;
      assert ThreadAt(s, r, j);
      Positive(s, j, r);
      assert k == j by { assert SameInode(s.slots[j], s.slots[k]) ==> j == k; }
      FreeingPanics(t, i, s.disk[i], k, Got(q, p, i), p, r);
    } else if q.ref == 0 {
      FindNewPanics(t, i, s.disk[i], k, Got(q, p, i), p, r);
    } else {
      assert FineThread(s, r, k);
      var e := TheDropper(s, k);
      FindSharedPanics(t, i, s.disk[i], k, Got(q, p, i), p, r, e);
    }
  }

  /** A lookup can be followed by the panic of ilock if and only if it is not careful. */
  lemma CarelessLookup(s: Sys, p: nat, i: nat, k: nat)
    requires Trusted(s) && Enabled(s, Find(p, i, k))
    ensures CanPanic(Do(s, Find(p, i, k))) <==> !Safe(s, i)
  {
    TrustedInv(s);
    var t := Do(s, Find(p, i, k));
    if Safe(s, i) {
      StepFine(s, Find(p, i, k));
      hide Inv;
      forall run | CarefulRun(t, run) && Legal(t, run)
        ensures !Exec(t, run).panicked
      {
        RunFine(t, run);
        InvCalm(Exec(t, run));
      }
    } else if s.disk[i].kind == 0 {
      FreePanics(s, p, i, k);
    } else {
      var r :| 0 <= r < |s.pcs| && Busy(s, s.pcs[r], i);
      BusyPanics(s, p, i, k, r);
    }
  }

  lemma InvCalm(s: Sys)
    requires Inv(s)
    ensures !s.panicked
  {
  }
}
