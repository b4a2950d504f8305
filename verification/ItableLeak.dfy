/**
  The race that leaves an inode behind: a run of careful lookups after which an inode is in
  use on disk although no directory names it and no thread has a reference to it.
 */
module ItableLeak {
  import opened Itable
  import opened ItableCareful

  lemma {:induction false} CarefulRunThen(s: Sys, run: seq<Step>, a: Step)
    requires CarefulRun(s, run) && Legal(s, run) && Enabled(Exec(s, run), a) && Careful(Exec(s, run), a)
    ensures CarefulRun(s, run + [a])
    decreases run
  {
    hide Enabled, Do, Careful;
    if run == [] {
      assert run + [a] == [a] && [a][1..] == [];
    } else {
      assert (run + [a])[0] == run[0] && (run + [a])[1..] == run[1..] + [a];
      CarefulRunThen(Do(s, run[0]), run[1..], a);
    }
  }

  lemma CarefulThen(s: Sys, a: Step, t: Sys)
    requires Trusted(s) && Enabled(s, a) && Careful(s, a) && Do(s, a) == t
    ensures Trusted(t)
  {
    hide Enabled, Do, Boot, Careful;
    var s0, run :| Boot(s0) && CarefulRun(s0, run) && Legal(s0, run) && Exec(s0, run) == s;
    RunThen(s0, run, a);
    CarefulRunThen(s0, run, a);
  }

  /** In use on disk, without links, and referenced by nobody. */
  ghost predicate Leaked(s: Sys, i: nat) {
    && i < |s.disk| && s.disk[i].kind != 0 && s.disk[i].nlink == 0
    && (forall p :: 0 <= p < |s.pcs| ==> s.pcs[p].Idle?)
    && (forall k :: 0 <= k < |s.slots| ==> s.slots[k].ref == 0)
  }

  /** One inode on disk, one table entry and two threads. */
  function State(d: Dinode, q: Slot, pc0: Pc, pc1: Pc): Sys { Sys([d], [q], [pc0, pc1], false) }

  function Entry(ref: nat, valid: bool, copy: Dinode, lock: int, owners: multiset<nat>, dropping: multiset<nat>): Slot {
    Slot(0, ref, valid, copy, lock, owners, dropping)
  }

  lemma OneStep(d: Dinode, q: Slot, pc0: Pc, pc1: Pc, a: Step, d': Dinode, q': Slot, pc0': Pc, pc1': Pc)
    requires Trusted(State(d, q, pc0, pc1)) && Enabled(State(d, q, pc0, pc1), a) && Careful(State(d, q, pc0, pc1), a)
    requires var t := Do(State(d, q, pc0, pc1), a);
      |t.disk| == 1 && |t.slots| == 1 && |t.pcs| == 2
      && t.disk[0] == d' && !t.panicked && t.slots[0] == q' && t.pcs[0] == pc0' && t.pcs[1] == pc1'
    ensures Trusted(State(d', q', pc0', pc1'))
  {
    hide Enabled, Do, Trusted;
    CarefulThen(State(d, q, pc0, pc1), a, State(d', q', pc0', pc1'));
  }

  const GONE := Dinode(0, 0, 0)
  const LAST := Dinode(1, 1, 0)
  const BARE := Dinode(1, 0, 0)

  /** Thread 0 looks the inode up and locks it. */
  lemma LeakLock()
    ensures Trusted(State(LAST, Entry(1, true, LAST, 0, multiset{0}, multiset{}), Idle, Idle))
  {
    hide Trusted;
    var no: multiset<nat> := multiset{};
    var e0 := Entry(0, false, GONE, -1, no, no);
    BootTrusted(State(LAST, e0, Idle, Idle));
    var e1 := Entry(1, false, GONE, -1, multiset{0}, no);
    assert no + multiset{0} == multiset{0};
    OneStep(LAST, e0, Idle, Idle, Find(0, 0, 0), LAST, e1, Idle, Idle);
    var e2 := Entry(1, false, GONE, 0, multiset{0}, no);
    OneStep(LAST, e1, Idle, Idle, Lock(0, 0), LAST, e2, Idle, Idle);
    OneStep(LAST, e2, Idle, Idle, Load(0, 0), LAST, Entry(1, true, LAST, 0, multiset{0}, no), Idle, Idle);
  }

  /** It removes the last link. */
  lemma LeakUnlink()
    ensures Trusted(State(BARE, Entry(1, true, BARE, -1, multiset{0}, multiset{}), Idle, Idle))
  {
    hide Trusted;
    LeakLock();
    var no: multiset<nat> := multiset{};
    var e3 := Entry(1, true, LAST, 0, multiset{0}, no);
    var e4 := Entry(1, true, BARE, 0, multiset{0}, no);
    OneStep(LAST, e3, Idle, Idle, Modify(0, 0, BARE), LAST, e4, Idle, Idle);
    OneStep(LAST, e4, Idle, Idle, Update(0, 0), BARE, e4, Idle, Idle);
    OneStep(BARE, e4, Idle, Idle, Unlock(0, 0), BARE, Entry(1, true, BARE, -1, multiset{0}, no), Idle, Idle);
  }

  lemma BootTrusted(s: Sys)
    requires Boot(s)
    ensures Trusted(s)
  {
    assert CarefulRun(s, []) && Legal(s, []) && Exec(s, []) == s;
  }

  /** It frees the inode in iput, and thread 1 allocates it anew before the reference is dropped. */
  lemma LeakReuse()
    ensures Trusted(State(BARE, Entry(2, false, GONE, -1, multiset{1}, multiset{0}), Dropping(0), Idle))
  {
    hide Trusted;
    LeakUnlink();
    var no: multiset<nat> := multiset{};
    var e0 := Entry(1, true, BARE, -1, multiset{0}, no);
    var e1 := Entry(1, true, BARE, 0, multiset{0}, no);
    OneStep(BARE, e0, Idle, Idle, Put(0, 0), BARE, e1, Freeing(0), Idle);
    var e2 := Entry(1, true, GONE, 0, no, multiset{0});
    assert multiset{0} - multiset{0} == no && no + multiset{0} == multiset{0};
    OneStep(BARE, e1, Freeing(0), Idle, Free(0), GONE, e2, Freed(0), Idle);
    var e3 := Entry(1, false, GONE, -1, no, multiset{0});
    OneStep(GONE, e2, Freed(0), Idle, Invalidate(0), GONE, e3, Dropping(0), Idle);
    OneStep(GONE, e3, Dropping(0), Idle, Mark(1, 0, 1), BARE, e3, Dropping(0), NewInode(0));
    assert no + multiset{1} == multiset{1};
    var e4 := Entry(2, false, GONE, -1, multiset{1}, multiset{0});
    OneStep(BARE, e3, Dropping(0), NewInode(0), Take(1, 0), BARE, e4, Dropping(0), Idle);
  }

  /**
    When thread 1 then fails to link the inode and puts it back, it has not the only reference,
    and thread 0 only drops its own: the inode stays in use, without links or references.
   */
  lemma LeakRace() returns (s: Sys)
    ensures Trusted(s) && Leaked(s, 0)
  {
    hide Trusted;
    LeakReuse();
    var no: multiset<nat> := multiset{};
    var e0 := Entry(2, false, GONE, -1, multiset{1}, multiset{0});
    var e1 := Entry(2, false, GONE, 1, multiset{1}, multiset{0});
    OneStep(BARE, e0, Dropping(0), Idle, Lock(1, 0), BARE, e1, Dropping(0), Idle);
    var e2 := Entry(2, true, BARE, 1, multiset{1}, multiset{0});
    OneStep(BARE, e1, Dropping(0), Idle, Load(1, 0), BARE, e2, Dropping(0), Idle);
    var e3 := Entry(2, true, BARE, -1, multiset{1}, multiset{0});
    OneStep(BARE, e2, Dropping(0), Idle, Unlock(1, 0), BARE, e3, Dropping(0), Idle);
    var e4 := Entry(1, true, BARE, -1, no, multiset{0});
    assert multiset{1} - multiset{1} == no && multiset{0} - multiset{0} == no;
    OneStep(BARE, e3, Dropping(0), Idle, Put(1, 0), BARE, e4, Dropping(0), Idle);
    var e5 := Entry(0, true, BARE, -1, no, no);
    OneStep(BARE, e4, Dropping(0), Idle, Drop(0), BARE, e5, Idle, Idle);
    s := State(BARE, e5, Idle, Idle);
  }
}
