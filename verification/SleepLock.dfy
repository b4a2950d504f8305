/**
  acquiresleep and releasesleep of kernel/sleeplock.c by any number of threads, over the sleep
  and wakeup of kernel/proc.c. A critical section under lk->lk is one step; lk->lk held while
  wakeup goes through the process table, and p->lock held between the release of lk->lk and
  the switch in sleep, are part of the state.
 */
module SleepLock {

  datatype Pc =
    | Out                // not at this lock
    | Want               // in acquiresleep, about to take lk->lk
    | Going              // in sleep: p->lock taken, lk->lk released, state not yet set
    | Asleep             // in sleep
    | Woken              // in sleep, made runnable; will take lk->lk again
    | Holds              // between acquiresleep and releasesleep
    | Waking(k: nat)     // in releasesleep, at slot k of wakeup

  /** `spin` is the thread that holds lk->lk across steps, or -1; `pid` the one that lk->pid names. */
  datatype Sys = Sys(spin: int, locked: bool, pid: int, pcs: seq<Pc>)

  datatype Step =
    | Start(p: nat)
    | Enter(p: nat)
    | SetSleep(p: nat)
    | Release(p: nat)
    | WakeSlot(p: nat)
    | Finish(p: nat)
    | Kill(k: nat)

  predicate At(s: Sys, p: nat, pc: Pc) { p < |s.pcs| && s.pcs[p] == pc }

  predicate Waiting(pc: Pc) { pc.Want? || pc.Woken? }

  /** The thread sleeps, or will unless it is woken. */
  predicate Sleeps(pc: Pc) { pc.Going? || pc.Asleep? }

  predicate Enabled(s: Sys, a: Step) {
    match a
    case Start(p) => At(s, p, Out)
    case Enter(p) => p < |s.pcs| && Waiting(s.pcs[p]) && s.spin == -1
    case SetSleep(p) => At(s, p, Going)
    case Release(p) => At(s, p, Holds) && s.spin == -1
    case WakeSlot(p) =>
      && p < |s.pcs| && s.pcs[p].Waking? && s.pcs[p].k < |s.pcs|
      && !s.pcs[s.pcs[p].k].Going?    // p->lock of that slot is held
    case Finish(p) => At(s, p, Waking(|s.pcs|))
    case Kill(k) => At(s, k, Asleep)
  }

  function Set(s: Sys, p: nat, pc: Pc): Sys
    requires p < |s.pcs|
  {
    s.(pcs := s.pcs[p := pc])
  }

  function Do(s: Sys, a: Step): Sys
    requires Enabled(s, a)
  {
    match a
    case Start(p) => Set(s, p, Want)
    case Enter(p) => if s.locked then Set(s, p, Going) else Set(s, p, Holds).(locked := true, pid := p)
    case SetSleep(p) => Set(s, p, Asleep)
    case Release(p) => Set(s, p, Waking(0)).(locked := false, pid := 0, spin := p)
    case WakeSlot(p) =>
      var k := s.pcs[p].k;
      var t := if s.pcs[k].Asleep? then Set(s, k, Woken) else s;
      Set(t, p, Waking(k + 1))
    case Finish(p) => Set(s, p, Out).(spin := -1)
    case Kill(k) => Set(s, k, Woken)
  }

  // ----- the invariant -----

  predicate ThreadOk(s: Sys, p: nat)
    requires p < |s.pcs|
  {
    && (s.pcs[p].Holds? <==> s.locked && s.pid == p)
    && (s.pcs[p].Waking? <==> s.spin == p)
    && (s.pcs[p].Waking? ==> s.pcs[p].k <= |s.pcs|)
    && (Sleeps(s.pcs[p]) ==> s.locked || (0 <= s.spin < |s.pcs| && s.pcs[s.spin].Waking? && s.pcs[s.spin].k <= p))
  }

  ghost predicate Inv(s: Sys) {
    && -1 <= s.spin < |s.pcs| && (s.locked ==> 0 <= s.pid < |s.pcs| && s.spin == -1)
    && forall p :: 0 <= p < |s.pcs| ==> ThreadOk(s, p)
  }

  lemma StepKeeps(s: Sys, a: Step)
    requires Inv(s) && Enabled(s, a)
    ensures Inv(Do(s, a))
  {
    var t := Do(s, a);
    var me := if a.Kill? then a.k else a.p;
    assert ThreadOk(s, me);
    forall p | 0 <= p < |t.pcs|
      ensures ThreadOk(t, p)
    {
      assert ThreadOk(s, p);
      if a.WakeSlot? {
        assert ThreadOk(s, s.pcs[a.p].k);
      }
    }
  }

  // ----- runs -----

  predicate Legal(s: Sys, run: seq<Step>)
    decreases run
  {
    run == [] || (Enabled(s, run[0]) && Legal(Do(s, run[0]), run[1..]))
  }

  function Exec(s: Sys, run: seq<Step>): Sys
    requires Legal(s, run)
    decreases run
  {
    if run == [] then s else Exec(Do(s, run[0]), run[1..])
  }

  /** initsleeplock, and nobody at the lock. */
  predicate Boot(s: Sys) {
    s.spin == -1 && !s.locked && forall p :: 0 <= p < |s.pcs| ==> s.pcs[p].Out?
  }

  ghost predicate Reachable(s: Sys) {
    exists s0, run :: Boot(s0) && Legal(s0, run) && Exec(s0, run) == s
  }

  lemma {:induction false} RunKeeps(s: Sys, run: seq<Step>)
    requires Inv(s) && Legal(s, run)
    ensures Inv(Exec(s, run))
    decreases run
  {
    hide Inv, Enabled, Do;
    if run != [] {
      StepKeeps(s, run[0]);
      RunKeeps(Do(s, run[0]), run[1..]);
    }
  }

  lemma ReachableInv(s: Sys)
    requires Reachable(s)
    ensures Inv(s)
  {
    var s0, run :| Boot(s0) && Legal(s0, run) && Exec(s0, run) == s;
    assert Inv(s0);
    hide Inv;
    RunKeeps(s0, run);
  }

  // ----- the theorems -----

  /** At most one thread is between acquiresleep and releasesleep, and lk->pid names it. */
  lemma MutualExclusion(s: Sys, p: nat, q: nat)
    requires Reachable(s) && At(s, p, Holds) && At(s, q, Holds)
    ensures p == q && s.locked && s.pid == p
  {
    ReachableInv(s);
    assert ThreadOk(s, p) && ThreadOk(s, q);
  }

  /** With lk->lk free, nobody sleeps on a sleep-lock that is free, or is about to. */
  lemma NoLostWakeup(s: Sys, p: nat)
    requires Reachable(s) && s.spin == -1 && !s.locked && p < |s.pcs|
    ensures !Sleeps(s.pcs[p])
  {
    ReachableInv(s);
    assert ThreadOk(s, p);
  }

  /** While somebody is at a lock that nobody holds, the protocol itself has a step to make. */
  lemma Progress(s: Sys, p: nat) returns (a: Step)
    requires Reachable(s) && p < |s.pcs| && !s.pcs[p].Out? && !s.locked
    ensures Enabled(s, a) && (a.Enter? || a.SetSleep? || a.WakeSlot? || a.Finish?)
  {
    ReachableInv(s);
    assert ThreadOk(s, p);
    if s.spin == -1 {
      a := Enter(p);
    } else {
      var r := s.spin;
      assert ThreadOk(s, r);
      var k := s.pcs[r].k;
      if k == |s.pcs| {
        a := Finish(r);
      } else if s.pcs[k].Going? {
        a := SetSleep(k);
      } else {
        a := WakeSlot(r);
      }
    }
  }
}
