/**
  kill in every interleaving: whom it marks, and that a process which is killed between its
  test of the flag and its sleep in wait falls asleep all the same.
 */
module ProcKill {
  import opened ProcProtocol
  import opened ProcInv
  import opened ProcTheorems
  import opened ProcLife

  // ----- whom kill marks -----

  /** Some kill in the run named the number. */
  predicate Named(run: seq<Step>, pid: nat) { exists j :: 0 <= j < |run| && run[j].Kill? && run[j].pid == pid }

  /** Slot `k` was marked already when process `pid` was made in it. */
  ghost predicate BornMarked(s: Sys, run: seq<Step>, k: nat, pid: nat)
    requires Legal(s, run)
  {
    exists j :: 0 <= j < |run| && run[j].Fork? && run[j].child == k && k < |Before(s, run, j).procs|
                && Before(s, run, j).nextPid == pid && Before(s, run, j).procs[k].killed
  }

  /** Every number that a fork gave or a kill named is in the past. */
  lemma {:induction false} PastNumber(s: Sys, run: seq<Step>, j: nat)
    requires Boot(s) && Legal(s, run) && j < |run|
    ensures run[j].Kill? ==> run[j].pid < Exec(s, run).nextPid
    ensures run[j].Fork? ==> Before(s, run, j).nextPid < Exec(s, run).nextPid
    decreases |run|
  {
    hide Do, Enabled, Boot, Numbered;
    var n := |run| - 1;
    var front := run[..n];
    LastStep(s, run);
    RunNumbered(s, front);
    PidGrows(Exec(s, front), run[n]);
    if j < n {
      PastNumber(s, front, j);
      FrontBefore(s, run, j);
      assert front[j] == run[j];
    } else {
      assert Before(s, run, n) == Exec(s, front);
    }
  }

  lemma PidGrows(s: Sys, a: Step)
    requires Enabled(s, a) && Numbered(s)
    ensures Do(s, a).nextPid == s.nextPid + if a.Fork? || a.ForkFail? then 1 else 0
    ensures a.Kill? ==> a.pid < s.nextPid
  {
  }

  /** The last step of a run in the two predicates. */
  lemma NamedLast(run: seq<Step>, pid: nat)
    requires run != []
    ensures var front, a := run[..|run| - 1], run[|run| - 1];
      Named(run, pid) <==> Named(front, pid) || (a.Kill? && a.pid == pid)
  {
    var front := run[..|run| - 1];
    if Named(front, pid) {
      var j :| 0 <= j < |front| && front[j].Kill? && front[j].pid == pid;
      assert run[j] == front[j];
    }
    if Named(run, pid) {
      var j :| 0 <= j < |run| && run[j].Kill? && run[j].pid == pid;
      assert j < |front| ==> front[j] == run[j];
    }
  }

  lemma BornLast(s: Sys, run: seq<Step>, k: nat, pid: nat)
    requires Legal(s, run) && run != []
    ensures var n := |run| - 1;
      var front, a := run[..n], run[n];
      && Legal(s, front)
      && (BornMarked(s, run, k, pid) <==>
           || BornMarked(s, front, k, pid)
           || (a.Fork? && a.child == k && k < |Exec(s, front).procs| && Exec(s, front).nextPid == pid
               && Exec(s, front).procs[k].killed))
  {
    LastStep(s, run);
    hide Do, Enabled;
    var n := |run| - 1;
    var front, a := run[..n], run[n];
    assert Before(s, run, n) == Exec(s, front);
    forall j | 0 <= j < n
      ensures Before(s, run, j) == Before(s, front, j) && run[j] == front[j]
    {
      FrontBefore(s, run, j);
    }
    if BornMarked(s, front, k, pid) {
      var j :| 0 <= j < |front| && front[j].Fork? && front[j].child == k && k < |Before(s, front, j).procs|
               && Before(s, front, j).nextPid == pid && Before(s, front, j).procs[k].killed;
      assert run[j] == front[j] && Before(s, run, j) == Before(s, front, j);
    }
    if BornMarked(s, run, k, pid) {
      var j :| 0 <= j < |run| && run[j].Fork? && run[j].child == k && k < |Before(s, run, j).procs|
               && Before(s, run, j).nextPid == pid && Before(s, run, j).procs[k].killed;
      if j < n {
        assert front[j] == run[j] && Before(s, run, j) == Before(s, front, j);
      }
    }
  }

  /** One step: the flag and the reasons for it change together. */
  lemma MarkStep(s: Sys, a: Step, k: nat, named: bool, born: bool)
    requires Inv(s) && Numbered(s) && Enabled(s, a) && k < |s.procs| == |Do(s, a).procs|
    requires !s.procs[k].state.Unused? ==> (s.procs[k].killed <==> named || born)
    requires a.Fork? && a.child == k ==> !named && !born
    requires !Do(s, a).procs[k].state.Unused?
    ensures Do(s, a).procs[k].killed <==>
      || named || (a.Kill? && a.pid == Do(s, a).procs[k].pid)
      || born || (a.Fork? && a.child == k && s.procs[k].killed)
    ensures Do(s, a).procs[k].pid == if a.Fork? && a.child == k then s.nextPid else s.procs[k].pid
    ensures !(a.Fork? && a.child == k) ==> !s.procs[k].state.Unused?
  {
    KilledAfter(s, a, k);
    PidAfter(s, a, k);
    UnusedAfter(s, a, k);
    if a.Kill? && a.k != k {
      OtherNumber(s, a, k);
    }
    hide Inv, Numbered, Do, Reaping;
  }

  lemma OtherNumber(s: Sys, a: Step, k: nat)
    requires Numbered(s) && Enabled(s, a) && a.Kill? && a.k != k && k < |s.procs|
    ensures s.procs[k].pid == a.pid ==> s.procs[k].state.Unused?
  {
  }

  /**
    In every run, a process is marked as killed if and only if some kill named its number or its
    slot was marked before it was made.
   */
  lemma {:induction false} KilledWhy(s: Sys, run: seq<Step>, k: nat)
    requires Boot(s) && Legal(s, run) && k < |Exec(s, run).procs| && !Exec(s, run).procs[k].state.Unused?
    ensures var q := Exec(s, run).procs[k];
      q.killed <==> Named(run, q.pid) || BornMarked(s, run, k, q.pid)
    decreases |run|
  {
    if run != [] {
      LastStep(s, run);
      var n := |run| - 1;
      var front, a := run[..n], run[n];
      var u := Exec(s, front);
      var pid := Exec(s, run).procs[k].pid;
      hide Do, Enabled, Boot, Inv, Numbered, Named, BornMarked;
      RunInv(s, front);
      RunNumbered(s, front);
      if !u.procs[k].state.Unused? {
        KilledWhy(s, front, k);
      }
      NamedLast(run, pid);
      BornLast(s, run, k, pid);
      if a.Fork? && a.child == k {
        FreshNumber(s, front, k);
        PidAfter(u, a, k);
        NotFreed(u, a, k);
        MarkStep(u, a, k, false, false);
      } else {
        MarkStep(u, a, k, Named(front, u.procs[k].pid), BornMarked(s, front, k, u.procs[k].pid));
      }
    }
  }

  lemma NotFreed(s: Sys, a: Step, k: nat)
    requires Enabled(s, a) && a.Fork?
    ensures !Freeing(s, a, k)
  {
  }

  /** Nobody has named or had the next number. */
  lemma FreshNumber(s: Sys, run: seq<Step>, k: nat)
    requires Boot(s) && Legal(s, run)
    ensures !Named(run, Exec(s, run).nextPid) && !BornMarked(s, run, k, Exec(s, run).nextPid)
  {
    hide Boot, Before, Legal, Exec;
    forall j | 0 <= j < |run|
      ensures run[j].Kill? ==> run[j].pid < Exec(s, run).nextPid
      ensures run[j].Fork? ==> Before(s, run, j).nextPid < Exec(s, run).nextPid
    {
      PastNumber(s, run, j);
    }
  }

  /** A free slot is marked only by a kill of number 0. */
  lemma {:induction false} FreeMarked(s: Sys, run: seq<Step>, k: nat)
    requires Boot(s) && Legal(s, run) && k < |Exec(s, run).procs|
    requires Exec(s, run).procs[k].state.Unused? && Exec(s, run).procs[k].killed
    ensures Named(run, 0)
    decreases |run|
  {
    if run != [] {
      LastStep(s, run);
      var n := |run| - 1;
      var front, a := run[..n], run[n];
      hide Do, Enabled, Boot, Inv, Numbered, Named;
      RunInv(s, front);
      RunNumbered(s, front);
      FreeMarkStep(Exec(s, front), a, k);
      NamedLast(run, 0);
      if !a.Kill? || a.pid != 0 {
        FreeMarked(s, front, k);
      }
    }
  }

  lemma FreeMarkStep(s: Sys, a: Step, k: nat)
    requires Inv(s) && Numbered(s) && Enabled(s, a) && k < |s.procs| == |Do(s, a).procs|
    requires Do(s, a).procs[k].state.Unused? && Do(s, a).procs[k].killed
    ensures (a.Kill? && a.pid == 0) || (s.procs[k].state.Unused? && s.procs[k].killed)
  {
    KilledAfter(s, a, k);
    UnusedAfter(s, a, k);
    hide Inv, Do, Reaping;
  }

  /** In every run without a kill of number 0, a process is marked if and only if a kill named its number. */
  lemma KilledByNumber(s: Sys, run: seq<Step>, k: nat)
    requires Boot(s) && Legal(s, run) && k < |Exec(s, run).procs| && !Exec(s, run).procs[k].state.Unused?
    requires !Named(run, 0)
    ensures Exec(s, run).procs[k].killed <==> Named(run, Exec(s, run).procs[k].pid)
  {
    hide Do, Boot, Enabled;
    KilledWhy(s, run, k);
    var pid := Exec(s, run).procs[k].pid;
    if BornMarked(s, run, k, pid) {
      var j :| 0 <= j < |run| && run[j].Fork? && run[j].child == k && k < |Before(s, run, j).procs|
               && Before(s, run, j).nextPid == pid && Before(s, run, j).procs[k].killed;
      Prefix(s, run, j);
      ForkedFree(s, run, j);
      MarkedEarlier(s, run, j, k);
      assert false;
    }
  }

  lemma MarkedEarlier(s: Sys, run: seq<Step>, j: nat, k: nat)
    requires Boot(s) && j <= |run| && Legal(s, run[..j]) && k < |Exec(s, run[..j]).procs|
    requires Exec(s, run[..j]).procs[k].state.Unused? && Exec(s, run[..j]).procs[k].killed
    ensures Named(run, 0)
  {
    hide Boot, Legal, Exec, Named;
    FreeMarked(s, run[..j], k);
    NamedMore(run, j, 0);
  }

  lemma NamedMore(run: seq<Step>, j: nat, pid: nat)
    requires j <= |run| && Named(run[..j], pid)
    ensures Named(run, pid)
  {
    var i :| 0 <= i < j && run[..j][i].Kill? && run[..j][i].pid == pid;
    assert run[i] == run[..j][i];
  }

  /** fork takes a free slot. */
  lemma {:induction false} ForkedFree(s: Sys, run: seq<Step>, j: nat)
    requires Legal(s, run) && j < |run| && run[j].Fork?
    ensures Legal(s, run[..j]) && run[j].child < |Exec(s, run[..j]).procs|
    ensures Exec(s, run[..j]).procs[run[j].child].state.Unused?
    decreases |run|
  {
    if j == 0 {
      assert run[..0] == [];
    } else {
      hide Do, Enabled;
      ForkedFree(Do(s, run[0]), run[1..], j - 1);
      assert run[..j][1..] == run[1..][..j - 1];
    }
  }

  /** Two slots and two CPUs, with init in slot 0. */
  function Two(a: Proc, b: Proc, cpu0: int, cpu1: int, waitLock: int, nextPid: nat): Sys {
    Sys(0, [a, b], [cpu0, cpu1], waitLock, nextPid)
  }

  const INIT := Empty().(state := Running, pid := 1)
  const START := Two(INIT.(state := Runnable), Empty(), -1, -1, -1, 2)
  const AWAKE := Two(INIT, Empty(), 0, -1, -1, 2)

  /** A run that goes on. */
  lemma Onward(s: Sys, run: seq<Step>, t: Sys, a: Step)
    requires Legal(s, run) && Exec(s, run) == t && Enabled(t, a)
    ensures Legal(s, run + [a]) && Exec(s, run + [a]) == Do(t, a)
  {
    hide Do, Enabled, Legal, Exec;
    RunThen(s, run, a);
  }

  lemma NoSteps(s: Sys)
    ensures Legal(s, []) && Exec(s, []) == s
  {
  }

  lemma InitSteps()
    ensures Boot(START) && Enabled(START, Dispatch(0, 0))
    ensures Do(START, Dispatch(0, 0)) == Two(INIT.(lock := true), Empty(), 0, -1, -1, 2)
  {
  }

  lemma InitResumes()
    ensures var mid := Two(INIT.(lock := true), Empty(), 0, -1, -1, 2);
      Enabled(mid, Resume(0)) && Do(mid, Resume(0)) == AWAKE
  {
  }

  lemma InitRuns() returns (run: seq<Step>)
    ensures run == [Dispatch(0, 0), Resume(0)] && Boot(START) && Legal(START, run) && Exec(START, run) == AWAKE
  {
    hide Do, Enabled, Boot, Legal, Exec;
    InitSteps();
    InitResumes();
    NoSteps(START);
    Onward(START, [], START, Dispatch(0, 0));
    assert [] + [Dispatch(0, 0)] == [Dispatch(0, 0)];
    Onward(START, [Dispatch(0, 0)], Two(INIT.(lock := true), Empty(), 0, -1, -1, 2), Resume(0));
    run := [Dispatch(0, 0)] + [Resume(0)];
  }

  /** After a kill of number 0 the next process in that slot is marked, though no kill named its number. */
  lemma KillZero() returns (s: Sys, run: seq<Step>)
    ensures Boot(s) && Legal(s, run) && |Exec(s, run).procs| == 2 && !Exec(s, run).procs[1].state.Unused?
    ensures Exec(s, run).procs[1].killed && !Named(run, Exec(s, run).procs[1].pid)
  {
    s := START;
    run := InitRuns();
    var marked := Two(INIT, Empty().(killed := true), 0, -1, -1, 2);
    KillsNobody();
    hide Do, Enabled, Legal, Exec, Boot;
    Onward(s, run, AWAKE, Kill(0, 1, 0));
    run := run + [Kill(0, 1, 0)];
    Onward(s, run, marked, Fork(0, 1));
    run := run + [Fork(0, 1)];
  }

  lemma KillsNobody()
    ensures var marked := Two(INIT, Empty().(killed := true), 0, -1, -1, 2);
      && Enabled(AWAKE, Kill(0, 1, 0)) && Do(AWAKE, Kill(0, 1, 0)) == marked && Enabled(marked, Fork(0, 1))
      && var t := Do(marked, Fork(0, 1));
         |t.procs| == 2 && t.procs[1].killed && t.procs[1].pid == 2 && t.procs[1].state.Used?
  {
  }

  // ----- a killed process in wait -----

  /** About to sleep in wait, or asleep there. */
  predicate Bound(q: Proc) { q.pc.ToSleep? || q.pc.GoingToSleep? || (q.pc.Asleep? && q.state == Sleeping) }

  lemma BoundLoop(s: Sys, a: Step, k: nat)
    requires Enabled(s, a) && k < |s.procs| == |Do(s, a).procs| && Loop(a)
    ensures Bound(Do(s, a).procs[k]) ==> Bound(s.procs[k]) && s.procs[k].killed == Do(s, a).procs[k].killed
  {
  }

  lemma BoundSimple(s: Sys, a: Step, k: nat)
    requires Enabled(s, a) && k < |s.procs| == |Do(s, a).procs| && !Loop(a)
    requires s.procs[k].pc.GoingToSleep? ==> s.procs[k].lock
    ensures Bound(Do(s, a).procs[k]) && Do(s, a).procs[k].killed ==>
      (Bound(s.procs[k]) && s.procs[k].killed) || (a.Kill? && a.k == k && s.procs[k].pc.ToSleep?)
  {
  }

  lemma BoundStep(s: Sys, a: Step, k: nat)
    requires Inv(s) && Enabled(s, a) && k < |s.procs| == |Do(s, a).procs|
    requires Bound(Do(s, a).procs[k]) && Do(s, a).procs[k].killed
    ensures (Bound(s.procs[k]) && s.procs[k].killed) || (a.Kill? && a.k == k && s.procs[k].pc.ToSleep?)
  {
    assert SlotOk(EnvOf(s), k, s.procs[k]);
    hide Inv, Do, Enabled, Bound;
    if Loop(a) {
      BoundLoop(s, a, k);
    } else {
      BoundSimple(s, a, k);
    }
  }

  /** Some kill hit slot `k` after its process had tested the flag in wait and before it slept. */
  ghost predicate HitLate(s: Sys, run: seq<Step>, k: nat)
    requires Legal(s, run)
  {
    exists j :: 0 <= j < |run| && run[j].Kill? && run[j].k == k
                && k < |Before(s, run, j).procs| && Before(s, run, j).procs[k].pc.ToSleep?
  }

  lemma NobodyBound(s: Sys, k: nat)
    requires Boot(s) && k < |s.procs|
    ensures !Bound(s.procs[k])
  {
  }

  /** In every run, a killed process is asleep in wait only if a kill hit it between its test and its sleep. */
  lemma {:induction false} KilledAsleep(s: Sys, run: seq<Step>, k: nat)
    requires Boot(s) && Legal(s, run) && k < |Exec(s, run).procs|
    requires Bound(Exec(s, run).procs[k]) && Exec(s, run).procs[k].killed
    ensures HitLate(s, run, k)
    decreases |run|
  {
    hide Do, Enabled, Boot, Inv, Bound;
    if run == [] {
      NobodyBound(s, k);
    } else {
      LastStep(s, run);
      var n := |run| - 1;
      var front, a := run[..n], run[n];
      var u := Exec(s, front);
      RunInv(s, front);
      BoundStep(u, a, k);
      assert Before(s, run, n) == u;
      if !(a.Kill? && a.k == k && u.procs[k].pc.ToSleep?) {
        KilledAsleep(s, front, k);
        var j :| 0 <= j < |front| && front[j].Kill? && front[j].k == k
                 && k < |Before(s, front, j).procs| && Before(s, front, j).procs[k].pc.ToSleep?;
        FrontBefore(s, run, j);
        assert run[j] == front[j];
      }
    }
  }

  /** Such a kill is missed: the process goes to sleep with the flag set. */
  lemma KillMissed(s: Sys, p: nat, k: nat, pid: nat)
    requires Reachable(s) && Enabled(s, Kill(p, k, pid)) && s.procs[k].pc.ToSleep?
    ensures var run := [Kill(p, k, pid), Sleep(k), SetSleep(k)];
      && Legal(s, run) && |Exec(s, run).procs| == |s.procs|
      && Exec(s, run).procs[k].state == Sleeping && Exec(s, run).procs[k].chan == k && Exec(s, run).procs[k].killed
  {
    MissedSteps(s, p, k, pid);
    hide Do, Enabled, Reachable, Legal, Exec;
    var s1 := Do(s, Kill(p, k, pid));
    var s2 := Do(s1, Sleep(k));
    NoSteps(s);
    Onward(s, [], s, Kill(p, k, pid));
    assert [] + [Kill(p, k, pid)] == [Kill(p, k, pid)];
    Onward(s, [Kill(p, k, pid)], s1, Sleep(k));
    assert [Kill(p, k, pid)] + [Sleep(k)] == [Kill(p, k, pid), Sleep(k)];
    Onward(s, [Kill(p, k, pid), Sleep(k)], s2, SetSleep(k));
    assert [Kill(p, k, pid), Sleep(k)] + [SetSleep(k)] == [Kill(p, k, pid), Sleep(k), SetSleep(k)];
  }

  lemma MissedSteps(s: Sys, p: nat, k: nat, pid: nat)
    requires Reachable(s) && Enabled(s, Kill(p, k, pid)) && s.procs[k].pc.ToSleep?
    ensures var s1 := Do(s, Kill(p, k, pid));
      && Enabled(s1, Sleep(k))
      && var s2 := Do(s1, Sleep(k));
         && Enabled(s2, SetSleep(k)) && Do(s2, SetSleep(k)).waitLock == -1
         && Do(s2, SetSleep(k)).procs ==
            s.procs[k := s.procs[k].(killed := true, state := Sleeping, chan := k, lock := true, pc := Asleep)]
  {
    ReachableInv(s);
    assert SlotOk(EnvOf(s), k, s.procs[k]);
    hide Inv, Reachable;
  }

  const CHILD := Empty().(state := Running, pid := 2, parent := 0)

  /** The child of init runs on the other CPU. */
  const BOTH := Two(INIT, CHILD, 0, 1, -1, 3)

  /** Init has looked at its child and is about to sleep. */
  const LATE := Two(INIT.(pc := ToSleep), CHILD, 0, 1, 0, 3)

  lemma ForkSteps()
    ensures var s1 := Two(INIT.(pc := ForkLink(1)), CHILD.(state := Used, parent := -1), 0, -1, -1, 3);
      var s2 := Two(INIT.(pc := ForkStart(1)), CHILD.(state := Used), 0, -1, -1, 3);
      && Enabled(AWAKE, Fork(0, 1)) && Do(AWAKE, Fork(0, 1)) == s1
      && Enabled(s1, ForkParent(0)) && Do(s1, ForkParent(0)) == s2
  {
  }

  lemma StartSteps()
    ensures var s2 := Two(INIT.(pc := ForkStart(1)), CHILD.(state := Used), 0, -1, -1, 3);
      var s3 := Two(INIT, CHILD.(state := Runnable), 0, -1, -1, 3);
      var s4 := Two(INIT, CHILD.(lock := true), 0, 1, -1, 3);
      && Enabled(s2, ForkRun(0)) && Do(s2, ForkRun(0)) == s3
      && Enabled(s3, Dispatch(1, 1)) && Do(s3, Dispatch(1, 1)) == s4
      && Enabled(s4, Resume(1)) && Do(s4, Resume(1)) == BOTH
  {
  }

  lemma WaitSteps()
    ensures var s1 := Two(INIT.(pc := WaitAcquire), CHILD, 0, 1, -1, 3);
      var s2 := Two(INIT.(pc := Scan(0, false)), CHILD, 0, 1, 0, 3);
      && Enabled(BOTH, Wait(0)) && Do(BOTH, Wait(0)) == s1
      && Enabled(s1, WaitTake(0)) && Do(s1, WaitTake(0)) == s2
  {
  }

  lemma ScanSteps()
    ensures var s2 := Two(INIT.(pc := Scan(0, false)), CHILD, 0, 1, 0, 3);
      var s3 := Two(INIT.(pc := Scan(1, false)), CHILD, 0, 1, 0, 3);
      var s4 := Two(INIT.(pc := Scan(2, true)), CHILD, 0, 1, 0, 3);
      && Enabled(s2, ScanSlot(0, true)) && Do(s2, ScanSlot(0, true)) == s3
      && Enabled(s3, ScanSlot(0, true)) && Do(s3, ScanSlot(0, true)) == s4
      && Enabled(s4, ScanEnd(0)) && Do(s4, ScanEnd(0)) == LATE
  {
  }

  lemma BothReachable()
    ensures Reachable(BOTH)
  {
    var run := InitRuns();
    assert Reachable(AWAKE);
    hide Reachable, Do, Enabled;
    ForkSteps();
    ReachStep(AWAKE, Fork(0, 1));
    ReachStep(Two(INIT.(pc := ForkLink(1)), CHILD.(state := Used, parent := -1), 0, -1, -1, 3), ForkParent(0));
    StartSteps();
    ReachStep(Two(INIT.(pc := ForkStart(1)), CHILD.(state := Used), 0, -1, -1, 3), ForkRun(0));
    ReachStep(Two(INIT, CHILD.(state := Runnable), 0, -1, -1, 3), Dispatch(1, 1));
    ReachStep(Two(INIT, CHILD.(lock := true), 0, 1, -1, 3), Resume(1));
  }

  /** It does happen: init waits for its child, which kills it at that moment, and init sleeps on with the flag set. */
  lemma LateKill() returns (s: Sys)
    ensures Reachable(s) && |s.procs| == 2 && s.waitLock == -1
    ensures s.procs[0].state == Sleeping && s.procs[0].chan == 0 && s.procs[0].killed && s.procs[1].state == Running
  {
    BothReachable();
    hide Reachable, Do, Enabled;
    WaitSteps();
    ReachStep(BOTH, Wait(0));
    ReachStep(Two(INIT.(pc := WaitAcquire), CHILD, 0, 1, -1, 3), WaitTake(0));
    ScanSteps();
    ReachStep(Two(INIT.(pc := Scan(0, false)), CHILD, 0, 1, 0, 3), ScanSlot(0, true));
    ReachStep(Two(INIT.(pc := Scan(1, false)), CHILD, 0, 1, 0, 3), ScanSlot(0, true));
    ReachStep(Two(INIT.(pc := Scan(2, true)), CHILD, 0, 1, 0, 3), ScanEnd(0));
    s := ChildKills();
  }

  lemma ChildKills() returns (s: Sys)
    requires Reachable(LATE)
    ensures Reachable(s) && |s.procs| == 2 && s.waitLock == -1
    ensures s.procs[0].state == Sleeping && s.procs[0].chan == 0 && s.procs[0].killed && s.procs[1].state == Running
  {
    hide Reachable;
    assert Enabled(LATE, Kill(1, 0, 1));
    MissedSteps(LATE, 1, 0, 1);
    hide Do, Enabled;
    var s1 := Do(LATE, Kill(1, 0, 1));
    ReachStep(LATE, Kill(1, 0, 1));
    ReachStep(s1, Sleep(0));
    ReachStep(Do(s1, Sleep(0)), SetSleep(0));
    s := Do(Do(s1, Sleep(0)), SetSleep(0));
  }
}
