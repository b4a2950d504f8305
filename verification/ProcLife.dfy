/**
  The life of a process, field by field: which steps change its state, its killed flag, its
  parent, its number and its status, in every interleaving. From this follow, over whole runs,
  what wait delivers, whom kill marks, and when a killed process can fall asleep in wait.
 */
module ProcLife {
  import opened ProcProtocol
  import opened ProcInv
  import opened ProcTheorems

  // ----- what a step changes -----

  /** The step makes slot `k` free: wait frees a zombie child, or fork fails. */
  predicate Freeing(s: Sys, a: Step, k: nat)
    requires Enabled(s, a)
  {
    Reaping(s, a, k) || (a.ForkFail? && a.child == k)
  }

  /** The step wakes slot `k`: a wakeup on its channel has come to it, or it is killed. */
  predicate Waking(s: Sys, a: Step, k: nat)
    requires Enabled(s, a) && k < |s.procs|
  {
    match a
    case Kill(_, j, _) => j == k
    case WakeOther(j) => j == k
    case WakeSlot(p) =>
      p != k && match s.procs[p].pc {
        case ReparentWake(_, j) => j == k && s.procs[k].chan == s.init
        case WakeParent(j) => j == k && s.procs[k].chan == s.procs[p].parent
        case _ => false
      }
    case _ => false
  }

  lemma SleeperRuns(s: Sys, a: Step)
    requires Inv(s) && Enabled(s, a) && a.SetSleep?
    ensures s.procs[a.p].state == Running
  {
    assert SlotOk(EnvOf(s), a.p, s.procs[a.p]);
  }

  /** A round of one of the loops over the table. */
  predicate Loop(a: Step) { a.ScanSlot? || a.ReparentSlot? || a.WakeSlot? }

  /** What a round of a loop does to slot `k`. */
  lemma LoopAfter(s: Sys, a: Step, k: nat)
    requires Enabled(s, a) && k < |s.procs| == |Do(s, a).procs| && Loop(a)
    ensures var q, r := s.procs[k], Do(s, a).procs[k];
      if Reaping(s, a, k) then r == Empty()
      else if a.WakeSlot? then r.(pc := q.pc, state := q.state) == q
      else if a.ReparentSlot? then r.(pc := q.pc, parent := q.parent) == q
      else r.(pc := q.pc) == q
    ensures a.WakeSlot? ==>
      Do(s, a).procs[k].state == if s.procs[k].state == Sleeping && Waking(s, a, k) then Runnable else s.procs[k].state
    ensures a.ReparentSlot? ==>
      Do(s, a).procs[k].parent ==
      if s.procs[a.p].pc.i == k && s.procs[k].parent == a.p then s.init else s.procs[k].parent
    ensures Do(s, a).nextPid == s.nextPid
  {
  }

  lemma FromUnused(s: Sys, a: Step, k: nat)
    requires Enabled(s, a) && k < |s.procs| == |Do(s, a).procs| && s.procs[k].state.Unused? && !Loop(a)
    requires a.ForkRun? ==> s.procs[a.p].pc.child != k
    requires a.SetSleep? ==> a.p != k
    ensures Do(s, a).procs[k].state == if a.Fork? && a.child == k then Used else Unused
  {
  }

  lemma FromUsed(s: Sys, a: Step, k: nat)
    requires Enabled(s, a) && k < |s.procs| == |Do(s, a).procs| && s.procs[k].state.Used? && !Loop(a)
    requires a.SetSleep? ==> a.p != k
    ensures Do(s, a).procs[k].state == if a.ForkRun? && s.procs[a.p].pc.child == k then Runnable else Used
  {
  }

  lemma FromRunnable(s: Sys, a: Step, k: nat)
    requires Enabled(s, a) && k < |s.procs| == |Do(s, a).procs| && s.procs[k].state == Runnable && !Loop(a)
    requires a.SetSleep? ==> a.p != k
    ensures Do(s, a).procs[k].state == if a.Dispatch? && a.p == k then Running else Runnable
  {
  }

  lemma FromRunning(s: Sys, a: Step, k: nat)
    requires Enabled(s, a) && k < |s.procs| == |Do(s, a).procs| && s.procs[k].state == Running && !Loop(a)
    requires a.ForkRun? ==> s.procs[a.p].pc.child != k
    ensures Do(s, a).procs[k].state ==
      if a == Yield(k) then Runnable
      else if a == SetSleep(k) || (a.SleepOther? && a.p == k) then Sleeping
      else if a.Die? && a.p == k then Zombie else Running
  {
  }

  lemma FromSleeping(s: Sys, a: Step, k: nat)
    requires Enabled(s, a) && k < |s.procs| == |Do(s, a).procs| && s.procs[k].state == Sleeping && !Loop(a)
    requires a.ForkRun? ==> s.procs[a.p].pc.child != k
    requires a.SetSleep? ==> a.p != k
    ensures Do(s, a).procs[k].state == if Waking(s, a, k) then Runnable else Sleeping
  {
  }

  lemma StateLoop(s: Sys, a: Step, k: nat)
    requires Enabled(s, a) && k < |s.procs| == |Do(s, a).procs| && Loop(a) && !s.procs[k].state.Zombie?
    ensures Do(s, a).procs[k].state ==
      if s.procs[k].state == Sleeping && Waking(s, a, k) then Runnable else s.procs[k].state
  {
    LoopAfter(s, a, k);
    hide Do, Enabled;
  }

  lemma FromZombie(s: Sys, a: Step, k: nat)
    requires Inv(s) && Enabled(s, a) && k < |s.procs| == |Do(s, a).procs| && s.procs[k].state.Zombie?
    ensures Do(s, a).procs[k].state == if Reaping(s, a, k) then Unused else Zombie
  {
    ReapStep(s, a, k);
    hide Inv;
  }

  /** The state of slot `k` after a step: the only ways through a process's life. */
  lemma StateAfter(s: Sys, a: Step, k: nat)
    requires Inv(s) && Enabled(s, a) && k < |s.procs| == |Do(s, a).procs|
    ensures Do(s, a).procs[k].state ==
      match s.procs[k].state
      case Unused => if a.Fork? && a.child == k then Used else Unused
      case Used => if a.ForkRun? && s.procs[a.p].pc.child == k then Runnable else Used
      case Runnable => if a.Dispatch? && a.p == k then Running else Runnable
      case Running =>
        if a == Yield(k) then Runnable
        else if a == SetSleep(k) || (a.SleepOther? && a.p == k) then Sleeping
        else if a.Die? && a.p == k then Zombie else Running
      case Sleeping => if Waking(s, a, k) then Runnable else Sleeping
      case Zombie => if Reaping(s, a, k) then Unused else Zombie
  {
    if a.ForkRun? {
      MakesUsed(s, a);
    } else if a.SetSleep? {
      SleeperRuns(s, a);
    }
    hide Inv, Do, Waking, Reaping, Enabled;
    if Loop(a) && !s.procs[k].state.Zombie? {
      StateLoop(s, a, k);
      return;
    }
    match s.procs[k].state
    case Unused => FromUnused(s, a, k);
    case Used => FromUsed(s, a, k);
    case Runnable => FromRunnable(s, a, k);
    case Running => FromRunning(s, a, k);
    case Sleeping => FromSleeping(s, a, k);
    case Zombie => FromZombie(s, a, k);
  }

  lemma KilledSimple(s: Sys, a: Step, k: nat)
    requires Enabled(s, a) && k < |s.procs| == |Do(s, a).procs| && !Loop(a)
    ensures Do(s, a).procs[k].killed ==
      if a.Kill? && a.k == k then true else if Freeing(s, a, k) then false else s.procs[k].killed
  {
  }

  /** A process is marked as killed by kill, and by nothing else, until its slot is freed. */
  lemma KilledAfter(s: Sys, a: Step, k: nat)
    requires Enabled(s, a) && k < |s.procs| == |Do(s, a).procs|
    ensures Do(s, a).procs[k].killed ==
      if a.Kill? && a.k == k then true else if Freeing(s, a, k) then false else s.procs[k].killed
  {
    hide Do, Enabled, Reaping;
    if Loop(a) {
      LoopAfter(s, a, k);
    } else {
      KilledSimple(s, a, k);
    }
  }

  lemma ParentSimple(s: Sys, a: Step, k: nat)
    requires Enabled(s, a) && k < |s.procs| == |Do(s, a).procs| && !Loop(a)
    ensures Do(s, a).procs[k].parent ==
      if Freeing(s, a, k) then -1 else if a.ForkParent? && s.procs[a.p].pc.child == k then a.p else s.procs[k].parent
  {
  }

  /** A process gets its parent in fork, and init when the parent exits. */
  lemma ParentAfter(s: Sys, a: Step, k: nat)
    requires Enabled(s, a) && k < |s.procs| == |Do(s, a).procs|
    ensures Do(s, a).procs[k].parent ==
      if Freeing(s, a, k) then -1 else if a.ForkParent? && s.procs[a.p].pc.child == k then a.p
      else if a.ReparentSlot? && s.procs[a.p].pc.i == k && s.procs[k].parent == a.p then s.init else s.procs[k].parent
  {
    hide Do, Enabled, Reaping;
    if Loop(a) {
      LoopAfter(s, a, k);
    } else {
      ParentSimple(s, a, k);
    }
  }

  lemma PidSimple(s: Sys, a: Step, k: nat)
    requires Enabled(s, a) && k < |s.procs| == |Do(s, a).procs| && !Loop(a)
    ensures Do(s, a).procs[k].pid ==
      if Freeing(s, a, k) then 0 else if a.Fork? && a.child == k then s.nextPid else s.procs[k].pid
    ensures Do(s, a).nextPid == s.nextPid + if a.Fork? || a.ForkFail? then 1 else 0
  {
  }

  /** Every fork gives a new number. */
  lemma PidAfter(s: Sys, a: Step, k: nat)
    requires Enabled(s, a) && k < |s.procs| == |Do(s, a).procs|
    ensures Do(s, a).procs[k].pid ==
      if Freeing(s, a, k) then 0 else if a.Fork? && a.child == k then s.nextPid else s.procs[k].pid
    ensures Do(s, a).nextPid == s.nextPid + if a.Fork? || a.ForkFail? then 1 else 0
  {
    hide Do, Enabled, Reaping;
    if Loop(a) {
      LoopAfter(s, a, k);
    } else {
      PidSimple(s, a, k);
    }
  }

  lemma StatusSimple(s: Sys, a: Step, k: nat)
    requires Enabled(s, a) && k < |s.procs| == |Do(s, a).procs| && !Loop(a)
    ensures Do(s, a).procs[k].xstate ==
      if Freeing(s, a, k) then 0 else if a.Die? && a.p == k then a.status else s.procs[k].xstate
  {
  }

  /** The status is what the process passed to exit. */
  lemma StatusAfter(s: Sys, a: Step, k: nat)
    requires Enabled(s, a) && k < |s.procs| == |Do(s, a).procs|
    ensures Do(s, a).procs[k].xstate ==
      if Freeing(s, a, k) then 0 else if a.Die? && a.p == k then a.status else s.procs[k].xstate
  {
    hide Do, Enabled, Reaping;
    if Loop(a) {
      LoopAfter(s, a, k);
    } else {
      StatusSimple(s, a, k);
    }
  }

  // ----- runs, step by step -----

  /** The last step of a run. */
  lemma {:induction false} LastStep(s: Sys, run: seq<Step>)
    requires Legal(s, run) && run != []
    ensures var front, a := run[..|run| - 1], run[|run| - 1];
      && Legal(s, front) && Enabled(Exec(s, front), a) && Exec(s, run) == Do(Exec(s, front), a)
      && |Exec(s, run).procs| == |Exec(s, front).procs|
    decreases run
  {
    hide Enabled, Do;
    if |run| == 1 {
      assert run[1..] == [] && run[..0] == [];
      SameSize(s, run[0]);
    } else {
      LastStep(Do(s, run[0]), run[1..]);
      assert run[1..][..|run| - 2] == run[..|run| - 1][1..];
    }
  }

  lemma RunInv(s: Sys, run: seq<Step>)
    requires Boot(s) && Legal(s, run)
    ensures Inv(Exec(s, run))
  {
    hide Inv;
    BootInv(s);
    RunKeeps(s, run);
  }

  // ----- process numbers -----

  /** Numbers are given out once: those in use differ, and only a free slot has number 0. */
  ghost predicate Numbered(s: Sys) {
    && s.nextPid > 0
    && (forall k :: 0 <= k < |s.procs| ==>
          s.procs[k].pid < s.nextPid && (s.procs[k].pid == 0 <==> s.procs[k].state.Unused?))
    && (forall j, k :: 0 <= j < k < |s.procs| && s.procs[j].pid == s.procs[k].pid ==> s.procs[j].pid == 0)
  }

  lemma NumberedStep(s: Sys, a: Step)
    requires Inv(s) && Numbered(s) && Enabled(s, a)
    ensures Numbered(Do(s, a))
  {
    var t := Do(s, a);
    SameSize(s, a);
    assert s.init < |s.procs|;
    hide Inv, Do, Enabled, Reaping;
    forall k | 0 <= k < |t.procs|
      ensures t.procs[k].pid ==
        if Freeing(s, a, k) then 0 else if a.Fork? && a.child == k then s.nextPid else s.procs[k].pid
      ensures t.procs[k].state.Unused? <==>
        if s.procs[k].state.Unused? then !(a.Fork? && a.child == k) else Freeing(s, a, k)
    {
      PidAfter(s, a, k);
      UnusedAfter(s, a, k);
    }
    PidAfter(s, a, s.init);
  }

  /** A slot is taken by fork and freed by wait. */
  lemma UnusedAfter(s: Sys, a: Step, k: nat)
    requires Inv(s) && Enabled(s, a) && k < |s.procs| == |Do(s, a).procs|
    ensures Do(s, a).procs[k].state.Unused? <==>
      if s.procs[k].state.Unused? then !(a.Fork? && a.child == k) else Freeing(s, a, k)
  {
    StateAfter(s, a, k);
    hide Inv, Do, Waking;
  }

  lemma {:induction false} RunNumbered(s: Sys, run: seq<Step>)
    requires Boot(s) && Legal(s, run)
    ensures Numbered(Exec(s, run))
    decreases |run|
  {
    if run != [] {
      hide Do, Enabled, Boot, Numbered, Inv;
      LastStep(s, run);
      var front := run[..|run| - 1];
      RunNumbered(s, front);
      RunInv(s, front);
      NumberedStep(Exec(s, front), run[|run| - 1]);
    }
  }

  /** The state of a run before its step `j`. */
  ghost function Before(s: Sys, run: seq<Step>, j: nat): Sys
    requires j <= |run| && Legal(s, run)
  {
    Prefix(s, run, j);
    Exec(s, run[..j])
  }

  lemma {:induction false} Prefix(s: Sys, run: seq<Step>, j: nat)
    requires j <= |run| && Legal(s, run)
    ensures Legal(s, run[..j]) && |Exec(s, run[..j]).procs| == |s.procs|
    decreases j
  {
    hide Enabled, Do;
    if j > 0 {
      Prefix(Do(s, run[0]), run[1..], j - 1);
      SameSize(s, run[0]);
      assert run[..j][1..] == run[1..][..j - 1];
    } else {
      assert run[..0] == [];
    }
  }

  /** A run without its last step has the same states before each step. */
  lemma FrontBefore(s: Sys, run: seq<Step>, j: nat)
    requires Legal(s, run) && j < |run|
    ensures Legal(s, run[..|run| - 1]) && Before(s, run[..|run| - 1], j) == Before(s, run, j)
  {
    LastStep(s, run);
    assert run[..|run| - 1][..j] == run[..j];
  }

  // ----- what wait delivers -----

  /** Process `pid` in slot `k` exited with the status, at some step of the run. */
  ghost predicate ExitedWith(s: Sys, run: seq<Step>, k: nat, pid: nat, status: int)
    requires Legal(s, run)
  {
    exists j :: 0 <= j < |run| && run[j] == Die(k, status)
                && k < |Before(s, run, j).procs| && Before(s, run, j).procs[k].pid == pid
  }

  /** The status and number that wait delivers are those of a process that passed the status to exit. */
  lemma {:induction false} WaitDelivers(s: Sys, run: seq<Step>, k: nat)
    requires Boot(s) && Legal(s, run) && IsZombie(Exec(s, run), k)
    ensures ExitedWith(s, run, k, Exec(s, run).procs[k].pid, Exec(s, run).procs[k].xstate)
    decreases |run|
  {
    if run != [] {
      LastStep(s, run);
      var n := |run| - 1;
      var front, a := run[..n], run[n];
      var u := Exec(s, front);
      RunInv(s, front);
      StateAfter(u, a, k);
      PidAfter(u, a, k);
      StatusAfter(u, a, k);
      ZombieFacts(u, a, k);
      hide Do, Enabled, Boot, Inv;
      if IsZombie(u, k) {
        WaitDelivers(s, front, k);
        var j :| 0 <= j < |front| && front[j] == Die(k, u.procs[k].xstate)
                 && k < |Before(s, front, j).procs| && Before(s, front, j).procs[k].pid == u.procs[k].pid;
        FrontBefore(s, run, j);
        assert run[j] == front[j];
      } else {
        assert run[n] == Die(k, Exec(s, run).procs[k].xstate) && Before(s, run, n) == u;
      }
    }
  }

  lemma ZombieFacts(s: Sys, a: Step, k: nat)
    requires Inv(s) && Enabled(s, a) && IsZombie(Do(s, a), k) && k < |s.procs|
    ensures if IsZombie(s, k) then !Freeing(s, a, k) && !(a.Die? && a.p == k)
            else a.Die? && a.p == k && !Freeing(s, a, k)
  {
    SameSize(s, a);
    StateAfter(s, a, k);
    hide Inv, Do, Waking;
  }
}
