/** What holds in every interleaving of fork, wait, exit, sleep, wakeup, kill and the schedulers. */
module ProcTheorems {
  import opened ProcProtocol
  import opened ProcInv

  lemma StepKeeps(s: Sys, a: Step)
    requires Inv(s) && Enabled(s, a)
    ensures Inv(Do(s, a))
  {
    hide *;
    match a
    case Fork(_, _) => ForkKeeps(s, a);
    case ForkFail(_, _) => ForkFailKeeps(s, a);
    case ForkParent(_) => ForkParentKeeps(s, a);
    case ForkRun(_) => ForkRunKeeps(s, a);
    case Wait(_) => WaitKeeps(s, a);
    case WaitTake(_) => WaitTakeKeeps(s, a);
    case ScanSlot(_, _) => ScanSlotKeeps(s, a);
    case ScanEnd(_) => ScanEndKeeps(s, a);
    case Sleep(_) => SleepKeeps(s, a);
    case SetSleep(_) => SetSleepKeeps(s, a);
    case Exit(_) => ExitKeeps(s, a);
    case ReparentSlot(_) => ReparentSlotKeeps(s, a);
    case WakeSlot(_) => WakeSlotKeeps(s, a);
    case Die(_, _) => DieKeeps(s, a);
    case Yield(_) => YieldKeeps(s, a);
    case SleepOther(_, _) => SleepOtherKeeps(s, a);
    case WakeOther(_) => WakeOtherKeeps(s, a);
    case Kill(_, _, _) => KillKeeps(s, a);
    case Resume(_) => ResumeKeeps(s, a);
    case Dispatch(_, _) => DispatchKeeps(s, a);
    case Switch(_) => SwitchKeeps(s, a);
  }

  lemma {:induction false} RunKeeps(s: Sys, run: seq<Step>)
    requires Inv(s) && Legal(s, run)
    ensures Inv(Exec(s, run))
    decreases run
  {
    hide Inv, Enabled, Do;
    if run != [] {
      StepKeeps(s, run[0]);
      RunKeeps(Do(s, run[0]), run[1..]);
    }
  }

  /** A run goes on with any step that is possible at its end. */
  lemma {:induction false} RunThen(s: Sys, run: seq<Step>, a: Step)
    requires Legal(s, run) && Enabled(Exec(s, run), a)
    ensures Legal(s, run + [a]) && Exec(s, run + [a]) == Do(Exec(s, run), a)
    decreases run
  {
    hide Enabled, Do;
    if run == [] {
      assert run + [a] == [a] && [a][1..] == [];
    } else {
      assert (run + [a])[0] == run[0] && (run + [a])[1..] == run[1..] + [a];
      RunThen(Do(s, run[0]), run[1..], a);
    }
  }

  /** Some run from the boot state ends in `s`. */
  ghost predicate Reachable(s: Sys) {
    exists s0, run :: Boot(s0) && Legal(s0, run) && Exec(s0, run) == s
  }

  lemma ReachStep(s: Sys, a: Step)
    requires Reachable(s) && Enabled(s, a)
    ensures Reachable(Do(s, a))
  {
    hide Enabled, Do, Boot;
    var s0, run :| Boot(s0) && Legal(s0, run) && Exec(s0, run) == s;
    RunThen(s0, run, a);
  }

  lemma ReachableInv(s: Sys)
    requires Reachable(s)
    ensures Inv(s)
  {
    hide Inv, Boot;
    var s0, run :| Boot(s0) && Legal(s0, run) && Exec(s0, run) == s;
    BootInv(s0);
    RunKeeps(s0, run);
  }

  /** With wait_lock free, nobody sleeps in wait, or is about to, while it has a zombie child. */
  lemma NoLostWakeup(s: Sys, p: nat, q: nat)
    requires Reachable(s) && s.waitLock == -1 && p < |s.procs| && q < |s.procs|
    requires s.procs[q].state == Zombie && s.procs[q].parent == p
    ensures !(s.procs[p].state == Sleeping && s.procs[p].chan == p) && !s.procs[p].pc.GoingToSleep?
  {
    ReachableInv(s);
    assert SlotOk(EnvOf(s), p, s.procs[p]) && PairOk(EnvOf(s), p, s.procs[p], q, s.procs[q]);
  }

  /** The parent of any slot is neither free nor a zombie: it is a process that can still call wait. */
  lemma NoOrphans(s: Sys, q: nat)
    requires Reachable(s) && q < |s.procs| && s.procs[q].parent != -1
    ensures 0 <= s.procs[q].parent < |s.procs| && Alive(s.procs[s.procs[q].parent])
  {
    ReachableInv(s);
    assert SlotOk(EnvOf(s), q, s.procs[q]);
    var p := s.procs[q].parent;
    assert PairOk(EnvOf(s), p, s.procs[p], q, s.procs[q]);
  }

  /** A zombie is freed only by its current parent in wait, completely, and when it is on no CPU. */
  lemma OnlyParentReaps(s: Sys, a: Step, k: nat)
    requires Reachable(s) && Enabled(s, a) && k < |s.procs|
    requires IsZombie(s, k) && !IsZombie(Do(s, a), k)
    ensures a.ScanSlot? && a.copied && a.p == s.procs[k].parent
    ensures |Do(s, a).procs| == |s.procs| && Do(s, a).procs[k] == Empty() && !OnCpu(s, k)
  {
    hide Pairs, Reachable;
    ReachableInv(s);
    assert SlotOk(EnvOf(s), k, s.procs[k]);
    assert OnCpu(s, k) <==> Busy(s.procs[k]);
    SameSize(s, a);
    if !a.ScanSlot? {
      StaysZombie(s, a, k);
    }
  }

  lemma StaysZombie(s: Sys, a: Step, k: nat)
    requires Inv(s) && Enabled(s, a) && k < |s.procs| && !a.ScanSlot? && s.procs[k].state.Zombie?
    ensures k < |Do(s, a).procs| && Do(s, a).procs[k].state.Zombie?
  {
    hide Cpus, Do, Enabled;
    assert SlotOk(EnvOf(s), k, s.procs[k]);
    if a.ForkRun? {
      MakesUsed(s, a);
    }
    hide Inv;
    ZombieStep(s, a, k);
  }

  lemma MakesUsed(s: Sys, a: Step)
    requires Inv(s) && a.ForkRun? && Enabled(s, a)
    ensures s.procs[a.p].pc.child < |s.procs| && s.procs[s.procs[a.p].pc.child].state.Used?
  {
  }

  lemma ZombieStep(s: Sys, a: Step, k: nat)
    requires Enabled(s, a) && k < |s.procs| && !a.ScanSlot? && s.procs[k].state.Zombie? && s.procs[k].pc.Exited?
    requires a.ForkRun? ==> s.procs[a.p].pc.child != k
    ensures k < |Do(s, a).procs| && Do(s, a).procs[k].state.Zombie?
  {
  }

  // ----- each zombie is freed at most once -----

  predicate IsZombie(s: Sys, k: nat) { k < |s.procs| && s.procs[k].state.Zombie? }

  /** How often slot `k` became a zombie in a run. */
  function Deaths(s: Sys, run: seq<Step>, k: nat): nat
    requires Legal(s, run)
    decreases run
  {
    if run == [] then 0
    else
      var t := Do(s, run[0]);
      (if !IsZombie(s, k) && IsZombie(t, k) then 1 else 0) + Deaths(t, run[1..], k)
  }

  /** How often a process freed slot `k` in wait: found it a zombie child of its own and copied its status out. */
  function Reaps(s: Sys, run: seq<Step>, k: nat): nat
    requires Legal(s, run)
    decreases run
  {
    if run == [] then 0
    else (if Reaping(s, run[0], k) then 1 else 0) + Reaps(Do(s, run[0]), run[1..], k)
  }

  predicate Reaping(s: Sys, a: Step, k: nat)
    requires Enabled(s, a)
  {
    a.ScanSlot? && a.copied && s.procs[a.p].pc.i == k && s.procs[k].parent == a.p && IsZombie(s, k)
  }

  /** In every run, the deaths of a slot are its reaps, and one more while it is a zombie. */
  lemma ReapedOnce(s: Sys, run: seq<Step>, k: nat)
    requires Boot(s) && Legal(s, run)
    ensures Deaths(s, run, k) == Reaps(s, run, k) + if IsZombie(Exec(s, run), k) then 1 else 0
  {
    BootInv(s);
    assert !IsZombie(s, k);
    ReapCount(s, run, k);
  }

  lemma {:induction false} ReapCount(s: Sys, run: seq<Step>, k: nat)
    requires Inv(s) && Legal(s, run)
    ensures Deaths(s, run, k) + (if IsZombie(s, k) then 1 else 0)
      == Reaps(s, run, k) + if IsZombie(Exec(s, run), k) then 1 else 0
    decreases run
  {
    hide Inv, Enabled, Do, IsZombie, Reaping;
    if run != [] {
      StepKeeps(s, run[0]);
      ReapStep(s, run[0], k);
      ReapCount(Do(s, run[0]), run[1..], k);
    }
  }

  /** A slot stops being a zombie exactly in a reap. */
  lemma ReapStep(s: Sys, a: Step, k: nat)
    requires Inv(s) && Enabled(s, a)
    ensures Reaping(s, a, k) <==> IsZombie(s, k) && !IsZombie(Do(s, a), k)
  {
    hide Inv;
    assert |Do(s, a).procs| == |s.procs|;
    if IsZombie(s, k) && !a.ScanSlot? {
      StaysZombie(s, a, k);
    }
  }

  // ----- wait_lock is never stuck -----

  /** How many steps a slot whose lock is held across a switch is from releasing it. */
  function Distance(q: Proc): nat {
    if !q.lock then 0 else if q.pc.GoingToSleep? then 2 else 1
  }

  predicate StepOf(a: Step, p: nat) {
    (a.ScanSlot? || a.ScanEnd? || a.Sleep? || a.ReparentSlot? || a.WakeSlot? || a.Die?) && a.p == p
  }

  /** The slot whose lock the holder of wait_lock wants next. */
  function Wanted(s: Sys, p: nat): nat
    requires p < |s.procs|
  {
    match s.procs[p].pc
    case Scan(i, _) => i
    case ReparentWake(_, k) => k
    case WakeParent(k) => k
    case _ => p
  }

  /** A slot whose lock is held across a switch has a step that brings it nearer to the release. */
  lemma LockHolderMoves(s: Sys, k: nat) returns (a: Step)
    requires Inv(s) && k < |s.procs| && s.procs[k].lock
    ensures Enabled(s, a) && k < |Do(s, a).procs| && Distance(Do(s, a).procs[k]) < Distance(s.procs[k])
  {
    hide Pairs;
    assert SlotOk(EnvOf(s), k, s.procs[k]);
    if s.procs[k].pc.GoingToSleep? {
      a := SetSleep(k);
    } else if s.procs[k].state == Running {
      a := Resume(k);
    } else {
      assert OnCpu(s, k) by { assert Busy(s.procs[k]); }
      var c :| 0 <= c < |s.cpus| && s.cpus[c] == k;
      a := Switch(c);
    }
  }

  /** The holder of wait_lock can move, or the slot it waits for can. */
  lemma WaitLockMoves(s: Sys) returns (a: Step)
    requires Reachable(s) && s.waitLock != -1
    ensures Enabled(s, a) && 0 <= s.waitLock < |s.procs|
    ensures
      || StepOf(a, s.waitLock)
      || (Wanted(s, s.waitLock) < |s.procs| == |Do(s, a).procs|
          && Distance(Do(s, a).procs[Wanted(s, s.waitLock)]) < Distance(s.procs[Wanted(s, s.waitLock)]))
  {
    ReachableInv(s);
    var p := s.waitLock;
    assert SlotOk(EnvOf(s), p, s.procs[p]);
    hide Inv, Distance, Do, Enabled;
    var k := Wanted(s, p);
    if k < |s.procs| && k != p && s.procs[k].lock {
      a := LockHolderMoves(s, k);
      assert |Do(s, a).procs| == |s.procs| by { SameSize(s, a); }
    } else {
      a := HolderMoves(s, p);
    }
  }

  lemma HolderMoves(s: Sys, p: nat) returns (a: Step)
    requires Runs(s, p) && HoldsWait(s.procs[p].pc)
    requires s.procs[p].pc.Scan? ==> s.procs[p].pc.i <= |s.procs|
    requires s.procs[p].pc.WakeParent? ==> s.procs[p].pc.k <= |s.procs|
    requires Wanted(s, p) < |s.procs| && Wanted(s, p) != p ==> Free(s, Wanted(s, p))
    ensures StepOf(a, p) && Enabled(s, a)
  {
    match s.procs[p].pc
    case Scan(i, _) => a := if i < |s.procs| then ScanSlot(p, true) else ScanEnd(p);
    case ToSleep => a := Sleep(p);
    case Reparent(_) => a := ReparentSlot(p);
    case ReparentWake(_, _) => a := WakeSlot(p);
    case WakeParent(k) => a := if k < |s.procs| then WakeSlot(p) else Die(p, 0);
  }

  lemma SameSize(s: Sys, a: Step)
    requires Enabled(s, a)
    ensures |Do(s, a).procs| == |s.procs|
  {
  }
}
