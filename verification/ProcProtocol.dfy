/**
  fork, wait, exit, kill, sleep, wakeup and the scheduler of kernel/proc.c as a step system. One
  step is what a kernel thread does between two points where another CPU can interfere: a
  critical section under one spinlock is one step, while p->lock held across swtch and
  wait_lock held across several steps are part of the state.
 */
module ProcProtocol {

  datatype PState = Unused | Used | Sleeping | Runnable | Running | Zombie

  /** Where a process is inside the code that is modelled. */
  datatype Pc =
    | Out                                // user mode, or kernel code that is not modelled
    | OtherSleep                         // in sleep on some other channel
    | ForkLink(child: nat)               // in fork, the child is not yet linked to its parent
    | ForkStart(child: nat)              // in fork, the child is not yet runnable
    | WaitAcquire                        // in wait, about to take wait_lock
    | Scan(i: nat, kids: bool)           // in wait, at slot i of the table
    | ToSleep                            // in wait, has found nothing and is not killed, about to sleep
    | GoingToSleep                       // in sleep, p->lock taken and wait_lock released
    | Asleep                             // in sleep, state set
    | Reparent(i: nat)                   // in exit, at slot i of reparent
    | ReparentWake(i: nat, k: nat)       // in exit, waking init after slot i, at slot k of wakeup
    | WakeParent(k: nat)                 // in exit, waking the parent, at slot k of wakeup
    | Exited                             // in exit, a zombie

  /**
    A slot of the process table. `parent` and `chan` are slot numbers, or -1 for none; channels
    from the table's size on stand for everything else that is slept on. `lock` is p->lock when
    held across a switch. A free slot has process number 0.
   */
  datatype Proc = Proc(state: PState, chan: int, killed: bool, parent: int, pc: Pc, lock: bool, pid: nat, xstate: int)

  /** `cpus` gives the slot each CPU runs and `waitLock` the slot holding wait_lock, or -1. */
  datatype Sys = Sys(init: nat, procs: seq<Proc>, cpus: seq<int>, waitLock: int, nextPid: nat)

  datatype Step =
    | Fork(p: nat, child: nat)
    | ForkFail(p: nat, child: nat)
    | ForkParent(p: nat)
    | ForkRun(p: nat)
    | Wait(p: nat)
    | WaitTake(p: nat)
    | ScanSlot(p: nat, copied: bool)
    | ScanEnd(p: nat)
    | Sleep(p: nat)
    | SetSleep(p: nat)
    | Exit(p: nat)
    | ReparentSlot(p: nat)
    | WakeSlot(p: nat)
    | Die(p: nat, status: int)
    | Yield(p: nat)
    | SleepOther(p: nat, chan: nat)
    | WakeOther(k: nat)
    | Kill(p: nat, k: nat, pid: nat)
    | Resume(p: nat)
    | Dispatch(c: nat, p: nat)
    | Switch(c: nat)

  function Put(s: Sys, p: nat, q: Proc): Sys
    requires p < |s.procs|
  {
    s.(procs := s.procs[p := q])
  }

  /** The process runs on some CPU and is not in the middle of a switch. */
  predicate Runs(s: Sys, p: nat) {
    p < |s.procs| && s.procs[p].state == Running && !s.procs[p].lock
  }

  predicate HoldsWait(pc: Pc) { pc.Scan? || pc.ToSleep? || pc.Reparent? || pc.ReparentWake? || pc.WakeParent? }

  // ----- when a step can happen -----

  /** Slot `k` can be locked for a short critical section. */
  predicate Free(s: Sys, k: nat) { k < |s.procs| && !s.procs[k].lock }

  predicate Enabled(s: Sys, a: Step) {
    match a
    case Fork(p, child) => Runs(s, p) && s.procs[p].pc.Out? && Free(s, child) && s.procs[child].state.Unused?
    case ForkFail(p, child) => Runs(s, p) && s.procs[p].pc.Out? && Free(s, child) && s.procs[child].state.Unused?
    case ForkParent(p) => Runs(s, p) && s.procs[p].pc.ForkLink? && s.procs[p].pc.child < |s.procs| && s.waitLock == -1
    case ForkRun(p) => Runs(s, p) && s.procs[p].pc.ForkStart? && Free(s, s.procs[p].pc.child)
    case Wait(p) => Runs(s, p) && s.procs[p].pc.Out?
    case WaitTake(p) => Runs(s, p) && s.procs[p].pc.WaitAcquire? && s.waitLock == -1
    case ScanSlot(p, _) =>
      && Runs(s, p) && s.procs[p].pc.Scan? && s.procs[p].pc.i < |s.procs|
      && (s.procs[s.procs[p].pc.i].parent == p ==> Free(s, s.procs[p].pc.i))
    case ScanEnd(p) => Runs(s, p) && s.procs[p].pc.Scan? && s.procs[p].pc.i == |s.procs|
    case Sleep(p) => Runs(s, p) && s.procs[p].pc.ToSleep?
    case SetSleep(p) => p < |s.procs| && s.procs[p].pc.GoingToSleep?
    case Exit(p) => Runs(s, p) && s.procs[p].pc.Out? && p != s.init && s.waitLock == -1
    case ReparentSlot(p) => Runs(s, p) && s.procs[p].pc.Reparent?
    case WakeSlot(p) =>
      && Runs(s, p)
      && match s.procs[p].pc {
        case ReparentWake(_, k) => k < |s.procs| && k != p ==> Free(s, k)
        case WakeParent(k) => k < |s.procs| && (k != p ==> Free(s, k))
        case _ => false
      }
    case Die(p, _) => Runs(s, p) && s.procs[p].pc.WakeParent? && s.procs[p].pc.k == |s.procs|
    case Yield(p) => Runs(s, p) && !HoldsWait(s.procs[p].pc)
    case SleepOther(p, chan) => Runs(s, p) && s.procs[p].pc.Out? && chan >= |s.procs|
    case WakeOther(k) => Free(s, k) && s.procs[k].chan >= |s.procs|
    case Kill(p, k, pid) => Runs(s, p) && s.procs[p].pc.Out? && Free(s, k) && s.procs[k].pid == pid
    case Resume(p) =>
      && p < |s.procs| && s.procs[p].state == Running && s.procs[p].lock && !s.procs[p].pc.GoingToSleep?
    case Dispatch(c, p) => c < |s.cpus| && s.cpus[c] == -1 && Free(s, p) && s.procs[p].state == Runnable
    case Switch(c) =>
      && c < |s.cpus| && 0 <= s.cpus[c] < |s.procs|
      && s.procs[s.cpus[c]].lock && s.procs[s.cpus[c]].state != Running
  }

  // ----- what a step does -----

  /** One round of the loop of wakeup, for a caller that is not this slot. */
  function Woken(q: Proc, chan: int): Proc {
    if q.state == Sleeping && q.chan == chan then q.(state := Runnable) else q
  }

  /** freeproc, of the fields modelled. */
  function Empty(): Proc { Proc(Unused, -1, false, -1, Out, false, 0, 0) }

  function WakeAt(s: Sys, p: nat, k: nat, chan: int, next: Pc): Sys
    requires p < |s.procs| && k < |s.procs|
  {
    var t := if k == p then s else Put(s, k, Woken(s.procs[k], chan));
    Put(t, p, t.procs[p].(pc := next))
  }

  function ScanAt(s: Sys, p: nat, copied: bool): Sys
    requires Enabled(s, ScanSlot(p, copied))
  {
    var me := s.procs[p];
    var q := s.procs[me.pc.i];
    if q.parent != p then Put(s, p, me.(pc := Scan(me.pc.i + 1, me.pc.kids)))
    else if q.state != Zombie then Put(s, p, me.(pc := Scan(me.pc.i + 1, true)))
    else if !copied then Put(s, p, me.(pc := Out)).(waitLock := -1)
    else Put(Put(s, p, me.(pc := Out)), me.pc.i, Empty()).(waitLock := -1)
  }

  function Do(s: Sys, a: Step): Sys
    requires Enabled(s, a)
  {
    match a
    case Fork(p, child) =>
      var t := Put(s, p, s.procs[p].(pc := ForkLink(child)));
      Put(t, child, s.procs[child].(state := Used, pc := Out, pid := s.nextPid)).(nextPid := s.nextPid + 1)
    case ForkFail(p, child) => Put(s, child, Empty()).(nextPid := s.nextPid + 1)
    case ForkParent(p) =>
      var child := s.procs[p].pc.child;
      var t := Put(s, child, s.procs[child].(parent := p));
      Put(t, p, t.procs[p].(pc := ForkStart(child)))
    case ForkRun(p) =>
      var child := s.procs[p].pc.child;
      var t := Put(s, child, s.procs[child].(state := Runnable));
      Put(t, p, t.procs[p].(pc := Out))
    case Wait(p) => Put(s, p, s.procs[p].(pc := WaitAcquire))
    case WaitTake(p) => Put(s, p, s.procs[p].(pc := Scan(0, false))).(waitLock := p)
    case ScanSlot(p, copied) => ScanAt(s, p, copied)
    case ScanEnd(p) =>
      var me := s.procs[p];
      if !me.pc.kids || me.killed then Put(s, p, me.(pc := Out)).(waitLock := -1)
      else Put(s, p, me.(pc := ToSleep))
    case Sleep(p) => Put(s, p, s.procs[p].(pc := GoingToSleep, lock := true)).(waitLock := -1)
    case SetSleep(p) => Put(s, p, s.procs[p].(state := Sleeping, chan := p, pc := Asleep))
    case Exit(p) => Put(s, p, s.procs[p].(pc := Reparent(0))).(waitLock := p)
    case ReparentSlot(p) =>
      var i := s.procs[p].pc.i;
      if i >= |s.procs| then Put(s, p, s.procs[p].(pc := WakeParent(0)))
      else if s.procs[i].parent != p then Put(s, p, s.procs[p].(pc := Reparent(i + 1)))
      else
        var t := Put(s, i, s.procs[i].(parent := s.init));
        Put(t, p, t.procs[p].(pc := ReparentWake(i, 0)))
    case WakeSlot(p) =>
      var me := s.procs[p];
      if me.pc.WakeParent? then WakeAt(s, p, me.pc.k, me.parent, WakeParent(me.pc.k + 1))
      else if me.pc.k >= |s.procs| then Put(s, p, me.(pc := Reparent(me.pc.i + 1)))
      else WakeAt(s, p, me.pc.k, s.init, ReparentWake(me.pc.i, me.pc.k + 1))
    case Die(p, status) =>
      Put(s, p, s.procs[p].(state := Zombie, xstate := status, lock := true, pc := Exited)).(waitLock := -1)
    case Yield(p) => Put(s, p, s.procs[p].(state := Runnable, lock := true))
    case SleepOther(p, chan) => Put(s, p, s.procs[p].(state := Sleeping, chan := chan, pc := OtherSleep, lock := true))
    case WakeOther(k) => Put(s, k, Woken(s.procs[k], s.procs[k].chan))
    case Kill(p, k, _) =>
      var q := s.procs[k];
      Put(s, k, q.(killed := true, state := if q.state == Sleeping then Runnable else q.state))
    case Resume(p) =>
      var me := s.procs[p];
      Put(s, p, match me.pc
                case Asleep => me.(lock := false, chan := -1, pc := WaitAcquire)
                case OtherSleep => me.(lock := false, chan := -1, pc := Out)
                case _ => me.(lock := false))
    case Dispatch(c, p) => Put(s, p, s.procs[p].(state := Running, lock := true)).(cpus := s.cpus[c := p])
    case Switch(c) =>
      var p := s.cpus[c];
      Put(s, p, s.procs[p].(lock := false)).(cpus := s.cpus[c := -1])
  }

  // ----- runs -----

  predicate Legal(s: Sys, run: seq<Step>)
    decreases run
  {
    run == [] || (Enabled(s, run[0]) && Legal(Do(s, run[0]), run[1..]))
  }

  function Exec(s: Sys, run: seq<Step>): Sys
    requires Legal(s, run)
    decreases run
  {
    if run == [] then s else Exec(Do(s, run[0]), run[1..])
  }

  /** After userinit: only init exists, with process number 1, and no CPU has picked it up. */
  predicate Boot(s: Sys) {
    && s.init < |s.procs| && s.waitLock == -1 && s.nextPid == 2
    && (forall c :: 0 <= c < |s.cpus| ==> s.cpus[c] == -1)
    && (forall p :: 0 <= p < |s.procs| ==>
          s.procs[p] == if p == s.init then Empty().(state := Runnable, pid := 1) else Empty())
  }
}
