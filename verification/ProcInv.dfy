/**
  The invariant of the step system of fork, wait, exit, sleep and wakeup. It is a property
  of each slot and of each pair of slots, so a step that changes one or two slots is checked
  against one other slot at a time.
 */
module ProcInv {
  import opened ProcProtocol

  /** Neither a free slot, nor a child under construction, nor a zombie. */
  predicate Alive(q: Proc) { q.state == Sleeping || q.state == Runnable || q.state == Running }

  predicate Exiting(pc: Pc) { pc.Reparent? || pc.ReparentWake? || pc.WakeParent? || pc.Exited? }

  /** The process will sleep in wait unless somebody wakes it. */
  predicate Committed(q: Proc) { q.pc.GoingToSleep? || (q.pc.Asleep? && q.state == Sleeping) }

  /** On a CPU: running, or being switched in or out. */
  predicate Busy(q: Proc) { q.state == Running || q.lock }

  /** What the slots' properties depend on beside the slots. */
  datatype Env = Env(n: nat, init: nat, waitLock: int, owing: bool)

  /** The holder of wait_lock has just given init a child and has not reached init in wakeup. */
  predicate Owing(s: Sys) {
    && 0 <= s.waitLock < |s.procs|
    && s.procs[s.waitLock].pc.ReparentWake? && s.procs[s.waitLock].pc.k <= s.init
  }

  function EnvOf(s: Sys): Env { Env(|s.procs|, s.init, s.waitLock, Owing(s)) }

  // ----- one slot -----

  predicate PcOk(n: nat, q: Proc) {
    match q.pc
    case Out => true
    case OtherSleep => Alive(q) && (q.state == Running ==> q.lock)
    case ForkLink(c) => Alive(q) && c < n
    case ForkStart(c) => Alive(q) && c < n
    case WaitAcquire => Alive(q)
    case Scan(i, _) => Alive(q) && i <= n
    case ToSleep => Alive(q)
    case GoingToSleep => q.state == Running && q.lock
    case Asleep => Alive(q) && (q.state == Running ==> q.lock)
    case Reparent(i) => i <= n
    case ReparentWake(i, k) => i < n && k <= n
    case WakeParent(k) => k <= n
    case Exited => true
  }

  /** What the place in the code says about the slot's own fields. */
  predicate SlotOk(e: Env, p: nat, q: Proc) {
    && -1 <= q.parent < e.n && q.parent != p && PcOk(e.n, q)
    && (q.state.Unused? ==> q.parent == -1)
    && (q.state.Unused? || q.state.Used? ==> q.pc.Out? && !q.lock)
    && (q.state.Zombie? <==> q.pc.Exited?)
    && (q.state == Sleeping ==> (q.pc.Asleep? && q.chan == p) || (q.pc.OtherSleep? && q.chan >= e.n))
    && (HoldsWait(q.pc) ==> q.state == Running && !q.lock)
    && (e.waitLock == p <==> HoldsWait(q.pc))
    && (p == e.init ==> Alive(q) && q.parent == -1 && !Exiting(q.pc))
  }

  ghost predicate Slots(s: Sys) {
    && s.init < |s.procs| && -1 <= s.waitLock < |s.procs|
    && forall p :: 0 <= p < |s.procs| ==> SlotOk(EnvOf(s), p, s.procs[p])
  }

  // ----- two slots -----

  /** How far an exiting process has given its children away. */
  predicate GivenAway(pc: Pc, j: nat) {
    match pc
    case Reparent(i) => j < i
    case ReparentWake(i, _) => j <= i
    case WakeParent(_) => true
    case _ => false
  }

  predicate Forking(pc: Pc) { pc.ForkLink? || pc.ForkStart? }

  /** Slot `q` seen from slot `p`, which may be its parent. */
  predicate ChildOk(e: Env, p: nat, a: Proc, q: nat, b: Proc) {
    && (b.parent == p ==> Alive(a))
    && (GivenAway(a.pc, q) ==> b.parent != p)
    && (b.parent == p && b.state.Zombie? && Committed(a) ==> p == e.init && e.owing)
    && (b.parent == p && b.state.Zombie? ==> !(a.pc.Scan? && q < a.pc.i) && !a.pc.ToSleep?)
    && (a.pc.WakeParent? && a.parent == q && q < a.pc.k ==> !Committed(b))
  }

  /** A child under construction belongs to the one process that is forking it. */
  predicate ForkOk(p: nat, a: Proc, q: nat, b: Proc) {
    && (Forking(a.pc) && a.pc.child == q ==> b.state.Used?)
    && (a.pc == ForkLink(q) ==> b.parent == -1)
    && (Forking(a.pc) && Forking(b.pc) && a.pc.child == b.pc.child ==> p == q)
  }

  predicate PairOk(e: Env, p: nat, a: Proc, q: nat, b: Proc) {
    ChildOk(e, p, a, q, b) && ForkOk(p, a, q, b)
  }

  ghost predicate Pairs(s: Sys) {
    forall p, q :: 0 <= p < |s.procs| && 0 <= q < |s.procs| ==> PairOk(EnvOf(s), p, s.procs[p], q, s.procs[q])
  }

  // ----- CPUs -----

  ghost predicate OnCpu(s: Sys, p: nat) { exists c :: 0 <= c < |s.cpus| && s.cpus[c] == p }

  ghost predicate Cpus(s: Sys) {
    && (forall c, d :: 0 <= c < d < |s.cpus| && s.cpus[c] == s.cpus[d] ==> s.cpus[c] == -1)
    && (forall c :: 0 <= c < |s.cpus| ==> -1 <= s.cpus[c] < |s.procs|)
    && (forall p :: 0 <= p < |s.procs| ==> (OnCpu(s, p) <==> Busy(s.procs[p])))
  }

  ghost predicate Inv(s: Sys) { Slots(s) && Pairs(s) && Cpus(s) }

  // ----- a step is checked against one other slot -----

  predicate Touch(s: Sys, p: nat, j: nat)
    requires p < |s.procs| && j < |s.procs|
  {
    PairOk(EnvOf(s), p, s.procs[p], j, s.procs[j]) && PairOk(EnvOf(s), j, s.procs[j], p, s.procs[p])
  }

  /** The parts of the environment that the other slots see. */
  predicate EnvStep(s: Sys, t: Sys, p: nat, k: nat) {
    && |t.procs| == |s.procs| && t.init == s.init
    && (t.waitLock == s.waitLock || ((s.waitLock == -1 || s.waitLock == p) && (t.waitLock == -1 || t.waitLock == p)))
    && (Owing(s) && !Owing(t) ==> s.init == p || s.init == k)
  }

  ghost predicate SameBut(s: Sys, t: Sys, p: nat, k: nat)
  {
    |t.procs| == |s.procs| && forall j :: 0 <= j < |s.procs| && j != p && j != k ==> t.procs[j] == s.procs[j]
  }

  lemma Change(s: Sys, t: Sys, p: nat, k: nat)
    requires Slots(s) && Pairs(s) && p < |s.procs| && k < |s.procs|
    requires EnvStep(s, t, p, k) && SameBut(s, t, p, k)
    requires -1 <= t.waitLock < |t.procs|
    requires SlotOk(EnvOf(t), p, t.procs[p]) && SlotOk(EnvOf(t), k, t.procs[k])
    requires forall j :: 0 <= j < |s.procs| ==> Touch(t, p, j) && Touch(t, k, j)
    ensures Slots(t) && Pairs(t)
  {
    hide SlotOk, ChildOk, ForkOk, Owing;
    forall j | 0 <= j < |t.procs|
      ensures SlotOk(EnvOf(t), j, t.procs[j])
    {
      if j != p && j != k {
        assert SlotOk(EnvOf(s), j, s.procs[j]);
        OtherSlot(EnvOf(s), EnvOf(t), j, s.procs[j]);
      }
    }
    forall i, j | 0 <= i < |t.procs| && 0 <= j < |t.procs|
      ensures PairOk(EnvOf(t), i, t.procs[i], j, t.procs[j])
    {
      if i == p || i == k || j == p || j == k {
        assert Touch(t, p, i) && Touch(t, k, i) && Touch(t, p, j) && Touch(t, k, j);
      } else {
        assert PairOk(EnvOf(s), i, s.procs[i], j, s.procs[j]);
        OtherPair(EnvOf(s), EnvOf(t), i, s.procs[i], j, s.procs[j]);
      }
    }
  }

  lemma OtherSlot(e: Env, f: Env, j: nat, q: Proc)
    requires SlotOk(e, j, q) && f.n == e.n && f.init == e.init && (e.waitLock == j <==> f.waitLock == j)
    ensures SlotOk(f, j, q)
  {
  }

  lemma OtherPair(e: Env, f: Env, i: nat, a: Proc, j: nat, b: Proc)
    requires PairOk(e, i, a, j, b) && f.init == e.init && (e.owing && !f.owing ==> i != e.init)
    ensures PairOk(f, i, a, j, b)
  {
  }

  lemma SameCpus(s: Sys, t: Sys)
    requires Cpus(s) && t.cpus == s.cpus && |t.procs| == |s.procs|
    requires forall j :: 0 <= j < |s.procs| ==> (Busy(t.procs[j]) <==> Busy(s.procs[j]))
    ensures Cpus(t)
  {
  }

  lemma BootInv(s: Sys)
    requires Boot(s)
    ensures Inv(s)
  {
  }

  // ----- steps that the other slots do not notice -----

  /** Same parent and kind of state, no new sleeper, and the same place in the code if others depend on it. */
  predicate Tame(a: Proc, b: Proc) {
    && b.parent == a.parent && (Alive(b) <==> Alive(a))
    && (b.state.Zombie? <==> a.state.Zombie?) && (b.state.Used? <==> a.state.Used?)
    && (Committed(b) ==> Committed(a))
    && (b.pc == a.pc || !(HoldsWait(a.pc) || HoldsWait(b.pc) || Forking(a.pc) || Forking(b.pc)))
  }

  lemma TamePair(e: Env, p: nat, a: Proc, b: Proc, q: nat, c: Proc)
    requires Tame(a, b) && PairOk(e, p, a, q, c) && PairOk(e, q, c, p, a)
    ensures PairOk(e, p, b, q, c) && PairOk(e, q, c, p, b)
  {
  }

  lemma TameSlot(s: Sys, p: nat, b: Proc)
    requires Slots(s) && Pairs(s) && p < |s.procs| && Tame(s.procs[p], b) && SlotOk(EnvOf(s), p, b)
    ensures Slots(Put(s, p, b)) && Pairs(Put(s, p, b)) && EnvOf(Put(s, p, b)) == EnvOf(s)
  {
    hide SlotOk, Tame, PairOk;
    var t := Put(s, p, b);
    assert EnvOf(t) == EnvOf(s) by { TameEnv(s, p, b); }
    forall j | 0 <= j < |s.procs|
      ensures Touch(t, p, j)
    {
      assert PairOk(EnvOf(s), p, s.procs[p], j, s.procs[j]) && PairOk(EnvOf(s), j, s.procs[j], p, s.procs[p]);
      TamePair(EnvOf(s), p, s.procs[p], b, j, s.procs[j]);
      if j == p {
        TamePair(EnvOf(s), p, s.procs[p], b, p, b);
      }
    }
    Change(s, t, p, p);
  }

  lemma TameKeeps(s: Sys, p: nat, b: Proc)
    requires Inv(s) && p < |s.procs| && Tame(s.procs[p], b) && SlotOk(EnvOf(s), p, b)
    requires Busy(b) <==> Busy(s.procs[p])
    ensures Inv(Put(s, p, b))
  {
    hide SlotOk, Tame, Pairs;
    TameSlot(s, p, b);
    SameCpus(s, Put(s, p, b));
  }

  lemma TameEnv(s: Sys, p: nat, b: Proc)
    requires Slots(s) && p < |s.procs| && Tame(s.procs[p], b)
    ensures EnvOf(Put(s, p, b)) == EnvOf(s)
  {
  }

  /** Process numbers do not matter. */
  lemma NewPid(s: Sys, pid: nat)
    requires Inv(s)
    ensures Inv(s.(nextPid := pid))
  {
    hide SlotOk, PairOk, Busy;
    var t := s.(nextPid := pid);
    assert EnvOf(t) == EnvOf(s);
    assert forall p :: OnCpu(t, p) <==> OnCpu(s, p);
  }

  lemma ForkFailKeeps(s: Sys, a: Step)
    requires a.ForkFail? && Inv(s) && Enabled(s, a)
    ensures Inv(Do(s, a))
  {
    hide Pairs, Cpus, Owing;
    assert SlotOk(EnvOf(s), a.child, s.procs[a.child]);
    TameKeeps(s, a.child, Do(s, a).procs[a.child]);
    NewPid(Put(s, a.child, Empty()), s.nextPid + 1);
  }

  lemma WaitKeeps(s: Sys, a: Step)
    requires a.Wait? && Inv(s) && Enabled(s, a)
    ensures Inv(Do(s, a))
  {
    hide Pairs, Cpus, Owing;
    assert SlotOk(EnvOf(s), a.p, s.procs[a.p]);
    TameKeeps(s, a.p, Do(s, a).procs[a.p]);
  }

  lemma SetSleepKeeps(s: Sys, a: Step)
    requires a.SetSleep? && Inv(s) && Enabled(s, a)
    ensures Inv(Do(s, a))
  {
    hide Pairs, Cpus, Owing;
    assert SlotOk(EnvOf(s), a.p, s.procs[a.p]);
    TameKeeps(s, a.p, Do(s, a).procs[a.p]);
  }

  lemma YieldKeeps(s: Sys, a: Step)
    requires a.Yield? && Inv(s) && Enabled(s, a)
    ensures Inv(Do(s, a))
  {
    hide Pairs, Cpus, Owing;
    assert SlotOk(EnvOf(s), a.p, s.procs[a.p]);
    TameKeeps(s, a.p, Do(s, a).procs[a.p]);
  }

  lemma SleepOtherKeeps(s: Sys, a: Step)
    requires a.SleepOther? && Inv(s) && Enabled(s, a)
    ensures Inv(Do(s, a))
  {
    hide Pairs, Cpus, Owing;
    assert SlotOk(EnvOf(s), a.p, s.procs[a.p]);
    TameKeeps(s, a.p, Do(s, a).procs[a.p]);
  }

  lemma WakeOtherKeeps(s: Sys, a: Step)
    requires a.WakeOther? && Inv(s) && Enabled(s, a)
    ensures Inv(Do(s, a))
  {
    hide Pairs, Cpus, Owing;
    assert SlotOk(EnvOf(s), a.k, s.procs[a.k]);
    TameKeeps(s, a.k, Do(s, a).procs[a.k]);
  }

  lemma KillKeeps(s: Sys, a: Step)
    requires a.Kill? && Inv(s) && Enabled(s, a)
    ensures Inv(Do(s, a))
  {
    hide Pairs, Cpus, Owing;
    assert SlotOk(EnvOf(s), a.k, s.procs[a.k]);
    TameKeeps(s, a.k, Do(s, a).procs[a.k]);
  }

  lemma ResumeKeeps(s: Sys, a: Step)
    requires a.Resume? && Inv(s) && Enabled(s, a)
    ensures Inv(Do(s, a))
  {
    hide Pairs, Cpus, Owing;
    assert SlotOk(EnvOf(s), a.p, s.procs[a.p]);
    TameKeeps(s, a.p, Do(s, a).procs[a.p]);
  }

  // ----- the other steps -----

  lemma ForkParentKeeps(s: Sys, a: Step)
    requires a.ForkParent? && Inv(s) && Enabled(s, a)
    ensures Inv(Do(s, a))
  {
    var p, t := a.p, Do(s, a);
    assert SlotOk(EnvOf(s), p, s.procs[p]);
    var k := s.procs[a.p].pc.child;
    assert SlotOk(EnvOf(s), k, s.procs[k]) && Touch(s, p, k);
    forall j | 0 <= j < |s.procs|
      ensures Touch(t, p, j) && Touch(t, k, j)
    {
      assert SlotOk(EnvOf(s), j, s.procs[j]);
      assert Touch(s, p, j) && Touch(s, k, j);
    }
    Change(s, t, p, k);
    SameCpus(s, t);
  }

  lemma WaitTakeKeeps(s: Sys, a: Step)
    requires a.WaitTake? && Inv(s) && Enabled(s, a)
    ensures Inv(Do(s, a))
  {
    var p, t := a.p, Do(s, a);
    assert SlotOk(EnvOf(s), p, s.procs[p]);
    forall j | 0 <= j < |s.procs|
      ensures Touch(t, p, j)
    {
      assert SlotOk(EnvOf(s), j, s.procs[j]);
      assert Touch(s, p, j);
    }
    Change(s, t, p, p);
    SameCpus(s, t);
  }

  lemma ScanEndKeeps(s: Sys, a: Step)
    requires a.ScanEnd? && Inv(s) && Enabled(s, a)
    ensures Inv(Do(s, a))
  {
    var p, t := a.p, Do(s, a);
    assert SlotOk(EnvOf(s), p, s.procs[p]);
    forall j | 0 <= j < |s.procs|
      ensures Touch(t, p, j)
    {
      assert SlotOk(EnvOf(s), j, s.procs[j]);
      assert Touch(s, p, j);
    }
    Change(s, t, p, p);
    SameCpus(s, t);
  }

  lemma SleepKeeps(s: Sys, a: Step)
    requires a.Sleep? && Inv(s) && Enabled(s, a)
    ensures Inv(Do(s, a))
  {
    var p, t := a.p, Do(s, a);
    assert SlotOk(EnvOf(s), p, s.procs[p]);
    forall j | 0 <= j < |s.procs|
      ensures Touch(t, p, j)
    {
      assert SlotOk(EnvOf(s), j, s.procs[j]);
      assert Touch(s, p, j);
    }
    Change(s, t, p, p);
    SameCpus(s, t);
  }

  lemma ExitKeeps(s: Sys, a: Step)
    requires a.Exit? && Inv(s) && Enabled(s, a)
    ensures Inv(Do(s, a))
  {
    var p, t := a.p, Do(s, a);
    assert SlotOk(EnvOf(s), p, s.procs[p]);
    forall j | 0 <= j < |s.procs|
      ensures Touch(t, p, j)
    {
      assert SlotOk(EnvOf(s), j, s.procs[j]);
      assert Touch(s, p, j);
    }
    Change(s, t, p, p);
    SameCpus(s, t);
  }

  lemma DieKeeps(s: Sys, a: Step)
    requires a.Die? && Inv(s) && Enabled(s, a)
    ensures Inv(Do(s, a))
  {
    var p, t := a.p, Do(s, a);
    assert SlotOk(EnvOf(s), p, s.procs[p]);
    forall j | 0 <= j < |s.procs|
      ensures Touch(t, p, j)
    {
      assert SlotOk(EnvOf(s), j, s.procs[j]);
      assert Touch(s, p, j);
    }
    Change(s, t, p, p);
    SameCpus(s, t);
  }

  /** A change of one slot that leaves wait_lock alone. */
  lemma OneSlot(s: Sys, p: nat, b: Proc)
    requires Inv(s) && p < |s.procs| && (Busy(b) <==> Busy(s.procs[p]))
    requires Owing(s) && !Owing(Put(s, p, b)) ==> p == s.init
    requires SlotOk(EnvOf(Put(s, p, b)), p, b)
    requires forall j :: 0 <= j < |s.procs| ==> Touch(Put(s, p, b), p, j)
    ensures Inv(Put(s, p, b))
  {
    hide SlotOk, PairOk;
    Change(s, Put(s, p, b), p, p);
    SameCpus(s, Put(s, p, b));
  }

  /** allocproc: a free slot is taken, and nobody refers to it. */
  lemma ForkTakes(s: Sys, k: nat, pid: nat)
    requires Inv(s) && k < |s.procs| && s.procs[k].state.Unused?
    ensures Inv(Put(s, k, s.procs[k].(state := Used, pc := Out, pid := pid)))
    ensures s.procs[k].parent == -1
    ensures forall j :: 0 <= j < |s.procs| && Forking(s.procs[j].pc) ==> s.procs[j].pc.child != k
  {
    var t := Put(s, k, s.procs[k].(state := Used, pc := Out, pid := pid));
    assert SlotOk(EnvOf(s), k, s.procs[k]);
    assert EnvOf(t) == EnvOf(s);
    forall j | 0 <= j < |s.procs|
      ensures Touch(t, k, j) && (Forking(s.procs[j].pc) ==> s.procs[j].pc.child != k)
    {
      assert SlotOk(EnvOf(s), j, s.procs[j]) && Touch(s, k, j);
    }
    OneSlot(s, k, t.procs[k]);
  }

  lemma ForkKeeps(s: Sys, a: Step)
    requires a.Fork? && Inv(s) && Enabled(s, a)
    ensures Inv(Do(s, a))
  {
    hide Inv;
    var p, k := a.p, a.child;
    ForkTakes(s, k, s.nextPid);
    var u := Put(s, k, s.procs[k].(state := Used, pc := Out, pid := s.nextPid));
    ForkNext(u, p, k);
    var w := Put(u, p, u.procs[p].(pc := ForkLink(k)));
    NewPid(w, s.nextPid + 1);
    assert Do(s, a) == w.(nextPid := s.nextPid + 1);
  }

  lemma ForkNext(s: Sys, p: nat, k: nat)
    requires Inv(s) && p < |s.procs| && k < |s.procs| && Runs(s, p) && s.procs[p].pc.Out?
    requires s.procs[k].state.Used? && s.procs[k].parent == -1
    requires forall j :: 0 <= j < |s.procs| && Forking(s.procs[j].pc) ==> s.procs[j].pc.child != k
    ensures Inv(Put(s, p, s.procs[p].(pc := ForkLink(k))))
  {
    var t := Put(s, p, s.procs[p].(pc := ForkLink(k)));
    assert SlotOk(EnvOf(s), p, s.procs[p]) && EnvOf(t) == EnvOf(s);
    forall j | 0 <= j < |s.procs|
      ensures Touch(t, p, j)
    {
      assert SlotOk(EnvOf(s), j, s.procs[j]) && Touch(s, p, j);
    }
    OneSlot(s, p, t.procs[p]);
  }

  lemma ForkLeaves(s: Sys, p: nat)
    requires Inv(s) && p < |s.procs| && Forking(s.procs[p].pc)
    ensures Inv(Put(s, p, s.procs[p].(pc := Out)))
  {
    var t := Put(s, p, s.procs[p].(pc := Out));
    assert SlotOk(EnvOf(s), p, s.procs[p]) && EnvOf(t) == EnvOf(s);
    forall j | 0 <= j < |s.procs|
      ensures Touch(t, p, j)
    {
      assert SlotOk(EnvOf(s), j, s.procs[j]) && Touch(s, p, j);
    }
    OneSlot(s, p, t.procs[p]);
  }

  lemma OnlyMaker(s: Sys, p: nat, k: nat, j: nat)
    requires Inv(s) && p < |s.procs| && k < |s.procs| && j < |s.procs|
    requires Forking(s.procs[p].pc) && s.procs[p].pc.child == k
    ensures s.procs[j].parent != k && s.procs[k].state.Used? && p != k
    ensures Forking(s.procs[j].pc) && s.procs[j].pc.child == k ==> j == p
  {
    assert Touch(s, k, j) && Touch(s, p, j) && Touch(s, p, k);
    assert SlotOk(EnvOf(s), p, s.procs[p]);
  }

  lemma ForkRunKeeps(s: Sys, a: Step)
    requires a.ForkRun? && Inv(s) && Enabled(s, a)
    ensures Inv(Do(s, a))
  {
    hide Inv;
    var p, k := a.p, s.procs[a.p].pc.child;
    var u := Put(s, p, s.procs[p].(pc := Out));
    ForkLeaves(s, p);
    OnlyMaker(s, p, k, k);
    forall j | 0 <= j < |s.procs|
      ensures u.procs[j].parent != k && !(Forking(u.procs[j].pc) && u.procs[j].pc.child == k)
    {
      OnlyMaker(s, p, k, j);
    }
    ForkReady(u, k);
    assert Do(s, a) == Put(u, k, u.procs[k].(state := Runnable));
  }

  lemma ForkReady(s: Sys, k: nat)
    requires Inv(s) && k < |s.procs| && s.procs[k].state.Used?
    requires forall j :: 0 <= j < |s.procs| ==> s.procs[j].parent != k
    requires forall j :: 0 <= j < |s.procs| && Forking(s.procs[j].pc) ==> s.procs[j].pc.child != k
    ensures Inv(Put(s, k, s.procs[k].(state := Runnable)))
  {
    var t := Put(s, k, s.procs[k].(state := Runnable));
    assert SlotOk(EnvOf(s), k, s.procs[k]) && EnvOf(t) == EnvOf(s);
    forall j | 0 <= j < |s.procs|
      ensures Touch(t, k, j)
    {
      assert SlotOk(EnvOf(s), j, s.procs[j]) && Touch(s, k, j);
    }
    OneSlot(s, k, t.procs[k]);
  }

  /** wait leaves the loop: it gives up wait_lock. */
  lemma WaitLeaves(s: Sys, p: nat)
    requires Inv(s) && p < |s.procs| && s.procs[p].pc.Scan?
    ensures Inv(Put(s, p, s.procs[p].(pc := Out)).(waitLock := -1))
  {
    var t := Put(s, p, s.procs[p].(pc := Out)).(waitLock := -1);
    assert SlotOk(EnvOf(s), p, s.procs[p]);
    forall j | 0 <= j < |s.procs|
      ensures Touch(t, p, j)
    {
      assert SlotOk(EnvOf(s), j, s.procs[j]) && Touch(s, p, j);
    }
    Change(s, t, p, p);
    SameCpus(s, t);
  }

  /** freeproc of a zombie whose switch is over. */
  lemma ReapKeeps(s: Sys, k: nat)
    requires Inv(s) && k < |s.procs| && s.procs[k].state.Zombie? && !s.procs[k].lock
    ensures Inv(Put(s, k, Empty()))
  {
    var t := Put(s, k, Empty());
    assert SlotOk(EnvOf(s), k, s.procs[k]) && EnvOf(t) == EnvOf(s);
    forall j | 0 <= j < |s.procs|
      ensures Touch(t, k, j)
    {
      assert SlotOk(EnvOf(s), j, s.procs[j]) && Touch(s, k, j);
    }
    OneSlot(s, k, Empty());
  }

  lemma ScanOn(s: Sys, p: nat, kids: bool)
    requires Inv(s) && p < |s.procs| && s.procs[p].pc.Scan? && s.procs[p].pc.i < |s.procs|
    requires s.procs[s.procs[p].pc.i].parent != p || !s.procs[s.procs[p].pc.i].state.Zombie?
    ensures Inv(Put(s, p, s.procs[p].(pc := Scan(s.procs[p].pc.i + 1, kids))))
  {
    var t := Put(s, p, s.procs[p].(pc := Scan(s.procs[p].pc.i + 1, kids)));
    assert SlotOk(EnvOf(s), p, s.procs[p]) && EnvOf(t) == EnvOf(s);
    forall j | 0 <= j < |s.procs|
      ensures Touch(t, p, j)
    {
      assert SlotOk(EnvOf(s), j, s.procs[j]) && Touch(s, p, j);
    }
    OneSlot(s, p, t.procs[p]);
  }

  lemma ScanSlotKeeps(s: Sys, a: Step)
    requires a.ScanSlot? && Inv(s) && Enabled(s, a)
    ensures Inv(Do(s, a))
  {
    hide Inv;
    var p, k := a.p, s.procs[a.p].pc.i;
    if s.procs[k].parent != p {
      ScanOn(s, p, s.procs[p].pc.kids);
    } else if !s.procs[k].state.Zombie? {
      ScanOn(s, p, true);
    } else {
      WaitLeaves(s, p);
      if a.copied {
        ReapKeeps(Put(s, p, s.procs[p].(pc := Out)).(waitLock := -1), k);
      }
    }
  }

  lemma ReparentOn(s: Sys, p: nat, next: Pc)
    requires Inv(s) && p < |s.procs| && s.procs[p].pc.Reparent?
    requires var i := s.procs[p].pc.i;
      if i >= |s.procs| then next == WakeParent(0) else s.procs[i].parent != p && next == Reparent(i + 1)
    ensures Inv(Put(s, p, s.procs[p].(pc := next)))
  {
    var t := Put(s, p, s.procs[p].(pc := next));
    assert SlotOk(EnvOf(s), p, s.procs[p]) && EnvOf(t) == EnvOf(s);
    forall j | 0 <= j < |s.procs|
      ensures Touch(t, p, j)
    {
      assert SlotOk(EnvOf(s), j, s.procs[j]) && Touch(s, p, j);
    }
    OneSlot(s, p, t.procs[p]);
  }

  /** A child, zombie or not, is given to init, and a wakeup of init is under way from slot 0. */
  lemma ReparentChild(s: Sys, p: nat, k: nat)
    requires Inv(s) && p < |s.procs| && s.procs[p].pc == Reparent(k) && k < |s.procs| && s.procs[k].parent == p
    ensures k != p
    ensures Inv(Put(Put(s, k, s.procs[k].(parent := s.init)), p, s.procs[p].(pc := ReparentWake(k, 0))))
  {
    var e := EnvOf(s);
    var me, q := s.procs[p].(pc := ReparentWake(k, 0)), s.procs[k].(parent := s.init);
    assert SlotOk(e, p, s.procs[p]) && SlotOk(e, k, s.procs[k]) && SlotOk(e, s.init, s.procs[s.init]);
    assert Touch(s, p, k) && Touch(s, k, p) && Touch(s, s.init, k);
    var t := Put(Put(s, k, q), p, me);
    assert EnvOf(t) == e.(owing := true) && SlotOk(EnvOf(t), p, me) && SlotOk(EnvOf(t), k, q);
    hide SlotOk, PairOk, Owing;
    forall j | 0 <= j < |s.procs|
      ensures Touch(t, p, j) && Touch(t, k, j)
    {
      assert PairOk(e, p, s.procs[p], j, s.procs[j]) && PairOk(e, j, s.procs[j], p, s.procs[p]);
      assert PairOk(e, k, s.procs[k], j, s.procs[j]) && PairOk(e, j, s.procs[j], k, s.procs[k]);
      if j != p && j != k {
        OtherThan(e, p, j, s.procs[j]);
        ReparentPair(e, EnvOf(t), p, s.procs[p], k, s.procs[k], j, s.procs[j]);
      } else {
        ReparentEnds(e, EnvOf(t), p, s.procs[p], k, s.procs[k]);
      }
    }
    Change(s, t, p, k);
    SameCpus(s, t);
  }

  lemma OtherThan(e: Env, p: nat, j: nat, c: Proc)
    requires SlotOk(e, j, c) && e.waitLock == p != j
    ensures !HoldsWait(c.pc) && (j == e.init ==> Alive(c) && !Exiting(c.pc))
  {
  }

  lemma ReparentPair(e: Env, f: Env, p: nat, a: Proc, k: nat, b: Proc, j: nat, c: Proc)
    requires f == e.(owing := true) && p != k && j != p && j != k && p != e.init
    requires a.pc == Reparent(k) && b.parent == p && Alive(a)
    requires j == e.init ==> Alive(c) && !Exiting(c.pc)
    requires !HoldsWait(b.pc) && !HoldsWait(c.pc)
    requires PairOk(e, p, a, j, c) && PairOk(e, j, c, p, a) && PairOk(e, k, b, j, c) && PairOk(e, j, c, k, b)
    ensures PairOk(f, p, a.(pc := ReparentWake(k, 0)), j, c) && PairOk(f, j, c, p, a.(pc := ReparentWake(k, 0)))
    ensures PairOk(f, k, b.(parent := e.init), j, c) && PairOk(f, j, c, k, b.(parent := e.init))
  {
  }

  lemma ReparentEnds(e: Env, f: Env, p: nat, a: Proc, k: nat, b: Proc)
    requires f == e.(owing := true) && p != k && p != e.init && k != e.init
    requires a.pc == Reparent(k) && b.parent == p && a.parent != p
    requires PairOk(e, p, a, p, a) && PairOk(e, k, b, k, b) && PairOk(e, p, a, k, b) && PairOk(e, k, b, p, a)
    ensures var x, y := a.(pc := ReparentWake(k, 0)), b.(parent := e.init);
      PairOk(f, p, x, p, x) && PairOk(f, k, y, k, y) && PairOk(f, p, x, k, y) && PairOk(f, k, y, p, x)
  {
  }

  lemma ReparentSlotKeeps(s: Sys, a: Step)
    requires a.ReparentSlot? && Inv(s) && Enabled(s, a)
    ensures Inv(Do(s, a))
  {
    hide Inv;
    var p, k := a.p, s.procs[a.p].pc.i;
    if k >= |s.procs| {
      ReparentOn(s, p, WakeParent(0));
    } else if s.procs[k].parent != p {
      ReparentOn(s, p, Reparent(k + 1));
    } else {
      ReparentChild(s, p, k);
    }
  }

  /** The caller of wakeup moves on past slot `k`, which is not asleep on the channel. */
  lemma WakeOn(s: Sys, p: nat, next: Pc)
    requires Inv(s) && p < |s.procs|
    requires var pc := s.procs[p].pc;
      || (pc.WakeParent? && pc.k < |s.procs| && next == WakeParent(pc.k + 1)
          && (s.procs[p].parent == pc.k ==> !Committed(s.procs[pc.k])))
      || (pc.ReparentWake? && pc.k < |s.procs| && next == ReparentWake(pc.i, pc.k + 1)
          && (s.init == pc.k ==> !Committed(s.procs[pc.k])))
      || (pc.ReparentWake? && pc.k >= |s.procs| && next == Reparent(pc.i + 1))
    ensures Inv(Put(s, p, s.procs[p].(pc := next)))
  {
    var e := EnvOf(s);
    var t := Put(s, p, s.procs[p].(pc := next));
    assert SlotOk(e, p, s.procs[p]) && SlotOk(e, s.init, s.procs[s.init]) && Touch(s, p, p);
    assert SlotOk(EnvOf(t), p, t.procs[p]) && SlotOk(EnvOf(t), s.init, t.procs[s.init]);
    hide SlotOk, PairOk;
    forall j | 0 <= j < |s.procs|
      ensures Touch(t, p, j)
    {
      assert PairOk(e, p, s.procs[p], j, s.procs[j]) && PairOk(e, j, s.procs[j], p, s.procs[p]);
      if j != p {
        OtherThan(e, p, j, s.procs[j]);
      }
      WakeOnPair(e, EnvOf(t), p, s.procs[p], next, j, s.procs[j]);
    }
    if Owing(s) && !Owing(t) {
      AwakePairs(s, t, p);
    } else {
      OneSlot(s, p, t.procs[p]);
    }
  }

  lemma WakeOnPair(e: Env, f: Env, p: nat, a: Proc, next: Pc, j: nat, c: Proc)
    requires f.init == e.init && f.n == e.n && j < e.n && p != e.init && a.parent != p && !a.state.Zombie?
    requires PairOk(e, p, a, j, c) && PairOk(e, j, c, p, a)
    requires
      || (a.pc.WakeParent? && a.pc.k < e.n && next == WakeParent(a.pc.k + 1)
        && (a.parent == a.pc.k == j ==> !Committed(c)))
      || (a.pc.ReparentWake? && next == ReparentWake(a.pc.i, a.pc.k + 1))
      || (a.pc.ReparentWake? && next == Reparent(a.pc.i + 1))
    requires c.pc.WakeParent? ==> c == a && j == p
    ensures var b := a.(pc := next);
      if j == p then PairOk(f, p, b, p, b) else PairOk(f, p, b, j, c) && PairOk(f, j, c, p, b)
  {
  }

  /** Past init's slot nothing is owed to init any more, since init is not going to sleep. */
  lemma AwakePairs(s: Sys, t: Sys, p: nat)
    requires Inv(s) && p < |s.procs| == |t.procs| && t == Put(s, p, s.procs[p].(pc := t.procs[p].pc))
    requires !Committed(t.procs[s.init]) && (Busy(t.procs[p]) <==> Busy(s.procs[p]))
    requires s.init != p && SlotOk(EnvOf(t), p, t.procs[p]) && SlotOk(EnvOf(t), s.init, t.procs[s.init])
    requires forall j :: 0 <= j < |s.procs| ==> Touch(t, p, j)
    ensures Inv(t)
  {
    forall j | 0 <= j < |s.procs|
      ensures Touch(t, s.init, j)
    {
      assert Touch(s, s.init, j) && Touch(t, p, j) && Touch(t, p, s.init);
      assert SlotOk(EnvOf(s), j, s.procs[j]);
    }
    Change(s, t, p, s.init);
    SameCpus(s, t);
  }

  lemma WokenKeeps(s: Sys, k: nat, chan: int)
    requires Inv(s) && Free(s, k)
    ensures Inv(Put(s, k, Woken(s.procs[k], chan)))
    ensures chan == k ==> !Committed(Woken(s.procs[k], chan))
    ensures EnvOf(Put(s, k, Woken(s.procs[k], chan))) == EnvOf(s)
  {
    hide Pairs, Cpus;
    assert SlotOk(EnvOf(s), k, s.procs[k]);
    TameKeeps(s, k, Woken(s.procs[k], chan));
  }

  lemma WakeAtKeeps(s: Sys, p: nat, k: nat, chan: int, next: Pc)
    requires Inv(s) && p < |s.procs| && k < |s.procs| && (k != p ==> Free(s, k))
    requires var pc := s.procs[p].pc;
      || (pc == WakeParent(k) && chan == s.procs[p].parent && next == WakeParent(k + 1))
      || (pc.ReparentWake? && pc.k == k && chan == s.init && next == ReparentWake(pc.i, k + 1))
    ensures Inv(WakeAt(s, p, k, chan, next))
  {
    assert SlotOk(EnvOf(s), p, s.procs[p]);
    hide Inv, SlotOk;
    if k == p {
      WakeOn(s, p, next);
    } else {
      WokenKeeps(s, k, chan);
      WakeOn(Put(s, k, Woken(s.procs[k], chan)), p, next);
    }
  }

  lemma WakeSlotKeeps(s: Sys, a: Step)
    requires a.WakeSlot? && Inv(s) && Enabled(s, a)
    ensures Inv(Do(s, a))
  {
    hide Inv, WakeAt;
    var p, pc := a.p, s.procs[a.p].pc;
    if pc.WakeParent? {
      WakeAtKeeps(s, p, pc.k, s.procs[p].parent, WakeParent(pc.k + 1));
    } else if pc.k >= |s.procs| {
      WakeOn(s, p, Reparent(pc.i + 1));
    } else {
      WakeAtKeeps(s, p, pc.k, s.init, ReparentWake(pc.i, pc.k + 1));
    }
  }

  // ----- switching -----

  lemma DispatchKeeps(s: Sys, a: Step)
    requires a.Dispatch? && Inv(s) && Enabled(s, a)
    ensures Inv(Do(s, a))
  {
    var p, t := a.p, Do(s, a);
    assert SlotOk(EnvOf(s), p, s.procs[p]);
    TameSlot(s, p, t.procs[p]);
    assert Slots(t) && Pairs(t) by { CpusApart(Put(s, p, t.procs[p]), t); }
    forall q | 0 <= q < |t.procs|
      ensures OnCpu(t, q) <==> Busy(t.procs[q])
    {
      assert OnCpu(s, q) <==> Busy(s.procs[q]);
      if q == p {
        assert t.cpus[a.c] == p;
      } else if OnCpu(s, q) {
        var c :| 0 <= c < |s.cpus| && s.cpus[c] == q;
        assert t.cpus[c] == q;
      }
    }
    assert !OnCpu(s, p);
  }

  lemma SwitchKeeps(s: Sys, a: Step)
    requires a.Switch? && Inv(s) && Enabled(s, a)
    ensures Inv(Do(s, a))
  {
    var p, t := s.cpus[a.c], Do(s, a);
    assert SlotOk(EnvOf(s), p, s.procs[p]);
    TameSlot(s, p, t.procs[p]);
    assert Slots(t) && Pairs(t) by { CpusApart(Put(s, p, t.procs[p]), t); }
    forall q | 0 <= q < |t.procs|
      ensures OnCpu(t, q) <==> Busy(t.procs[q])
    {
      assert OnCpu(s, q) <==> Busy(s.procs[q]);
      if q != p && OnCpu(s, q) {
        var c :| 0 <= c < |s.cpus| && s.cpus[c] == q;
        assert t.cpus[c] == q;
      }
    }
  }

  lemma CpusApart(s: Sys, t: Sys)
    requires Slots(s) && Pairs(s) && t == s.(cpus := t.cpus)
    ensures Slots(t) && Pairs(t)
  {
  }
}
