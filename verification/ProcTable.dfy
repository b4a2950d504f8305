/**
  The loops of kernel/proc.c over the process table, as one process runs them while it holds
  wait_lock and no other process is in the middle of a switch. `sys` is the state of the step
  system, and every change to the table is one of its steps; the interleavings are there.
 */
module ProcTable {
  import opened ProcProtocol
  import opened ProcInv
  import opened ProcTheorems

  /** The fields of struct proc that the loops read and write. */
  datatype Slot = Slot(state: PState, chan: int, killed: bool, parent: int, pid: nat, xstate: int)

  function View(q: Proc): Slot { Slot(q.state, q.chan, q.killed, q.parent, q.pid, q.xstate) }

  function Waken(q: Slot, chan: int): Slot {
    if q.state == Sleeping && q.chan == chan then q.(state := Runnable) else q
  }

  function Table(s: Sys): (t: seq<Slot>)
    ensures |t| == |s.procs|
    ensures forall k :: 0 <= k < |t| ==> t[k] == View(s.procs[k])
  {
    seq(|s.procs|, k requires 0 <= k < |s.procs| => View(s.procs[k]))
  }

  lemma TablePut(s: Sys, p: nat, q: Proc)
    requires p < |s.procs|
    ensures Table(Put(s, p, q)) == Table(s)[p := View(q)]
  {
  }

  /** Nobody but `p` is being switched in or out. */
  ghost predicate Settled(s: Sys, p: nat) {
    forall k :: 0 <= k < |s.procs| && k != p ==> !s.procs[k].lock
  }

  /** Where the caller of wakeup is, at slot `k`. */
  function WakePc(pc: Pc, k: nat): Pc {
    if pc.ReparentWake? then ReparentWake(pc.i, k) else WakeParent(k)
  }

  /** One round of wakeup, in the table. */
  function WakenAt(t: seq<Slot>, p: nat, k: nat, chan: int): seq<Slot>
    requires k < |t|
  {
    if k == p then t else t[k := Waken(t[k], chan)]
  }

  /** The table after the rounds of wakeup up to slot `k`. */
  function WakenAll(t: seq<Slot>, p: nat, chan: int, k: nat): (u: seq<Slot>)
    requires k <= |t|
    ensures |u| == |t|
  {
    if k == 0 then t else WakenAt(WakenAll(t, p, chan, k - 1), p, k - 1, chan)
  }

  lemma {:induction false} WakenAllAt(t: seq<Slot>, p: nat, chan: int, k: nat, j: nat)
    requires k <= |t| && j < |t|
    ensures WakenAll(t, p, chan, k)[j] == if j < k && j != p then Waken(t[j], chan) else t[j]
    decreases k
  {
    if k > 0 {
      WakenAllAt(t, p, chan, k - 1, j);
    }
  }

  lemma WakeStep(s: Sys, p: nat, k: nat)
    requires Runs(s, p) && Settled(s, p) && k < |s.procs|
    requires s.procs[p].pc == WakePc(s.procs[p].pc, k)
    ensures Enabled(s, WakeSlot(p))
    ensures var t := Do(s, WakeSlot(p));
      var chan := if s.procs[p].pc.ReparentWake? then s.init else s.procs[p].parent;
      && Runs(t, p) && Settled(t, p) && t.procs[p].pc == WakePc(s.procs[p].pc, k + 1)
      && t.init == s.init && t.waitLock == s.waitLock
      && Table(t) == WakenAt(Table(s), p, k, chan)
  {
    hide Table;
    var chan := if s.procs[p].pc.ReparentWake? then s.init else s.procs[p].parent;
    var u := if k == p then s else Put(s, k, Woken(s.procs[k], chan));
    if k != p {
      TablePut(s, k, Woken(s.procs[k], chan));
    }
    TablePut(u, p, u.procs[p].(pc := WakePc(s.procs[p].pc, k + 1)));
    assert Table(u)[p := View(u.procs[p])] == Table(u);
  }

  // ----- reparent and exit -----

  /** The table after the rounds of reparent up to slot `i`. */
  function Handed(t: seq<Slot>, p: nat, init: nat, i: nat): (u: seq<Slot>)
    requires i <= |t|
    ensures |u| == |t|
  {
    if i == 0 then t
    else
      var u := Handed(t, p, init, i - 1);
      if u[i - 1].parent != p then u
      else WakenAll(u[i - 1 := u[i - 1].(parent := init)], p, init, |t|)
  }

  /** exit: the children are init's, parent and init are awake where they have to be, and `p` is a zombie. */
  function ExitTable(t: seq<Slot>, p: nat, init: nat, status: int): (u: seq<Slot>)
    requires p < |t|
    ensures |u| == |t|
  {
    var u := Handed(t, p, init, |t|);
    var v := WakenAll(u, p, u[p].parent, |t|);
    v[p := v[p].(state := Zombie, xstate := status)]
  }

  predicate SleepsOn(q: Slot, chan: int) { q.state == Sleeping && q.chan == chan }

  /** Some slot below `i` is a child of `p`. */
  predicate HasChild(t: seq<Slot>, p: nat, i: nat)
    requires i <= |t|
  {
    exists j :: 0 <= j < i && t[j].parent == p
  }

  /** After the rounds of reparent up to slot `i`: who has a new parent, and who was woken. */
  lemma {:induction false} HandedAt(t: seq<Slot>, p: nat, init: nat, i: nat, j: nat)
    requires i <= |t| && j < |t| && init < |t| && init != p && p < |t|
    ensures Handed(t, p, init, i)[j] ==
      t[j].(parent := if j < i && t[j].parent == p then init else t[j].parent,
            state := if j != p && SleepsOn(t[j], init) && HasChild(t, p, i) then Runnable else t[j].state)
    decreases i
  {
    if i > 0 {
      HandedAt(t, p, init, i - 1, j);
      HandedAt(t, p, init, i - 1, i - 1);
      var u := Handed(t, p, init, i - 1);
      WakenAllAt(u[i - 1 := u[i - 1].(parent := init)], p, init, |t|, j);
      assert HasChild(t, p, i) <==> HasChild(t, p, i - 1) || t[i - 1].parent == p;
    }
  }

  /**
    What exit leaves in each slot. The process is a zombie with its status; its children are
    init's; who sleeps on its parent is awake, and so is who sleeps on init if there was a child;
    and nothing else changes.
   */
  lemma ExitAt(t: seq<Slot>, p: nat, init: nat, status: int, j: nat)
    requires p < |t| && init < |t| && init != p && j < |t| && t[p].parent != p
    ensures ExitTable(t, p, init, status)[p] == t[p].(state := Zombie, xstate := status)
    ensures j == p || ExitTable(t, p, init, status)[j] ==
      var child := exists k :: 0 <= k < |t| && t[k].parent == p;
      var woken := t[j].state == Sleeping && (t[j].chan == t[p].parent || (t[j].chan == init && child));
      t[j].(parent := if t[j].parent == p then init else t[j].parent, state := if woken then Runnable else t[j].state)
  {
    HandedAt(t, p, init, |t|, j);
    HandedAt(t, p, init, |t|, p);
    var u := Handed(t, p, init, |t|);
    WakenAllAt(u, p, u[p].parent, |t|, j);
    WakenAllAt(u, p, u[p].parent, |t|, p);
  }

  /**
    So nobody has an exited parent, and neither a parent nor init sleeps in wait while it has a
    new zombie or child.
   */
  lemma ExitFacts(t: seq<Slot>, p: nat, init: nat, status: int, j: nat)
    requires p < |t| && init < |t| && init != p && j < |t| && t[p].parent != p
    ensures var u := ExitTable(t, p, init, status);
      && u[j].parent != p
      && (j == t[p].parent ==> !SleepsOn(u[j], j))
      && (t[j].parent == p ==> !SleepsOn(u[init], init))
  {
    ExitAt(t, p, init, status, j);
    ExitAt(t, p, init, status, init);
  }

  lemma ReparentStep(s: Sys, p: nat, i: nat)
    requires Runs(s, p) && Settled(s, p) && s.procs[p].pc == Reparent(i) && i <= |s.procs| && s.init < |s.procs|
    requires i < |s.procs| && s.procs[i].parent == p ==> i != p
    ensures Enabled(s, ReparentSlot(p))
    ensures var t := Do(s, ReparentSlot(p));
      && Runs(t, p) && Settled(t, p) && t.init == s.init && t.waitLock == s.waitLock
      && (i == |s.procs| ==> t.procs[p].pc == WakeParent(0) && Table(t) == Table(s))
      && (i < |s.procs| && s.procs[i].parent != p ==> t.procs[p].pc == Reparent(i + 1) && Table(t) == Table(s))
      && (i < |s.procs| && s.procs[i].parent == p ==>
            && t.procs[p].pc == ReparentWake(i, 0)
            && Table(t) == Table(s)[i := Table(s)[i].(parent := s.init)])
  {
  }

  lemma WakeEndStep(s: Sys, p: nat, i: nat)
    requires Runs(s, p) && Settled(s, p) && s.procs[p].pc == ReparentWake(i, |s.procs|)
    ensures Enabled(s, WakeSlot(p))
    ensures var t := Do(s, WakeSlot(p));
      && Runs(t, p) && Settled(t, p) && t.init == s.init && t.waitLock == s.waitLock
      && t.procs[p].pc == Reparent(i + 1) && Table(t) == Table(s)
  {
  }

  lemma ExitStep(s: Sys, p: nat)
    requires Runs(s, p) && Settled(s, p) && s.procs[p].pc.Out? && p != s.init && s.waitLock == -1
    ensures Enabled(s, Exit(p))
    ensures var t := Do(s, Exit(p));
      && Runs(t, p) && Settled(t, p) && t.init == s.init && t.waitLock == p
      && t.procs[p].pc == Reparent(0) && Table(t) == Table(s)
  {
  }

  lemma DieStep(s: Sys, p: nat, status: int)
    requires Runs(s, p) && Settled(s, p) && s.procs[p].pc == WakeParent(|s.procs|)
    ensures Enabled(s, Die(p, status))
    ensures var t := Do(s, Die(p, status));
      && Settled(t, p) && t.init == s.init && t.waitLock == -1 && |t.procs| == |s.procs|
      && t.procs[p].pc == Exited && Table(t) == Table(s)[p := Table(s)[p].(state := Zombie, xstate := status)]
  {
  }

  // ----- wait -----

  /** The first zombie child from slot `i` on, or the table's size. */
  function FirstZombie(t: seq<Slot>, p: nat, i: nat): (c: nat)
    requires i <= |t|
    ensures i <= c <= |t| && (c < |t| ==> t[c].parent == p && t[c].state == Zombie)
    ensures forall j :: i <= j < c ==> !(t[j].parent == p && t[j].state == Zombie)
    decreases |t| - i
  {
    if i == |t| || (t[i].parent == p && t[i].state == Zombie) then i else FirstZombie(t, p, i + 1)
  }

  lemma ChildStep(t: seq<Slot>, p: nat, i: nat)
    requires i < |t|
    ensures HasChild(t, p, i + 1) <==> HasChild(t, p, i) || t[i].parent == p
    ensures !(t[i].parent == p && t[i].state == Zombie) ==> FirstZombie(t, p, i) == FirstZombie(t, p, i + 1)
    ensures t[i].parent == p && t[i].state == Zombie ==> FirstZombie(t, p, i) == i
  {
  }

  lemma ChildIs(t: seq<Slot>, p: nat)
    ensures HasChild(t, p, |t|) <==> exists j :: 0 <= j < |t| && t[j].parent == p
  {
  }

  lemma NoChildYet(t: seq<Slot>, p: nat)
    ensures !HasChild(t, p, 0) && FirstZombie(t, p, |t|) == |t|
  {
  }

  lemma WaitStep(s: Sys, p: nat)
    requires Runs(s, p) && Settled(s, p) && s.procs[p].pc.Out? && s.waitLock == -1
    ensures Enabled(s, Wait(p)) && Enabled(Do(s, Wait(p)), WaitTake(p))
    ensures var t := Do(Do(s, Wait(p)), WaitTake(p));
      && Runs(t, p) && Settled(t, p) && t.init == s.init && t.waitLock == p
      && t.procs[p].pc == Scan(0, false) && Table(t) == Table(s)
  {
  }

  lemma ScanStep(s: Sys, p: nat, i: nat, kids: bool, copied: bool)
    requires Runs(s, p) && Settled(s, p) && s.procs[p].pc == Scan(i, kids) && i < |s.procs| && s.procs[p].parent != p
    ensures Enabled(s, ScanSlot(p, copied))
    ensures var t := Do(s, ScanSlot(p, copied));
      var child := s.procs[i].parent == p;
      && t.init == s.init && |t.procs| == |s.procs|
      && (child && s.procs[i].state == Zombie ==>
            t.waitLock == -1 && Table(t) == if copied then Table(s)[i := View(Empty())] else Table(s))
      && (!(child && s.procs[i].state == Zombie) ==>
            && Runs(t, p) && Settled(t, p) && t.waitLock == s.waitLock
            && t.procs[p].pc == Scan(i + 1, kids || child) && Table(t) == Table(s))
  {
  }

  lemma ScanEndStep(s: Sys, p: nat, kids: bool)
    requires Runs(s, p) && Settled(s, p) && s.procs[p].pc == Scan(|s.procs|, kids)
    ensures Enabled(s, ScanEnd(p))
    ensures var t := Do(s, ScanEnd(p));
      && t.init == s.init && Table(t) == Table(s)
      && if kids && !s.procs[p].killed then Runs(t, p) && t.procs[p].pc.ToSleep? && t.waitLock == s.waitLock
         else t.waitLock == -1
  {
  }

  lemma SleepStep(s: Sys, p: nat)
    requires Runs(s, p) && s.procs[p].pc.ToSleep?
    ensures Enabled(s, ProcProtocol.Sleep(p))
    ensures var t := Do(s, ProcProtocol.Sleep(p));
      && t.init == s.init && Table(t) == Table(s) && t.waitLock == -1 && |t.procs| == |s.procs|
      && t.procs[p].pc.GoingToSleep?
  {
  }

  lemma SetSleepStep(s: Sys, p: nat)
    requires p < |s.procs| && s.procs[p].pc.GoingToSleep?
    ensures Enabled(s, SetSleep(p))
    ensures var t := Do(s, SetSleep(p));
      && t.init == s.init && t.waitLock == s.waitLock
      && Table(t) == Table(s)[p := Table(s)[p].(state := Sleeping, chan := p)]
  {
  }

  // ----- kill -----

  lemma KillStep(s: Sys, p: nat, k: nat)
    requires Runs(s, p) && Settled(s, p) && s.procs[p].pc.Out? && k < |s.procs|
    ensures Enabled(s, ProcProtocol.Kill(p, k, s.procs[k].pid))
    ensures var t := Do(s, ProcProtocol.Kill(p, k, s.procs[k].pid));
      var q := Table(s)[k];
      && t.init == s.init && t.waitLock == s.waitLock
      && Table(t) == Table(s)[k := q.(killed := true, state := if q.state == Sleeping then Runnable else q.state)]
  {
  }

  lemma NotOwnParent(s: Sys, p: nat)
    requires Reachable(s) && p < |s.procs|
    ensures s.procs[p].parent != p && s.init < |s.procs|
  {
    ReachableInv(s);
    assert SlotOk(EnvOf(s), p, s.procs[p]);
  }

  class ProcTable {
    const init: nat
    const table: array<Slot>
    var waitLock: int
    ghost var sys: Sys

    ghost predicate Valid()
      reads this, table
    {
      Reachable(sys) && sys.init == init && sys.waitLock == waitLock && table[..] == Table(sys)
    }

    /** userinit: init is runnable, and every other slot is free. */
    constructor (n: nat, init: nat, cpus: nat)
      requires init < n
      ensures Valid() && this.init == init && fresh(table) && table.Length == n && waitLock == -1
      ensures forall k :: 0 <= k < n ==>
        table[k] == if k == init then Slot(Runnable, -1, false, -1, 1, 0) else Slot(Unused, -1, false, -1, 0, 0)
    {
      this.init := init;
      table := new Slot[n](k =>
        if k == init then Slot(Runnable, -1, false, -1, 1, 0) else Slot(Unused, -1, false, -1, 0, 0));
      waitLock := -1;
      sys := Sys(init, seq(n, k => if k == init then Empty().(state := Runnable, pid := 1) else Empty()),
                 seq(cpus, _ => -1), -1, 2);
      new;
      assert Boot(sys) && Legal(sys, []) && ProcProtocol.Exec(sys, []) == sys;
      assert table[..] == Table(sys);
    }

    /** One step of the step system. */
    ghost method Take(a: Step)
      requires Reachable(sys) && Enabled(sys, a)
      modifies this`sys
      ensures Reachable(sys) && sys == Do(old(sys), a)
    {
      ReachStep(sys, a);
      sys := Do(sys, a);
    }

    /** wakeup in exit: everybody but the caller who sleeps on the channel is made runnable. */
    method Wakeup(p: nat, chan: int)
      requires Valid() && p < table.Length && Runs(sys, p) && Settled(sys, p)
      requires sys.procs[p].pc == WakePc(sys.procs[p].pc, 0)
      requires chan == if sys.procs[p].pc.ReparentWake? then init else table[p].parent
      modifies this`sys, table
      ensures Valid() && Runs(sys, p) && Settled(sys, p)
      ensures sys.procs[p].pc == WakePc(old(sys).procs[p].pc, table.Length)
      ensures table[..] == WakenAll(old(table[..]), p, chan, table.Length)
    {
      hide Reachable, Enabled, Do, Runs, Settled, Table;
      var k := 0;
      while k < table.Length
        invariant 0 <= k <= table.Length
        invariant Valid() && Runs(sys, p) && Settled(sys, p)
        invariant |sys.procs| == table.Length && sys.procs[p].pc == WakePc(old(sys).procs[p].pc, k)
        invariant table[..] == WakenAll(old(table[..]), p, chan, k) && table[p] == old(table[..])[p]
      {
        WakeStep(sys, p, k);
        Take(WakeSlot(p));
        if k != p {
          if table[k].state == Sleeping && table[k].chan == chan {
            table[k] := table[k].(state := Runnable);
          }
        }
        k := k + 1;
      }
    }

    method Reparent(p: nat)
      requires Valid() && p < table.Length && Runs(sys, p) && Settled(sys, p)
      requires sys.procs[p].pc == ProcProtocol.Reparent(0)
      modifies this`sys, table
      ensures Valid() && Runs(sys, p) && Settled(sys, p) && |sys.procs| == table.Length
      ensures sys.procs[p].pc == WakeParent(0)
      ensures table[..] == Handed(old(table[..]), p, init, table.Length)
    {
      hide Reachable, Enabled, Do, Runs, Settled, Table, WakenAll;
      var i := 0;
      while i < table.Length
        invariant 0 <= i <= table.Length
        invariant Valid() && Runs(sys, p) && Settled(sys, p)
        invariant |sys.procs| == table.Length && sys.procs[p].pc == ProcProtocol.Reparent(i)
        invariant table[..] == Handed(old(table[..]), p, init, i)
      {
        NotOwnParent(sys, p);
        ReparentStep(sys, p, i);
        Take(ReparentSlot(p));
        if table[i].parent == p {
          table[i] := table[i].(parent := init);
          Wakeup(p, init);
          WakeEndStep(sys, p, i);
          Take(WakeSlot(p));
        }
        i := i + 1;
      }
      NotOwnParent(sys, p);
      ReparentStep(sys, p, i);
      Take(ReparentSlot(p));
    }

    /** exit, from the acquire of wait_lock to the switch. */
    method Exit(p: nat, status: int)
      requires Valid() && p < table.Length && Runs(sys, p) && Settled(sys, p) && sys.procs[p].pc.Out?
      requires p != init && waitLock == -1
      modifies this`sys, this`waitLock, table
      ensures Valid() && waitLock == -1 && Settled(sys, p) && |sys.procs| == table.Length && sys.procs[p].pc.Exited?
      ensures table[..] == ExitTable(old(table[..]), p, init, status)
    {
      hide Reachable, Enabled, Do, Runs, Settled, Table, WakenAll, Handed;
      ExitStep(sys, p);
      Take(ProcProtocol.Exit(p));
      waitLock := p;
      Reparent(p);
      Wakeup(p, table[p].parent);
      DieStep(sys, p, status);
      Take(Die(p, status));
      table[p] := table[p].(state := Zombie, xstate := status);
      waitLock := -1;
    }

    /**
      wait: the number and the status of the first child that has exited, whose slot is freed;
      -1 for a failure, or -2 when the caller now sleeps.
     */
    method Wait(p: nat, copied: bool) returns (r: int, status: int)
      requires Valid() && p < table.Length && Runs(sys, p) && Settled(sys, p) && sys.procs[p].pc.Out? && waitLock == -1
      modifies this`sys, this`waitLock, table
      ensures Valid() && waitLock == -1
      ensures var t, c := old(table[..]), FirstZombie(old(table[..]), p, 0);
        && (c < |t| && copied ==>
              r == t[c].pid && status == t[c].xstate && table[..] == t[c := Slot(Unused, -1, false, -1, 0, 0)])
        && (c < |t| && !copied ==> r == -1 && table[..] == t)
        && (c == |t| && (t[p].killed || forall j :: 0 <= j < |t| ==> t[j].parent != p) ==> r == -1 && table[..] == t)
        && (c == |t| && !t[p].killed && (exists j :: 0 <= j < |t| && t[j].parent == p) ==>
              r == -2 && table[..] == t[p := t[p].(state := Sleeping, chan := p)])
    {
      hide Reachable, Enabled, Do, Runs, Settled, Table, HasChild, FirstZombie;
      NoChildYet(table[..], p);
      WaitStep(sys, p);
      Take(ProcProtocol.Wait(p));
      Take(WaitTake(p));
      waitLock := p;
      var havekids := false;
      var i := 0;
      while i < table.Length
        invariant 0 <= i <= table.Length && table[..] == old(table[..])
        invariant Valid() && Runs(sys, p) && Settled(sys, p) && waitLock == p
        invariant |sys.procs| == table.Length && sys.procs[p].pc == Scan(i, havekids)
        invariant havekids == HasChild(table[..], p, i)
        invariant FirstZombie(table[..], p, 0) == FirstZombie(table[..], p, i)
      {
        NotOwnParent(sys, p);
        ChildStep(table[..], p, i);
        ScanStep(sys, p, i, havekids, copied);
        Take(ScanSlot(p, copied));
        if table[i].parent == p {
          havekids := true;
          if table[i].state == Zombie {
            waitLock := -1;
            if !copied {
              return -1, 0;
            }
            r, status := table[i].pid, table[i].xstate;
            table[i] := Slot(Unused, -1, false, -1, 0, 0);
            return;
          }
        }
        i := i + 1;
      }
      ChildIs(table[..], p);
      ScanEndStep(sys, p, havekids);
      Take(ScanEnd(p));
      if !havekids || table[p].killed {
        waitLock := -1;
        return -1, 0;
      }
      SleepStep(sys, p);
      Take(ProcProtocol.Sleep(p));
      waitLock := -1;
      SetSleepStep(sys, p);
      Take(SetSleep(p));
      table[p] := table[p].(state := Sleeping, chan := p);
      return -2, 0;
    }

    /** kill: the first process with the number is marked, and made runnable if it sleeps; -1 if there is none. */
    method Kill(p: nat, pid: nat) returns (r: int)
      requires Valid() && p < table.Length && Runs(sys, p) && Settled(sys, p) && sys.procs[p].pc.Out?
      modifies this`sys, table
      ensures Valid()
      ensures r == -1 ==> table[..] == old(table[..]) && forall k :: 0 <= k < table.Length ==> table[k].pid != pid
      ensures r != -1 ==> r == 0 && exists k ::
        && 0 <= k < table.Length && old(table[..])[k].pid == pid
        && (forall j :: 0 <= j < k ==> old(table[..])[j].pid != pid)
        && var q := old(table[..])[k];
           table[..] ==
           old(table[..])[k := q.(killed := true, state := if q.state == Sleeping then Runnable else q.state)]
    {
      hide Reachable, Enabled, Do, Runs, Settled, Table;
      var k := 0;
      while k < table.Length
        invariant 0 <= k <= table.Length && Valid() && table[..] == old(table[..]) && sys == old(sys)
        invariant forall j :: 0 <= j < k ==> table[j].pid != pid
      {
        if table[k].pid == pid {
          KillStep(sys, p, k);
          Take(ProcProtocol.Kill(p, k, pid));
          table[k] := table[k].(killed := true);
          if table[k].state == Sleeping {
            table[k] := table[k].(state := Runnable);
          }
          assert table[..] == old(table[..])[k := table[k]];
          return 0;
        }
        k := k + 1;
      }
      r := -1;
    }
  }
}
