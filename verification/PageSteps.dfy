/**
  Physical pages when calls overlap (kernel/kalloc.c and its callers in kernel/proc.c, kernel/exec.c
  and kernel/vm.c). A section under kmem.lock is one step, and so is any store to a page; fork,
  exec, growproc and wait take many, and steps of other processes come in between. Pages that
  a call has taken and not handed over yet, or is about to give back, are its own.

  How many pages a call needs, and when it gives up for another reason than a lack of memory, is
  left open. A slot that wait empties may be taken again before its last page is free.
 */
module PageSteps {
  import opened PageTable
  import opened Seqs
  import opened Vm

  datatype Call =
    | User                            // no call that takes or gives pages
    | Zombie
    | Embryo                          // a slot that fork has taken for a child
    | Forking(child: nat, left: nat)  // `left` pages are still to be allocated
    | Execing(left: nat)
    | Growing(left: nat)
    | UndoFork(child: nat)            // the call has failed and gives back what it took
    | Undo
    | Releasing                       // the call gives back pages that are not needed any more

  /** `image` are the pages of the process, `flight` those of its call, `start` the image when the call began. */
  datatype Proc = Proc(image: set<nat>, trap: nat, flight: set<nat>, call: Call, start: set<nat>)

  /** `free` is the list that starts at `freelist`. */
  datatype Sys = Sys(mem: Memory, freelist: nat, free: seq<nat>, ram: set<nat>, kernel: set<nat>, procs: map<nat, Proc>)

  datatype Step =
    | Fork(p: nat, child: nat, n: nat)
    | Exec(p: nat, n: nat)
    | Grow(p: nat, n: nat)
    | Shrink(p: nat, pages: set<nat>)
    | Exit(p: nat)
    | Wait(p: nat, child: nat)
    | Kalloc(p: nat)
    | GiveUp(p: nat)
    | Write(p: nat, x: nat, data: seq<nat>)
    | Kfree(p: nat, x: nat)
    | Commit(p: nat, x: nat)
    | Return(p: nat)

  predicate Allocating(c: Call) { c.Forking? || c.Execing? || c.Growing? }

  predicate Undoing(c: Call) { c.UndoFork? || c.Undo? }

  /** What becomes of a call that cannot go on. */
  function Fail(c: Call): Call { if c.Forking? then UndoFork(c.child) else Undo }

  function Less(c: Call): Call
    requires Allocating(c) && c.left > 0
  {
    c.(left := c.left - 1)
  }

  predicate Enabled(s: Sys, a: Step) {
    && a.p in s.procs
    && var q := s.procs[a.p];
       match a
       case Fork(p, c, n) => q.call.User? && c !in s.procs && n > 0
       case Exec(_, _) => q.call.User?
       case Grow(_, _) => q.call.User?
       case Shrink(_, pages) => q.call.User? && pages <= q.image - {q.trap}
       case Exit(_) => q.call.User?
       case Wait(p, c) => q.call.User? && c != p && c in s.procs && s.procs[c].call.Zombie?
       case Kalloc(_) => Allocating(q.call) && q.call.left > 0
       case GiveUp(_) => Allocating(q.call)
       case Write(_, x, data) => x in q.image + q.flight && |data| == 512
       case Kfree(_, x) => (Undoing(q.call) || q.call.Releasing?) && x in q.flight
       case Commit(_, x) => Allocating(q.call) && q.call.left == 0 && (q.call.Forking? ==> x in q.flight)
       case Return(_) => (Undoing(q.call) || q.call.Releasing?) && q.flight == {}
  }

  function Set1(s: Sys, p: nat, q: Proc): Sys { s.(procs := s.procs[p := q]) }

  function Next(mem: Memory, x: nat): nat { if x in mem && |mem[x]| > 0 then mem[x][0] else 0 }

  function Pushed(mem: Memory, x: nat, head: nat): Memory {
    if x in mem && |mem[x]| > 0 then Store(mem, x, 0, head) else mem
  }

  /** kalloc under kmem.lock; without a free page the call fails. */
  function DoKalloc(s: Sys, p: nat): Sys
    requires Enabled(s, Kalloc(p))
  {
    var q, x := s.procs[p], s.freelist;
    if x == 0 then Set1(s, p, q.(call := Fail(q.call)))
    else Set1(s.(freelist := Next(s.mem, x), free := if s.free == [] then [] else s.free[1..]), p,
              q.(flight := q.flight + {x}, call := Less(q.call)))
  }

  /**
    The call has what it needs: the child is there, the new image takes the place of the old, or
    the image has grown.
   */
  function DoCommit(s: Sys, p: nat, x: nat): Sys
    requires Enabled(s, Commit(p, x))
  {
    var q := s.procs[p];
    match q.call
    case Forking(c, _) => Set1(Set1(s, c, Proc(q.flight, x, {}, User, {})), p, q.(flight := {}, call := User))
    case Execing(_) => Set1(s, p, q.(image := q.flight + {q.trap}, flight := q.image - {q.trap}, call := Releasing))
    case _ => Set1(s, p, q.(image := q.image + q.flight, flight := {}, call := User))
  }

  function Do(s: Sys, a: Step): Sys
    requires Enabled(s, a)
  {
    var q := s.procs[a.p];
    match a
    case Fork(p, c, n) => Set1(Set1(s, p, q.(call := Forking(c, n), start := q.image)), c, Proc({}, 0, {}, Embryo, {}))
    case Exec(p, n) => Set1(s, p, q.(call := Execing(n), start := q.image))
    case Grow(p, n) => Set1(s, p, q.(call := Growing(n), start := q.image))
    case Shrink(p, pages) => Set1(s, p, q.(image := q.image - pages, flight := pages, call := Releasing))
    case Exit(p) => Set1(s, p, q.(call := Zombie))
    case Wait(p, c) =>
      var t := Set1(s, p, q.(flight := s.procs[c].image, call := Releasing));
      t.(procs := t.procs - {c})
    case Kalloc(p) => DoKalloc(s, p)
    case GiveUp(p) => Set1(s, p, q.(call := Fail(q.call)))
    case Write(_, x, data) => s.(mem := s.mem[x := data])
    case Kfree(p, x) =>
      Set1(s.(mem := Pushed(s.mem, x, s.freelist), freelist := x, free := [x] + s.free), p,
        q.(flight := q.flight - {x}))
    case Commit(p, x) => DoCommit(s, p, x)
    case Return(p) =>
      var t := Set1(s, p, q.(call := User));
      if q.call.UndoFork? then t.(procs := t.procs - {q.call.child}) else t
  }

  predicate Legal(s: Sys, run: seq<Step>)
    decreases |run|
  {
    run == [] || (Enabled(s, run[0]) && Legal(Do(s, run[0]), run[1..]))
  }

  function After(s: Sys, run: seq<Step>): Sys
    requires Legal(s, run)
    decreases |run|
  {
    if run == [] then s else After(Do(s, run[0]), run[1..])
  }

  // ----- the invariant -----

  /** The pages of a process and of its call. */
  ghost function Own(s: Sys, k: nat): set<nat> {
    if k in s.procs then s.procs[k].image + s.procs[k].flight else {}
  }

  ghost predicate Taken(s: Sys, x: nat) { exists k :: k in s.procs && x in Own(s, k) }

  /** Every page is free, the kernel's, or one process's. */
  ghost predicate Parts(s: Sys) {
    && Set(s.free) <= s.ram && s.kernel <= s.ram - Set(s.free)
    && (forall k :: k in s.procs ==> Own(s, k) <= s.ram && Own(s, k) !! Set(s.free) + s.kernel)
    && (forall j, k :: j in s.procs && k in s.procs && j != k ==> Own(s, j) !! Own(s, k))
    && (forall x :: x in s.ram ==> x in Set(s.free) || x in s.kernel || Taken(s, x))
  }

  ghost predicate Memories(s: Sys) {
    && Linked(s.mem, s.freelist, s.free) && 0 !in s.ram
    && forall x :: x in s.ram ==> x in s.mem && |s.mem[x]| == 512
  }

  predicate HasChild(q: Proc) { q.call.Forking? || q.call.UndoFork? }

  /** What a process's call says about its pages. */
  ghost predicate CallOk(q: Proc) {
    && q.image !! q.flight
    && (q.call.User? || q.call.Zombie? || q.call.Embryo? ==> q.flight == {})
    && (if q.call.Embryo? then q.image == {} else q.trap in q.image)
    && (Allocating(q.call) || Undoing(q.call) ==> q.image == q.start)
  }

  predicate SameChild(q: Proc, r: Proc) { HasChild(q) && HasChild(r) && q.call.child == r.call.child }

  /** Each child under construction has one parent. */
  ghost predicate Children(procs: map<nat, Proc>) {
    && (forall k :: k in procs && HasChild(procs[k]) ==>
          procs[k].call.child in procs && procs[procs[k].call.child].call.Embryo?)
    && (forall j, k :: j in procs && k in procs && SameChild(procs[j], procs[k]) ==> j == k)
  }

  ghost predicate Inv(s: Sys) {
    && Parts(s) && Memories(s) && Children(s.procs)
    && forall k :: k in s.procs ==> CallOk(s.procs[k])
  }

  // ----- every step keeps it -----

  /** All processes but `p` and `c` are as before. */
  ghost predicate Beside(s: Sys, t: Sys, p: nat, c: nat) {
    && t.ram == s.ram && t.kernel == s.kernel
    && (forall k :: k != p && k != c ==> (k in t.procs <==> k in s.procs))
    && (forall k :: k in s.procs && k != p && k != c ==> t.procs[k] == s.procs[k])
  }

  lemma OwnBeside(s: Sys, t: Sys, p: nat, c: nat, k: nat)
    requires Beside(s, t, p, c) && k != p && k != c
    ensures (k in t.procs <==> k in s.procs) && Own(t, k) == Own(s, k)
  {
  }

  lemma OwnNone(s: Sys, k: nat)
    ensures k !in s.procs ==> Own(s, k) == {}
  {
  }

  lemma PartsAt(s: Sys, k: nat)
    requires Parts(s)
    ensures Own(s, k) <= s.ram && Own(s, k) !! Set(s.free) + s.kernel
  {
  }

  /** Pages go back and forth between the free list and two processes; nothing else changes. */
  lemma Exchange(s: Sys, t: Sys, p: nat, c: nat)
    requires Parts(s) && Beside(s, t, p, c)
    requires Set(t.free) + Own(t, p) + Own(t, c) == Set(s.free) + Own(s, p) + Own(s, c)
    requires Set(t.free) !! Own(t, p) + Own(t, c) && (p != c ==> Own(t, p) !! Own(t, c))
    ensures Parts(t)
  {
    hide Set, Own, Beside;
    var had := Set(s.free) + Own(s, p) + Own(s, c);
    PartsAt(s, p);
    PartsAt(s, c);
    OwnNone(t, p);
    OwnNone(t, c);
    OwnNone(s, p);
    OwnNone(s, c);
    assert t.ram == s.ram && t.kernel == s.kernel by { SameRam(s, t, p, c); }
    forall k | k != p && k != c
      ensures (k in t.procs <==> k in s.procs) && Own(t, k) == Own(s, k)
      ensures k in s.procs ==> Own(s, k) !! had
    {
      OwnBeside(s, t, p, c, k);
      PartsAt(s, k);
    }
    forall x | x in s.ram
      ensures x in Set(t.free) || x in t.kernel || Taken(t, x)
    {
      if x !in had && Taken(s, x) {
        var k :| k in s.procs && x in Own(s, k);
        assert k in t.procs && x in Own(t, k);
      }
    }
  }

  lemma SameRam(s: Sys, t: Sys, p: nat, c: nat)
    requires Beside(s, t, p, c)
    ensures t.ram == s.ram && t.kernel == s.kernel
  {
  }

  lemma InvAt(s: Sys, p: nat)
    requires Inv(s) && p in s.procs
    ensures CallOk(s.procs[p])
    ensures HasChild(s.procs[p]) ==>
      var c := s.procs[p].call.child; c in s.procs && s.procs[c].call.Embryo? && CallOk(s.procs[c])
  {
  }

  lemma FreeCons(x: nat, free: seq<nat>)
    ensures Set([x] + free) == Set(free) + {x}
  {
  }

  lemma FreePop(s: Sys)
    requires Memories(s) && Set(s.free) <= s.ram
    ensures s.freelist == 0 <==> s.free == []
    ensures s.free != [] ==> s.freelist == s.free[0] && Set(s.free) == Set(s.free[1..]) + {s.freelist}
                             && s.freelist !in Set(s.free[1..])
  {
    if s.free != [] {
      assert s.free[0] in Set(s.free);
      assert s.free == [s.free[0]] + s.free[1..];
      FreeCons(s.free[0], s.free[1..]);
    }
  }

  lemma ForkParts(s: Sys, p: nat, c: nat, n: nat)
    requires Inv(s) && Enabled(s, Fork(p, c, n))
    ensures Parts(Do(s, Fork(p, c, n)))
  {
    hide Parts, Memories, Children, Set;
    PartsAt(s, p);
    Exchange(s, Do(s, Fork(p, c, n)), p, c);
  }

  lemma WaitParts(s: Sys, p: nat, c: nat)
    requires Inv(s) && Enabled(s, Wait(p, c))
    ensures Parts(Do(s, Wait(p, c)))
  {
    hide Parts, Memories, Children, Set;
    InvAt(s, p);
    InvAt(s, c);
    PartsAt(s, p);
    PartsAt(s, c);
    Exchange(s, Do(s, Wait(p, c)), p, c);
  }

  lemma KallocParts(s: Sys, p: nat)
    requires Inv(s) && Enabled(s, Kalloc(p))
    ensures Parts(Do(s, Kalloc(p)))
  {
    hide Memories, Children, Set, Taken;
    FreePop(s);
    PartsAt(s, p);
    hide Parts;
    Exchange(s, Do(s, Kalloc(p)), p, p);
  }

  lemma KfreeParts(s: Sys, p: nat, x: nat)
    requires Inv(s) && Enabled(s, Kfree(p, x))
    ensures Parts(Do(s, Kfree(p, x)))
  {
    hide Parts, Memories, Children, Set, Pushed;
    InvAt(s, p);
    PartsAt(s, p);
    FreeCons(x, s.free);
    Exchange(s, Do(s, Kfree(p, x)), p, p);
  }

  lemma CommitParts(s: Sys, p: nat, x: nat)
    requires Inv(s) && Enabled(s, Commit(p, x))
    ensures Parts(Do(s, Commit(p, x)))
  {
    hide Parts, Memories, Children, Set;
    InvAt(s, p);
    PartsAt(s, p);
    Exchange(s, Do(s, Commit(p, x)), p, if s.procs[p].call.Forking? then s.procs[p].call.child else p);
  }

  lemma ReturnParts(s: Sys, p: nat)
    requires Inv(s) && Enabled(s, Return(p))
    ensures Parts(Do(s, Return(p)))
  {
    hide Parts, Memories, Children, Set;
    InvAt(s, p);
    PartsAt(s, p);
    Exchange(s, Do(s, Return(p)), p, if s.procs[p].call.UndoFork? then s.procs[p].call.child else p);
  }

  lemma StepParts(s: Sys, a: Step)
    requires Inv(s) && Enabled(s, a)
    ensures Parts(Do(s, a))
  {
    hide Parts, Memories, Children, Set;
    InvAt(s, a.p);
    PartsAt(s, a.p);
    match a
    case Fork(p, c, n) => ForkParts(s, p, c, n);
    case Wait(p, c) => WaitParts(s, p, c);
    case Kalloc(p) => KallocParts(s, p);
    case Kfree(p, x) => KfreeParts(s, p, x);
    case Commit(p, x) => CommitParts(s, p, x);
    case Return(p) => ReturnParts(s, p);
    case _ => Exchange(s, Do(s, a), a.p, a.p);
  }

  /** Only pages of the process that makes the step are written. */
  lemma StepWrites(s: Sys, a: Step)
    requires Inv(s) && Enabled(s, a)
    ensures SameBut(s.mem, Do(s, a).mem, Own(s, a.p))
  {
    hide Linked, Children, Parts;
    PartsAt(s, a.p);
  }

  lemma StepMemories(s: Sys, a: Step)
    requires Inv(s) && Enabled(s, a)
    ensures Memories(Do(s, a))
  {
    hide Children, Taken, Linked;
    var t := Do(s, a);
    PartsAt(s, a.p);
    match a
    case Kalloc(p) =>
      FreePop(s);
      if s.free != [] { PopLinked(s.mem, s.freelist, s.free, s.mem); }
    case Write(p, x, data) =>
      assert x !in s.free by { assert x !in Set(s.free); }
      LinkedFrame(s.mem, s.freelist, s.free, t.mem);
    case Kfree(p, x) =>
      assert x !in s.free by { assert x !in Set(s.free); }
      PushLinked(s.mem, s.freelist, s.free, t.mem, x);
    case _ =>
  }

  /** The process besides `a.p` that a step changes, makes or removes. */
  ghost function Other(s: Sys, a: Step): nat
    requires a.p in s.procs
  {
    match a
    case Fork(_, c, _) => c
    case Wait(_, c) => c
    case Commit(p, _) => if s.procs[p].call.Forking? then s.procs[p].call.child else p
    case Return(p) => if s.procs[p].call.UndoFork? then s.procs[p].call.child else p
    case _ => a.p
  }

  lemma StepBeside(s: Sys, a: Step)
    requires Enabled(s, a)
    ensures Beside(s, Do(s, a), a.p, Other(s, a))
  {
  }

  /** The process that makes the step. */
  lemma ActorCall(s: Sys, a: Step)
    requires Inv(s) && Enabled(s, a)
    ensures a.p in Do(s, a).procs && CallOk(Do(s, a).procs[a.p])
  {
    hide Memories, Children, Parts, Set;
    InvAt(s, a.p);
    PartsAt(s, a.p);
    match a
    case Kalloc(p) => HeadFree(s, p);
    case Wait(p, c) =>
      InvAt(s, c);
      OwnApart(s, p, c);
    case _ =>
  }

  lemma HeadFree(s: Sys, p: nat)
    requires Inv(s) && p in s.procs
    ensures s.freelist != 0 ==> s.freelist !in s.procs[p].image
  {
    hide Set;
    FreePop(s);
    PartsAt(s, p);
  }

  lemma OwnApart(s: Sys, j: nat, k: nat)
    requires Parts(s) && j in s.procs && k in s.procs && j != k
    ensures Own(s, j) !! Own(s, k)
  {
  }

  lemma OtherCall(s: Sys, a: Step)
    requires Inv(s) && Enabled(s, a) && Other(s, a) != a.p
    ensures var c := Other(s, a); c in Do(s, a).procs ==> CallOk(Do(s, a).procs[c])
  {
    hide Memories, Children, Parts, Set;
    InvAt(s, a.p);
  }

  lemma StepCalls(s: Sys, a: Step, k: nat)
    requires Inv(s) && Enabled(s, a) && k in Do(s, a).procs
    ensures CallOk(Do(s, a).procs[k])
  {
    hide Memories, Children, Parts, Do, CallOk, Other;
    StepBeside(s, a);
    if k == a.p {
      ActorCall(s, a);
    } else if k == Other(s, a) {
      OtherCall(s, a);
    } else {
      InvAt(s, k);
    }
  }

  /** What Children reads of a process. */
  predicate SameKin(q: Proc, r: Proc) {
    && HasChild(q) == HasChild(r) && q.call.Embryo? == r.call.Embryo?
    && (HasChild(q) ==> q.call.child == r.call.child)
  }

  lemma KinKept(m: map<nat, Proc>, p: nat, q: Proc)
    requires Children(m) && p in m && SameKin(m[p], q)
    ensures Children(m[p := q])
  {
  }

  lemma KinForked(m: map<nat, Proc>, p: nat, q: Proc, c: nat, e: Proc)
    requires Children(m) && p in m && c !in m && !HasChild(m[p]) && !m[p].call.Embryo?
    requires HasChild(q) && q.call.child == c && e.call.Embryo?
    ensures Children(m[p := q][c := e])
  {
  }

  /** The parent is done with its child, which is a process now or gone. */
  lemma KinDone(m: map<nat, Proc>, p: nat, q: Proc, e: Proc)
    requires Children(m) && p in m && HasChild(m[p]) && !HasChild(q) && !HasChild(e)
    ensures var c := m[p].call.child;
      Children(m[c := e][p := q]) && Children(m[p := q] - {c})
  {
  }

  lemma KinReaped(m: map<nat, Proc>, p: nat, q: Proc, c: nat)
    requires Children(m) && p in m && SameKin(m[p], q) && c in m && c != p && m[c].call.Zombie?
    ensures Children(m[p := q] - {c})
  {
    KinKept(m, p, q);
  }

  lemma StepChildren(s: Sys, a: Step)
    requires Inv(s) && Enabled(s, a)
    ensures Children(Do(s, a).procs)
  {
    hide Memories, Parts, CallOk, Children;
    var m, q := s.procs, s.procs[a.p];
    match a
    case Fork(p, c, n) => KinForked(m, p, q.(call := Forking(c, n), start := q.image), c, Proc({}, 0, {}, Embryo, {}));
    case Wait(p, c) => KinReaped(m, p, q.(flight := m[c].image, call := Releasing), c);
    case Commit(p, x) =>
      if q.call.Forking? {
        KinDone(m, p, q.(flight := {}, call := User), Proc(q.flight, x, {}, User, {}));
      } else {
        KinKept(m, p, Do(s, a).procs[p]);
      }
    case Return(p) =>
      if q.call.UndoFork? {
        KinDone(m, p, q.(call := User), q.(call := User));
      } else {
        KinKept(m, p, q.(call := User));
      }
    case Write(_, _, _) =>
    case _ => KinKept(m, a.p, Do(s, a).procs[a.p]);
  }

  lemma StepKeeps(s: Sys, a: Step)
    requires Inv(s) && Enabled(s, a)
    ensures Inv(Do(s, a))
  {
    hide Memories, Parts, CallOk, Children, Do;
    StepParts(s, a);
    StepMemories(s, a);
    StepChildren(s, a);
    forall k | k in Do(s, a).procs ensures CallOk(Do(s, a).procs[k]) { StepCalls(s, a, k); }
  }

  // ----- whole runs -----

  /** After userinit: the first process has some pages, the kernel others, and the rest are on the free list. */
  ghost predicate Boot(s: Sys) {
    && Memories(s) && s.procs.Keys == {1} && Set(s.free) <= s.ram
    && var q := s.procs[1];
       && q.call.User? && q.flight == {} && q.trap in q.image
       && s.ram == Set(s.free) + s.kernel + q.image
       && Set(s.free) !! s.kernel && q.image !! Set(s.free) + s.kernel
  }

  lemma BootInv(s: Sys)
    requires Boot(s)
    ensures Inv(s)
  {
    hide Memories, Set;
    forall x | x in s.ram
      ensures x in Set(s.free) || x in s.kernel || Taken(s, x)
    {
      if x in s.procs[1].image { assert 1 in s.procs && x in Own(s, 1); }
    }
  }

  lemma {:induction false} RunKeeps(s: Sys, run: seq<Step>)
    requires Inv(s) && Legal(s, run)
    ensures Inv(After(s, run))
    decreases |run|
  {
    hide Inv, Enabled, Do;
    if run != [] {
      StepKeeps(s, run[0]);
      RunKeeps(Do(s, run[0]), run[1..]);
    }
  }

  /**
    However the calls of all processes overlap, every page is on the free list, the kernel's, or
    one process's, and the list in memory is the free pages: kalloc fails only without any.
   */
  lemma PagesAccounted(s: Sys, run: seq<Step>)
    requires Boot(s) && Legal(s, run)
    ensures var t := After(s, run); Parts(t) && Linked(t.mem, t.freelist, t.free) && (t.freelist == 0 <==> t.free == [])
  {
    hide Parts, Memories, Boot, Legal, After, Children;
    BootInv(s);
    RunKeeps(s, run);
    FreeList(After(s, run));
  }

  lemma FreeList(s: Sys)
    requires Parts(s) && Memories(s)
    ensures Linked(s.mem, s.freelist, s.free) && (s.freelist == 0 <==> s.free == [])
  {
    hide Taken;
    FreePop(s);
  }

  /** Once all calls are over, no page is lost. */
  lemma NoneLost(s: Sys, x: nat)
    requires Inv(s) && x in s.ram && forall k :: k in s.procs ==> s.procs[k].call.User? || s.procs[k].call.Zombie?
    ensures x in Set(s.free) || x in s.kernel || exists k :: k in s.procs && x in s.procs[k].image
  {
    hide Memories, Children, Set;
    if Taken(s, x) {
      var k :| k in s.procs && x in Own(s, k);
      InvAt(s, k);
    }
  }

  predicate Spares(a: Step, q: nat) { a.p != q && !(a.Wait? && a.child == q) }

  lemma StepFrame(s: Sys, a: Step, q: nat)
    requires Inv(s) && Enabled(s, a) && q in s.procs && !s.procs[q].call.Embryo? && Spares(a, q)
    ensures var t := Do(s, a);
      && q in t.procs && t.procs[q] == s.procs[q]
      && forall x :: x in Own(s, q) && x in s.mem ==> x in t.mem && t.mem[x] == s.mem[x]
  {
    hide Do, Memories, Parts, Children, CallOk, Own;
    InvAt(s, a.p);
    StepBeside(s, a);
    StepWrites(s, a);
    OwnApart(s, a.p, q);
  }

  /** Whatever others do in between, the pages of a process and of its call keep their contents. */
  lemma {:induction false} OthersUntouched(s: Sys, run: seq<Step>, q: nat)
    requires Inv(s) && Legal(s, run) && q in s.procs && !s.procs[q].call.Embryo?
    requires forall i :: 0 <= i < |run| ==> Spares(run[i], q)
    ensures var t := After(s, run);
      && q in t.procs && t.procs[q] == s.procs[q]
      && forall x :: x in Own(s, q) && x in s.mem ==> x in t.mem && t.mem[x] == s.mem[x]
    decreases |run|
  {
    hide Inv, Enabled, Do, Spares;
    if run != [] {
      var t := Do(s, run[0]);
      StepFrame(s, run[0], q);
      StepKeeps(s, run[0]);
      OthersUntouched(t, run[1..], q);
      assert Own(t, q) == Own(s, q);
    }
  }

  /** `a` begins a call that needs new pages. */
  predicate Begins(a: Step) { a.Fork? || a.Exec? || a.Grow? }

  predicate Ends(a: Step, p: nat) { a.p == p && (a.Commit? || a.Return?) }

  predicate InCall(c: Call) { Allocating(c) || Undoing(c) }

  lemma StepInCall(s: Sys, a: Step, p: nat)
    requires Inv(s) && Enabled(s, a) && p in s.procs && InCall(s.procs[p].call) && !Ends(a, p)
    ensures var t := Do(s, a); p in t.procs && InCall(t.procs[p].call) && t.procs[p].image == s.procs[p].image
  {
    hide Memories, Parts, Children, CallOk;
    InvAt(s, a.p);
  }

  lemma {:induction false} CallKept(s: Sys, run: seq<Step>, p: nat)
    requires Inv(s) && Legal(s, run) && p in s.procs && InCall(s.procs[p].call)
    requires forall i :: 0 <= i < |run| ==> !Ends(run[i], p)
    ensures var t := After(s, run); p in t.procs && InCall(t.procs[p].call) && t.procs[p].image == s.procs[p].image
    decreases |run|
  {
    hide Inv, Enabled, Do, InCall, Ends;
    if run != [] {
      StepInCall(s, run[0], p);
      StepKeeps(s, run[0]);
      CallKept(Do(s, run[0]), run[1..], p);
    }
  }

  lemma {:induction false} RunSplit(s: Sys, run: seq<Step>, a: Step)
    requires Legal(s, run + [a])
    ensures Legal(s, run) && Enabled(After(s, run), a) && After(s, run + [a]) == Do(After(s, run), a)
    decreases |run|
  {
    hide Enabled, Do;
    if run == [] {
      assert run + [a] == [a];
    } else {
      assert (run + [a])[1..] == run[1..] + [a];
      RunSplit(Do(s, run[0]), run[1..], a);
    }
  }

  /**
    A fork, exec or growproc that fails leaves its process with the pages it had, and has kept
    none of those it took, whatever the others did meanwhile.
   */
  lemma FailureLosesNothing(s: Sys, a: Step, run: seq<Step>)
    requires Inv(s) && Begins(a) && Enabled(s, a) && Legal(Do(s, a), run + [Return(a.p)])
    requires forall i :: 0 <= i < |run| ==> !Ends(run[i], a.p)
    ensures var t := After(Do(s, a), run + [Return(a.p)]);
      && a.p in t.procs && t.procs[a.p].call.User?
      && t.procs[a.p].image == s.procs[a.p].image && t.procs[a.p].flight == {}
  {
    hide Inv, Ends;
    StepKeeps(s, a);
    RunSplit(Do(s, a), run, Return(a.p));
    CallKept(Do(s, a), run, a.p);
    RunKeeps(Do(s, a), run);
    ReturnKeeps(After(Do(s, a), run), a.p);
  }

  lemma ReturnKeeps(s: Sys, p: nat)
    requires Inv(s) && Enabled(s, Return(p))
    ensures var t := Do(s, Return(p));
      p in t.procs && t.procs[p].call.User? && t.procs[p].image == s.procs[p].image && t.procs[p].flight == {}
  {
    hide Memories, Parts, Children, CallOk;
    InvAt(s, p);
  }
}
