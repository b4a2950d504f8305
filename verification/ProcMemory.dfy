/**
  The memory of all processes together: every page that the allocator was given is on the
  free list, the kernel's, or in the page table, the user memory or the trapframe of exactly
  one process. allocproc, fork, exec, growproc and freeproc keep this, and what belongs to any
  other process keeps its contents.
 */
module ProcMemory {
  import opened ExecFile
  import opened ExecImage
  import opened ExecStack
  import opened PageTable
  import opened ProcImage
  import opened TableCount
  import opened Vm

  /** struct proc, as far as memory goes. */
  datatype Proc = Proc(root: nat, sz: nat, trap: nat)

  /** A process's page table with the tree it is, its size and its trapframe page. */
  datatype Live = Live(t: Tree, sz: nat, trap: nat)

  /** The physical memory: its contents, the allocator's pages and the trampoline. */
  datatype Phys = Phys(mem: Memory, ram: set<nat>, free: set<nat>, tramp: nat)

  /** What Vm.Space says, and the trapframe page is one more. */
  ghost predicate ImageOk(m: Phys, p: Live) {
    && TreeOk(m.mem, p.t) && Pages(p.t) <= m.ram - m.free
    && UserOk(Flat(m.mem, p.t), Up(p.sz), m.ram - m.free - Pages(p.t)) && Up(p.sz) <= MAXVPN - 2
    && ProcMap(Flat(m.mem, p.t), Up(p.sz), p.trap, m.tramp)
    && p.trap in m.ram - m.free && p.trap !in Pages(p.t) + FrameSet(Flat(m.mem, p.t), 0, Up(p.sz))
  }

  /** The pages of a process. */
  ghost function Image(mem: Memory, p: Live): set<nat> {
    if TreeOk(mem, p.t) then Pages(p.t) + FrameSet(Flat(mem, p.t), 0, Up(p.sz)) + {p.trap} else {}
  }

  /** Page `x` belongs to some process. */
  ghost predicate Taken(mem: Memory, procs: map<nat, Live>, x: nat) {
    exists k :: k in procs && x in Image(mem, procs[k])
  }

  ghost predicate Partition(m: Phys, kernel: set<nat>, procs: map<nat, Live>) {
    && m.free <= m.ram && kernel <= m.ram - m.free
    && (forall k :: k in procs ==> ImageOk(m, procs[k]) && Image(m.mem, procs[k]) !! kernel)
    && (forall j, k :: j in procs && k in procs && j != k ==> Image(m.mem, procs[j]) !! Image(m.mem, procs[k]))
    && (forall x :: x in m.ram ==> x in m.free || x in kernel || Taken(m.mem, procs, x))
  }

  /** A process whose pages are as they were. */
  ghost predicate Kept(m: Phys, m': Phys, p: Live)
    requires ImageOk(m, p)
  {
    && TreeOk(m'.mem, p.t) && Flat(m'.mem, p.t) == Flat(m.mem, p.t)
    && forall x :: x in Image(m.mem, p) ==> x in m.mem && x in m'.mem && m'.mem[x] == m.mem[x]
  }

  lemma ImageIn(m: Phys, p: Live)
    requires ImageOk(m, p)
    ensures Image(m.mem, p) <= m.ram && Image(m.mem, p) !! m.free
  {
    hide TreeOk, Flat, Pages, FrameSet, ProcMap, Injects;
  }

  /** Memory changed, but not in the image, which is not free either. */
  lemma ImageKept(m: Phys, m': Phys, p: Live, s: set<nat>)
    requires ImageOk(m, p) && m'.ram == m.ram && m'.tramp == m.tramp && SameBut(m.mem, m'.mem, s)
    requires Image(m.mem, p) !! s + m'.free && m.ram <= m.mem.Keys
    ensures ImageOk(m', p) && Image(m'.mem, p) == Image(m.mem, p) && Kept(m, m', p)
  {
    hide Flat, Pages, FrameSet, ProcMap, Injects, TreeOk;
    TreeFrame(m.mem, m'.mem, p.t, s);
    ImageIn(m, p);
  }

  /** Every process but `pid` is there as before. */
  ghost predicate OthersKept(m: Phys, procs: map<nat, Live>, m': Phys, procs': map<nat, Live>, pid: nat)
  {
    forall k :: k in procs && k != pid ==>
      k in procs' && procs'[k] == procs[k] && ImageOk(m, procs[k]) && Kept(m, m', procs[k])
  }

  /**
    One process changes, comes or goes: what it has now and the free list are together what
    it had and the free list were, and nothing else was written.
   */
  lemma Exchange(m: Phys, m': Phys, kernel: set<nat>, procs: map<nat, Live>, procs': map<nat, Live>, pid: nat)
    requires Partition(m, kernel, procs) && m'.ram == m.ram && m'.tramp == m.tramp && m.ram <= m.mem.Keys
    requires procs' - {pid} == procs - {pid}
    requires pid in procs' ==> ImageOk(m', procs'[pid])
    requires var had := if pid in procs then Image(m.mem, procs[pid]) else {};
      var has := if pid in procs' then Image(m'.mem, procs'[pid]) else {};
      m'.free + has == m.free + had && SameBut(m.mem, m'.mem, m.free + had)
    ensures Partition(m', kernel, procs') && OthersKept(m, procs, m', procs', pid)
  {
    hide ImageOk, Image, SameBut, Kept;
    var had := if pid in procs then Image(m.mem, procs[pid]) else {};
    var has := if pid in procs' then Image(m'.mem, procs'[pid]) else {};
    if pid in procs { ImageIn(m, procs[pid]); }
    if pid in procs' { ImageIn(m', procs'[pid]); }
    forall k | k in procs && k != pid
      ensures k in procs' && procs'[k] == procs[k] && ImageOk(m', procs[k]) && Kept(m, m', procs[k])
      ensures Image(m'.mem, procs[k]) == Image(m.mem, procs[k]) && Image(m.mem, procs[k]) !! m.free + had
    {
      assert k in procs - {pid} && k in procs' - {pid};
      ImageIn(m, procs[k]);
      ImageKept(m, m', procs[k], m.free + had);
    }
    assert m'.free <= m.ram && kernel !! m'.free + has;
    forall k | k in procs'
      ensures ImageOk(m', procs'[k]) && Image(m'.mem, procs'[k]) !! kernel
    {
      assert k != pid ==> k in procs' - {pid} && k in procs;
    }
    forall j, k | j in procs' && k in procs' && j != k
      ensures Image(m'.mem, procs'[j]) !! Image(m'.mem, procs'[k])
    {
      assert j != pid ==> j in procs' - {pid} && j in procs;
      assert k != pid ==> k in procs' - {pid} && k in procs;
    }
    forall x | x in m.ram
      ensures x in m'.free || x in kernel || Taken(m'.mem, procs', x)
    {
      if x in has {
        assert pid in procs' && x in Image(m'.mem, procs'[pid]);
      } else if Taken(m.mem, procs, x) && x !in had {
        var k :| k in procs && x in Image(m.mem, procs[k]);
        assert k in procs' && x in Image(m'.mem, procs'[k]);
      }
    }
  }

  /** A new process on pages that were free. */
  lemma Comes(m: Phys, m': Phys, kernel: set<nat>, procs: map<nat, Live>, pid: nat, p: Live)
    requires Partition(m, kernel, procs) && m'.ram == m.ram && m'.tramp == m.tramp && m.ram <= m.mem.Keys
    requires pid !in procs && ImageOk(m', p) && m.free == m'.free + Image(m'.mem, p) && SameBut(m.mem, m'.mem, m.free)
    ensures Partition(m', kernel, procs[pid := p]) && OthersKept(m, procs, m', procs[pid := p], pid)
  {
    hide Partition, ImageOk, Image, OthersKept, SameBut;
    assert m.free + {} == m.free;
    Exchange(m, m', kernel, procs, procs[pid := p], pid);
  }

  /** The free pages are the same ones, and only they were written. */
  lemma NoChange(m: Phys, m': Phys, kernel: set<nat>, procs: map<nat, Live>, pid: nat)
    requires Partition(m, kernel, procs) && m'.ram == m.ram && m'.tramp == m.tramp && m.ram <= m.mem.Keys
    requires m'.free == m.free && SameBut(m.mem, m'.mem, m.free) && pid !in procs
    ensures Partition(m', kernel, procs) && OthersKept(m, procs, m', procs, pid)
  {
    hide Partition, ImageOk, Image, OthersKept, SameBut;
    assert m.free + {} == m.free;
    Exchange(m, m', kernel, procs, procs, pid);
  }

  /** The process has other pages than before, which come from the free list or were its own. */
  lemma Changes(m: Phys, m': Phys, kernel: set<nat>, procs: map<nat, Live>, pid: nat, p: Live)
    requires Partition(m, kernel, procs) && m'.ram == m.ram && m'.tramp == m.tramp && m.ram <= m.mem.Keys
    requires pid in procs && ImageOk(m', p)
    requires m'.free + Image(m'.mem, p) == m.free + Image(m.mem, procs[pid])
    requires SameBut(m.mem, m'.mem, m.free + Image(m.mem, procs[pid]))
    ensures Partition(m', kernel, procs[pid := p]) && OthersKept(m, procs, m', procs[pid := p], pid)
  {
    hide Partition, ImageOk, Image, OthersKept, SameBut;
    Exchange(m, m', kernel, procs, procs[pid := p], pid);
  }

  /** The process is gone, and its pages are free. */
  lemma Goes(m: Phys, m': Phys, kernel: set<nat>, procs: map<nat, Live>, pid: nat)
    requires Partition(m, kernel, procs) && m'.ram == m.ram && m'.tramp == m.tramp && m.ram <= m.mem.Keys
    requires pid in procs && m'.free == m.free + Image(m.mem, procs[pid])
    requires SameBut(m.mem, m'.mem, m.free + Image(m.mem, procs[pid]))
    ensures Partition(m', kernel, procs - {pid}) && OthersKept(m, procs, m', procs - {pid}, pid)
  {
    hide Partition, ImageOk, Image, OthersKept, SameBut;
    assert m'.free + {} == m'.free;
    Exchange(m, m', kernel, procs, procs - {pid}, pid);
  }

  /** The process table says where the images are. */
  ghost predicate Records(procs: map<nat, Proc>, live: map<nat, Live>) {
    procs.Keys == live.Keys && forall k :: k in procs ==> procs[k] == Proc(live[k].t.root, live[k].sz, live[k].trap)
  }

  lemma RecordSet(procs: map<nat, Proc>, live: map<nat, Live>, pid: nat, p: Live)
    requires Records(procs, live)
    ensures Records(procs[pid := Proc(p.t.root, p.sz, p.trap)], live[pid := p])
    ensures Records(procs - {pid}, live - {pid})
    ensures pid in procs <==> pid in live
  {
  }

  /** The child's image and registers after fork. */
  ghost predicate CopyOfProc(m: Memory, p: Live, m': Memory, c: Live) {
    && TreeOk(m, p.t) && TreeOk(m', c.t) && c.sz == p.sz
    && PagesAre(m', Flat(m', c.t), 0, Up(p.sz), CopyOf(m, Flat(m, p.t)))
    && p.trap in m && c.trap in m' && |m[p.trap]| == |m'[c.trap]| == 512
    && forall i :: 0 <= i < 512 ==> m'[c.trap][i] == if i == A0 then 0 else m[p.trap][i]
  }

  /** A new program is about to run: its image, its stack pointer, argv and program counter are set. */
  ghost predicate Started(m: Memory, m': Memory, p: Live, segs: seq<Segment>, entry: nat, args: seq<nat>) {
    && TreeOk(m', p.t) && Realizes(segs, |segs|, m', Flat(m', p.t))
    && p.sz == (Up(Top(segs, |segs|)) + 2) * 4096 && StackMapped(Flat(m', p.t), Up(p.sz))
    && StackUse(args) <= p.sz && p.trap in m && p.trap in m' && |m[p.trap]| == |m'[p.trap]| == 512
    && forall i :: 0 <= i < 512 ==>
         m'[p.trap][i] == if i == EPC then entry else if i == SP || i == A1 then p.sz - StackUse(args) else m[p.trap][i]
  }

  /** The first `n` user pages have the contents they had. */
  ghost predicate KeepsFirst(m: Memory, m': Memory, p: Live, n: nat) {
    && TreeOk(m, p.t)
    && forall x :: x in FrameSet(Flat(m, p.t), 0, n) && x in m ==> x in m' && m'[x] == m[x]
  }

  lemma FirstKept(m: Memory, m': Memory, p: Live, n: nat, total: set<nat>)
    requires TreeOk(m, p.t) && SameBut(m, m', total - FrameSet(Flat(m, p.t), 0, n))
    ensures KeepsFirst(m, m', p, n)
  {
  }

  lemma FreeIn(m: Phys, kernel: set<nat>, procs: map<nat, Live>)
    requires Partition(m, kernel, procs)
    ensures m.free <= m.ram
  {
  }

  class Machine {
    const vm: Vm
    var procs: map<nat, Proc>
    ghost var live: map<nat, Live>
    ghost const kernel: set<nat>   // what the kernel keeps for itself: its page table and stacks

    ghost function Mem(): Phys
      reads this, vm
    {
      Phys(vm.mem, vm.ram, Set(vm.free), vm.trampoline)
    }

    ghost predicate Valid()
      reads this, vm
    {
      && vm.Valid() && |vm.ram| < MAXVPN - 2 && vm.trampoline % 4096 == 0
      && Records(procs, live) && Partition(Mem(), kernel, live)
    }

    /** After kinit and kvminit: what the kernel did not take is free, and there is no process. */
    constructor (v: Vm, ghost pages: set<nat>)
      requires v.Valid() && |v.ram| < MAXVPN - 2 && v.trampoline % 4096 == 0
      requires Set(v.free) !! pages && Set(v.free) + pages == v.ram
      ensures Valid() && vm == v && kernel == pages && procs == map[]
    {
      vm, kernel, procs, live := v, pages, map[], map[];
    }

    lemma SpaceOf(p: Live)
      requires vm.Valid() && ImageOk(Mem(), p)
      ensures vm.Space(p.t, Up(p.sz), p.trap) && vm.Total(p.t, Up(p.sz)) + {p.trap} == Set(vm.free) + Image(vm.mem, p)
      ensures p.trap in vm.ram - Set(vm.free) - Pages(p.t) - FrameSet(Flat(vm.mem, p.t), 0, Up(p.sz))
      ensures p.trap % 4096 == 0
      ensures Image(vm.mem, p) <= vm.ram && Set(vm.free) !! Image(vm.mem, p)
    {
      ImageIn(Mem(), p);
      hide TreeOk, Flat, Pages, FrameSet, ProcMap, UserOk, Linked;
    }

    lemma ImageOf(p: Live)
      requires vm.Space(p.t, Up(p.sz), p.trap)
      requires p.trap in vm.ram - Set(vm.free) - Pages(p.t) - FrameSet(Flat(vm.mem, p.t), 0, Up(p.sz))
      ensures ImageOk(Mem(), p)
    {
      hide TreeOk, Flat, Pages, FrameSet, ProcMap, UserOk, Linked;
    }

    /** An image made from pages that were free in `m`. */
    ghost predicate Made(m: Phys, p: Live)
      reads this, vm
    {
      && vm.Valid() && ImageOk(Mem(), p) && m.free == Set(vm.free) + Image(vm.mem, p)
      && SameBut(m.mem, vm.mem, m.free)
    }

    lemma MadeIf(m: Phys, p: Live)
      requires vm.Space(p.t, Up(p.sz), p.trap) && p.trap in vm.ram
      requires p.trap !in Set(vm.free) + Pages(p.t) + FrameSet(Flat(vm.mem, p.t), 0, Up(p.sz))
      requires m.free == vm.Total(p.t, Up(p.sz)) + {p.trap} && SameBut(m.mem, vm.mem, m.free)
      ensures Made(m, p)
    {
      hide TreeOk, Flat, Pages, Linked, RamOk, SameBut, Set, UserOk, ProcMap, FrameSet, Up;
      ImageOf(p);
      SpaceOf(p);
    }

    /** A process is entered, or the call has failed and nothing is lost. */
    method Enter(ok: bool, pid: nat, root: nat, sz: nat, trap: nat, ghost t: Tree, ghost m: Phys)
      requires vm.Valid() && |vm.ram| < MAXVPN - 2 && vm.trampoline % 4096 == 0
      requires Partition(m, kernel, live) && Records(procs, live) && pid !in procs
      requires m.ram == vm.ram <= m.mem.Keys && m.tramp == vm.trampoline
      requires ok ==> Made(m, Live(t, sz, trap)) && t.root == root
      requires !ok ==> Mem().free == m.free && SameBut(m.mem, vm.mem, m.free)
      modifies this`procs, this`live
      ensures Valid() && OthersKept(m, old(live), Mem(), live, pid)
      ensures procs == if ok then old(procs)[pid := Proc(root, sz, trap)] else old(procs)
      ensures live == if ok then old(live)[pid := Live(t, sz, trap)] else old(live)
    {
      hide SameBut, Set, Partition, Image, ImageOk, OthersKept, Records;
      RecordSet(procs, live, pid, Live(t, sz, trap));
      if ok {
        Comes(m, Mem(), kernel, live, pid, Live(t, sz, trap));
        procs := procs[pid := Proc(root, sz, trap)];
        live := live[pid := Live(t, sz, trap)];
      } else {
        NoChange(m, Mem(), kernel, live, pid);
      }
    }

    /** allocproc: a process with a trapframe and an empty image, or nothing lost. */
    method Spawn(pid: nat) returns (ok: bool)
      requires Valid() && pid !in procs
      modifies this, vm
      ensures Valid() && OthersKept(old(Mem()), old(live), Mem(), live, pid)
      ensures ok ==> pid in procs && procs == old(procs)[pid := procs[pid]] && procs[pid].sz == 0
      ensures !ok ==> procs == old(procs) && live == old(live) && Mem().free == old(Mem()).free
      ensures ok <==> |old(vm.free)| >= 1 + Tables(Ends())
    {
      hide Partition, ImageOk, Image, OthersKept, Records, SameBut, Linked, RamOk, TreeOk, Flat, Pages, FrameSet, Set,
        UserOk, ProcMap, Tables, Exactly;
      RamThere();
      var root, trap;
      ghost var t;
      ok, root, trap, t := AllocProc(vm);
      if ok {
        NoUser(Flat(vm.mem, t), {});
        MadeIf(old(Mem()), Live(t, 0, trap));
      }
      Enter(ok, pid, root, 0, trap, t, old(Mem()));
    }

    /** fork: a child with a copy of the parent's memory and registers, or nothing lost. */
    method Fork(pid: nat, child: nat) returns (ok: bool)
      requires Valid() && pid in procs && child !in procs
      modifies this, vm
      ensures Valid() && OthersKept(old(Mem()), old(live), Mem(), live, child)
      ensures !ok ==> procs == old(procs) && live == old(live) && Mem().free == old(Mem()).free
      ensures ok ==> child in procs && procs == old(procs)[child := procs[child]]
      ensures ok ==> procs[child].sz == old(procs)[pid].sz
      ensures ok ==> child in live && pid in old(live) && CopyOfProc(old(vm.mem), old(live)[pid], vm.mem, live[child])
      ensures ok <==> |old(vm.free)| >= 1 + Cost(Up(old(procs)[pid].sz))
    {
      hide Partition, ImageOk, Image, OthersKept, Records, SameBut, Linked, RamOk, TreeOk, Flat, Pages, FrameSet, Set,
        UserOk, ProcMap, Cost, CopyOfProc;
      RamThere();
      LiveOk(pid);
      FreeIn(Mem(), kernel, live);
      var croot, ctrap;
      ghost var tc;
      ok, croot, ctrap, tc := ForkImage(procs[pid], live[pid]);
      Enter(ok, child, croot, procs[pid].sz, ctrap, tc, old(Mem()));
    }

    method ForkImage(q: Proc, ghost p: Live) returns (ok: bool, croot: nat, ctrap: nat, ghost tc: Tree)
      requires vm.Valid() && ImageOk(Mem(), p) && q == Proc(p.t.root, p.sz, p.trap)
      requires |vm.ram| < MAXVPN - 2 && vm.trampoline % 4096 == 0 && Mem().free <= vm.ram
      modifies vm
      ensures vm.Valid()
      ensures ok ==> Made(old(Mem()), Live(tc, q.sz, ctrap)) && tc.root == croot
      ensures !ok ==> Mem().free == old(Mem()).free && SameBut(old(vm.mem), vm.mem, old(Mem()).free)
      ensures ok ==> CopyOfProc(old(vm.mem), p, vm.mem, Live(tc, q.sz, ctrap))
      ensures ok <==> |old(vm.free)| >= 1 + Cost(Up(q.sz))
    {
      hide TreeOk, Flat, Pages, Linked, RamOk, SameBut, Set, UserOk, ProcMap, FrameSet, Image, ImageOk, Up, PagesAre,
        CopyOf, Cost;
      SpaceOf(p);
      ok, croot, ctrap, tc := ProcImage.Fork(vm, p.t, q.root, q.sz, q.trap);
      if ok {
        MadeIf(old(Mem()), Live(tc, q.sz, ctrap));
      }
    }

    /** A process has changed its image. */
    method Update(pid: nat, root: nat, sz: nat, ghost t: Tree, ghost m: Phys)
      requires vm.Valid() && |vm.ram| < MAXVPN - 2 && vm.trampoline % 4096 == 0
      requires Partition(m, kernel, live) && Records(procs, live) && pid in procs && pid in live
      requires m.ram == vm.ram <= m.mem.Keys && m.tramp == vm.trampoline
      requires Remade(m, live[pid], Live(t, sz, procs[pid].trap)) && t.root == root
      modifies this`procs, this`live
      ensures Valid() && OthersKept(m, old(live), Mem(), live, pid)
      ensures procs == old(procs)[pid := Proc(root, sz, old(procs)[pid].trap)]
      ensures live == old(live)[pid := Live(t, sz, old(procs)[pid].trap)]
    {
      hide SameBut, Set, Partition, Image, ImageOk, OthersKept, Records;
      ghost var p := Live(t, sz, procs[pid].trap);
      RecordSet(procs, live, pid, p);
      Changes(m, Mem(), kernel, live, pid, p);
      procs := procs[pid := Proc(root, sz, procs[pid].trap)];
      live := live[pid := p];
    }

    /** An image made from free pages and those of image `p`, with the same trapframe. */
    ghost predicate Remade(m: Phys, p: Live, p': Live)
      reads this, vm
    {
      && ImageOk(Mem(), p') && Set(vm.free) + Image(vm.mem, p') == m.free + Image(m.mem, p)
      && SameBut(m.mem, vm.mem, m.free + Image(m.mem, p))
    }

    lemma RemadeIf(m: Phys, p: Live, p': Live)
      requires vm.Space(p'.t, Up(p'.sz), p'.trap) && p'.trap in vm.ram && p'.trap == p.trap
      requires ImageOk(m, p) && m.ram == vm.ram
      requires var total := m.free + Pages(p.t) + FrameSet(Flat(m.mem, p.t), 0, Up(p.sz));
        vm.Total(p'.t, Up(p'.sz)) == total && SameBut(m.mem, vm.mem, total + {p.trap})
      ensures Remade(m, p, p')
    {
      var total := m.free + Pages(p.t) + FrameSet(Flat(m.mem, p.t), 0, Up(p.sz));
      SameWider(m.mem, vm.mem, total + {p.trap}, m.free + Image(m.mem, p));
      hide TreeOk, Flat, Pages, Linked, RamOk, SameBut, Set, UserOk, ProcMap, FrameSet, Up;
      assert p.trap !in total;
      ImageOf(p');
      SpaceOf(p');
    }

    /** Only free pages were written: the image is the one it was. */
    lemma Unmade(m: Phys, p: Live)
      requires ImageOk(m, p) && m.ram == vm.ram <= m.mem.Keys && m.tramp == vm.trampoline
      requires m.free == Mem().free && SameBut(m.mem, vm.mem, m.free)
      ensures Remade(m, p, p) && Kept(m, Mem(), p)
    {
      hide ImageOk, Kept, Set, SameBut, Image;
      ImageIn(m, p);
      ImageKept(m, Mem(), p, m.free);
      SameWider(m.mem, vm.mem, m.free, m.free + Image(m.mem, p));
    }

    /** growproc: pages from the free list or back to it. */
    method Grow(pid: nat, n: int) returns (ok: bool)
      requires Valid() && pid in procs && -0x8000_0000 <= n < 0x8000_0000
      modifies this, vm
      ensures Valid() && OthersKept(old(Mem()), old(live), Mem(), live, pid)
      ensures pid in procs && procs == old(procs)[pid := procs[pid]]
      ensures procs[pid].sz == if !ok || old(procs)[pid].sz + n < 0 then old(procs)[pid].sz else old(procs)[pid].sz + n
      ensures pid in old(live)
        && KeepsFirst(old(vm.mem), vm.mem, old(live)[pid], if n < 0 then Up(procs[pid].sz) else Up(old(procs)[pid].sz))
      ensures n <= 0 ==> ok
      ensures n > 0 ==>
        var a, b := Up(old(procs)[pid].sz), Up(old(procs)[pid].sz + n);
        a <= b && (ok <==> |old(vm.free)| >= b - a + Missing(old(live)[pid].t, Span(a, b - a)))
    {
      hide Partition, ImageOk, Image, OthersKept, Records, SameBut, Linked, RamOk, TreeOk, Flat, Pages, FrameSet, Set,
        UserOk, ProcMap, Missing, Span, KeepsFirst;
      RamThere();
      LiveOk(pid);
      var sz;
      ghost var t;
      ok, sz, t := GrowImage(procs[pid], live[pid], n);
      Update(pid, procs[pid].root, sz, t, old(Mem()));
    }

    method GrowImage(q: Proc, ghost p: Live, n: int) returns (ok: bool, sz: nat, ghost t: Tree)
      requires vm.Valid() && ImageOk(Mem(), p) && q == Proc(p.t.root, p.sz, p.trap)
      requires |vm.ram| < MAXVPN - 2 && -0x8000_0000 <= n < 0x8000_0000
      modifies vm
      ensures vm.Valid() && Remade(old(Mem()), p, Live(t, sz, q.trap)) && t.root == q.root
      ensures sz == if !ok || q.sz + n < 0 then q.sz else q.sz + n
      ensures KeepsFirst(old(vm.mem), vm.mem, p, if Up(sz) < Up(p.sz) then Up(sz) else Up(p.sz))
      ensures n <= 0 ==> ok
      ensures n > 0 ==> Up(q.sz + n) >= Up(q.sz)
      ensures n > 0 ==>
        (ok <==> |old(vm.free)| >= Up(q.sz + n) - Up(q.sz) + Missing(p.t, Span(Up(q.sz), Up(q.sz + n) - Up(q.sz))))
    {
      hide TreeOk, Flat, Pages, Linked, RamOk, SameBut, Set, UserOk, ProcMap, FrameSet, Image, ImageOk, Up, PagesAre,
        Zeroed, Span, Missing, Extended;
      SpaceOf(p);
      ok, sz, t := GrowProc(vm, p.t, q.root, q.sz, n, q.trap);
      ghost var kept := if Up(sz) < Up(q.sz) then Up(sz) else Up(q.sz);
      ghost var total := old(vm.Total(p.t, Up(p.sz)));
      SameWider(old(vm.mem), vm.mem, total - FrameSet(Flat(old(vm.mem), p.t), 0, kept), total + {p.trap});
      FirstKept(old(vm.mem), vm.mem, p, kept, total);
      RemadeIf(old(Mem()), p, Live(t, sz, q.trap));
    }

    /**
      exec: a new image in place of the old one, and the registers to start it, or the old one
      as it was and no page lost.
     */
    method Exec(pid: nat, segs: seq<Segment>, entry: nat, args: seq<nat>) returns (ok: bool)
      requires Valid() && pid in procs && forall i :: 0 <= i < |segs| ==> SegmentOk(segs[i])
      requires forall i :: 0 <= i < |args| ==> args[i] < 4096
      modifies this, vm
      ensures Valid() && OthersKept(old(Mem()), old(live), Mem(), live, pid)
      ensures pid in procs && procs == old(procs)[pid := procs[pid]] && procs[pid].trap == old(procs)[pid].trap
      ensures !ok ==> procs == old(procs) && live == old(live) && Mem().free == old(Mem()).free
      ensures !ok ==> pid in live && ImageOk(old(Mem()), live[pid]) && Kept(old(Mem()), Mem(), live[pid])
      ensures ok <==> CanRun(segs, args, |old(vm.free)|)
      ensures ok ==> pid in live && Started(old(vm.mem), vm.mem, live[pid], segs, entry, args)
    {
      hide Partition, ImageOk, Image, OthersKept, Records, SameBut, Linked, RamOk, TreeOk, Flat, Pages, FrameSet, Set,
        UserOk, ProcMap, CanRun, Started;
      RamThere();
      LiveOk(pid);
      var root, sz;
      ghost var t;
      ok, root, sz, t := RunImage(procs[pid], live[pid], segs, entry, args);
      Update(pid, root, sz, t, old(Mem()));
    }

    method RunImage(q: Proc, ghost p: Live, segs: seq<Segment>, entry: nat, args: seq<nat>)
      returns (ok: bool, root: nat, sz: nat, ghost t: Tree)
      requires vm.Valid() && ImageOk(Mem(), p) && q == Proc(p.t.root, p.sz, p.trap)
      requires |vm.ram| < MAXVPN - 2 && vm.trampoline % 4096 == 0
      requires forall i :: 0 <= i < |segs| ==> SegmentOk(segs[i])
      requires forall i :: 0 <= i < |args| ==> args[i] < 4096
      modifies vm
      ensures vm.Valid() && Remade(old(Mem()), p, Live(t, sz, q.trap)) && t.root == root
      ensures !ok ==> t == p.t && sz == q.sz && Mem().free == old(Mem()).free && Kept(old(Mem()), Mem(), p)
      ensures ok <==> CanRun(segs, args, |old(vm.free)|)
      ensures ok ==> Started(old(vm.mem), vm.mem, Live(t, sz, q.trap), segs, entry, args)
    {
      hide Kept, TreeOk, Flat, Pages, Linked, RamOk, SameBut, Set, UserOk, ProcMap, FrameSet, Image, ImageOk, Up,
        ArgsFit, StackUse, StackMapped, SegmentOk, CanRun, Realizes, Top;
      RamThere();
      SpaceOf(p);
      ok, root, sz, t := ExecImage.Exec(vm, p.t, q.root, q.sz, q.trap, segs, entry, args);
      if ok {
        RemadeIf(old(Mem()), p, Live(t, sz, q.trap));
      } else {
        root, sz, t := q.root, q.sz, p.t;
        Unmade(old(Mem()), p);
      }
    }

    /** freeproc: all pages of the process go back to the free list. */
    method Free(pid: nat)
      requires Valid() && pid in procs
      modifies this, vm
      ensures Valid() && OthersKept(old(Mem()), old(live), Mem(), live, pid)
      ensures procs == old(procs) - {pid} && pid in old(live)
      ensures Mem().free == old(Mem()).free + Image(old(vm.mem), old(live)[pid])
    {
      hide Partition, ImageOk, Image, OthersKept, Records, SameBut, Linked, RamOk, TreeOk, Flat, Pages, FrameSet, Set,
        UserOk, ProcMap;
      RamThere();
      LiveOk(pid);
      FreeImage(procs[pid], live[pid]);
      RecordSet(procs, live, pid, live[pid]);
      Goes(old(Mem()), Mem(), kernel, live, pid);
      procs := procs - {pid};
      live := live - {pid};
    }

    method FreeImage(q: Proc, ghost p: Live)
      requires vm.Valid() && ImageOk(Mem(), p) && q == Proc(p.t.root, p.sz, p.trap)
      modifies vm
      ensures vm.Valid() && Mem().free == old(Mem()).free + Image(old(vm.mem), p)
      ensures SameBut(old(vm.mem), vm.mem, old(Mem()).free + Image(old(vm.mem), p))
    {
      hide TreeOk, Flat, Pages, Linked, RamOk, SameBut, Set, UserOk, ProcMap, FrameSet, Image, ImageOk, Up;
      SpaceOf(p);
      FreeProc(vm, p.t, q.root, q.trap, q.sz);
    }

    lemma LiveOk(pid: nat)
      requires Valid() && pid in procs
      ensures pid in live && ImageOk(Mem(), live[pid])
      ensures procs[pid] == Proc(live[pid].t.root, live[pid].sz, live[pid].trap)
    {
    }

    lemma RamThere()
      requires vm.Valid()
      ensures vm.ram <= vm.mem.Keys
    {
    }
  }
}
