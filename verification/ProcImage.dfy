/**
  What allocproc, fork, growproc and freeproc (kernel/proc.c) do with physical memory. Every page
  is on the free list, in a page table, in a user image or a trapframe. A call fails exactly when
  the free list has fewer pages than it needs, and then leaves the free pages as it found them.
 */
module ProcImage {
  import opened PageTable
  import opened Seqs
  import opened TableCount
  import opened Vm

  lemma PagesKept(m1: Memory, f: map<nat, nat>, m2: Memory, n: nat, want: Want, s: set<nat>)
    requires PagesAre(m1, f, 0, n, want) && SameBut(m1, m2, s) && FrameSet(f, 0, n) !! s
    ensures PagesAre(m2, f, 0, n, want)
  {
  }

  /** A copy of memory `m1` is a copy of `m0` if the copied pages are the same in both. */
  lemma CopyRebase(m: Memory, g: map<nat, nat>, n: nat, m0: Memory, m1: Memory, f: map<nat, nat>, s: set<nat>,
                   avail: set<nat>)
    requires PagesAre(m, g, 0, n, CopyOf(m1, f)) && UserOk(f, n, avail)
    requires SameBut(m0, m1, s) && FrameSet(f, 0, n) !! s
    ensures PagesAre(m, g, 0, n, CopyOf(m0, f))
  {
  }

  lemma ProcGrow(f: map<nat, nat>, g: map<nat, nat>, n0: nat, n: nat, trapframe: nat, trampoline: nat, avail: set<nat>)
    requires ProcMap(f, n0, trapframe, trampoline) && n0 <= n <= MAXVPN - 2 && g - Span(n0, n - n0) == f
    requires UserOk(g, n, avail)
    ensures ProcMap(g, n, trapframe, trampoline)
  {
  }

  lemma ProcFreeRange(f: map<nat, nat>, n: nat, trapframe: nat, trampoline: nat)
    requires ProcMap(f, n, trapframe, trampoline)
    ensures forall v :: n <= v < MAXVPN - 2 ==> v !in f
  {
  }

  lemma PopSet(free: seq<nat>, p: nat)
    requires free != [] && free[0] == p && Distinct(free)
    ensures Set(free) == Set(free[1..]) + {p} && p !in Set(free[1..])
  {
  }

  lemma SameUpdate(m: Memory, p: nat, data: seq<nat>, s: set<nat>)
    requires p in m && p in s
    ensures SameBut(m, m[p := data], s)
  {
  }

  lemma UserLess(f: map<nat, nat>, n: nat, avail: set<nat>, p: nat)
    requires UserOk(f, n, avail) && p !in FrameSet(f, 0, n)
    ensures UserOk(f, n, avail - {p})
  {
  }

  lemma ProcEmpty(f: map<nat, nat>, trapframe: nat, trampoline: nat)
    requires ProcMap(f, 0, trapframe, trampoline)
    ensures forall v :: 0 <= v < MAXVPN - 2 ==> v !in f
  {
  }

  /** Offset of a0 in the trapframe, in words. */
  const A0: nat := 112 / 8

  /** allocproc's memory: a trapframe page and a page table that maps it. */
  method AllocProc(vm: Vm) returns (ok: bool, root: nat, trap: nat, ghost t: Tree)
    requires vm.Valid() && vm.trampoline % 4096 == 0
    modifies vm
    ensures vm.Valid() && SameBut(old(vm.mem), vm.mem, Set(old(vm.free)))
    ensures !ok ==> Set(vm.free) == Set(old(vm.free))
    ensures ok ==> vm.Space(t, 0, trap) && t.root == root && trap in vm.ram - Set(vm.free) - Pages(t)
    ensures ok ==> Set(old(vm.free)) == Set(vm.free) + Pages(t) + {trap}
    ensures ok <==> |old(vm.free)| >= 1 + Tables(Ends())
    ensures ok ==> Exactly(t, Ends()) && |old(vm.free)| == |vm.free| + 1 + Tables(Ends())
  {
    hide TreeOk, Flat, Pages, SameBut, Set, UserOk, ProcMap, Tables, Exactly;
    ghost var m0, free0 := vm.mem, Set(vm.free);
    ok, root, t := false, 0, Tree(0, map[], map[]);
    trap := vm.Kalloc();
    SameRefl(m0, free0);
    if trap == 0 {
      return;
    }
    PopSet(old(vm.free), trap);
    SameUpdate(m0, trap, Fill(5), free0);
    ghost var m1 := vm.mem;
    root, t := vm.ProcPagetable(trap);
    SameTrans(m0, m1, vm.mem, free0, free0 - {trap});
    if root == 0 {
      ghost var m2 := vm.mem;
      vm.Kfree(trap);
      SameTrans(m0, m2, vm.mem, free0, {trap});
      return;
    }
    ok := true;
  }

  /** freeproc's memory: the trapframe page, the page table and the user memory. */
  method FreeProc(vm: Vm, ghost t: Tree, root: nat, trap: nat, sz: nat)
    requires vm.Space(t, Up(sz), trap) && t.root == root
    requires trap in vm.ram - Set(vm.free) - Pages(t) - FrameSet(Flat(vm.mem, t), 0, Up(sz))
    modifies vm
    ensures vm.Valid() && Set(vm.free) == old(vm.Total(t, Up(sz))) + {trap}
    ensures SameBut(old(vm.mem), vm.mem, old(vm.Total(t, Up(sz))) + {trap})
  {
    hide TreeOk, Flat, Pages, Linked, RamOk, SameBut, Set, UserOk, ProcMap, FrameSet, Up;
    ghost var f, n := Flat(vm.mem, t), Up(sz);
    ghost var all := vm.Total(t, n) + {trap};
    vm.KfreeOutside(t, trap);
    UserLess(f, n, vm.ram - Set(old(vm.free)) - Pages(t), trap);
    assert vm.ram - Set(vm.free) - Pages(t) == vm.ram - Set(old(vm.free)) - Pages(t) - {trap};
    ghost var m1 := vm.mem;
    vm.ProcFreepagetable(t, root, sz, trap);
    SameThen(old(vm.mem), m1, m1, {trap}, all);
    SameTrans(old(vm.mem), m1, vm.mem, all, Pages(t) + FrameSet(f, 0, n));
  }

  /**
    fork: a child with a copy of the parent's memory and registers, or -1 with every page
    that was allocated on the way given back.
   */
  method Fork(vm: Vm, ghost tp: Tree, proot: nat, sz: nat, ptrap: nat)
    returns (ok: bool, croot: nat, ctrap: nat, ghost tc: Tree)
    requires vm.Space(tp, Up(sz), ptrap) && tp.root == proot && |vm.ram| < MAXVPN - 2
    requires vm.trampoline % 4096 == 0 && ptrap in vm.ram - Set(vm.free)
    modifies vm
    ensures vm.Space(tp, Up(sz), ptrap) && Flat(vm.mem, tp) == Flat(old(vm.mem), tp)
    ensures SameBut(old(vm.mem), vm.mem, Set(old(vm.free)))
    ensures !ok ==> Set(vm.free) == Set(old(vm.free))
    ensures ok ==> vm.Space(tc, Up(sz), ctrap) && tc.root == croot
                   && ctrap !in Set(vm.free) + Pages(tc) + FrameSet(Flat(vm.mem, tc), 0, Up(sz))
    ensures ok ==> Set(old(vm.free)) == vm.Total(tc, Up(sz)) + {ctrap}
    ensures ok ==> PagesAre(vm.mem, Flat(vm.mem, tc), 0, Up(sz), CopyOf(old(vm.mem), Flat(old(vm.mem), tp)))
    ensures ok ==> ctrap in vm.mem && ptrap in old(vm.mem) && |vm.mem[ctrap]| == |old(vm.mem)[ptrap]| == 512
                   && forall i :: 0 <= i < 512 ==> vm.mem[ctrap][i] == if i == A0 then 0 else old(vm.mem)[ptrap][i]
    ensures ok <==> |old(vm.free)| >= 1 + Cost(Up(sz))
  {
    hide TreeOk, Flat, Pages, Linked, SameBut, Set, UserOk, ProcMap, FrameSet, Up, Span, PagesAre, CopyOf, Tables,
      Exactly, Missing, Extended;
    TablesGrow(Ends(), Span(0, Up(sz)));
    ghost var m0, free0, f, n := vm.mem, Set(vm.free), Flat(vm.mem, tp), Up(sz);
    UserFrames(f, n, vm.ram - free0 - Pages(tp));
    ok, croot, ctrap, tc := AllocProc(vm);
    ghost var m1 := vm.mem;
    if !ok {
      vm.ParentKept(m0, free0, tp, f, n, {}, free0, free0);
      return;
    }
    vm.ParentKept(m0, free0, tp, f, n, Pages(tc), free0, free0);
    ghost var fc := Flat(vm.mem, tc);
    ProcEmpty(fc, ctrap, vm.trampoline);
    ghost var free1, pages1 := Set(vm.free), Pages(tc);
    NoUser(fc, {});
    TablesPlus(tc, Ends(), Span(0, Up(sz)));
    ok, tc := vm.Uvmcopy(tp, proot, tc, croot, sz);
    ghost var m2 := vm.mem;
    assert vm.Total(tc, if ok then n else 0) == free1 + pages1 + FrameSet(fc, 0, 0);
    SameTrans(m0, m1, m2, free0, free1 + Pages(tc));
    if !ok {
      NoUser(Flat(m2, tc), {});
      ghost var all := vm.Total(tc, Up(0)) + {ctrap};
      FreeProc(vm, tc, croot, ctrap, 0);
      SameTrans(m0, m2, vm.mem, free0, all);
      vm.ParentKept(m0, free0, tp, f, n, {}, free0, free0);
      return;
    }
    ProcGrow(fc, Flat(m2, tc), 0, n, ctrap, vm.trampoline, vm.ram - Set(vm.free) - Pages(tc));
    assert vm.mem[ptrap] == m0[ptrap];
    vm.FillPage(tc, ctrap, vm.mem[ptrap][A0 := 0]);
    CopyRebase(m2, Flat(m2, tc), n, m0, m1, f, free0, vm.ram - free0 - Pages(tp));
    assert ctrap !in FrameSet(Flat(m2, tc), 0, n);
    PagesKept(m2, Flat(m2, tc), vm.mem, n, CopyOf(m0, f), {ctrap});
    SameTrans(m0, m2, vm.mem, free0, {ctrap});
    vm.ParentKept(m0, free0, tp, f, n, Pages(tc), free0, free0);
  }

  // ----- growproc -----

  /** growproc's sz + n, in 64 bits: below zero it wraps around to more than any size. */
  function Resized(sz: nat, n: int): nat
    requires -0x8000_0000 <= n
  {
    if sz + n < 0 then sz + n + 0x1_0000_0000_0000_0000 else sz + n
  }

  lemma ProcShrink(f: map<nat, nat>, n0: nat, n: nat, trapframe: nat, trampoline: nat)
    requires ProcMap(f, n0, trapframe, trampoline) && n <= n0 <= MAXVPN - 2
    ensures ProcMap(f - Span(n, n0 - n), n, trapframe, trampoline)
  {
  }

  /** Where the old size lies when sz + n wraps around. */
  lemma SmallSize(sz: nat, n: int)
    requires Up(sz) <= MAXVPN - 2 && n < 0 && -0x8000_0000 <= n
    ensures Resized(sz, n) < sz <==> sz + n >= 0
    ensures sz + n >= 0 ==> Up(sz + n) <= Up(sz)
  {
  }

  /**
    growproc: new zeroed pages, or the pages above the new size given back. When uvmalloc
    fails the flat map is the old one, and shrinking below zero does nothing.
   */
  method GrowProc(vm: Vm, ghost t: Tree, root: nat, sz: nat, n: int, ghost trap: nat)
    returns (ok: bool, sz': nat, ghost t': Tree)
    requires vm.Space(t, Up(sz), trap) && t.root == root && |vm.ram| < MAXVPN - 2 && -0x8000_0000 <= n < 0x8000_0000
    modifies vm
    ensures vm.Space(t', Up(sz'), trap) && t'.root == root
    ensures vm.Total(t', Up(sz')) == old(vm.Total(t, Up(sz)))
    ensures var kept := if Up(sz') < Up(sz) then Up(sz') else Up(sz);
      SameBut(old(vm.mem), vm.mem, old(vm.Total(t, Up(sz))) - FrameSet(Flat(old(vm.mem), t), 0, kept))
    ensures sz' == if !ok || sz + n < 0 then sz else sz + n
    ensures n <= 0 ==> ok
    ensures !ok || sz + n < 0 ==> Flat(vm.mem, t') == Flat(old(vm.mem), t)
    ensures ok && n > 0 ==> Flat(vm.mem, t') - Span(Up(sz), Up(sz') - Up(sz)) == Flat(old(vm.mem), t)
                            && PagesAre(vm.mem, Flat(vm.mem, t'), Up(sz), Up(sz'), Zeroed(PTE_R + PTE_U + PTE_W))
    ensures n <= 0 && sz + n >= 0 ==> Flat(vm.mem, t') == Flat(old(vm.mem), t) - Span(Up(sz'), Up(sz) - Up(sz'))
    ensures n > 0 ==> Up(sz + n) >= Up(sz)
    ensures n > 0 ==>
      (ok <==> |old(vm.free)| >= Up(sz + n) - Up(sz) + Missing(t, Span(Up(sz), Up(sz + n) - Up(sz))))
  {
    hide TreeOk, Flat, Pages, Linked, RamOk, SameBut, Set, UserOk, ProcMap, FrameSet, Up, Span, PagesAre, Zeroed,
      Missing, Extended;
    ghost var f, m0 := Flat(vm.mem, t), vm.mem;
    ghost var total := vm.Total(t, Up(sz));
    t', ok, sz' := t, true, sz;
    SameRefl(m0, total - FrameSet(f, 0, Up(sz)));
    SpanNone(f, Up(sz));
    UserFrames(f, Up(sz), vm.ram - Set(vm.free) - Pages(t));
    if n > 0 {
      ProcFreeRange(f, Up(sz), trap, vm.trampoline);
      ghost var grown;
      sz', t', grown := vm.Uvmalloc(t, root, sz, sz + n, PTE_W);
      UserRoom(Flat(vm.mem, t'), if grown then Up(sz') else Up(sz), vm.ram - Set(vm.free) - Pages(t'), vm.ram);
      UserFrames(Flat(vm.mem, t'), if grown then Up(sz') else Up(sz), vm.ram - Set(vm.free) - Pages(t'));
      if grown {
        FramesStay(f, Flat(vm.mem, t'), Up(sz), Up(sz'));
      }
      SameWider(m0, vm.mem, Set(old(vm.free)) + Pages(t'), total - FrameSet(f, 0, Up(sz)));
      if grown {
        ProcGrow(f, Flat(vm.mem, t'), Up(sz), Up(sz'), trap, vm.trampoline, vm.ram - Set(vm.free) - Pages(t'));
      }
      if sz' == 0 {
        ok, sz' := false, sz;
      }
    } else if n < 0 {
      SmallSize(sz, n);
      sz' := vm.Uvmdealloc(t, root, sz, Resized(sz, n));
      ProcShrink(f, Up(sz), Up(sz'), trap, vm.trampoline);
      FramesSplit(f, Up(sz'), Up(sz), vm.ram - Set(old(vm.free)) - Pages(t));
      SameWider(m0, vm.mem, Pages(t) + FrameSet(f, Up(sz'), Up(sz) - Up(sz')), total - FrameSet(f, 0, Up(sz')));
    }
  }

  /** Growing keeps the pages there were. */
  lemma FramesStay(f: map<nat, nat>, g: map<nat, nat>, n0: nat, n: nat)
    requires n0 <= n && g - Span(n0, n - n0) == f
    ensures FrameSet(f, 0, n0) <= FrameSet(g, 0, n)
  {
    hide Pa;
    forall v: nat | v < n0 && v in f
      ensures Pa(f[v]) in FrameSet(g, 0, n)
    {
      FrameIn(g, 0, n, v);
    }
  }

  /** Shrinking takes pages away from those that stay. */
  lemma FramesSplit(f: map<nat, nat>, m: nat, n: nat, avail: set<nat>)
    requires m <= n && UserOk(f, n, avail)
    ensures FrameSet(f, m, n - m) <= FrameSet(f, 0, n) && FrameSet(f, m, n - m) !! FrameSet(f, 0, m)
    ensures FrameSet(f, 0, m) <= FrameSet(f, 0, n)
  {
    hide Pa;
  }

  lemma SameWider(m0: Memory, m1: Memory, s: set<nat>, s': set<nat>)
    requires SameBut(m0, m1, s) && s <= s'
    ensures SameBut(m0, m1, s')
  {
  }

  // ----- how many pages that is -----

  /** The pages of a process with `n` pages of user memory, without the trapframe. */
  ghost function Cost(n: nat): nat { Tables(Ends() + Span(0, n)) + n }

  lemma SpanJoin(a: nat, b: nat)
    requires a <= b
    ensures Span(0, a) + Span(a, b - a) == Span(0, b)
    ensures Ends() + Span(0, a) + Span(a, b - a) == Ends() + Span(0, b)
  {
  }

  /** What more pages cost, with a page table that has no table too many. */
  lemma CostStep(t: Tree, a: nat, b: nat)
    requires a <= b && Exactly(t, Ends() + Span(0, a))
    ensures Cost(b) == Cost(a) + (b - a) + Missing(t, Span(a, b - a))
  {
    hide Tables, Missing, Exactly, Span;
    SpanJoin(a, b);
    TablesPlus(t, Ends() + Span(0, a), Span(a, b - a));
  }

  lemma CostMono(a: nat, b: nat)
    requires a <= b
    ensures Cost(a) <= Cost(b)
  {
    hide Tables, Span;
    SpanJoin(a, b);
    TablesGrow(Ends() + Span(0, a), Span(a, b - a));
  }

  lemma TablesGrow(vs: set<nat>, ws: set<nat>)
    ensures Tables(vs) <= Tables(vs + ws)
  {
    hide Lows, Mids;
    LowsPlus(vs, ws);
    SizeMono(Lows(vs), Lows(vs + ws));
    SizeMono(Mids(vs), Mids(vs + ws));
  }

  lemma {:induction false} RangeSize(n: nat)
    ensures |Span(0, n)| == n
    decreases n
  {
    if n == 0 {
      SpanZero(0);
    } else {
      RangeSize(n - 1);
      SpanNext(0, n - 1);
      assert n - 1 !in Span(0, n - 1);
    }
  }

  lemma LowsOfRange(n: nat)
    ensures Lows(Span(0, n)) == Span(0, (n + 511) / 512)
    ensures Mids(Span(0, n)) == Span(0, (n + 262143) / 262144)
  {
    forall k: nat | k < (n + 511) / 512 ensures k in Lows(Span(0, n)) {
      assert k * 512 in Span(0, n) && k * 512 / 512 == k;
    }
    forall k: nat | k < (n + 262143) / 262144 ensures k in Mids(Span(0, n)) {
      assert k * 262144 in Span(0, n) && k * 262144 / 512 / 512 == k;
    }
    forall v | v in Span(0, n) ensures v / 512 < (n + 511) / 512 && v / 512 / 512 < (n + 262143) / 262144 { }
  }

  lemma LowsOfEnds()
    ensures Lows(Ends()) == {131071} && Mids(Ends()) == {255}
  {
    assert MAXVPN - 1 in Ends() && (MAXVPN - 1) / 512 == 131071 && (MAXVPN - 2) / 512 == 131071;
  }

  /** The tables of a process with `n` pages of user memory, in numbers. */
  lemma TablesOfProc(n: nat)
    requires n <= 255 * 262144
    ensures Tables(Ends() + Span(0, n)) == 3 + (n + 511) / 512 + (n + 262143) / 262144
  {
    hide Lows, Mids;
    LowsPlus(Ends(), Span(0, n));
    LowsOfEnds();
    LowsOfRange(n);
    RangeSize((n + 511) / 512);
    RangeSize((n + 262143) / 262144);
    SizeSum(Lows(Span(0, n)), {131071});
    SizeSum(Mids(Span(0, n)), {255});
    assert {131071} - Lows(Span(0, n)) == {131071} && {255} - Mids(Span(0, n)) == {255};
    assert Lows(Ends()) + Lows(Span(0, n)) == Lows(Span(0, n)) + {131071};
    assert Mids(Ends()) + Mids(Span(0, n)) == Mids(Span(0, n)) + {255};
  }
}
