/**
  exec (kernel/exec.c): a new image is built beside the old one from the program headers, and
  exactly one of the two is freed. It succeeds exactly when the headers are in order, the arguments
  fit on the stack, and the free list has enough pages.
 */
module ExecImage {
  import opened ExecFile
  import opened ExecStack
  import opened PageTable
  import opened ProcImage
  import opened TableCount
  import opened Vm

  // offsets in the trapframe, in words
  const EPC: nat := 24 / 8
  const SP: nat := 48 / 8
  const A1: nat := 120 / 8

  /** The program may access all of its first `n` pages. */
  ghost predicate AllUser(f: map<nat, nat>, n: nat) {
    forall v :: 0 <= v < n ==> v in f && User(f[v])
  }

  /** Growing keeps the permissions there were. */
  lemma UserGrown(mem: Memory, f: map<nat, nat>, g: map<nat, nat>, n0: nat, n: nat, xperm: nat)
    requires AllUser(f, n0) && n0 <= n && g - Span(n0, n - n0) == f && xperm in {0, PTE_W, PTE_X, PTE_W + PTE_X}
    requires PagesAre(mem, g, n0, n, Zeroed(PTE_R + PTE_U + xperm))
    ensures AllUser(g, n)
  {
    hide User, Pa, MkPte;
    forall v | 0 <= v < n ensures v in g && User(g[v]) {
      if v < n0 {
        assert v in f && v !in Span(n0, n - n0);
      } else {
        assert PageIs(mem, g[v], Zeroed(PTE_R + PTE_U + xperm)(v));
        UserPte(g[v], xperm);
      }
    }
  }

  lemma NoPages(f: map<nat, nat>)
    ensures AllUser(f, Up(0))
  {
  }

  lemma UserPte(w: nat, xperm: nat)
    requires w == MkPte(Pa(w), PTE_R + PTE_U + xperm) && xperm in {0, PTE_W, PTE_X, PTE_W + PTE_X}
    ensures User(w)
  {
    hide Pa;
    SplitUser(Pa(w) / 4096, PTE_R + PTE_U + xperm + 1);
  }

  /** The image under construction: it owns exactly pages taken from the free list. */
  ghost predicate Building(vm: Vm, t: Tree, sz: nat, trap: nat, m0: Memory, free0: set<nat>)
    reads vm
  {
    && vm.Space(t, Up(sz), trap) && vm.Total(t, Up(sz)) == free0
    && SameBut(m0, vm.mem, free0)
  }

  /** Of `count` free pages, the image has taken what `n` pages of user memory cost. */
  ghost predicate Spent(t: Tree, n: nat, count: nat, left: nat) {
    Exactly(t, Ends() + Span(0, n)) && count == left + Cost(n)
  }

  lemma SpentStep(t: Tree, t': Tree, a: nat, b: nat, count: nat, left: nat)
    requires Spent(t, a, count, left) && a <= b
    ensures count >= Cost(b) <==> left >= b - a + Missing(t, Span(a, b - a))
    ensures Extended(t, t', Span(a, b - a)) && left >= b - a + Missing(t, Span(a, b - a)) ==>
      Spent(t', b, count, left - (b - a + Missing(t, Span(a, b - a))))
  {
    hide Exactly, Extended, Missing, Cost, Span;
    CostStep(t, a, b);
    SpanJoin(a, b);
    if Extended(t, t', Span(a, b - a)) { ExactlyPlus(t, t', Ends() + Span(0, a), Span(a, b - a)); }
  }

  /** Where neither the entries nor the pages that they refer to have changed. */
  lemma PagesStay(m: Memory, f: map<nat, nat>, avail: set<nat>, m': Memory, f': map<nat, nat>, n: nat, s: set<nat>)
    requires UserOk(f, n, avail) && avail <= m.Keys && SameBut(m, m', s) && FrameSet(f, 0, n) !! s
    requires forall v :: 0 <= v < n ==> v in f' && f'[v] == f[v]
    ensures KeepsPages(m, f, m', f', n)
  {
    hide Pa;
    forall v: nat | v < n ensures v in f && Pa(f[v]) in avail && Pa(f[v]) !in s { FrameIn(f, 0, n, v); }
  }

  lemma EntriesStay(f: map<nat, nat>, f': map<nat, nat>, n: nat, k: nat, avail: set<nat>)
    requires UserOk(f, n, avail) && f' - Span(n, k) == f
    ensures forall v :: 0 <= v < n ==> v in f' && f'[v] == f[v]
  {
    hide Pa;
    forall v | 0 <= v < n ensures v in f' && f'[v] == f[v] { assert v in f && v !in Span(n, k); }
  }

  lemma KeepsTrans(m: Memory, f: map<nat, nat>, m1: Memory, f1: map<nat, nat>, m2: Memory, f2: map<nat, nat>, n: nat)
    requires KeepsPages(m, f, m1, f1, n) && KeepsPages(m1, f1, m2, f2, n)
    ensures KeepsPages(m, f, m2, f2, n)
  {
    hide Pa;
  }

  lemma RamKeys(vm: Vm)
    requires vm.Valid()
    ensures vm.ram <= vm.mem.Keys
  {
  }

  /** uvmalloc, and what it costs. */
  method GrowPages(vm: Vm, ghost t: Tree, root: nat, sz: nat, newsz: nat, xperm: nat, ghost trap: nat, ghost count: nat)
    returns (sz': nat, ghost t': Tree, ghost n: nat)
    requires vm.Space(t, Up(sz), trap) && t.root == root && |vm.ram| < MAXVPN - 2
    requires Spent(t, Up(sz), count, |vm.free|) && xperm in {0, PTE_W, PTE_X, PTE_W + PTE_X}
    modifies vm
    ensures var top := if newsz < sz then sz else newsz;
      && Up(sz) <= Up(top) && sz' == (if count >= Cost(Up(top)) then top else 0)
      && n == if count >= Cost(Up(top)) then Up(top) else Up(sz)
    ensures t'.root == root && vm.UserSpace(t', n) && vm.Total(t', n) == old(vm.Total(t, Up(sz)))
    ensures Flat(vm.mem, t') - Span(Up(sz), n - Up(sz)) == Flat(old(vm.mem), t)
    ensures sz' != 0 ==> PagesAre(vm.mem, Flat(vm.mem, t'), Up(sz), n, Zeroed(PTE_R + PTE_U + xperm))
    ensures sz' != 0 ==> Spent(t', n, count, |vm.free|)
    ensures SameBut(old(vm.mem), vm.mem, Set(old(vm.free)) + Pages(t'))
  {
    hide TreeOk, Flat, Pages, Linked, RamOk, SameBut, Set, UserOk, ProcMap, FrameSet, Up, Span, PagesAre, Zeroed,
      Spent, Missing, Extended, Cost;
    ghost var left := |vm.free|;
    ProcFreeRange(Flat(vm.mem, t), Up(sz), trap, vm.trampoline);
    UpMono(sz, if newsz < sz then sz else newsz);
    SpanNone(Flat(vm.mem, t), Up(sz));
    ghost var grown;
    sz', t', grown := vm.Uvmalloc(t, root, sz, newsz, xperm);
    if newsz >= sz { SpentStep(t, t', Up(sz), Up(newsz), count, left); } else { SpentCovers(t, Up(sz), count, left); }
    n := if grown then Up(sz') else Up(sz);
  }

  /** The image under construction with more pages. */
  lemma StillBuilding(vm: Vm, t: Tree, t': Tree, sz: nat, sz': nat, trap: nat, m0: Memory, free0: set<nat>,
                      m1: Memory, free1: set<nat>)
    requires TreeOk(m1, t) && UserOk(Flat(m1, t), Up(sz), vm.ram - free1 - Pages(t)) && vm.ram <= m1.Keys
    requires ProcMap(Flat(m1, t), Up(sz), trap, vm.trampoline) && SameBut(m0, m1, free0)
    requires vm.UserSpace(t', Up(sz')) && vm.Total(t', Up(sz')) == free0 && free1 <= free0 && |vm.ram| < MAXVPN - 2
    requires Up(sz) <= Up(sz') && Flat(vm.mem, t') - Span(Up(sz), Up(sz') - Up(sz)) == Flat(m1, t)
    requires SameBut(m1, vm.mem, free1 + Pages(t'))
    ensures Building(vm, t', sz', trap, m0, free0)
    ensures KeepsPages(m1, Flat(m1, t), vm.mem, Flat(vm.mem, t'), Up(sz))
  {
    hide TreeOk, Flat, Pages, Linked, RamOk, SameBut, Set, UserOk, ProcMap, FrameSet, Up, Span, KeepsPages;
    var f, f' := Flat(m1, t), Flat(vm.mem, t');
    var avail, avail' := vm.ram - free1 - Pages(t), vm.ram - Set(vm.free) - Pages(t');
    UserFrames(f, Up(sz), avail);
    UserRoom(f', Up(sz'), avail', vm.ram);
    GrownPages(f, f', Up(sz), Up(sz'), avail, avail');
    PagesStay(m1, f, avail, vm.mem, f', Up(sz), free1 + Pages(t'));
    SameTrans(m0, m1, vm.mem, free0, free1 + Pages(t'));
    ProcGrow(f, f', Up(sz), Up(sz'), trap, vm.trampoline, avail');
  }

  /** One uvmalloc of exec; false when it has to give up. */
  method GrowImage(vm: Vm, ghost t: Tree, root: nat, sz: nat, newsz: nat, xperm: nat, ghost trap: nat,
                   ghost m0: Memory, ghost free0: set<nat>, ghost count: nat)
    returns (ok: bool, sz': nat, ghost t': Tree)
    requires Building(vm, t, sz, trap, m0, free0) && t.root == root && |vm.ram| < MAXVPN - 2
    requires Spent(t, Up(sz), count, |vm.free|) && xperm in {0, PTE_W, PTE_X, PTE_W + PTE_X}
    modifies vm
    ensures Building(vm, t', sz', trap, m0, free0) && t'.root == root
    ensures var top := if newsz < sz then sz else newsz;
      && (ok <==> top > 0 && count >= Cost(Up(top)))
      && sz' == (if ok then top else sz) && Up(sz) <= Up(top)
    ensures ok ==> PagesAre(vm.mem, Flat(vm.mem, t'), Up(sz), Up(sz'), Zeroed(PTE_R + PTE_U + xperm))
    ensures ok ==> Spent(t', Up(sz'), count, |vm.free|)
    ensures KeepsPages(old(vm.mem), Flat(old(vm.mem), t), vm.mem, Flat(vm.mem, t'), Up(sz))
    ensures AllUser(Flat(old(vm.mem), t), Up(sz)) ==> AllUser(Flat(vm.mem, t'), Up(sz'))
  {
    hide TreeOk, Flat, Pages, SameBut, UserOk, ProcMap, FrameSet, Linked, RamOk, Set, Span, Up, PagesAre, Zeroed,
      AllUser, Spent, Cost, KeepsPages;
    ghost var f, m1, free1 := Flat(vm.mem, t), vm.mem, Set(vm.free);
    RamKeys(vm);
    ghost var n;
    sz', t', n := GrowPages(vm, t, root, sz, newsz, xperm, trap, count);
    ok := sz' != 0;
    if !ok {
      sz' := sz;
      NoneGrown(n, Up(sz), newsz, sz, count);
    }
    StillBuilding(vm, t, t', sz, sz', trap, m0, free0, m1, free1);
    if AllUser(f, Up(sz)) {
      if ok {
        UserGrown(vm.mem, f, Flat(vm.mem, t'), Up(sz), Up(sz'), xperm);
      } else {
        UserStays(m1, f, vm.mem, Flat(vm.mem, t'), Up(sz));
      }
    }
  }

  /** uvmalloc gives 0 for an empty image, too. */
  lemma NoneGrown(n: nat, n0: nat, newsz: nat, sz: nat, count: nat)
    requires var top := if newsz < sz then sz else newsz;
      n == (if count >= Cost(Up(top)) then Up(top) else n0) && n0 == Up(sz) && (top == 0 || count < Cost(Up(top)))
    ensures n == n0
  {
    hide Cost;
  }

  lemma UserStays(m: Memory, f: map<nat, nat>, m': Memory, f': map<nat, nat>, n: nat)
    requires AllUser(f, n) && KeepsPages(m, f, m', f', n)
    ensures AllUser(f', n)
  {
    hide User, Pa;
  }

  lemma SpentCovers(t: Tree, n: nat, count: nat, left: nat)
    requires Spent(t, n, count, left)
    ensures count >= Cost(n)
  {
  }

  /** The old pages are among the new ones. */
  lemma GrownPages(f: map<nat, nat>, g: map<nat, nat>, n0: nat, n: nat, avail: set<nat>, avail': set<nat>)
    requires UserOk(f, n0, avail) && UserOk(g, n, avail') && n0 <= n && g - Span(n0, n - n0) == f
    ensures (forall v :: 0 <= v < n0 ==> v in g && g[v] == f[v]) && FrameSet(f, 0, n0) <= avail'
  {
    hide UserOk, FrameSet, Span;
    EntriesStay(f, g, n0, n - n0, avail);
    FramesStay(f, g, n0, n);
    UserFrames(g, n, avail');
  }

  /**
    loadseg: reads the file into the pages of a segment, which are all there, so that its panic
    is never reached.
   */
  method LoadSeg(vm: Vm, ghost t: Tree, root: nat, va: nat, n: nat, data: seq<seq<nat>>, ghost sz: nat,
                 ghost trap: nat, ghost m0: Memory, ghost free0: set<nat>)
    returns (ok: bool)
    requires Building(vm, t, sz, trap, m0, free0) && t.root == root && AllUser(Flat(vm.mem, t), Up(sz))
    requires va % 4096 == 0 && va + n <= sz && forall k :: 0 <= k < |data| ==> |data[k]| == 512
    modifies vm
    ensures Building(vm, t, sz, trap, m0, free0) && Flat(vm.mem, t) == Flat(old(vm.mem), t) && vm.free == old(vm.free)
    ensures ok <==> Up(n) <= |data|
    ensures ok ==> Holds(vm.mem, Flat(vm.mem, t), va / 4096, Up(n), data)
    ensures ok ==> OthersStay(old(vm.mem), vm.mem, Flat(vm.mem, t), Up(sz), va / 4096, Up(n))
  {
    hide TreeOk, Flat, Pages, Linked, RamOk, SameBut, Set, ProcMap, FrameSet, User, Holds, AllUser, Injects, UserOk, Up,
      OthersStay;
    ghost var f, v, m1 := Flat(vm.mem, t), va / 4096, vm.mem;
    HoldsNone(vm.mem, f, v, data);
    NothingLoaded(vm, t, sz, trap, m0, free0, v);
    LoadPages(va, n, sz);
    var i := 0;
    ghost var k := 0;
    while i < n
      invariant i == k * 4096 && k <= Up(n) && k <= |data|
      invariant Building(vm, t, sz, trap, m0, free0) && Flat(vm.mem, t) == f && vm.free == old(vm.free)
      invariant Holds(vm.mem, f, v, k, data) && OthersStay(m1, vm.mem, f, Up(sz), v, k)
    {
      LoadPage(va, n, sz, i, k);
      var pa := vm.Walkaddr(t, root, va + i);
      SegmentPage(vm, t, sz, trap, m0, free0, v + k);
      assert pa != 0;
      if i / 4096 >= |data| {
        return false;
      }
      HoldsNext(vm.mem, f, Up(sz), v, k, data);
      StayNext(m1, vm.mem, f, Up(sz), v, k, data[k]);
      WritePage(vm, t, sz, trap, m0, free0, pa, data[i / 4096]);
      i := i + 4096;
      k := k + 1;
    }
    LoadEnd(n, k);
    ok := true;
  }

  lemma NothingLoaded(vm: Vm, t: Tree, sz: nat, trap: nat, m0: Memory, free0: set<nat>, v: nat)
    requires Building(vm, t, sz, trap, m0, free0)
    ensures OthersStay(vm.mem, vm.mem, Flat(vm.mem, t), Up(sz), v, 0)
  {
    hide TreeOk, Flat, Pages, Linked, SameBut, Set, ProcMap, FrameSet, Up, UserOk, Pa;
    RamKeys(vm);
    forall u: nat | u < Up(sz)
      ensures u in Flat(vm.mem, t) && Pa(Flat(vm.mem, t)[u]) in vm.mem
    {
      UserPage(Flat(vm.mem, t), Up(sz), vm.ram - Set(vm.free) - Pages(t), u);
    }
  }

  lemma LoadPages(va: nat, n: nat, sz: nat)
    requires va % 4096 == 0 && va + n <= sz
    ensures va / 4096 + Up(n) <= Up(sz) && (n > 0 ==> Up(n) > 0)
  {
  }

  lemma LoadPage(va: nat, n: nat, sz: nat, i: nat, k: nat)
    requires va % 4096 == 0 && va + n <= sz && i == k * 4096 < n
    ensures (va + i) / 4096 == va / 4096 + k < Up(sz) && k < Up(n) && i / 4096 == k
    ensures i + 4096 >= n ==> k + 1 == Up(n)
  {
  }

  lemma LoadEnd(n: nat, k: nat)
    requires n <= k * 4096 && k <= Up(n)
    ensures k == Up(n)
  {
  }

  /** A page of the image under construction can be accessed, and comes from the free list. */
  lemma SegmentPage(vm: Vm, t: Tree, sz: nat, trap: nat, m0: Memory, free0: set<nat>, v: nat)
    requires Building(vm, t, sz, trap, m0, free0) && AllUser(Flat(vm.mem, t), Up(sz)) && v < Up(sz)
    ensures var f := Flat(vm.mem, t);
      && v < MAXVPN && v in f && User(f[v]) && Injects(f, 0, Up(sz))
      && Pa(f[v]) in vm.ram - Set(vm.free) - Pages(t) && Pa(f[v]) in free0 && Pa(f[v]) != 0
  {
    hide TreeOk, Flat, Pages, Linked, SameBut, Set, ProcMap, FrameSet, User, Injects, Up;
    UserPage(Flat(vm.mem, t), Up(sz), vm.ram - Set(vm.free) - Pages(t), v);
  }

  /** A store to a page of the image under construction. */
  method WritePage(vm: Vm, ghost t: Tree, ghost sz: nat, ghost trap: nat, ghost m0: Memory, ghost free0: set<nat>,
                   pa: nat, page: seq<nat>)
    requires Building(vm, t, sz, trap, m0, free0) && pa in vm.ram - Set(vm.free) - Pages(t) && pa in free0
    requires |page| == 512
    modifies vm
    ensures Building(vm, t, sz, trap, m0, free0) && Flat(vm.mem, t) == Flat(old(vm.mem), t)
    ensures vm.mem == old(vm.mem)[pa := page] && vm.free == old(vm.free)
  {
    hide TreeOk, Flat, Pages, Linked, SameBut, Set, ProcMap, FrameSet, UserOk, Up;
    ghost var m1 := vm.mem;
    vm.FillPage(t, pa, page);
    SameTrans(m0, m1, vm.mem, free0, {pa});
  }

  /** Gives up: the image under construction goes back to the free list. */
  method DropImage(vm: Vm, ghost t: Tree, root: nat, sz: nat, ghost trap: nat, ghost m0: Memory, ghost free0: set<nat>)
    requires Building(vm, t, sz, trap, m0, free0) && t.root == root
    modifies vm
    ensures vm.Valid() && Set(vm.free) == free0 && SameBut(m0, vm.mem, free0)
  {
    hide TreeOk, Flat, Pages, Linked, RamOk, SameBut, Set, UserOk, ProcMap, FrameSet, Up;
    ghost var m1, s := vm.mem, Pages(t) + FrameSet(Flat(vm.mem, t), 0, Up(sz));
    vm.ProcFreepagetable(t, root, sz, trap);
    SameTrans(m0, m1, vm.mem, free0, s);
  }

  /** The guard page below the stack loses its user permission; nothing else changes. */
  method Guard(vm: Vm, ghost t: Tree, root: nat, sz: nat, ghost trap: nat, ghost m0: Memory, ghost free0: set<nat>)
    requires Building(vm, t, sz, trap, m0, free0) && t.root == root && Up(sz) * 4096 == sz && Up(sz) >= 2
    modifies vm
    ensures Building(vm, t, sz, trap, m0, free0)
    ensures var f, v := Flat(vm.mem, t), Up(sz) - 2;
            v in f && !User(f[v]) && f == Flat(old(vm.mem), t)[v := f[v]]
    ensures KeepsPages(old(vm.mem), Flat(old(vm.mem), t), vm.mem, Flat(vm.mem, t), Up(sz) - 2)
  {
    hide TreeOk, Flat, Pages, Linked, RamOk, SameBut, Set, UserOk, ProcMap, FrameSet, ClearU, User, Pa, KeepsPages;
    ghost var f, n, m1, avail := Flat(vm.mem, t), Up(sz), vm.mem, vm.ram - Set(vm.free) - Pages(t);
    GuardPage(sz);
    RamKeys(vm);
    UserPage(f, n, avail, n - 2);
    UserFewer(f, n - 2, n, avail);
    vm.Uvmclear(t, root, sz - 2 * 4096);
    GuardKeeps(f, n, avail, trap, vm.trampoline, n - 2);
    SameTrans(m0, m1, vm.mem, free0, Pages(t));
    PagesStay(m1, f, avail, vm.mem, Flat(vm.mem, t), n - 2, Pages(t));
  }

  lemma UserFewer(f: map<nat, nat>, m: nat, n: nat, avail: set<nat>)
    requires UserOk(f, n, avail) && m <= n
    ensures UserOk(f, m, avail) && FrameSet(f, 0, m) <= avail && forall v :: 0 <= v < m ==> v in f
  {
    hide Pa;
  }

  lemma GuardPage(sz: nat)
    requires Up(sz) * 4096 == sz && Up(sz) >= 2
    ensures sz >= 2 * 4096 && (sz - 2 * 4096) / 4096 == Up(sz) - 2
  {
  }

  /** Changing an entry without changing the page it refers to. */
  lemma SamePage(f: map<nat, nat>, n: nat, avail: set<nat>, v: nat, w: nat)
    requires UserOk(f, n, avail) && v < n && v in f && Pa(w) == Pa(f[v])
    ensures UserOk(f[v := w], n, avail) && FrameSet(f[v := w], 0, n) == FrameSet(f, 0, n)
  {
    hide Pa;
    var g := f[v := w];
    forall u: nat | u < n ensures u in f && Pa(g[u]) == Pa(f[u]) { }
    forall u: nat | u < n ensures Pa(f[u]) in FrameSet(g, 0, n) { FrameIn(g, 0, n, u); }
    forall u: nat | u < n ensures Pa(f[u]) in FrameSet(f, 0, n) { FrameIn(f, 0, n, u); }
  }

  lemma GuardKeeps(f: map<nat, nat>, n: nat, avail: set<nat>, trap: nat, trampoline: nat, v: nat)
    requires UserOk(f, n, avail) && ProcMap(f, n, trap, trampoline) && v < n <= MAXVPN - 2 && v in f
    ensures var g := f[v := ClearU(f[v])];
            && UserOk(g, n, avail) && ProcMap(g, n, trap, trampoline) && FrameSet(g, 0, n) == FrameSet(f, 0, n)
            && !User(g[v])
  {
    hide Pa, MkPte, ClearU, User, UserOk, FrameSet;
    ClearUKeeps(f[v]);
    SamePage(f, n, avail, v, ClearU(f[v]));
    assert v in Span(0, n);
  }

  /** Commits to the new image: the old one goes back to the free list. */
  method SwapImage(vm: Vm, ghost told: Tree, oldroot: nat, oldsz: nat, ghost t: Tree, ghost sz: nat,
                   ghost trap: nat, ghost m0: Memory, ghost free0: set<nat>)
    requires vm.Space(told, Up(oldsz), trap) && told.root == oldroot
    requires Building(vm, t, sz, trap, m0, free0)
    requires free0 !! Pages(told) + FrameSet(Flat(vm.mem, told), 0, Up(oldsz))
    modifies vm
    ensures vm.Space(t, Up(sz), trap) && Flat(vm.mem, t) == Flat(old(vm.mem), t)
    ensures vm.Total(t, Up(sz)) == free0 + Pages(told) + FrameSet(Flat(old(vm.mem), told), 0, Up(oldsz))
    ensures Pages(t) + FrameSet(Flat(vm.mem, t), 0, Up(sz)) <= free0
    ensures SameBut(m0, vm.mem, free0 + Pages(told) + FrameSet(Flat(old(vm.mem), told), 0, Up(oldsz)))
    ensures KeepsPages(old(vm.mem), Flat(vm.mem, t), vm.mem, Flat(vm.mem, t), Up(sz))
  {
    hide TreeOk, Flat, Pages, Linked, RamOk, SameBut, Set, UserOk, ProcMap, FrameSet, Up, KeepsPages;
    ghost var m1, free1, g := vm.mem, Set(vm.free), Flat(vm.mem, t);
    RamKeys(vm);
    UserFrames(g, Up(sz), vm.ram - free1 - Pages(t));
    UserFewer(g, Up(sz), Up(sz), vm.ram - free1 - Pages(t));
    ghost var gone := Pages(told) + FrameSet(Flat(vm.mem, told), 0, Up(oldsz));
    vm.ProcFreepagetable(told, oldroot, oldsz, trap);
    SameWider(m0, m1, free0, free0 + gone);
    SameTrans(m0, m1, vm.mem, free0 + gone, gone);
    assert free0 + gone == free0 + Pages(told) + FrameSet(Flat(old(vm.mem), told), 0, Up(oldsz));
    vm.ParentKept(m1, free1, t, g, Up(sz), {}, gone, free1 + gone);
    PagesStay(m1, g, vm.ram - free1 - Pages(t), vm.mem, g, Up(sz), gone);
  }

  lemma UntouchedPage(m0: Memory, m1: Memory, s: set<nat>, x: nat)
    requires SameBut(m0, m1, s) && x in m0 && x !in s
    ensures x in m1 && m1[x] == m0[x]
  {
  }

  /** A page for the stack, and below it one that the program cannot touch. */
  ghost predicate StackMapped(f: map<nat, nat>, n: nat) {
    && n >= 2 && n - 2 in f && !User(f[n - 2])
    && n - 1 in f && Flags(f[n - 1]) == PTE_V + PTE_R + PTE_W + PTE_U
  }

  lemma StackReady(mem: Memory, f: map<nat, nat>, g: map<nat, nat>, n: nat)
    requires n >= 2 && PagesAre(mem, f, n - 2, n, Zeroed(PTE_R + PTE_U + PTE_W))
    requires n - 2 in g && !User(g[n - 2]) && g == f[n - 2 := g[n - 2]]
    ensures StackMapped(g, n)
  {
    assert PageIs(mem, f[n - 1], Zeroed(PTE_R + PTE_U + PTE_W)(n - 1));
    StackFlags(f[n - 1]);
  }

  lemma StackFlags(w: nat)
    requires w == MkPte(Pa(w), PTE_R + PTE_U + PTE_W)
    ensures Flags(w) == PTE_V + PTE_R + PTE_W + PTE_U
  {
  }

  lemma SameUp(sz: nat)
    ensures Up(Up(sz) * 4096) == Up(sz)
  {
  }

  lemma StackPages(sz: nat)
    requires Up(sz) * 4096 == sz
    ensures Up(sz + 2 * 4096) == Up(sz) + 2 && Up(sz + 2 * 4096) * 4096 == sz + 2 * 4096
  {
  }

  /** The image has what the first `k` headers ask for. */
  ghost predicate Realizes(segs: seq<Segment>, k: nat, mem: Memory, f: map<nat, nat>)
    requires k <= |segs|
  {
    BytesOf(segs, k, Up(Top(segs, k)), mem, f) && PermsOf(segs, k, f)
  }

  lemma BadIs(s: Segment)
    requires SegmentOk(s) && s.whole && s.kind == 1
    ensures Loadable(s) <==> !BadSegment(s) && FilePages(s) <= |s.data|
    ensures !BadSegment(s) ==> s.filesz % 0x1_0000_0000 <= s.memsz && s.vaddr % 4096 == 0
  {
    hide FilePages;
  }

  lemma TopNext(segs: seq<Segment>, k: nat)
    requires k < |segs| && segs[k].kind == 1
    ensures var end, sz := segs[k].vaddr + segs[k].memsz, Top(segs, k);
      Top(segs, k + 1) == (if end < sz then sz else end) && end <= Top(segs, k + 1)
  {
  }

  /** One round of exec's loop, for a segment to be loaded. */
  method AddSegment(vm: Vm, ghost t: Tree, root: nat, sz: nat, segs: seq<Segment>, k: nat, ghost trap: nat,
                    ghost m0: Memory, ghost free0: set<nat>, ghost count: nat)
    returns (bad: bool, sz': nat, ghost t': Tree)
    requires Building(vm, t, sz, trap, m0, free0) && t.root == root && |vm.ram| < MAXVPN - 2
    requires k < |segs| && SegmentOk(segs[k]) && segs[k].whole && segs[k].kind == 1 && AllLoadable(segs, k)
    requires sz == Top(segs, k) && Spent(t, Up(sz), count, |vm.free|)
    requires AllUser(Flat(vm.mem, t), Up(sz)) && Realizes(segs, k, vm.mem, Flat(vm.mem, t))
    modifies vm
    ensures Building(vm, t', sz', trap, m0, free0) && t'.root == root
    ensures !bad <==> Loadable(segs[k]) && Top(segs, k + 1) > 0 && count >= Cost(Up(Top(segs, k + 1)))
    ensures !bad ==> sz' == Top(segs, k + 1) && Spent(t', Up(sz'), count, |vm.free|)
    ensures !bad ==> AllUser(Flat(vm.mem, t'), Up(sz')) && Realizes(segs, k + 1, vm.mem, Flat(vm.mem, t'))
  {
    hide TreeOk, Flat, Pages, SameBut, UserOk, ProcMap, FrameSet, Linked, RamOk, Set, Span, Up, PagesAre, Zeroed,
      AllUser, Spent, Cost, KeepsPages, Perm, Holds, OthersStay, BytesOf, PermsOf, Top, FilePages, Loadable, BadSegment,
      AllLoadable;
    var s := segs[k];
    BadIs(s);
    TopNext(segs, k);
    bad, sz', t' := true, sz, t;
    if BadSegment(s) {
      return;
    }
    ghost var m1, f1 := vm.mem, Flat(vm.mem, t);
    var ok;
    ok, sz', t' := GrowImage(vm, t, root, sz, s.vaddr + s.memsz, Perm(s.flags), trap, m0, free0, count);
    if ok {
      ghost var m2 := vm.mem;
      GrowHeader(segs, k, m1, f1, m2, Flat(m2, t'));
      ok := LoadSeg(vm, t', root, s.vaddr, s.filesz % 0x1_0000_0000, s.data, sz', trap, m0, free0);
      FilePagesIs(s);
      if ok { LoadHeader(segs, k, m2, Flat(m2, t'), vm.mem); }
    }
    bad := !ok;
  }

  lemma FilePagesIs(s: Segment)
    ensures FilePages(s) == Up(s.filesz % 0x1_0000_0000)
  {
  }

  /** The stack and the arguments on it; false when exec has to give up. */
  method MakeStack(vm: Vm, ghost t: Tree, root: nat, sz: nat, args: seq<nat>, ghost trap: nat,
                   ghost m0: Memory, ghost free0: set<nat>, ghost count: nat)
    returns (ok: bool, sz': nat, sp: nat, ghost t': Tree)
    requires Building(vm, t, sz, trap, m0, free0) && t.root == root && |vm.ram| < MAXVPN - 2
    requires Spent(t, Up(sz), count, |vm.free|)
    requires forall i :: 0 <= i < |args| ==> args[i] < 4096
    modifies vm
    ensures Building(vm, t', sz', trap, m0, free0) && t'.root == root
    ensures ok <==> ArgsFit(args) && count >= Cost(Up(sz) + 2)
    ensures ok ==> sz' == Up(sz) * 4096 + 2 * 4096 && Up(sz') == Up(sz) + 2 && sp == sz' - StackUse(args)
                   && StackMapped(Flat(vm.mem, t'), Up(sz'))
    ensures ok ==> KeepsPages(old(vm.mem), Flat(old(vm.mem), t), vm.mem, Flat(vm.mem, t'), Up(sz))
  {
    hide TreeOk, Flat, Pages, Linked, RamOk, SameBut, Set, UserOk, ProcMap, FrameSet, Up, PagesAre, User, ArgsFit,
      StackUse, StackMapped, Zeroed, Cost, Spent, KeepsPages;
    SameUp(sz);
    StackPages(Up(sz) * 4096);
    ghost var sz0, m1, f1 := Up(sz) * 4096, vm.mem, Flat(vm.mem, t);
    ok, sz', t' := GrowImage(vm, t, root, Up(sz) * 4096, Up(sz) * 4096 + 2 * 4096, PTE_W, trap, m0, free0, count);
    sp := 0;
    if ok {
      ghost var m2, f2 := vm.mem, Flat(vm.mem, t');
      Guard(vm, t', root, sz', trap, m0, free0);
      StackReady(m2, f2, Flat(vm.mem, t'), Up(sz'));
      KeepsTrans(m1, f1, m2, f2, vm.mem, Flat(vm.mem, t'), Up(sz));
      var ustack;
      ok, sp, ustack := PushArgs(sz', args);
    }
  }

  /** The program counter, the stack pointer and argv of the new program. */
  method SetRegisters(vm: Vm, ghost t: Tree, ghost sz: nat, trap: nat, entry: nat, sp: nat,
                      ghost m0: Memory, ghost total: set<nat>)
    requires vm.Space(t, Up(sz), trap) && SameBut(m0, vm.mem, total) && trap in m0 && trap !in total && trap in vm.ram
    requires Set(vm.free) + Pages(t) + FrameSet(Flat(vm.mem, t), 0, Up(sz)) <= total
    modifies vm`mem
    ensures vm.Space(t, Up(sz), trap) && Flat(vm.mem, t) == Flat(old(vm.mem), t)
    ensures SameBut(m0, vm.mem, total + {trap}) && trap in vm.mem && |m0[trap]| == |vm.mem[trap]| == 512
    ensures forall i :: 0 <= i < 512 ==>
      vm.mem[trap][i] == if i == EPC then entry else if i == SP || i == A1 then sp else m0[trap][i]
    ensures KeepsPages(old(vm.mem), Flat(vm.mem, t), vm.mem, Flat(vm.mem, t), Up(sz))
  {
    hide TreeOk, Flat, Pages, Linked, SameBut, Set, UserOk, ProcMap, Up, FrameSet, KeepsPages;
    ghost var m1, f, avail := vm.mem, Flat(vm.mem, t), vm.ram - Set(vm.free) - Pages(t);
    assert vm.mem[trap] == m0[trap] by { UntouchedPage(m0, vm.mem, total, trap); }
    RamKeys(vm);
    UserFewer(f, Up(sz), Up(sz), avail);
    vm.FillPage(t, trap, vm.mem[trap][A1 := sp][EPC := entry][SP := sp]);
    SameWider(m0, m1, total, total + {trap});
    SameTrans(m0, m1, vm.mem, total + {trap}, {trap});
    PagesStay(m1, f, avail, vm.mem, f, Up(sz), {trap});
  }

  /** When exec succeeds, with `count` free pages. */
  ghost predicate CanRun(segs: seq<Segment>, args: seq<nat>, count: nat) {
    AllLoadable(segs, |segs|) && ArgsFit(args) && count >= Cost(Up(Top(segs, |segs|)) + 2)
  }

  lemma SpentStart(t: Tree, count: nat, left: nat)
    requires Exactly(t, Ends()) && count == left + Tables(Ends())
    ensures Spent(t, Up(0), count, left)
  {
    hide Exactly, Tables;
    SpanZero(0);
    assert Ends() + {} == Ends();
  }

  /** Too few pages for a part are too few for the whole. */
  lemma TooFew(segs: seq<Segment>, args: seq<nat>, count: nat, n: nat)
    requires count < Cost(n) && n <= Up(Top(segs, |segs|)) + 2
    ensures !CanRun(segs, args, count)
  {
    hide Cost, Top, Up;
    CostMono(n, Up(Top(segs, |segs|)) + 2);
  }

  lemma TablesFirst(count: nat)
    requires count < Tables(Ends())
    ensures count < Cost(0)
  {
    hide Tables;
    SpanZero(0);
    assert Ends() + {} == Ends();
  }

  /** A header that stops exec. */
  lemma Stopped(segs: seq<Segment>, args: seq<nat>, count: nat, k: nat)
    requires k < |segs|
    requires !Loadable(segs[k]) || (segs[k].kind == 1 && (Top(segs, k + 1) == 0 || count < Cost(Up(Top(segs, k + 1)))))
    ensures !CanRun(segs, args, count)
  {
    hide Cost, Loadable, Top, Up;
    if Loadable(segs[k]) && Top(segs, k + 1) > 0 {
      TopMono(segs, k + 1, |segs|);
      TooFew(segs, args, count, Up(Top(segs, k + 1)));
    }
  }

  lemma OneMoreLoadable(segs: seq<Segment>, k: nat)
    requires k < |segs| && AllLoadable(segs, k) && Loadable(segs[k]) && (segs[k].kind == 1 ==> Top(segs, k + 1) > 0)
    ensures AllLoadable(segs, k + 1)
  {
    hide Loadable, Top;
  }

  /** The loop over the program headers. */
  method LoadProgram(vm: Vm, ghost t0: Tree, root: nat, segs: seq<Segment>, ghost args: seq<nat>, ghost trap: nat,
                     ghost m0: Memory, ghost free0: set<nat>, ghost count: nat)
    returns (ok: bool, sz: nat, ghost t: Tree)
    requires Building(vm, t0, 0, trap, m0, free0) && t0.root == root && |vm.ram| < MAXVPN - 2
    requires Spent(t0, Up(0), count, |vm.free|) && forall i :: 0 <= i < |segs| ==> SegmentOk(segs[i])
    modifies vm
    ensures Building(vm, t, sz, trap, m0, free0) && t.root == root
    ensures !ok ==> !CanRun(segs, args, count)
    ensures ok ==> AllLoadable(segs, |segs|) && sz == Top(segs, |segs|) && Spent(t, Up(sz), count, |vm.free|)
    ensures ok ==> Realizes(segs, |segs|, vm.mem, Flat(vm.mem, t))
  {
    hide TreeOk, Flat, Pages, SameBut, UserOk, ProcMap, FrameSet, Linked, RamOk, Set, Up, AllUser, Spent, Cost, BytesOf,
      PermsOf, Top, Loadable, AllLoadable, CanRun, SegmentOk, Realizes;
    ok, sz, t := true, 0, t0;
    StartImage(segs, vm.mem, Flat(vm.mem, t));
    var i := 0;
    while i < |segs|
      invariant 0 <= i <= |segs| && t.root == root && Building(vm, t, sz, trap, m0, free0)
      invariant AllLoadable(segs, i) && sz == Top(segs, i) && Spent(t, Up(sz), count, |vm.free|)
      invariant AllUser(Flat(vm.mem, t), Up(sz)) && Realizes(segs, i, vm.mem, Flat(vm.mem, t))
    {
      ghost var k := i;
      if !segs[i].whole {
        NotWhole(segs[i]);
        Stopped(segs, args, count, k);
        return false, sz, t;
      }
      if segs[i].kind == ELF_PROG_LOAD {
        var bad;
        bad, sz, t := AddSegment(vm, t, root, sz, segs, i, trap, m0, free0, count);
        if bad {
          Stopped(segs, args, count, k);
          return false, sz, t;
        }
      } else {
        NotLoaded(segs[i]);
        Skipped(segs, k, vm.mem, Flat(vm.mem, t));
      }
      OneMoreLoadable(segs, k);
      i := i + 1;
    }
  }

  lemma NotWhole(s: Segment)
    requires !s.whole
    ensures !Loadable(s)
  {
  }

  lemma NotLoaded(s: Segment)
    requires s.whole && s.kind != 1
    ensures Loadable(s)
  {
  }

  lemma Skipped(segs: seq<Segment>, k: nat, mem: Memory, f: map<nat, nat>)
    requires k < |segs| && segs[k].kind != 1 && Realizes(segs, k, mem, f)
    ensures Top(segs, k + 1) == Top(segs, k) && Realizes(segs, k + 1, mem, f)
  {
    hide BytesOf, PermsOf, Up;
    SkipHeader(segs, k, mem, f);
  }

  lemma StartImage(segs: seq<Segment>, mem: Memory, f: map<nat, nat>)
    ensures Top(segs, 0) == 0 && AllLoadable(segs, 0) && Realizes(segs, 0, mem, f) && AllUser(f, Up(0))
  {
    hide BytesOf, PermsOf, AllUser;
    BytesNone(segs, mem, f);
    NoPages(f);
  }

  lemma RealizesKept(segs: seq<Segment>, m: Memory, f: map<nat, nat>, m': Memory, f': map<nat, nat>)
    requires Realizes(segs, |segs|, m, f) && KeepsPages(m, f, m', f', Up(Top(segs, |segs|)))
    ensures Realizes(segs, |segs|, m', f')
  {
    hide BytesOf, PermsOf, Up, Top, KeepsPages;
    BytesKept(segs, |segs|, Up(Top(segs, |segs|)), m, f, m', f');
    PermsKept(segs, |segs|, m, f, m', f');
  }

  lemma KeepsFewer(m: Memory, f: map<nat, nat>, m': Memory, f': map<nat, nat>, k: nat, n: nat)
    requires KeepsPages(m, f, m', f', n) && k <= n
    ensures KeepsPages(m, f, m', f', k)
  {
    hide Pa;
  }

  /**
    exec: builds a new image beside the old one. Exactly one of the two is freed: the old one
    on success, the new one, with everything allocated for it, on any failure. A program that
    starts has its registers set in the trapframe, which nothing else changes.
   */
  method Exec(vm: Vm, ghost told: Tree, oldroot: nat, oldsz: nat, trap: nat, segs: seq<Segment>, entry: nat,
              args: seq<nat>)
    returns (ok: bool, root: nat, sz: nat, ghost t: Tree)
    requires vm.Space(told, Up(oldsz), trap) && told.root == oldroot && |vm.ram| < MAXVPN - 2
    requires trap % 4096 == 0 && vm.trampoline % 4096 == 0
    requires trap in vm.ram - Set(vm.free) - Pages(told) - FrameSet(Flat(vm.mem, told), 0, Up(oldsz))
    requires forall i :: 0 <= i < |segs| ==> SegmentOk(segs[i])
    requires forall i :: 0 <= i < |args| ==> args[i] < 4096
    modifies vm
    ensures ok <==> CanRun(segs, args, |old(vm.free)|)
    ensures !ok ==> Set(vm.free) == Set(old(vm.free)) && vm.Space(told, Up(oldsz), trap)
                    && Flat(vm.mem, told) == Flat(old(vm.mem), told)
                    && SameBut(old(vm.mem), vm.mem, Set(old(vm.free)))
    ensures ok ==> vm.Space(t, Up(sz), trap) && t.root == root
                   && vm.Total(t, Up(sz)) == old(vm.Total(told, Up(oldsz)))
                   && Pages(t) + FrameSet(Flat(vm.mem, t), 0, Up(sz)) <= Set(old(vm.free))
                   && SameBut(old(vm.mem), vm.mem, old(vm.Total(told, Up(oldsz))) + {trap})
    ensures ok ==> Realizes(segs, |segs|, vm.mem, Flat(vm.mem, t))
                   && sz == (Up(Top(segs, |segs|)) + 2) * 4096 && StackMapped(Flat(vm.mem, t), Up(sz))
    ensures ok ==> StackUse(args) <= sz && trap in vm.mem && trap in old(vm.mem)
                   && |old(vm.mem)[trap]| == |vm.mem[trap]| == 512
    ensures ok ==> forall i :: 0 <= i < 512 ==>
      vm.mem[trap][i] ==
      if i == EPC then entry else if i == SP || i == A1 then sz - StackUse(args) else old(vm.mem)[trap][i]
  {
    hide TreeOk, Flat, Pages, Linked, SameBut, Set, UserOk, ProcMap, FrameSet, Up, StackMapped, ArgsFit, StackUse,
      SegmentOk, CanRun, Spent, Cost, Tables, Exactly, Realizes, Top, AllLoadable, KeepsPages;
    ghost var m0, free0, count, f, n := vm.mem, Set(vm.free), |vm.free|, Flat(vm.mem, told), Up(oldsz);
    UserFrames(f, n, vm.ram - free0 - Pages(told));
    ok, sz := false, 0;
    root, t := vm.ProcPagetable(trap);
    if root == 0 {
      TablesFirst(count);
      TooFew(segs, args, count, 0);
      vm.ParentKept(m0, free0, told, f, n, {}, free0, free0);
      return;
    }
    NoUser(Flat(vm.mem, t), {});
    SpentStart(t, count, |vm.free|);
    var loaded;
    loaded, sz, t := LoadProgram(vm, t, root, segs, args, trap, m0, free0, count);
    var made, sp := false, 0;
    ghost var m1, f1 := vm.mem, Flat(vm.mem, t);
    if loaded {
      made, sz, sp, t := MakeStack(vm, t, root, sz, args, trap, m0, free0, count);
      RunsIf(segs, args, count);
    }
    if !made {
      DropImage(vm, t, root, sz, trap, m0, free0);
      vm.ParentKept(m0, free0, told, f, n, {}, free0, free0);
      return;
    }
    ghost var m2, f2 := vm.mem, Flat(vm.mem, t);
    vm.ParentKept(m0, free0, told, f, n, {}, free0, free0);
    SwapImage(vm, told, oldroot, oldsz, t, sz, trap, m0, free0);
    ghost var m3 := vm.mem;
    SetRegisters(vm, t, sz, trap, entry, sp, m0, vm.Total(t, Up(sz)));
    KeepsTrans(m2, f2, m3, f2, vm.mem, f2, Up(sz));
    KeepsFewer(m2, f2, vm.mem, f2, Up(Top(segs, |segs|)), Up(sz));
    KeepsTrans(m1, f1, m2, f2, vm.mem, f2, Up(Top(segs, |segs|)));
    RealizesKept(segs, m1, f1, vm.mem, f2);
    ok := true;
  }

  lemma RunsIf(segs: seq<Segment>, args: seq<nat>, count: nat)
    requires AllLoadable(segs, |segs|)
    ensures CanRun(segs, args, count) <==> ArgsFit(args) && count >= Cost(Up(Top(segs, |segs|)) + 2)
    ensures ArgsFit(args) ==> StackUse(args) <= 4096
  {
    hide Cost, Top, Up, AllLoadable, StackUse;
  }
}
