/**
  kernel/kalloc.c and kernel/vm.c as code over one physical memory: the free list is threaded
  through the free pages themselves, and page tables live in the same pages. Each method says
  what it does to the free list, to the pages it owns and to the flat view of a page table,
  and that every other page keeps its contents.
 */
module Vm {
  import opened Wrappers
  import opened PageTable
  import opened Seqs
  import opened TableCount

  ghost function Set(s: seq<nat>): set<nat> { set x | x in s }

  /** What the first word of the i-th free page holds. */
  ghost function NextFree(free: seq<nat>, i: nat): nat
    requires i < |free|
  {
    if i + 1 < |free| then free[i + 1] else 0
  }

  /** The list that starts at `head` and is linked by the first word of each page is `free`. */
  ghost predicate Linked(mem: Memory, head: nat, free: seq<nat>) {
    && head == (if free == [] then 0 else free[0])
    && Distinct(free)
    && forall i :: 0 <= i < |free| ==> LinkAt(mem, free, i)
  }

  ghost predicate LinkAt(mem: Memory, free: seq<nat>, i: nat)
    requires i < |free|
  {
    free[i] in mem && |mem[free[i]]| == 512 && mem[free[i]][0] == NextFree(free, i)
  }

  ghost predicate RamOk(mem: Memory, ram: set<nat>) {
    forall p :: p in ram ==> p in mem && Aligned(p) && |mem[p]| == 512
  }

  lemma AttachRam(mem: Memory, ram: set<nat>, key: nat, page: nat, child: nat)
    requires RamOk(mem, ram) && page in mem && |mem[page]| == 512
    ensures RamOk(Attach(mem, key, page, child), ram)
    ensures Attach(mem[child := Fill(5)], key, page, child) == Attach(mem, key, page, child)
  {
  }

  ghost predicate SameOn(mem: Memory, mem': Memory, s: seq<nat>) {
    forall p :: p in s && p in mem ==> p in mem' && mem'[p] == mem[p]
  }

  lemma LinkedFrame(mem: Memory, head: nat, free: seq<nat>, mem': Memory)
    requires Linked(mem, head, free) && SameOn(mem, mem', free)
    ensures Linked(mem', head, free)
  {
    forall i | 0 <= i < |free| ensures LinkAt(mem', free, i) { assert LinkAt(mem, free, i); }
  }

  lemma PushLinked(mem: Memory, head: nat, free: seq<nat>, mem': Memory, pa: nat)
    requires Linked(mem, head, free) && pa !in free
    requires pa in mem' && |mem'[pa]| == 512 && mem'[pa][0] == head
    requires SameOn(mem, mem', free)
    ensures Linked(mem', pa, [pa] + free)
  {
    var f := [pa] + free;
    forall i | 0 <= i < |f| ensures LinkAt(mem', f, i) {
      if i > 0 {
        assert LinkAt(mem, free, i - 1) && f[i] == free[i - 1] && free[i - 1] in free;
      }
    }
  }

  lemma PopLinked(mem: Memory, head: nat, free: seq<nat>, mem': Memory)
    requires Linked(mem, head, free) && free != []
    requires SameOn(mem, mem', free[1..])
    ensures LinkAt(mem, free, 0) && head == free[0] && head !in free[1..]
    ensures Linked(mem', mem[head][0], free[1..])
  {
    var f := free[1..];
    assert LinkAt(mem, free, 0);
    forall i | 0 <= i < |f| ensures LinkAt(mem', f, i) {
      assert LinkAt(mem, free, i + 1) && f[i] == free[i + 1] && f[i] in f;
    }
  }

  /**
    The tree grew from `t` to `t'` by pages taken off the front of the free list; nothing
    outside the tree changed.
   */
  ghost predicate Grew(mem: Memory, free: seq<nat>, t: Tree, mem': Memory, free': seq<nat>, t': Tree) {
    && |free'| <= |free| && free' == free[|free| - |free'|..]
    && Pages(t') == Pages(t) + Set(free[..|free| - |free'|])
    && t'.root == t.root
    && SameBut(mem, mem', Pages(t'))
  }

  lemma GrewSelf(mem: Memory, free: seq<nat>, t: Tree)
    ensures Grew(mem, free, t, mem, free, t)
  {
  }

  lemma GrewWrite(m0: Memory, f0: seq<nat>, t0: Tree, m1: Memory, f1: seq<nat>, t1: Tree, m2: Memory)
    requires Grew(m0, f0, t0, m1, f1, t1) && SameBut(m1, m2, Pages(t1))
    ensures Grew(m0, f0, t0, m2, f1, t1)
  {
  }

  /** What growing a tree means for the sets of pages involved. */
  lemma GrewSets(mem: Memory, free: seq<nat>, t: Tree, mem': Memory, free': seq<nat>, t': Tree)
    requires Grew(mem, free, t, mem', free', t')
    ensures Set(free) + Pages(t) == Set(free') + Pages(t')
    ensures Pages(t) <= Pages(t') && Set(free') <= Set(free) && SameBut(mem, mem', Pages(t'))
  {
  }

  lemma GrewOne(mem: Memory, free: seq<nat>, t: Tree, level: nat, key: nat, page: nat)
    requires free != [] && Distinct(free) && Aligned(free[0]) && free[0] in mem
    requires TreeOk(mem, t) && Pages(t) !! Set(free)
    requires Inner(t, level, key, page) && key !in Children(t, level)
    ensures page in Pages(t) && page in mem && |mem[page]| == 512 && page !in free
    ensures var mem' := Attach(mem, key, page, free[0]);
            var t' := WithChild(t, level, key, free[0]);
            && TreeOk(mem', t') && Flat(mem', t') == Flat(mem, t)
            && Grew(mem, free, t, mem', free[1..], t') && Pages(t') !! Set(free[1..])
  {
    var child := free[0];
    assert child in Set(free) && free[..1] == [child] && Set([child]) == {child};
    GrowTable(mem, t, level, key, page, child);
    assert forall p :: p in free ==> p in Set(free);
  }

  /** The table page and the index in it where page `vpn` is mapped. */
  ghost predicate SlotOf(t: Tree, vpn: nat, slot: (nat, nat)) {
    vpn / 512 in t.low && slot == (t.low[vpn / 512], vpn % 512)
  }

  lemma GrewTrans(m0: Memory, f0: seq<nat>, t0: Tree, m1: Memory, f1: seq<nat>, t1: Tree,
                  m2: Memory, f2: seq<nat>, t2: Tree)
    requires Grew(m0, f0, t0, m1, f1, t1) && Grew(m1, f1, t1, m2, f2, t2)
    ensures Grew(m0, f0, t0, m2, f2, t2)
  {
  }

  function RangePte(lo: nat, pa: nat, perm: nat, v: nat): nat
    requires lo <= v
  {
    MkPte(pa + (v - lo) * 4096, perm)
  }

  /** The `k` pages from `lo` on, mapped to consecutive physical pages from `pa` on. */
  ghost function RangeMap(lo: nat, k: nat, pa: nat, perm: nat): map<nat, nat> {
    map v: nat | lo <= v < lo + k :: RangePte(lo, pa, perm, v)
  }

  lemma RangeZero(f: map<nat, nat>, lo: nat, pa: nat, perm: nat)
    ensures f + RangeMap(lo, 0, pa, perm) == f
  {
  }

  lemma RangeStep(f: map<nat, nat>, lo: nat, k: nat, pa: nat, perm: nat, a: nat, p: nat)
    requires a == (lo + k) * 4096 && p == pa + k * 4096
    ensures lo + k in f + RangeMap(lo, k, pa, perm) <==> lo + k in f
    ensures a / 4096 == lo + k && p % 4096 == pa % 4096
    ensures (f + RangeMap(lo, k, pa, perm))[lo + k := MkPte(p, perm)] == f + RangeMap(lo, k + 1, pa, perm)
  {
    hide MkPte;
    assert pa + (lo + k - lo) * 4096 == p;
  }

  lemma RangeOne(f: map<nat, nat>, v: nat, pa: nat, perm: nat)
    requires pa % 4096 == 0
    ensures v * 4096 / 4096 == v == (v * 4096 + 4095) / 4096
    ensures f + RangeMap(v, 1, pa, perm) == f[v := MkPte(pa, perm)]
    ensures f + RangeMap(v, 0, pa, perm) == f
  {
  }

  /** PGROUNDUP(sz) / PGSIZE */
  function Up(sz: nat): nat { (sz + 4095) / 4096 }

  /** The addresses of the pages that lie wholly between two addresses. */
  ghost function WholePages(start: nat, end: nat): set<nat> {
    set p: nat | p < end && WholePage(start, p, end)
  }

  predicate WholePage(start: nat, p: nat, end: nat) {
    p % 4096 == 0 && start <= p && p + 4096 <= end
  }

  lemma PagesUpTo(start: nat, k: nat)
    requires k == Up(start)
    ensures WholePages(start, k * 4096) == {}
  {
  }

  lemma NextPage(start: nat, k: nat, end: nat)
    requires Up(start) <= k && k * 4096 + 4096 <= end
    ensures k * 4096 in WholePages(start, end) && k * 4096 !in WholePages(start, k * 4096)
    ensures WholePages(start, (k + 1) * 4096) == WholePages(start, k * 4096) + {k * 4096}
  {
  }

  lemma AllPages(start: nat, k: nat, end: nat)
    requires Up(start) <= k && k * 4096 + 4096 > end && WholePages(start, k * 4096) <= WholePages(start, end)
    ensures WholePages(start, k * 4096) == WholePages(start, end)
  {
  }

  lemma SetCons(p: nat, s: seq<nat>)
    ensures Set([p] + s) == {p} + Set(s)
  {
  }

  // ----- the pages a range of a flat map refers to -----

  predicate From(lo: nat, v: nat) { lo <= v }

  ghost function Span(lo: nat, n: nat): set<nat> {
    set v: nat | v < lo + n && From(lo, v)
  }

  ghost function FrameSet(f: map<nat, nat>, lo: nat, n: nat): set<nat> {
    set v: nat | lo <= v < lo + n && v in f :: Pa(f[v])
  }

  /** All pages in the range are mapped, to different physical pages. */
  ghost predicate Injects(f: map<nat, nat>, lo: nat, n: nat) {
    && (forall v :: lo <= v < lo + n ==> v in f)
    && (forall u, v :: lo <= u < v < lo + n ==> Pa(f[u]) != Pa(f[v]))
  }

  lemma FrameStep(f: map<nat, nat>, lo: nat, n: nat)
    requires lo + n in f
    ensures FrameSet(f, lo, n + 1) == FrameSet(f, lo, n) + {Pa(f[lo + n])}
    ensures Span(lo, n + 1) == Span(lo, n) + {lo + n}
    ensures Injects(f, lo, n + 1) ==> Pa(f[lo + n]) !in FrameSet(f, lo, n)
  {
  }

  lemma FrameSame(f: map<nat, nat>, lo: nat, n: nat, key: nat, w: nat)
    requires !(lo <= key < lo + n)
    ensures FrameSet(f[key := w], lo, n) == FrameSet(f, lo, n)
  {
    hide Pa;
    var g := f[key := w];
    forall v: nat | lo <= v < lo + n && v in f ensures Pa(f[v]) in FrameSet(g, lo, n) {
      FrameIn(g, lo, n, v);
    }
  }

  lemma FrameIn(f: map<nat, nat>, lo: nat, n: nat, v: nat)
    requires lo <= v < lo + n && v in f
    ensures Pa(f[v]) in FrameSet(f, lo, n)
  {
  }

  lemma SpanNone(f: map<nat, nat>, lo: nat)
    ensures f - Span(lo, 0) == f && FrameSet(f, lo, 0) == {}
  {
  }

  /** The first `n` virtual pages are mapped to different pages, all of them from `avail`. */
  ghost predicate UserOk(f: map<nat, nat>, n: nat, avail: set<nat>) {
    Injects(f, 0, n) && FrameSet(f, 0, n) <= avail
  }

  lemma UserGrow(f: map<nat, nat>, n: nat, w: nat)
    requires Injects(f, 0, n) && Pa(w) !in FrameSet(f, 0, n)
    ensures Injects(f[n := w], 0, n + 1)
    ensures FrameSet(f[n := w], 0, n + 1) == FrameSet(f, 0, n) + {Pa(w)}
  {
    hide Pa, FrameSet;
    var g := f[n := w];
    FrameSame(f, 0, n, n, w);
    FrameStep(g, 0, n);
    forall v | 0 <= v < n ensures g[v] == f[v] && Pa(f[v]) != Pa(w) { FrameIn(f, 0, n, v); }
  }

  lemma UserShrink(f: map<nat, nat>, m: nat, k: nat)
    requires Injects(f, 0, m + k)
    ensures Injects(f, m, k) && Injects(f - Span(m, k), 0, m)
    ensures FrameSet(f, 0, m + k) == FrameSet(f - Span(m, k), 0, m) + FrameSet(f, m, k)
    ensures FrameSet(f - Span(m, k), 0, m) !! FrameSet(f, m, k)
  {
    hide Pa;
    var g := f - Span(m, k);
    forall v: nat | v < m ensures v in g && g[v] == f[v] { }
    forall v: nat | v < m + k
      ensures Pa(f[v]) in FrameSet(g, 0, m) + FrameSet(f, m, k)
    {
      if v < m { FrameIn(g, 0, m, v); } else { FrameIn(f, m, k, v); }
    }
  }

  /** With one page more, the pages mapped before stay apart from both sets. */
  lemma UserApart(f: map<nat, nat>, n: nat, w: nat, a1: set<nat>, a2: set<nat>, s1: set<nat>, s2: set<nat>)
    requires UserOk(f, n, a1) && UserOk(f[n := w], n + 1, a2) && a1 !! s1 && a2 !! s2
    ensures FrameSet(f, 0, n) !! s1 + s2
  {
    hide Injects, FrameSet, Pa;
    FrameSame(f, 0, n, n, w);
    FrameStep(f[n := w], 0, n);
  }

  lemma UserFrames(f: map<nat, nat>, n: nat, avail: set<nat>)
    requires UserOk(f, n, avail)
    ensures FrameSet(f, 0, n) <= avail
  {
  }

  lemma UserPage(f: map<nat, nat>, n: nat, avail: set<nat>, v: nat)
    requires UserOk(f, n, avail) && v < n
    ensures v in f && Pa(f[v]) in FrameSet(f, 0, n) && Pa(f[v]) in avail
  {
  }

  lemma UserRoom(f: map<nat, nat>, n: nat, avail: set<nat>, ram: set<nat>)
    requires UserOk(f, n, avail) && avail <= ram
    ensures n <= |ram|
  {
    hide Injects, FrameSet;
    FrameCount(f, n, ram);
  }

  lemma {:induction false} FrameCount(f: map<nat, nat>, n: nat, s: set<nat>)
    requires Injects(f, 0, n) && FrameSet(f, 0, n) <= s
    ensures n <= |s|
    decreases n
  {
    hide Pa;
    if n > 0 {
      FrameStep(f, 0, n - 1);
      FrameCount(f, n - 1, s - {Pa(f[n - 1])});
    }
  }

  lemma PermLeafy(xperm: nat)
    requires xperm in {0, PTE_W, PTE_X, PTE_W + PTE_X}
    ensures Leafy(PTE_R + PTE_U + xperm)
  {
  }

  lemma SpanKeys(f: map<nat, nat>, m: nat, k: nat)
    requires Injects(f, 0, m + k)
    ensures Span(m, k) <= f.Keys
  {
  }

  /** For each virtual page, the permissions and contents it should have. */
  type Want = nat -> (nat, seq<nat>)

  ghost function Zeroed(perm: nat): Want {
    v => (perm, Zeros())
  }

  /** What map `f` gives each page in memory `m`. */
  ghost function CopyOf(m: Memory, f: map<nat, nat>): Want {
    v => if v in f && Pa(f[v]) in m then (Flags(f[v]), m[Pa(f[v])]) else (0, [])
  }

  /** The pages lo..hi are mapped as `want` says. */
  ghost predicate PagesAre(mem: Memory, f: map<nat, nat>, lo: nat, hi: nat, want: Want) {
    forall v :: lo <= v < hi ==> v in f && PageIs(mem, f[v], want(v))
  }

  ghost predicate PageIs(mem: Memory, w: nat, want: (nat, seq<nat>)) {
    Pa(w) in mem && mem[Pa(w)] == want.1 && w == MkPte(Pa(w), want.0)
  }

  /** A page that is a copy has the same flags and words as the one it was copied from. */
  lemma CopiedPage(m: Memory, f: map<nat, nat>, m': Memory, g: map<nat, nat>, n: nat, v: nat)
    requires PagesAre(m', g, 0, n, CopyOf(m, f)) && v < n && v in f && f[v] % 2 == 1 && Pa(f[v]) in m
    ensures v in g && g[v] % 1024 == f[v] % 1024 && Pa(g[v]) in m' && m'[Pa(g[v])] == m[Pa(f[v])]
  {
    assert PageIs(m', g[v], CopyOf(m, f)(v));
    var q, x := f[v] / 1024, f[v] % 1024;
    Split1024(q, x);
    assert V(q * 1024 + x);
    assert CopyOf(m, f)(v) == (Flags(f[v]), m[Pa(f[v])]);
    Split1024(Pa(g[v]) / 4096, x);
  }

  /** A new page has the flags asked for, is valid, and is all zeros. */
  lemma NewPageIs(m: Memory, f: map<nat, nat>, lo: nat, hi: nat, perm: nat, v: nat)
    requires PagesAre(m, f, lo, hi, Zeroed(perm)) && lo <= v < hi && perm < 1024 && perm % 2 == 0
    ensures v in f && f[v] % 1024 == perm + 1 && Pa(f[v]) in m && |m[Pa(f[v])]| == 512
    ensures forall i :: 0 <= i < 512 ==> m[Pa(f[v])][i] == 0
  {
    assert PageIs(m, f[v], Zeroed(perm)(v));
    Split1024(Pa(f[v]) / 4096, perm + 1);
  }

  /** Pages keep their contents when memory changes elsewhere only. */
  lemma FreshKept(m1: Memory, f: map<nat, nat>, m2: Memory, w: nat, lo: nat, hi: nat, want: Want, s: set<nat>)
    requires PagesAre(m1, f, lo, hi, want) && SameBut(m1, m2, s) && FrameSet(f, 0, hi) !! s
    requires PageIs(m2, w, want(hi))
    ensures PagesAre(m2, f[hi := w], lo, hi + 1, want)
  {
  }

  lemma NextFreshPage(f: map<nat, nat>, g: map<nat, nat>, lo: nat, k: nat, w: nat)
    requires g - Span(lo, k) == f && lo + k !in f
    ensures lo + k !in g && g[lo + k := w] - Span(lo, k + 1) == f
  {
  }

  /**
    Progress of uvmalloc: `k` fresh pages follow the `n0` old ones, all taken from the old
    free list, and only free pages and tables were written.
   */
  ghost predicate Growing(m0: Memory, free0: set<nat>, f: map<nat, nat>, n0: nat, k: nat,
                          m: Memory, free: set<nat>, pages: set<nat>, g: map<nat, nat>, want: Want) {
    && g - Span(n0, k) == f
    && PagesAre(m, g, n0, n0 + k, want)
    && FrameSet(g, n0, k) <= free0 && free <= free0
    && SameBut(m0, m, free0 + pages)
  }

  lemma GrowingZero(m0: Memory, free0: set<nat>, f: map<nat, nat>, n0: nat, pages: set<nat>, want: Want)
    ensures Growing(m0, free0, f, n0, 0, m0, free0, pages, f, want)
  {
  }

  lemma GrowingRoom(m0: Memory, free0: set<nat>, f: map<nat, nat>, n0: nat, k: nat,
                    m: Memory, free: set<nat>, pages: set<nat>, g: map<nat, nat>, want: Want)
    requires Growing(m0, free0, f, n0, k, m, free, pages, g, want)
    ensures n0 + k !in f ==> n0 + k !in g
    ensures g - Span(n0, k) == f
  {
  }

  lemma GrowingDone(m0: Memory, free0: set<nat>, f: map<nat, nat>, n0: nat, k: nat,
                    m: Memory, free: set<nat>, pages: set<nat>, g: map<nat, nat>, want: Want)
    requires Growing(m0, free0, f, n0, k, m, free, pages, g, want)
    ensures g - Span(n0, k) == f && PagesAre(m, g, n0, n0 + k, want) && SameBut(m0, m, free0 + pages)
  {
  }

  lemma CopyOfAt(m0: Memory, f: map<nat, nat>, v: nat, m: Memory, s: set<nat>)
    requires v in f && Pa(f[v]) in m && SameBut(m0, m, s) && Pa(f[v]) !in s
    ensures CopyOf(m0, f)(v) == (Flags(f[v]), m[Pa(f[v])])
  {
  }

  lemma FlagsLeafy(w: nat)
    ensures Flags(w) < 1024 && Leafy(Flags(w)) == Leafy(w)
  {
    hide Leafy;
    SplitLeafy(w / 1024, w % 1024);
    assert w == w / 1024 * 1024 + w % 1024;
  }

  lemma ZeroedAt(perm: nat, v: nat)
    ensures Zeroed(perm)(v) == (perm, Zeros())
  {
  }

  lemma GrowingStep(m0: Memory, free0: set<nat>, f: map<nat, nat>, n0: nat, k: nat, want: Want,
                    m1: Memory, free1: set<nat>, pages1: set<nat>, g: map<nat, nat>,
                    m2: Memory, free2: set<nat>, pages2: set<nat>, w: nat)
    requires Growing(m0, free0, f, n0, k, m1, free1, pages1, g, want) && n0 + k !in f
    requires FrameSet(g, 0, n0 + k) !! free1 + pages2 && PageIs(m2, w, want(n0 + k)) && Pa(w) in free1
    requires free2 <= free1 && pages1 <= pages2 && SameBut(m1, m2, free1 + pages2)
    ensures n0 + k !in g && Growing(m0, free0, f, n0, k + 1, m2, free2, pages2, g[n0 + k := w], want)
  {
    hide Pa, FrameSet, PageIs, PagesAre;
    NextFreshPage(f, g, n0, k, w);
    FrameStep(g[n0 + k := w], n0, k);
    FrameSame(g, n0, k, n0 + k, w);
    FreshKept(m1, g, m2, w, n0, n0 + k, want, free1 + pages2);
  }

  /** Taking the fresh pages back out leaves the old map. */
  lemma GrowingUndo(m0: Memory, free0: set<nat>, f: map<nat, nat>, n0: nat, k: nat, want: Want,
                    m1: Memory, free1: set<nat>, pages1: set<nat>, g: map<nat, nat>,
                    m2: Memory, pages2: set<nat>, m3: Memory)
    requires Growing(m0, free0, f, n0, k, m1, free1, pages1, g, want)
    requires pages1 <= pages2 && SameBut(m1, m2, free1 + pages2)
    requires SameBut(m2, m3, pages2 + FrameSet(g, n0, k))
    ensures SameBut(m0, m3, free0 + pages2)
  {
  }

  lemma RoundPage(v: nat)
    ensures v * 4096 / 4096 == v && Up(v * 4096) == v
  {
  }

  lemma RoundUp(oldsz: nat, newsz: nat, v: nat)
    ensures oldsz <= newsz ==> Up(oldsz) <= Up(newsz)
    ensures v * 4096 < newsz ==> v + 1 <= Up(newsz)
    ensures v * 4096 >= newsz ==> v >= Up(newsz)
  {
  }

  lemma SameRefl(m: Memory, s: set<nat>)
    ensures SameBut(m, m, s)
  {
  }

  lemma SameTrans(m0: Memory, m1: Memory, m2: Memory, s: set<nat>, s': set<nat>)
    requires SameBut(m0, m1, s) && SameBut(m1, m2, s') && s' <= s
    ensures SameBut(m0, m2, s)
  {
  }

  lemma NoKeys(f: map<nat, nat>, n: nat)
    requires f.Keys == Span(0, n)
    ensures f - Span(0, n) == map[]
  {
  }

  lemma UpZero()
    ensures Up(0) == 0
  {
  }

  /** What a process maps: user pages, the trapframe page and the trampoline above them. */
  ghost predicate ProcMap(f: map<nat, nat>, n: nat, trapframe: nat, trampoline: nat) {
    && f.Keys == Span(0, n) + {MAXVPN - 2, MAXVPN - 1}
    && f[MAXVPN - 2] == MkPte(trapframe, PTE_R + PTE_W)
    && f[MAXVPN - 1] == MkPte(trampoline, PTE_R + PTE_X)
  }

  lemma NoUser(f: map<nat, nat>, avail: set<nat>)
    ensures UserOk(f, 0, avail) && Up(0) == 0 && Span(0, 0) == {} && FrameSet(f, 0, 0) == {}
  {
  }

  lemma ProcPerms()
    ensures Leafy(PTE_R + PTE_X) && Leafy(PTE_R + PTE_W)
  {
  }

  lemma OneKey(v: nat, w: nat)
    ensures v * 4096 / 4096 == v && v * 4096 % 4096 == 0
    ensures Span(v, 1) == {v} && map[v := w] - Span(v, 1) == map[]
  {
  }

  lemma ProcKeys(trapframe: nat, trampoline: nat)
    ensures ProcMap(map[MAXVPN - 1 := MkPte(trampoline, PTE_R + PTE_X), MAXVPN - 2 := MkPte(trapframe, PTE_R + PTE_W)],
                    0, trapframe, trampoline)
  {
  }

  lemma SameThen(m0: Memory, m1: Memory, m2: Memory, s: set<nat>, s': set<nat>)
    requires SameBut(m0, m1, s) && SameBut(m1, m2, s') && s <= s'
    ensures SameBut(m0, m2, s')
  {
  }

  /** Taking the trampoline and the trapframe out leaves the user pages. */
  lemma ProcUnmap(f: map<nat, nat>, n: nat, trapframe: nat, trampoline: nat, avail: set<nat>)
    requires ProcMap(f, n, trapframe, trampoline) && UserOk(f, n, avail) && n <= MAXVPN - 2
    ensures (MAXVPN - 1) * 4096 / 4096 == MAXVPN - 1 && (MAXVPN - 2) * 4096 / 4096 == MAXVPN - 2
    ensures Span(MAXVPN - 1, 1) <= f.Keys && Span(MAXVPN - 2, 1) <= (f - Span(MAXVPN - 1, 1)).Keys
    ensures var g := f - Span(MAXVPN - 1, 1) - Span(MAXVPN - 2, 1);
            g.Keys == Span(0, n) && UserOk(g, n, avail) && FrameSet(g, 0, n) == FrameSet(f, 0, n)
  {
  }

  lemma SpanZero(lo: nat)
    ensures Span(lo, 0) == {}
  {
  }

  lemma SpanNext(lo: nat, k: nat)
    ensures Span(lo, k + 1) == Span(lo, k) + {lo + k}
  {
  }

  lemma SpanMono(lo: nat, k: nat, n: nat)
    requires k <= n
    ensures Span(lo, k) <= Span(lo, n)
  {
  }

  /** The tables for one page more. */
  lemma MissingNext(t: Tree, t': Tree, lo: nat, k: nat, n: nat)
    requires Extended(t, t', Span(lo, k)) && k < n
    ensures Span(lo, k + 1) == Span(lo, k) + {lo + k}
    ensures Missing(t, Span(lo, k)) + Missing(t', {lo + k}) == Missing(t, Span(lo, k + 1)) <= Missing(t, Span(lo, n))
  {
    hide Span, Missing, Extended;
    SpanNext(lo, k);
    SpanMono(lo, k + 1, n);
    MissingPlus(t, t', Span(lo, k), {lo + k});
    MissingMono(t, Span(lo, k + 1), Span(lo, n));
  }

  /** The trapframe and the trampoline. */
  function Ends(): set<nat> { {MAXVPN - 1} + {MAXVPN - 2} }

  lemma MissingEnds(t: Tree, t': Tree)
    ensures Missing(t, {MAXVPN - 1}) <= Missing(t, Ends())
    ensures Extended(t, t', {MAXVPN - 1}) ==>
      Missing(t, {MAXVPN - 1}) + Missing(t', {MAXVPN - 2}) == Missing(t, Ends())
  {
    hide Missing, Extended;
    MissingMono(t, {MAXVPN - 1}, Ends());
    if Extended(t, t', {MAXVPN - 1}) { MissingPlus(t, t', {MAXVPN - 1}, {MAXVPN - 2}); }
  }

  lemma UpMono(a: nat, b: nat)
    requires a <= b
    ensures Up(a) <= Up(b)
  {
  }

  lemma ChildThere(mem: Memory, t: Tree, level: nat, key: nat)
    requires TreeOk(mem, t) && key in Children(t, level)
    ensures Children(t, level)[key] != 0
  {
    assert Children(t, level)[key] in Pages(t);
  }

  lemma LowNeedsMid(mem: Memory, t: Tree, k: nat)
    requires TreeOk(mem, t)
    ensures k in t.low ==> k / 512 in t.mid
  {
  }

  class Vm {
    var mem: Memory
    var freelist: nat
    ghost var free: seq<nat>
    ghost const ram: set<nat>     // the pages that kinit hands to the allocator
    const trampoline: nat         // the page of kernel text that holds trampoline.S

    ghost predicate Valid()
      reads this
    {
      && Linked(mem, freelist, free)
      && (forall i :: 0 <= i < |free| ==> free[i] in ram)
      && RamOk(mem, ram)
    }

    // ----- kalloc.c -----

    constructor (m: Memory, ghost pages: set<nat>, tramp: nat)
      requires RamOk(m, pages)
      ensures Valid() && free == [] && ram == pages && mem == m && trampoline == tramp
    {
      mem, freelist, trampoline := m, 0, tramp;
      free, ram := [], pages;
    }

    /** Hands every whole page between the two addresses to the allocator. */
    method Freerange(start: nat, end: nat)
      requires Valid() && WholePages(start, end) <= ram - Set(free)
      modifies this
      ensures Valid() && Set(free) == Set(old(free)) + WholePages(start, end)
      ensures SameBut(old(mem), mem, WholePages(start, end))
    {
      hide Linked, RamOk, Set;
      var p := Up(start) * 4096;
      ghost var k := Up(start);
      PagesUpTo(start, k);
      while p + 4096 <= end
        invariant p == k * 4096 && Up(start) <= k && Valid()
        invariant Set(free) == Set(old(free)) + WholePages(start, k * 4096)
        invariant SameBut(old(mem), mem, WholePages(start, k * 4096))
        invariant WholePages(start, k * 4096) <= WholePages(start, end)
      {
        NextPage(start, k, end);
        Kfree(p);
        p := p + 4096;
        k := k + 1;
      }
      AllPages(start, k, end);
    }

    /** Pushes a page, junk-filled, onto the free list. */
    method Kfree(pa: nat)
      requires Valid() && pa in ram && pa !in Set(free)
      modifies this
      ensures Valid() && free == [pa] + old(free) && Set(free) == Set(old(free)) + {pa}
      ensures SameBut(old(mem), mem, {pa})
      ensures mem == Store(old(mem)[pa := Fill(1)], pa, 0, old(freelist)) && freelist == pa
    {
      mem := mem[pa := Fill(1)];
      mem := Store(mem, pa, 0, freelist);
      PushLinked(old(mem), freelist, free, mem, pa);
      freelist := pa;
      SetCons(pa, free);
      free := [pa] + free;
    }

    /** Pops a page, or returns 0 when there is none. */
    method Kalloc() returns (pa: nat)
      requires Valid()
      modifies this
      ensures Valid()
      ensures old(free) == [] ==> pa == 0 && free == [] && mem == old(mem)
      ensures old(free) != [] ==> pa == old(free)[0] && free == old(free)[1..] && pa in ram
      ensures old(free) != [] ==> pa !in free && mem == old(mem)[pa := Fill(5)]
      ensures pa == 0 <==> old(free) == []
    {
      pa := freelist;
      if free != [] { PopLinked(mem, freelist, free, mem[pa := Fill(5)]); }
      if pa != 0 {
        freelist := mem[pa][0];
        mem := mem[pa := Fill(5)];
        free := free[1..];
      }
    }

    // ----- walk -----

    /** The page table `t` is in good order; its pages are allocated ones. */
    ghost predicate Own(t: Tree)
      reads this
    {
      Valid() && TreeOk(mem, t) && Pages(t) <= ram - Set(free)
    }

    /** Allocates a zeroed table and makes the invalid entry `i` of `page` point to it. */
    method NewTable(ghost t: Tree, ghost level: nat, ghost key: nat, page: nat, i: nat)
      returns (child: nat, ghost t': Tree)
      requires Own(t)
      requires Inner(t, level, key, page) && i == key % 512 && key !in Children(t, level)
      modifies this
      ensures Own(t') && Grew(old(mem), old(free), t, mem, free, t')
      ensures Flat(mem, t') == Flat(old(mem), t)
      ensures child == 0 <==> old(free) == []
      ensures child == 0 ==> t' == t && mem == old(mem) && free == []
      ensures child != 0 ==> t' == WithChild(t, level, key, child) && |old(free)| == |free| + 1
    {
      hide TreeOk, Flat, Leafy, MkPte, V, Pa;
      if free != [] { GrewOne(mem, free, t, level, key, page); } else { GrewSelf(mem, free, t); }
      child := Kalloc();
      t' := t;
      if child != 0 {
        ghost var m1 := mem;
        AttachRam(old(mem), ram, key, page, child);
        mem := mem[child := Zeros()];
        mem := Store(mem, page, i, MkPte(child, 0));
        LinkedFrame(m1, freelist, free, mem);
        t' := WithChild(t, level, key, child);
      }
    }

    /** One level of walk: the table that an entry points to, or a new one; 0 when there is none. */
    method WalkStep(ghost t: Tree, ghost level: nat, ghost key: nat, page: nat, i: nat, alloc: bool)
      returns (child: nat, ghost t': Tree)
      requires Own(t) && Inner(t, level, key, page) && i == key % 512
      modifies this
      ensures Own(t') && Grew(old(mem), old(free), t, mem, free, t') && Flat(mem, t') == Flat(old(mem), t)
      ensures t'.mid == (if level == 2 then t'.mid else t.mid) && t'.low == (if level == 2 then t.low else t'.low)
      ensures child == 0 <==> key !in Children(t, level) && (alloc ==> old(free) == [])
      ensures child == 0 || !alloc || key in Children(t, level) ==> t' == t && mem == old(mem) && free == old(free)
      ensures child != 0 ==> key in Children(t', level) && Children(t', level)[key] == child
      ensures child != 0 ==> Children(t', level).Keys == Children(t, level).Keys + {key}
      ensures child != 0 ==> |old(free)| == |free| + if key in Children(t, level) then 0 else 1
    {
      hide TreeOk, Flat, Linked, RamOk, Leafy, MkPte;
      InnerEntry(mem, t, level, key, page);
      GrewSelf(mem, free, t);
      t' := t;
      var w := mem[page][i];
      if V(w) {
        ChildThere(mem, t, level, key);
        child := Pa(w);
      } else if !alloc {
        child := 0;
      } else {
        child, t' := NewTable(t, level, key, page, i);
      }
    }

    /**
      The slot that maps address `va`, as a table page and an index. With `alloc` missing
      tables are created; the flat map never changes, not even when memory runs out halfway.
     */
    method Walk(ghost t: Tree, root: nat, va: nat, alloc: bool)
      returns (pte: Option<(nat, nat)>, ghost t': Tree)
      requires Own(t) && t.root == root
      requires va / 4096 < MAXVPN
      modifies this
      ensures Own(t') && Grew(old(mem), old(free), t, mem, free, t')
      ensures Flat(mem, t') == Flat(old(mem), t)
      ensures pte.Some? ==> SlotOf(t', va / 4096, pte.value)
      ensures pte.None? ==> va / 4096 / 512 !in t.low && (alloc ==> free == [])
      ensures !alloc ==> t' == t && mem == old(mem) && free == old(free)
      ensures alloc ==> (pte.Some? <==> |old(free)| >= Missing(t, {va / 4096}))
      ensures alloc && pte.Some? ==>
        Extended(t, t', {va / 4096}) && |old(free)| == |free| + Missing(t, {va / 4096})
    {
      hide TreeOk, Flat, Linked, RamOk, Leafy, MkPte, Missing, Extended;
      var vpn := va / 4096;
      var level := 2;
      var pagetable := root;
      t' := t;
      GrewSelf(mem, free, t);
      MissingOne(t, vpn);
      LowNeedsMid(mem, t, vpn / 512);
      while level > 0
        invariant 0 <= level <= 2 && Own(t')
        invariant Grew(old(mem), old(free), t, mem, free, t') && Flat(mem, t') == Flat(old(mem), t)
        invariant level > 0 ==> Inner(t', level, if level == 2 then vpn / 512 / 512 else vpn / 512, pagetable)
        invariant level > 0 ==> t'.low == t.low
        invariant level == 0 ==> vpn / 512 in t'.low && pagetable == t'.low[vpn / 512]
        invariant !alloc ==> t' == t && mem == old(mem) && free == old(free)
        invariant level == 2 ==> t' == t && free == old(free)
        invariant level < 2 ==> t'.mid.Keys == t.mid.Keys + {vpn / 512 / 512}
        invariant level == 0 ==> t'.low.Keys == t.low.Keys + {vpn / 512}
        invariant |old(free)| == |free|
          + (if level < 2 && vpn / 512 / 512 !in t.mid then 1 else 0)
          + (if level == 0 && vpn / 512 !in t.low then 1 else 0)
      {
        ghost var key := if level == 2 then vpn / 512 / 512 else vpn / 512;
        ghost var m0, f0, t0 := mem, free, t';
        pagetable, t' := WalkStep(t', level, key, pagetable, PX(level, vpn), alloc);
        GrewTrans(old(mem), old(free), t, m0, f0, t0, mem, free, t');
        if pagetable == 0 {
          return None, t';
        }
        level := level - 1;
      }
      WalkDone(t, t', vpn);
      return Some((pagetable, PX(0, vpn))), t';
    }

    // ----- leaf entries -----

    /** Writes the entry that `slot` points to. */
    method SetPte(ghost t: Tree, ghost vpn: nat, slot: (nat, nat), w: nat)
      requires Own(t) && SlotOf(t, vpn, slot) && vpn < VPNS && (V(w) ==> Leafy(w))
      modifies this`mem
      ensures Own(t) && SameBut(old(mem), mem, Pages(t))
      ensures Flat(mem, t) == if V(w) then Flat(old(mem), t)[vpn := w] else Flat(old(mem), t) - {vpn}
    {
      hide TreeOk, Flat, Linked, Leafy, V;
      SetLeaf(mem, t, vpn, w);
      ReadLeaf(mem, t, vpn);
      assert slot.0 in Pages(t);
      assert forall p :: p in free ==> p in Set(free);
      mem := Store(mem, slot.0, slot.1, w);
      LinkedFrame(old(mem), freelist, free, mem);
    }

    /** The physical address of a user page, or 0. */
    method Walkaddr(ghost t: Tree, root: nat, va: nat) returns (pa: nat)
      requires Own(t) && t.root == root
      modifies this
      ensures mem == old(mem) && free == old(free) && Own(t)
      ensures var f := Flat(mem, t); var v := va / 4096;
              pa == if v < MAXVPN && v in f && User(f[v]) then Pa(f[v]) else 0
    {
      hide TreeOk, Flat, V, Leafy, User, Pa, MkPte, Linked, RamOk;
      if va >= MAXVPN * 4096 {
        return 0;
      }
      var pte, t' := Walk(t, root, va, false);
      ReadLeaf(mem, t, va / 4096);
      if pte == None {
        return 0;
      }
      var w := mem[pte.value.0][pte.value.1];
      if !V(w) || !User(w) {
        return 0;
      }
      return Pa(w);
    }

    /** One round of mappages: maps the page of `a`, which is not mapped, to `p`. */
    method MapOne(ghost t: Tree, root: nat, a: nat, p: nat, perm: nat) returns (ok: bool, ghost t': Tree)
      requires Own(t) && t.root == root && a / 4096 < MAXVPN
      requires p % 4096 == 0 && perm < 1024 && Leafy(perm) && a / 4096 !in Flat(mem, t)
      modifies this
      ensures Own(t') && t'.root == root && Grew(old(mem), old(free), t, mem, free, t')
      ensures ok ==> Flat(mem, t') == Flat(old(mem), t)[a / 4096 := MkPte(p, perm)]
      ensures !ok ==> Flat(mem, t') == Flat(old(mem), t) && free == []
      ensures ok <==> |old(free)| >= Missing(t, {a / 4096})
      ensures ok ==> Extended(t, t', {a / 4096}) && |old(free)| == |free| + Missing(t, {a / 4096})
    {
      hide TreeOk, Flat, V, Leafy, User, Pa, MkPte, Linked, RamOk, Missing, Extended;
      var pte;
      pte, t' := Walk(t, root, a, true);
      ok := pte.Some?;
      if ok {
        ReadLeaf(mem, t', a / 4096);
        PteFields(p, perm);
        ghost var m1 := mem;
        SetPte(t', a / 4096, pte.value, MkPte(p, perm));
        GrewWrite(old(mem), old(free), t, m1, free, t', mem);
      }
    }

    /** Takes the user permission from a mapped page, for the stack guard. */
    method Uvmclear(ghost t: Tree, root: nat, va: nat)
      requires Own(t) && t.root == root && va / 4096 < MAXVPN && va / 4096 in Flat(mem, t)
      modifies this
      ensures Own(t) && free == old(free) && SameBut(old(mem), mem, Pages(t))
      ensures Flat(mem, t) == Flat(old(mem), t)[va / 4096 := ClearU(Flat(old(mem), t)[va / 4096])]
    {
      hide TreeOk, Flat, V, Leafy, User, Pa, ClearU, Linked, RamOk, Pages, Set;
      var pte, t' := Walk(t, root, va, false);
      ReadLeaf(mem, t, va / 4096);
      var w := mem[pte.value.0][pte.value.1];
      ClearUKeeps(w);
      SetPte(t, va / 4096, pte.value, ClearU(w));
    }

    /**
      Maps the pages from `va` to `va + size - 1` to consecutive physical pages. When a table
      cannot be allocated, the first `k` pages stay mapped; no other page's mapping changes.
     */
    method Mappages(ghost t: Tree, root: nat, va: nat, size: nat, pa: nat, perm: nat)
      returns (ok: bool, ghost t': Tree, ghost k: nat)
      requires Own(t) && t.root == root
      requires size > 0 && (va + size - 1) / 4096 < MAXVPN
      requires pa % 4096 == 0 && perm < 1024 && Leafy(perm)
      requires forall v :: va / 4096 <= v <= (va + size - 1) / 4096 ==> v !in Flat(mem, t)
      modifies this
      ensures Own(t') && t'.root == root && Grew(old(mem), old(free), t, mem, free, t')
      ensures ok ==> k == (va + size - 1) / 4096 - va / 4096 + 1
      ensures !ok ==> k <= (va + size - 1) / 4096 - va / 4096 && free == []
      ensures Flat(mem, t') == Flat(old(mem), t) + RangeMap(va / 4096, k, pa, perm)
      ensures var vs := Span(va / 4096, (va + size - 1) / 4096 - va / 4096 + 1);
        && (ok <==> |old(free)| >= Missing(t, vs))
        && (ok ==> Extended(t, t', vs) && |old(free)| == |free| + Missing(t, vs))
    {
      hide TreeOk, Flat, V, Leafy, MkPte, RangeMap, Linked, RamOk, Pages, Grew, Missing, Extended, Span;
      ghost var lo, hi := va / 4096, (va + size - 1) / 4096;
      var a := va / 4096 * 4096;
      var last := (va + size - 1) / 4096 * 4096;
      var p := pa;
      ok, k, t' := true, 0, t;
      GrewSelf(mem, free, t);
      MissingNone(t);
      SpanZero(lo);
      RangeZero(Flat(mem, t), lo, pa, perm);
      while true
        invariant a == (lo + k) * 4096 && lo + k <= hi && p == pa + k * 4096
        invariant Own(t') && t'.root == root && Grew(old(mem), old(free), t, mem, free, t')
        invariant Flat(mem, t') == Flat(old(mem), t) + RangeMap(lo, k, pa, perm)
        invariant Extended(t, t', Span(lo, k)) && |old(free)| == |free| + Missing(t, Span(lo, k))
        decreases last - a
      {
        ghost var m1, f1, t1 := mem, free, t';
        RangeStep(Flat(old(mem), t), lo, k, pa, perm, a, p);
        MissingNext(t, t', lo, k, hi - lo + 1);
        ok, t' := MapOne(t', root, a, p, perm);
        GrewTrans(old(mem), old(free), t, m1, f1, t1, mem, free, t');
        if !ok {
          return;
        }
        ExtendedPlus(t, t1, t', Span(lo, k), {lo + k});
        k := k + 1;
        if a == last {
          return;
        }
        a := a + 4096;
        p := p + 4096;
      }
    }

    // ----- uvmunmap -----

    /** Kfree seen from a page table that does not contain the page. */
    method KfreeOutside(ghost t: Tree, pa: nat)
      requires Own(t) && pa in ram && pa !in Set(free) && pa !in Pages(t)
      modifies this
      ensures Own(t) && Set(free) == Set(old(free)) + {pa}
      ensures SameBut(old(mem), mem, {pa}) && Flat(mem, t) == Flat(old(mem), t)
    {
      hide TreeOk, Flat, Linked, RamOk, Pages;
      Kfree(pa);
      TreeFrame(old(mem), mem, t, {pa});
    }

    /** One round of uvmunmap: the page of `a` is mapped. */
    method UnmapOne(ghost t: Tree, root: nat, a: nat, doFree: bool)
      requires Own(t) && t.root == root && a / 4096 < MAXVPN && a / 4096 in Flat(mem, t)
      requires doFree ==> Pa(Flat(mem, t)[a / 4096]) in ram - Set(free) - Pages(t)
      modifies this
      ensures Own(t) && Flat(mem, t) == Flat(old(mem), t) - {a / 4096}
      ensures var pa := Pa(Flat(old(mem), t)[a / 4096]);
              && Set(free) == Set(old(free)) + (if doFree then {pa} else {})
              && SameBut(old(mem), mem, Pages(t) + (if doFree then {pa} else {}))
    {
      hide TreeOk, Flat, Linked, RamOk, Pa, Pages;
      var pte, t' := Walk(t, root, a, false);
      ReadLeaf(mem, t, a / 4096);
      if doFree {
        var w := mem[pte.value.0][pte.value.1];
        KfreeOutside(t, Pa(w));
      }
      SetPte(t, a / 4096, pte.value, 0);
    }

    /** Removes `npages` mappings, which must exist, and gives the pages back on request. */
    method Uvmunmap(ghost t: Tree, root: nat, va: nat, npages: nat, doFree: bool)
      requires Own(t) && t.root == root && va % 4096 == 0 && va / 4096 + npages <= MAXVPN
      requires Span(va / 4096, npages) <= Flat(mem, t).Keys
      requires var f := Flat(mem, t);
               doFree ==> (Injects(f, va / 4096, npages) &&
                           FrameSet(f, va / 4096, npages) <= ram - Set(free) - Pages(t))
      modifies this
      ensures Own(t) && Flat(mem, t) == Flat(old(mem), t) - Span(va / 4096, npages)
      ensures var gone := if doFree then FrameSet(Flat(old(mem), t), va / 4096, npages) else {};
              && Set(free) == Set(old(free)) + gone
              && SameBut(old(mem), mem, Pages(t) + gone)
    {
      hide TreeOk, Flat, Linked, RamOk, Pa, Pages, FrameSet, Set;
      ghost var f := Flat(mem, t);
      ghost var lo := va / 4096;
      var a := va;
      ghost var k := 0;
      SpanNone(f, lo);
      while a < va + npages * 4096
        invariant a == (lo + k) * 4096 && k <= npages
        invariant Own(t) && Flat(mem, t) == f - Span(lo, k)
        invariant Set(free) == Set(old(free)) + (if doFree then FrameSet(f, lo, k) else {})
        invariant SameBut(old(mem), mem, Pages(t) + (if doFree then FrameSet(f, lo, k) else {}))
      {
        assert a / 4096 == lo + k && lo + k in Span(lo, npages);
        FrameIn(f, lo, npages, lo + k);
        FrameStep(f, lo, k);
        UnmapOne(t, root, a, doFree);
        a := a + 4096;
        k := k + 1;
      }
    }

    // ----- user memory -----

    /** Page table `t` whose first `n` pages are user memory of its own. */
    ghost predicate UserSpace(t: Tree, n: nat)
      reads this
    {
      Own(t) && UserOk(Flat(mem, t), n, ram - Set(free) - Pages(t))
    }

    /** Everything `t` and the free list account for. */
    ghost function Total(t: Tree, n: nat): set<nat>
      requires Own(t)
      reads this
    {
      Set(free) + Pages(t) + FrameSet(Flat(mem, t), 0, n)
    }

    /** Kalloc seen from a page table that does not contain the free pages. */
    method KallocOutside(ghost t: Tree) returns (pa: nat)
      requires Own(t)
      modifies this
      ensures Own(t) && Flat(mem, t) == Flat(old(mem), t)
      ensures pa == 0 <==> old(free) == []
      ensures pa == 0 ==> mem == old(mem) && free == old(free)
      ensures pa != 0 ==> |old(free)| == |free| + 1
      ensures pa != 0 ==> Set(old(free)) == Set(free) + {pa} && SameBut(old(mem), mem, {pa})
      ensures pa != 0 ==> pa in ram - Set(free) - Pages(t) && Aligned(pa)
    {
      hide TreeOk, Flat, Pages;
      pa := Kalloc();
      if pa != 0 {
        assert old(free) == [pa] + free;
        assert Set([pa] + free) == {pa} + Set(free);
        TreeFrame(old(mem), mem, t, {pa});
      }
    }

    /** Writes a whole page that belongs neither to the free list nor to `t`. */
    method FillPage(ghost t: Tree, pa: nat, data: seq<nat>)
      requires Own(t) && pa in ram - Set(free) - Pages(t) && |data| == 512
      modifies this`mem
      ensures Own(t) && Flat(mem, t) == Flat(old(mem), t) && mem == old(mem)[pa := data]
      ensures SameBut(old(mem), mem, {pa})
    {
      hide TreeOk, Flat, Pages, Linked;
      mem := mem[pa := data];
      TreeFrame(old(mem), mem, t, {pa});
      assert forall p :: p in free ==> p in Set(free);
      LinkedFrame(old(mem), freelist, free, mem);
    }

    /** mappages for a single page. */
    method MapPage(ghost t: Tree, root: nat, v: nat, pa: nat, perm: nat) returns (ok: bool, ghost t': Tree)
      requires Own(t) && t.root == root && v < MAXVPN && v !in Flat(mem, t)
      requires pa % 4096 == 0 && perm < 1024 && Leafy(perm)
      modifies this
      ensures Own(t') && t'.root == root
      ensures Flat(mem, t') == if ok then Flat(old(mem), t)[v := MkPte(pa, perm)] else Flat(old(mem), t)
      ensures Set(old(free)) + Pages(t) == Set(free) + Pages(t')
      ensures Pages(t) <= Pages(t') && Set(free) <= Set(old(free)) && SameBut(old(mem), mem, Pages(t'))
      ensures ok <==> |old(free)| >= Missing(t, {v})
      ensures ok ==> Extended(t, t', {v}) && |old(free)| == |free| + Missing(t, {v})
    {
      hide TreeOk, Flat, Pages, Linked, RamOk, V, Leafy, MkPte, RangeMap, Set, Grew, SameBut, Missing, Extended, Span;
      RangeOne(Flat(mem, t), v, pa, perm);
      SpanZero(v);
      SpanNext(v, 0);
      assert Span(v, 1) == {v} && (v * 4096 + 4096 - 1) / 4096 - v * 4096 / 4096 + 1 == 1;
      ghost var k;
      ok, t', k := Mappages(t, root, v * 4096, 4096, pa, perm);
      GrewSets(old(mem), old(free), t, mem, free, t');
    }

    /** One round of uvmalloc or uvmcopy: a new page holding `data` is mapped at `v`, or nothing changes. */
    method GrowUser(ghost t: Tree, root: nat, v: nat, perm: nat, data: seq<nat>) returns (ok: bool, ghost t': Tree)
      requires UserSpace(t, v) && t.root == root && v !in Flat(mem, t) && v < MAXVPN
      requires perm < 1024 && Leafy(perm) && |data| == 512
      modifies this
      ensures Own(t') && t'.root == root && Total(t', if ok then v + 1 else v) == old(Total(t, v))
      ensures UserSpace(t', if ok then v + 1 else v)
      ensures !ok ==> Flat(mem, t') == Flat(old(mem), t)
      ensures ok ==> v in Flat(mem, t') && PageIs(mem, Flat(mem, t')[v], (perm, data))
      ensures ok ==> Flat(mem, t') == Flat(old(mem), t)[v := Flat(mem, t')[v]]
      ensures ok ==> Pa(Flat(mem, t')[v]) in Set(old(free))
      ensures Set(free) <= Set(old(free)) && Pages(t) <= Pages(t')
      ensures SameBut(old(mem), mem, Set(old(free)) + Pages(t'))
      ensures ok <==> |old(free)| >= 1 + Missing(t, {v})
      ensures ok ==> Extended(t, t', {v}) && |old(free)| == |free| + 1 + Missing(t, {v})
    {
      hide TreeOk, Flat, Pages, Linked, RamOk, V, Leafy, Pa, MkPte, FrameSet, Injects, Set, Missing, Extended;
      t' := t;
      ghost var f := Flat(mem, t);
      var pa := KallocOutside(t);
      if pa == 0 {
        return false, t;
      }
      FillPage(t, pa, data);
      ok, t' := MapPage(t, root, v, pa, perm);
      if !ok {
        KfreeOutside(t', pa);
      } else {
        PteFields(pa, perm);
        UserGrow(f, v, MkPte(pa, perm));
      }
    }

    /** Unmaps and frees the pages between the two sizes; gives the size that results. */
    method Uvmdealloc(ghost t: Tree, root: nat, oldsz: nat, newsz: nat) returns (sz: nat)
      requires UserSpace(t, Up(oldsz)) && t.root == root && Up(oldsz) <= MAXVPN
      modifies this
      ensures sz == if newsz < oldsz then newsz else oldsz
      ensures UserSpace(t, Up(sz)) && Total(t, Up(sz)) == old(Total(t, Up(oldsz)))
      ensures Flat(mem, t) == Flat(old(mem), t) - Span(Up(sz), Up(oldsz) - Up(sz))
      ensures SameBut(old(mem), mem, Pages(t) + FrameSet(Flat(old(mem), t), Up(sz), Up(oldsz) - Up(sz)))
    {
      hide TreeOk, Flat, Pages, Linked, RamOk, Pa, FrameSet, Injects;
      ghost var f := Flat(mem, t);
      if newsz >= oldsz {
        SpanNone(f, Up(oldsz));
        return oldsz;
      }
      ghost var m, k := Up(newsz), Up(oldsz) - Up(newsz);
      UserShrink(f, m, k);
      SpanKeys(f, m, k);
      if Up(newsz) * 4096 < Up(oldsz) * 4096 {
        var npages := (Up(oldsz) * 4096 - Up(newsz) * 4096) / 4096;
        Uvmunmap(t, root, Up(newsz) * 4096, npages, true);
      } else {
        SpanNone(f, m);
      }
      sz := newsz;
    }

    /** uvmdealloc between page boundaries. */
    method DeallocPages(ghost t: Tree, root: nat, n: nat, m: nat)
      requires UserSpace(t, n) && t.root == root && m <= n <= MAXVPN
      modifies this
      ensures UserSpace(t, m) && Total(t, m) == old(Total(t, n))
      ensures Flat(mem, t) == Flat(old(mem), t) - Span(m, n - m)
      ensures SameBut(old(mem), mem, Pages(t) + FrameSet(Flat(old(mem), t), m, n - m))
    {
      hide TreeOk, Flat, Pages, Linked, RamOk, FrameSet, UserOk, SameBut, Span, Set, Up;
      RoundPage(n);
      RoundPage(m);
      var sz := Uvmdealloc(t, root, n * 4096, m * 4096);
    }

    /** Where uvmalloc or uvmcopy is after `k` new pages behind the `n0` old ones. */
    ghost predicate AllocState(t: Tree, n0: nat, k: nat, f: map<nat, nat>, m0: Memory, free0: set<nat>,
                               total0: set<nat>, want: Want)
      reads this
    {
      && UserSpace(t, n0 + k) && Total(t, n0 + k) == total0
      && Growing(m0, free0, f, n0, k, mem, Set(free), Pages(t), Flat(mem, t), want)
    }

    /** One more page, or everything taken back. */
    method AllocRound(ghost t: Tree, root: nat, n0: nat, v: nat, perm: nat, data: seq<nat>,
                      ghost k: nat, ghost f: map<nat, nat>, ghost m0: Memory, ghost free0: set<nat>,
                      ghost total0: set<nat>, ghost want: Want)
      returns (ok: bool, ghost t': Tree)
      requires v == n0 + k && v !in f && v < MAXVPN && perm < 1024 && Leafy(perm) && |data| == 512
      requires AllocState(t, n0, k, f, m0, free0, total0, want) && t.root == root && want(v) == (perm, data)
      modifies this
      ensures t'.root == root && Pages(t) <= Pages(t')
      ensures ok ==> AllocState(t', n0, k + 1, f, m0, free0, total0, want)
      ensures !ok ==> UserSpace(t', n0) && Total(t', n0) == total0 && Flat(mem, t') == f
                      && SameBut(m0, mem, free0 + Pages(t'))
      ensures ok <==> |old(free)| >= 1 + Missing(t, {v})
      ensures ok ==> Extended(t, t', {v}) && |old(free)| == |free| + 1 + Missing(t, {v})
    {
      hide TreeOk, Flat, Pages, Linked, RamOk, Pa, FrameSet, Injects, MkPte, Leafy, PagesAre, PageIs, SameBut,
           Growing, UserOk, Set, Span, Missing, Extended;
      ghost var m1, g, free1 := mem, Flat(mem, t), Set(free);
      GrowingRoom(m0, free0, f, n0, k, mem, free1, Pages(t), g, want);
      ok, t' := GrowUser(t, root, v, perm, data);
      if ok {
        ghost var w := Flat(mem, t')[v];
        UserApart(g, v, w, ram - free1 - Pages(t), ram - Set(free) - Pages(t'), free1, Pages(t'));
        GrowingStep(m0, free0, f, n0, k, want, m1, free1, Pages(t), g, mem, Set(free), Pages(t'), w);
      } else {
        ghost var m2 := mem;
        DeallocPages(t', root, v, n0);
        GrowingUndo(m0, free0, f, n0, k, want, m1, free1, Pages(t), g, m2, Pages(t'), mem);
      }
    }

    /**
      Grows user memory to `newsz` bytes with zeroed pages. If memory runs out, everything
      mapped so far is taken back: the flat map is exactly the old one.
     */
    method Uvmalloc(ghost t: Tree, root: nat, oldsz: nat, newsz: nat, xperm: nat)
      returns (sz: nat, ghost t': Tree, ghost ok: bool)
      requires UserSpace(t, Up(oldsz)) && t.root == root && xperm in {0, PTE_W, PTE_X, PTE_W + PTE_X}
      requires |ram| < MAXVPN - 2
      requires forall v :: Up(oldsz) <= v < MAXVPN - 2 ==> v !in Flat(mem, t)
      modifies this
      ensures sz == if !ok then 0 else if newsz < oldsz then oldsz else newsz
      ensures Own(t') && t'.root == root && Pages(t) <= Pages(t')
      ensures var n := if ok then Up(sz) else Up(oldsz);
              UserSpace(t', n) && Total(t', n) == old(Total(t, Up(oldsz)))
      ensures !ok ==> Flat(mem, t') == Flat(old(mem), t)
      ensures ok ==> Up(oldsz) <= Up(sz) && Flat(mem, t') - Span(Up(oldsz), Up(sz) - Up(oldsz)) == Flat(old(mem), t)
      ensures ok ==> PagesAre(mem, Flat(mem, t'), Up(oldsz), Up(sz), Zeroed(PTE_R + PTE_U + xperm))
      ensures SameBut(old(mem), mem, Set(old(free)) + Pages(t'))
      ensures newsz < oldsz ==> ok && t' == t && free == old(free) && mem == old(mem)
      ensures newsz >= oldsz ==> Up(newsz) >= Up(oldsz)
      ensures newsz >= oldsz ==>
        var vs := Span(Up(oldsz), Up(newsz) - Up(oldsz));
        var need := Up(newsz) - Up(oldsz) + Missing(t, vs);
        && (ok <==> |old(free)| >= need)
        && (ok ==> Extended(t, t', vs) && |old(free)| == |free| + need)
    {
      hide TreeOk, Flat, Pages, Linked, RamOk, FrameSet, Leafy, PagesAre, SameBut, Zeroed, Growing, UserOk, Up, Set,
        Span, Missing, Extended;
      ok, t' := true, t;
      ghost var f, n0, want := Flat(mem, t), Up(oldsz), Zeroed(PTE_R + PTE_U + xperm);
      GrowingZero(mem, Set(free), f, n0, Pages(t), want);
      GrowingDone(mem, Set(free), f, n0, 0, mem, Set(free), Pages(t), f, want);
      if newsz < oldsz {
        return oldsz, t, true;
      }
      PermLeafy(xperm);
      RoundUp(oldsz, newsz, n0);
      UpMono(oldsz, newsz);
      MissingNone(t);
      SpanZero(n0);
      var a := Up(oldsz) * 4096;
      ghost var k := 0;
      while a < newsz
        invariant a == (n0 + k) * 4096 && n0 + k <= Up(newsz)
        invariant t'.root == root && Pages(t) <= Pages(t')
        invariant AllocState(t', n0, k, f, old(mem), Set(old(free)), old(Total(t, n0)), want)
        invariant Extended(t, t', Span(n0, k)) && |old(free)| == |free| + k + Missing(t, Span(n0, k))
      {
        ghost var t1 := t';
        UserRoom(Flat(mem, t'), n0 + k, ram - Set(free) - Pages(t'), ram);
        ZeroedAt(PTE_R + PTE_U + xperm, n0 + k);
        RoundPage(n0 + k);
        RoundUp(oldsz, newsz, n0 + k);
        MissingNext(t, t', n0, k, Up(newsz) - n0);
        var done;
        done, t' := AllocRound(t', root, Up(oldsz), a / 4096, PTE_R + PTE_U + xperm, Zeros(),
                             k, f, old(mem), Set(old(free)), old(Total(t, n0)), want);
        if !done {
          return 0, t', false;
        }
        ExtendedPlus(t, t1, t', Span(n0, k), {n0 + k});
        a := a + 4096;
        k := k + 1;
      }
      sz := newsz;
      RoundUp(oldsz, newsz, n0 + k);
      assert Up(sz) == n0 + k;
      GrowingDone(old(mem), Set(old(free)), f, n0, k, mem, Set(free), Pages(t'), Flat(mem, t'), want);
    }

    // ----- uvmcopy -----

    /** Another address space is untouched by what happens in free pages and in `pages`. */
    ghost predicate Beside(t: Tree, n: nat, pages: set<nat>)
      reads this
    {
      UserSpace(t, n) && pages !! Pages(t) + FrameSet(Flat(mem, t), 0, n)
    }

    /** The other address space after free pages and `pages` were written. */
    lemma ParentKept(m0: Memory, free0: set<nat>, t: Tree, f: map<nat, nat>, n: nat, pages: set<nat>,
                     s: set<nat>, total0: set<nat>)
      requires Valid() && TreeOk(m0, t) && Flat(m0, t) == f && UserOk(f, n, ram - free0 - Pages(t))
      requires SameBut(m0, mem, s) && s + Set(free) + pages <= total0
      requires total0 !! Pages(t) + FrameSet(f, 0, n) && Pages(t) <= ram
      ensures Beside(t, n, pages) && Flat(mem, t) == f
    {
      hide TreeOk, Flat, Pages, Linked, RamOk, FrameSet, SameBut, Set, Injects;
      TreeFrame(m0, mem, t, s);
    }

    /** One round of uvmcopy. */
    method CopyRound(ghost told: Tree, oldroot: nat, ghost t: Tree, newroot: nat, i: nat,
                     ghost k: nat, ghost n: nat, ghost f: map<nat, nat>, ghost fold: map<nat, nat>,
                     ghost m0: Memory, ghost free0: set<nat>, ghost total0: set<nat>)
      returns (ok: bool, ghost t': Tree)
      requires told.root == oldroot && t.root == newroot && i / 4096 == k < n < MAXVPN && k !in f
      requires TreeOk(m0, told) && Flat(m0, told) == fold && UserOk(fold, n, ram - free0 - Pages(told))
      requires free0 <= total0 && total0 !! Pages(told) + FrameSet(fold, 0, n)
      requires AllocState(t, 0, k, f, m0, free0, total0, CopyOf(m0, fold))
      requires Beside(told, n, Pages(t)) && Flat(mem, told) == fold
      modifies this
      ensures t'.root == newroot && Pages(t) <= Pages(t')
      ensures Beside(told, n, Pages(t')) && Flat(mem, told) == fold
      ensures ok ==> AllocState(t', 0, k + 1, f, m0, free0, total0, CopyOf(m0, fold))
      ensures !ok ==> UserSpace(t', 0) && Total(t', 0) == total0 && Flat(mem, t') == f
                      && SameBut(m0, mem, free0 + Pages(t'))
      ensures ok <==> |old(free)| >= 1 + Missing(t, {k})
      ensures ok ==> Extended(t, t', {k}) && |old(free)| == |free| + 1 + Missing(t, {k})
    {
      hide TreeOk, Flat, Pages, Linked, FrameSet, Leafy, V, Pa, PagesAre, SameBut, CopyOf, Growing, UserOk, Set,
        Injects, Missing, Extended;
      ghost var want := CopyOf(m0, fold);
      GrowingDone(m0, free0, f, 0, k, mem, Set(free), Pages(t), Flat(mem, t), want);
      UserPage(fold, n, ram - free0 - Pages(told), k);
      CopyOfAt(m0, fold, k, mem, free0 + Pages(t));
      var pte, t1 := Walk(told, oldroot, i, false);
      ReadLeaf(mem, told, k);
      var w := mem[pte.value.0][pte.value.1];
      FlagsLeafy(w);
      ok, t' := AllocRound(t, newroot, 0, i / 4096, Flags(w), mem[Pa(w)], k, f, m0, free0, total0, want);
      if ok {
        GrowingDone(m0, free0, f, 0, k + 1, mem, Set(free), Pages(t'), Flat(mem, t'), want);
      }
      ParentKept(m0, free0, told, fold, n, Pages(t'), free0 + Pages(t'), total0);
    }

    /**
      Copies the user memory of `told` into `tnew`, which has none. On success every page has
      the flags and the contents of the original, on pages of its own; on failure the flat map
      of `tnew` is what it was. The original does not change.
     */
    method Uvmcopy(ghost told: Tree, oldroot: nat, ghost tnew: Tree, newroot: nat, sz: nat)
      returns (ok: bool, ghost t': Tree)
      requires told.root == oldroot && tnew.root == newroot && |ram| < MAXVPN - 2
      requires Beside(told, Up(sz), Pages(tnew)) && UserSpace(tnew, 0)
      requires forall v :: 0 <= v < MAXVPN - 2 ==> v !in Flat(mem, tnew)
      modifies this
      ensures t'.root == newroot && Pages(tnew) <= Pages(t') && UserSpace(t', if ok then Up(sz) else 0)
      ensures Total(t', if ok then Up(sz) else 0) == old(Total(tnew, 0))
      ensures Beside(told, Up(sz), Pages(t')) && Flat(mem, told) == Flat(old(mem), told)
      ensures !ok ==> Flat(mem, t') == Flat(old(mem), tnew)
      ensures ok ==> Flat(mem, t') - Span(0, Up(sz)) == Flat(old(mem), tnew)
      ensures ok ==> PagesAre(mem, Flat(mem, t'), 0, Up(sz), CopyOf(old(mem), Flat(old(mem), told)))
      ensures SameBut(old(mem), mem, Set(old(free)) + Pages(t'))
      ensures ok <==> |old(free)| >= Up(sz) + Missing(tnew, Span(0, Up(sz)))
      ensures ok ==> Extended(tnew, t', Span(0, Up(sz)))
      ensures ok ==> |old(free)| == |free| + Up(sz) + Missing(tnew, Span(0, Up(sz)))
    {
      hide TreeOk, Flat, Pages, Linked, RamOk, FrameSet, PagesAre, SameBut, CopyOf, Growing, UserOk, Up, Set, Span,
        Missing, Extended;
      ok, t' := true, tnew;
      ghost var f, fold, n := Flat(mem, tnew), Flat(mem, told), Up(sz);
      ghost var total0 := Total(tnew, 0);
      assert total0 == Set(free) + Pages(tnew) by { SpanNone(f, 0); }
      UserRoom(fold, n, ram - Set(free) - Pages(told), ram);
      UserFrames(fold, n, ram - Set(free) - Pages(told));
      assert total0 !! Pages(told) + FrameSet(fold, 0, n);
      GrowingZero(mem, Set(free), f, 0, Pages(tnew), CopyOf(mem, fold));
      MissingNone(tnew);
      SpanZero(0);
      var i := 0;
      ghost var k := 0;
      while i < sz
        invariant i == k * 4096 && k <= n
        invariant t'.root == newroot && Pages(tnew) <= Pages(t')
        invariant AllocState(t', 0, k, f, old(mem), Set(old(free)), total0, CopyOf(old(mem), fold))
        invariant Beside(told, n, Pages(t')) && Flat(mem, told) == fold
        invariant Extended(tnew, t', Span(0, k)) && |old(free)| == |free| + k + Missing(tnew, Span(0, k))
      {
        ghost var t1 := t';
        RoundPage(k);
        RoundUp(0, sz, k);
        MissingNext(tnew, t', 0, k, n);
        ok, t' := CopyRound(told, oldroot, t', newroot, i, k, n, f, fold, old(mem), Set(old(free)), total0);
        if !ok {
          return;
        }
        ExtendedPlus(tnew, t1, t', Span(0, k), {0 + k});
        i := i + 4096;
        k := k + 1;
      }
      RoundUp(0, sz, k);
      GrowingDone(old(mem), Set(old(free)), f, 0, k, mem, Set(free), Pages(t'), Flat(mem, t'), CopyOf(old(mem), fold));
    }

    // ----- freeing page tables -----

    method StoreWord(page: nat, i: nat, w: nat)
      requires Valid() && page !in Set(free) && page in mem && i < |mem[page]| == 512
      modifies this`mem
      ensures Valid() && mem == Store(old(mem), page, i, w) && SameBut(old(mem), mem, {page})
    {
      hide Linked;
      assert forall p :: p in free ==> p in Set(free);
      mem := Store(mem, page, i, w);
      LinkedFrame(old(mem), freelist, free, mem);
    }

    /** Frees the table `page` and all tables below it; they map nothing. */
    method Freewalk(ghost t: Tree, ghost level: nat, ghost key: nat, page: nat)
      requires Valid() && Shape(t) && level <= 2 && Node(t, level, key, page) && SubOk(mem, t, level, key)
      requires Sub(t, level, key) <= ram - Set(free)
      modifies this
      ensures Valid() && Set(free) == Set(old(free)) + Sub(t, level, key)
      ensures SameBut(old(mem), mem, Sub(t, level, key))
      decreases level
    {
      hide Linked, RamOk, Shape, SubOk, Sub, Below, Pa, Leafy, V, Set, Pages;
      BelowEnds(t, level, key, page);
      EntryBelow(mem, t, level, key, page, 0);
      var i := 0;
      while i < 512
        invariant i <= 512 && Valid()
        invariant Set(free) == Set(old(free)) + Below(t, level, key, i)
        invariant SameBut(old(mem), mem, Below(t, level, key, i) + {page})
        invariant page in mem && |mem[page]| == 512
        invariant forall j :: i <= j < 512 ==> mem[page][j] == old(mem[page][j])
        invariant Below(t, level, key, i) <= Below(t, level, key, 512)
      {
        EntryBelow(old(mem), t, level, key, page, i);
        var pte := mem[page][i];
        if V(pte) && !Leafy(pte) {
          var child := Pa(pte);
          ghost var c := ChildKey(level, key, i);
          ChildBelow(old(mem), t, level, key, page, i);
          SubFrame(old(mem), mem, t, level - 1, c, Below(t, level, key, i) + {page});
          BelowMono(t, level, key, i + 1);
          Freewalk(t, level - 1, c, child);
          StoreWord(page, i, 0);
        } else {
          assert !V(pte);    // otherwise "freewalk: leaf"
          NoChildBelow(t, level, key, i);
        }
        i := i + 1;
      }
      Kfree(page);
    }

    /** Frees the `sz` bytes of user memory, which are all that is mapped, and the tables. */
    method Uvmfree(ghost t: Tree, root: nat, sz: nat)
      requires UserSpace(t, Up(sz)) && t.root == root && Up(sz) <= MAXVPN
      requires Flat(mem, t).Keys == Span(0, Up(sz))
      modifies this
      ensures Valid() && Set(free) == old(Total(t, Up(sz)))
      ensures SameBut(old(mem), mem, Pages(t) + FrameSet(Flat(old(mem), t), 0, Up(sz)))
    {
      hide TreeOk, Flat, Pages, Linked, RamOk, FrameSet, Injects, SameBut, Set, Span, Sub, SubOk, Shape, Up;
      ghost var f, n := Flat(mem, t), Up(sz);
      RoundUp(0, sz, 0);
      if sz > 0 {
        Uvmunmap(t, root, 0, Up(sz), true);
      } else {
        UpZero();
        SpanNone(f, 0);
        SameRefl(mem, Pages(t) + FrameSet(f, 0, 0));
      }
      NoKeys(f, n);
      ghost var m1 := mem;
      EmptyTree(mem, t);
      Freewalk(t, 2, 0, root);
      SameTrans(old(mem), m1, mem, Pages(t) + FrameSet(f, 0, n), Pages(t));
    }

    /** A zeroed page as the root of a page table that maps nothing. */
    method Uvmcreate() returns (root: nat, ghost t: Tree)
      requires Valid()
      modifies this
      ensures Valid() && SameBut(old(mem), mem, Set(old(free)))
      ensures root == 0 <==> old(free) == []
      ensures root == 0 ==> free == old(free)
      ensures root != 0 ==> |old(free)| == |free| + 1
      ensures root != 0 ==> t == Tree(root, map[], map[]) && Own(t) && Flat(mem, t) == map[]
      ensures root != 0 ==> Set(old(free)) == Set(free) + {root} && Pages(t) == {root}
    {
      hide Linked;
      root := Kalloc();
      t := Tree(root, map[], map[]);
      if root != 0 {
        assert old(free) == [root] + free;
        SetCons(root, free);
        ghost var m1 := mem;
        mem := mem[root := Zeros()];
        assert forall p :: p in free ==> p in Set(free);
        LinkedFrame(m1, freelist, free, mem);
        RootTree(mem, root);
      }
    }

    /** uvmfree(pagetable, 0) on a page table that maps nothing. */
    method FreeEmpty(ghost t: Tree, root: nat)
      requires Own(t) && t.root == root && Flat(mem, t) == map[]
      modifies this
      ensures Valid() && Set(free) == Set(old(free)) + Pages(t) && SameBut(old(mem), mem, Pages(t))
    {
      hide TreeOk, Flat, Pages, Linked, RamOk, SameBut, Set;
      ghost var f := Flat(mem, t);
      NoUser(f, ram - Set(free) - Pages(t));
      assert Pages(t) + FrameSet(f, 0, Up(0)) == Pages(t);
      Uvmfree(t, root, 0);
    }

    // ----- process page tables -----

    /** The page table of a process: `n` user pages, the trapframe page and the trampoline. */
    ghost predicate Space(t: Tree, n: nat, trapframe: nat)
      reads this
    {
      && UserSpace(t, n) && n <= MAXVPN - 2
      && ProcMap(Flat(mem, t), n, trapframe, trampoline)
    }

    /** An empty user page table with trampoline and trapframe; nothing is lost on failure. */
    method ProcPagetable(trapframe: nat) returns (root: nat, ghost t: Tree)
      requires Valid() && trapframe % 4096 == 0 && trampoline % 4096 == 0
      modifies this
      ensures Valid() && SameBut(old(mem), mem, Set(old(free)))
      ensures root == 0 ==> Set(free) == Set(old(free))
      ensures root != 0 ==> t.root == root && Space(t, 0, trapframe) && Set(old(free)) == Set(free) + Pages(t)
      ensures root != 0 <==> |old(free)| >= Tables(Ends())
      ensures root != 0 ==> Exactly(t, Ends()) && |old(free)| == |free| + Tables(Ends())
    {
      hide TreeOk, Flat, Pages, Linked, RamOk, SameBut, Set, MkPte, Leafy, UserOk, ProcMap, Missing, Extended, Exactly,
        Tables;
      root, t := Uvmcreate();
      RootOnly(root, Ends());
      ghost var t0 := t;
      if root == 0 {
        return;
      }
      ProcPerms();
      var ok;
      ghost var free0 := Set(old(free));
      ghost var m1 := mem;
      MissingEnds(t0, t0);
      ok, t := MapPage(t, root, MAXVPN - 1, trampoline, PTE_R + PTE_X);
      SameTrans(old(mem), m1, mem, free0, Pages(t));
      ghost var m2, t1 := mem, t;
      if !ok {
        FreeEmpty(t, root);
        SameTrans(old(mem), m2, mem, free0, Pages(t));
        return 0, t;
      }
      MissingEnds(t0, t1);
      ok, t := MapPage(t, root, MAXVPN - 2, trapframe, PTE_R + PTE_W);
      SameTrans(old(mem), m2, mem, free0, Pages(t));
      ghost var m3 := mem;
      if !ok {
        OneKey(MAXVPN - 1, MkPte(trampoline, PTE_R + PTE_X));
        Uvmunmap(t, root, (MAXVPN - 1) * 4096, 1, false);
        SameTrans(old(mem), m3, mem, free0, Pages(t) + {});
        ghost var m4 := mem;
        FreeEmpty(t, root);
        SameTrans(old(mem), m4, mem, free0, Pages(t));
        return 0, t;
      }
      NoUser(Flat(mem, t), ram - Set(free) - Pages(t));
      ProcKeys(trapframe, trampoline);
      ExtendedPlus(t0, t1, t, {MAXVPN - 1}, {MAXVPN - 2});
      ExactlyPlus(t0, t, {}, Ends());
      assert {} + Ends() == Ends();
    }

    /** Frees a process's page table and user memory, but not its trapframe page. */
    method ProcFreepagetable(ghost t: Tree, root: nat, sz: nat, ghost trapframe: nat)
      requires Space(t, Up(sz), trapframe) && t.root == root
      modifies this
      ensures Valid() && Set(free) == old(Total(t, Up(sz)))
      ensures SameBut(old(mem), mem, Pages(t) + FrameSet(Flat(old(mem), t), 0, Up(sz)))
    {
      hide TreeOk, Flat, Pages, Linked, RamOk, SameBut, Set, MkPte, UserOk, ProcMap, FrameSet, Up, Span;
      ghost var f, n := Flat(mem, t), Up(sz);
      ProcUnmap(f, n, trapframe, trampoline, ram - Set(free) - Pages(t));
      Uvmunmap(t, root, (MAXVPN - 1) * 4096, 1, false);
      ghost var m1 := mem;
      Uvmunmap(t, root, (MAXVPN - 2) * 4096, 1, false);
      ghost var m2 := mem;
      Uvmfree(t, root, sz);
      SameTrans(old(mem), m1, m2, Pages(t) + {}, Pages(t) + {});
      SameThen(old(mem), m2, mem, Pages(t) + {}, Pages(t) + FrameSet(f, 0, n));
    }
  }
}
