/**
  The Kernighan and Ritchie storage allocator of user/umalloc.c. Addresses count units of one
  header (16 bytes). Free blocks form a ring in address order that starts at the static header
  `base`; a free or allocated block is its header and the units behind it.
 */
module Umalloc {

  datatype Block = Block(addr: nat, size: nat) {
    function End(): nat { addr + size }

    predicate Has(u: nat) { addr <= u < addr + size }
  }

  // ----- the free list as a sequence -----

  /** Ascending, and no block ends where the next one begins: nothing is left to coalesce. */
  ghost predicate Sorted(l: seq<Block>) {
    forall i, j :: 0 <= i < j < |l| ==> l[i].End() < l[j].addr
  }

  ghost predicate Covers(l: seq<Block>, u: nat) {
    exists i :: 0 <= i < |l| && l[i].Has(u)
  }

  /** Where in the list a block at `a` belongs: after entry `t`. */
  ghost predicate Place(l: seq<Block>, t: nat, a: nat) {
    t < |l| && l[t].addr < a && (t + 1 < |l| ==> a < l[t + 1].addr)
  }

  /** Block `b` touches no block of the list. */
  ghost predicate Clear(l: seq<Block>, b: Block) {
    forall i :: 0 <= i < |l| ==> l[i].End() <= b.addr || b.End() <= l[i].addr
  }

  predicate JoinsNext(l: seq<Block>, t: nat, b: Block)
    requires t < |l|
  {
    t + 1 < |l| && b.End() == l[t + 1].addr
  }

  /** The block after it has absorbed the next one, where they touch. */
  function WithNext(l: seq<Block>, t: nat, b: Block): Block
    requires t < |l|
  {
    if JoinsNext(l, t, b) then Block(b.addr, b.size + l[t + 1].size) else b
  }

  function After(l: seq<Block>, t: nat, b: Block): seq<Block>
    requires t < |l|
  {
    if JoinsNext(l, t, b) then l[t + 2..] else l[t + 1..]
  }

  function Head(l: seq<Block>, t: nat, b: Block): seq<Block>
    requires t < |l|
  {
    if l[t].End() == b.addr then l[..t] else l[..t + 1]
  }

  function Middle(l: seq<Block>, t: nat, b: Block): Block
    requires t < |l|
  {
    if l[t].End() == b.addr then Block(l[t].addr, l[t].size + WithNext(l, t, b).size) else WithNext(l, t, b)
  }

  /** The list after block `b` was freed behind entry `t`, joined with its neighbours. */
  function Splice(l: seq<Block>, t: nat, b: Block): seq<Block>
    requires t < |l|
  {
    Head(l, t, b) + [Middle(l, t, b)] + After(l, t, b)
  }

  lemma SortedJoin(pre: seq<Block>, c: Block, post: seq<Block>)
    requires Sorted(pre) && Sorted(post)
    requires forall i :: 0 <= i < |pre| ==> pre[i].End() < c.addr
    requires forall j :: 0 <= j < |post| ==> c.End() < post[j].addr
    ensures Sorted(pre + [c] + post)
  {
  }

  lemma CoversJoin(pre: seq<Block>, c: Block, post: seq<Block>, u: nat)
    ensures Covers(pre + [c] + post, u) <==> Covers(pre, u) || c.Has(u) || Covers(post, u)
  {
    var r := pre + [c] + post;
    var k := |pre|;
    assert forall i :: 0 <= i < k ==> r[i] == pre[i];
    assert r[k] == c;
    if Covers(post, u) {
      var i :| 0 <= i < |post| && post[i].Has(u);
      assert r[k + 1 + i] == post[i];
    }
  }

  lemma CoversSplit(l: seq<Block>, k: nat, u: nat)
    requires k <= |l|
    ensures Covers(l, u) <==> Covers(l[..k], u) || Covers(l[k..], u)
  {
  }

  lemma CoversCons(l: seq<Block>, t: nat, u: nat)
    requires t < |l|
    ensures Covers(l[t..], u) <==> l[t].Has(u) || Covers(l[t + 1..], u)
  {
  }

  lemma CoversSnoc(l: seq<Block>, t: nat, u: nat)
    requires t < |l|
    ensures Covers(l[..t + 1], u) <==> Covers(l[..t], u) || l[t].Has(u)
  {
  }

  lemma SortedPart(l: seq<Block>, lo: nat, hi: nat)
    requires Sorted(l) && lo <= hi <= |l|
    ensures Sorted(l[lo..hi])
  {
  }

  /** Freeing keeps the list ascending and coalesced. */
  lemma SpliceSorted(l: seq<Block>, t: nat, b: Block)
    requires Sorted(l) && Place(l, t, b.addr) && Clear(l, b) && b.size > 0
    ensures Sorted(Splice(l, t, b))
  {
    var pre, c, post := Head(l, t, b), Middle(l, t, b), After(l, t, b);
    var k, m := |pre|, if JoinsNext(l, t, b) then t + 2 else t + 1;
    assert l[t].End() <= b.addr && (t + 1 < |l| ==> b.End() <= l[t + 1].addr);
    assert pre == l[0..k] && post == l[m..|l|];
    SortedPart(l, 0, k);
    SortedPart(l, m, |l|);
    assert Sorted(pre) && Sorted(post);
    forall i | 0 <= i < |pre| ensures pre[i].End() < c.addr { assert pre[i] == l[i]; }
    forall j | 0 <= j < |post| ensures c.End() < post[j].addr { assert post[j] == l[m + j]; }
    SortedJoin(pre, c, post);
  }

  /** Freeing adds exactly the units of the block to those that are free. */
  lemma SpliceCovers(l: seq<Block>, t: nat, b: Block, u: nat)
    requires Sorted(l) && Place(l, t, b.addr) && Clear(l, b) && b.size > 0
    ensures Covers(Splice(l, t, b), u) <==> Covers(l, u) || b.Has(u)
  {
    hide Sorted, Covers;
    SpliceSorted(l, t, b);
    CoversJoin(Head(l, t, b), Middle(l, t, b), After(l, t, b), u);
    CoversSplit(l, t + 1, u);
    CoversSnoc(l, t, u);
    if JoinsNext(l, t, b) { CoversCons(l, t + 1, u); }
  }

  // ----- the ring in memory -----

  type Words = map<nat, nat>

  function Next(n: nat, i: nat): nat { if i + 1 < n then i + 1 else 0 }

  ghost predicate RingAt(ptr: Words, size: Words, l: seq<Block>, i: nat)
    requires i < |l|
  {
    && l[i].addr in ptr && l[i].addr in size
    && ptr[l[i].addr] == l[Next(|l|, i)].addr && size[l[i].addr] == l[i].size
  }

  /** The headers in memory are linked in a circle, in the order of the list. */
  ghost predicate Ring(ptr: Words, size: Words, l: seq<Block>) {
    |l| > 0 && forall i :: 0 <= i < |l| ==> RingAt(ptr, size, l, i)
  }

  /** A ring stays one when memory changes elsewhere. */
  lemma RingFrame(ptr: Words, size: Words, l: seq<Block>, a: nat, q: nat, n: nat)
    requires Ring(ptr, size, l) && forall i :: 0 <= i < |l| ==> l[i].addr != a
    ensures Ring(ptr[a := q], size[a := n], l)
  {
    var ptr', size' := ptr[a := q], size[a := n];
    forall i | 0 <= i < |l| ensures RingAt(ptr', size', l, i) { assert RingAt(ptr, size, l, i); }
  }

  /** Cutting entry `t + 1` out of the ring. */
  lemma RingDrop(ptr: Words, size: Words, l: seq<Block>, t: nat)
    requires Ring(ptr, size, l) && Sorted(l) && t + 1 < |l|
    ensures RingAt(ptr, size, l, t) && RingAt(ptr, size, l, t + 1)
    ensures Ring(ptr[l[t].addr := ptr[l[t + 1].addr]], size, l[..t + 1] + l[t + 2..])
  {
    assert RingAt(ptr, size, l, t) && RingAt(ptr, size, l, t + 1);
    var r := l[..t + 1] + l[t + 2..];
    var ptr' := ptr[l[t].addr := ptr[l[t + 1].addr]];
    forall i | 0 <= i < |r| ensures RingAt(ptr', size, r, i) {
      var j := if i <= t then i else i + 1;
      assert r[i] == l[j] && RingAt(ptr, size, l, j);
    }
  }

  /** Linking a new header in behind entry `t`. */
  lemma RingInsert(ptr: Words, size: Words, l: seq<Block>, t: nat, b: Block)
    requires Ring(ptr, size, l) && Sorted(l) && t < |l|
    requires forall i :: 0 <= i < |l| ==> l[i].addr != b.addr
    ensures RingAt(ptr, size, l, t)
    ensures Ring(ptr[b.addr := ptr[l[t].addr]][l[t].addr := b.addr], size[b.addr := b.size],
      l[..t + 1] + [b] + l[t + 1..])
  {
    assert RingAt(ptr, size, l, t);
    var r := l[..t + 1] + [b] + l[t + 1..];
    var ptr' := ptr[b.addr := ptr[l[t].addr]][l[t].addr := b.addr];
    var size' := size[b.addr := b.size];
    forall i | 0 <= i < |r| ensures RingAt(ptr', size', r, i) {
      if i != t + 1 {
        var j := if i <= t then i else i - 1;
        assert r[i] == l[j] && RingAt(ptr, size, l, j);
      }
    }
  }

  /** Changing the size of an entry. */
  lemma RingResize(ptr: Words, size: Words, l: seq<Block>, t: nat, n: nat)
    requires Ring(ptr, size, l) && Sorted(l) && t < |l|
    ensures Ring(ptr, size[l[t].addr := n], l[t := Block(l[t].addr, n)])
  {
    var r := l[t := Block(l[t].addr, n)];
    var size' := size[l[t].addr := n];
    forall i | 0 <= i < |r| ensures RingAt(ptr, size', r, i) { assert RingAt(ptr, size, l, i); }
  }

  // ----- free and allocated blocks together -----

  ghost predicate InAlloc(alloc: map<nat, nat>, u: nat) {
    exists a :: a in alloc && Block(a, alloc[a]).Has(u)
  }

  /** The list: the static header of size 0, then the free blocks, ascending and coalesced. */
  ghost predicate ListOk(l: seq<Block>, base: nat) {
    && |l| > 0 && l[0] == Block(base, 0) && Sorted(l)
    && forall i :: 1 <= i < |l| ==> l[i].size > 0
  }

  /** Allocated blocks have their headers in memory and overlap nothing. */
  ghost predicate AllocOk(size: Words, l: seq<Block>, alloc: map<nat, nat>, base: nat) {
    && (forall a :: a in alloc ==> base < a && alloc[a] > 0 && a in size && size[a] == alloc[a]
                                   && Clear(l, Block(a, alloc[a])))
    && (forall a, b :: a in alloc && b in alloc && a < b ==> a + alloc[a] <= b)
  }

  /** Every unit obtained from the system is in exactly one free or allocated block. */
  ghost predicate Partition(l: seq<Block>, alloc: map<nat, nat>, heap: set<nat>) {
    forall u :: u in heap <==> Covers(l, u) || InAlloc(alloc, u)
  }

  ghost predicate HeapOk(ptr: Words, size: Words, l: seq<Block>, alloc: map<nat, nat>, heap: set<nat>, base: nat) {
    && ListOk(l, base) && Ring(ptr, size, l) && AllocOk(size, l, alloc, base) && Partition(l, alloc, heap)
  }

  lemma {:induction false} PlaceExists(l: seq<Block>, a: nat, k: nat) returns (t: nat)
    requires Sorted(l) && k < |l| && l[k].addr < a && forall i :: 0 <= i < |l| ==> l[i].addr != a
    ensures Place(l, t, a)
    decreases |l| - k
  {
    if k + 1 < |l| && l[k + 1].addr < a { t := PlaceExists(l, a, k + 1); } else { t := k; }
  }

  lemma ApartFrom(l: seq<Block>, base: nat, b: Block)
    requires ListOk(l, base) && Clear(l, b) && b.size > 0 && base < b.addr
    ensures forall i :: 0 <= i < |l| ==> l[i].addr != b.addr
  {
  }

  lemma AllocAt(size: Words, l: seq<Block>, alloc: map<nat, nat>, base: nat, a: nat)
    requires AllocOk(size, l, alloc, base) && a in alloc
    ensures base < a && alloc[a] > 0 && a in size && size[a] == alloc[a] && Clear(l, Block(a, alloc[a]))
  {
  }

  lemma NotAllocated(size: Words, l: seq<Block>, alloc: map<nat, nat>, base: nat, t: nat)
    requires ListOk(l, base) && AllocOk(size, l, alloc, base) && t < |l|
    ensures l[t].addr !in alloc && l[t].addr >= base
  {
  }

  lemma SpliceList(l: seq<Block>, base: nat, t: nat, b: Block)
    requires ListOk(l, base) && Place(l, t, b.addr) && Clear(l, b) && b.size > 0
    ensures ListOk(Splice(l, t, b), base)
  {
    SpliceSorted(l, t, b);
  }

  lemma SpliceAt(l: seq<Block>, t: nat, b: Block)
    requires t < |l|
    ensures t < |Splice(l, t, b)| && Splice(l, t, b)[t].addr == l[t].addr
    ensures exists j :: 0 <= j < |Splice(l, t, b)| && Splice(l, t, b)[j].size >= b.size
  {
    assert Splice(l, t, b)[|Head(l, t, b)|] == Middle(l, t, b);
  }

  /** A block that touches neither the list nor the freed block touches nothing afterwards. */
  lemma SpliceClear(l: seq<Block>, t: nat, b: Block, c: Block)
    requires Sorted(l) && Place(l, t, b.addr) && Clear(l, b) && b.size > 0
    requires Clear(l, c) && c.size > 0 && (b.End() <= c.addr || c.End() <= b.addr)
    ensures Clear(Splice(l, t, b), c)
  {
    var r := Splice(l, t, b);
    var k := |Head(l, t, b)|;
    var m := if JoinsNext(l, t, b) then t + 2 else t + 1;
    forall i | 0 <= i < |r| ensures r[i].End() <= c.addr || c.End() <= r[i].addr {
      if i < k { assert r[i] == l[i]; }
      else if i > k { assert r[i] == l[m + (i - k - 1)]; }
      else { assert r[i] == Middle(l, t, b) && l[t].End() <= b.addr; }
    }
  }

  lemma FreeAlloc(size: Words, size': Words, l: seq<Block>, alloc: map<nat, nat>, base: nat, t: nat, b: Block)
    requires ListOk(l, base) && AllocOk(size, l, alloc, base) && Place(l, t, b.addr)
    requires b.addr in alloc && alloc[b.addr] == b.size
    requires forall a :: a in alloc && a in size && a != b.addr ==> a in size' && size'[a] == size[a]
    ensures AllocOk(size', Splice(l, t, b), alloc - {b.addr}, base)
  {
    hide Sorted, Splice, Clear;
    var alloc' := alloc - {b.addr};
    assert Sorted(l) && Clear(l, Block(b.addr, alloc[b.addr]));
    forall a | a in alloc' ensures Clear(Splice(l, t, b), Block(a, alloc'[a])) {
      SpliceClear(l, t, b, Block(a, alloc[a]));
    }
  }

  lemma FreePartition(l: seq<Block>, alloc: map<nat, nat>, heap: set<nat>, t: nat, b: Block)
    requires Partition(l, alloc, heap) && Sorted(l) && Place(l, t, b.addr) && Clear(l, b) && b.size > 0
    requires b.addr in alloc && alloc[b.addr] == b.size
    ensures Partition(Splice(l, t, b), alloc - {b.addr}, heap)
  {
    hide Sorted, Splice, Clear, Covers;
    var alloc' := alloc - {b.addr};
    forall u ensures u in heap <==> Covers(Splice(l, t, b), u) || InAlloc(alloc', u) {
      SpliceCovers(l, t, b, u);
      if InAlloc(alloc, u) && !b.Has(u) {
        var a :| a in alloc && Block(a, alloc[a]).Has(u);
        assert a in alloc';
      }
    }
  }

  ghost function Units(a: nat, n: nat): set<nat> {
    set u: nat | u < a + n && Block(a, n).Has(u)
  }

  /** A region above everything obtained before can count as an allocated block. */
  lemma Granted(ptr: Words, size: Words, l: seq<Block>, alloc: map<nat, nat>, heap: set<nat>, base: nat, b: Block)
    requires HeapOk(ptr, size, l, alloc, heap, base) && b.size > 0 && base < b.addr
    requires forall u :: u in heap ==> u < b.addr
    ensures b.addr !in alloc
    ensures HeapOk(ptr, size[b.addr := b.size], l, alloc[b.addr := b.size], heap + Units(b.addr, b.size), base)
  {
    var size', alloc', heap' := size[b.addr := b.size], alloc[b.addr := b.size], heap + Units(b.addr, b.size);
    forall i | 0 <= i < |l| ensures l[i].End() <= b.addr {
      if i > 0 { assert l[i].Has(l[i].End() - 1); assert Covers(l, l[i].End() - 1); }
    }
    forall a | a in alloc ensures a + alloc[a] <= b.addr {
      assert Block(a, alloc[a]).Has(a + alloc[a] - 1);
      assert InAlloc(alloc, a + alloc[a] - 1);
    }
    if b.addr in ptr { RingFrame(ptr, size, l, b.addr, ptr[b.addr], b.size); assert ptr[b.addr := ptr[b.addr]] == ptr; }
    assert Ring(ptr, size', l) by {
      forall i | 0 <= i < |l| ensures RingAt(ptr, size', l, i) { assert RingAt(ptr, size, l, i); }
    }
    assert Partition(l, alloc', heap') by { GrantedUnits(l, alloc, heap, b); }
  }

  lemma AllocUnits(alloc: map<nat, nat>, b: Block, u: nat)
    requires b.addr !in alloc
    ensures InAlloc(alloc[b.addr := b.size], u) <==> InAlloc(alloc, u) || b.Has(u)
  {
    var alloc' := alloc[b.addr := b.size];
    if InAlloc(alloc, u) {
      var a :| a in alloc && Block(a, alloc[a]).Has(u);
      assert a in alloc' && alloc'[a] == alloc[a];
    }
    if b.Has(u) { assert b.addr in alloc' && alloc'[b.addr] == b.size; }
  }

  lemma GrantedUnits(l: seq<Block>, alloc: map<nat, nat>, heap: set<nat>, b: Block)
    requires Partition(l, alloc, heap) && b.addr !in alloc
    ensures Partition(l, alloc[b.addr := b.size], heap + Units(b.addr, b.size))
  {
    hide Covers, InAlloc;
    forall u ensures InAlloc(alloc[b.addr := b.size], u) <==> InAlloc(alloc, u) || b.Has(u) { AllocUnits(alloc, b, u); }
  }

  function Cut(l: seq<Block>, j: nat): seq<Block>
    requires j < |l|
  {
    l[..j] + l[j + 1..]
  }

  lemma CutList(l: seq<Block>, base: nat, j: nat)
    requires ListOk(l, base) && 1 <= j < |l|
    ensures ListOk(Cut(l, j), base) && Clear(Cut(l, j), l[j]) && base < l[j].addr
    ensures forall c: Block :: Clear(l, c) && c.size > 0
                               ==> Clear(Cut(l, j), c) && (l[j].End() <= c.addr || c.End() <= l[j].addr)
  {
    var r := Cut(l, j);
    assert forall i :: 0 <= i < |r| ==> r[i] == l[if i < j then i else i + 1];
  }

  lemma CutCovers(l: seq<Block>, j: nat, u: nat)
    requires j < |l|
    ensures Covers(l, u) <==> Covers(Cut(l, j), u) || l[j].Has(u)
  {
    hide Covers;
    var r := Cut(l, j);
    CoversSplit(l, j, u);
    CoversCons(l, j, u);
    CoversSplit(r, j, u);
    assert r[..j] == l[..j] && r[j..] == l[j + 1..];
  }

  /** A free block that fits exactly leaves the list. */
  lemma TookWhole(ptr: Words, size: Words, l: seq<Block>, alloc: map<nat, nat>, heap: set<nat>, base: nat, j: nat)
    requires HeapOk(ptr, size, l, alloc, heap, base) && 1 <= j < |l|
    ensures RingAt(ptr, size, l, j - 1) && RingAt(ptr, size, l, j) && l[j].addr !in alloc
    ensures HeapOk(ptr[l[j - 1].addr := ptr[l[j].addr]], size, Cut(l, j), alloc[l[j].addr := l[j].size], heap, base)
  {
    hide Covers, InAlloc, Sorted, Clear, AllocOk, Partition, Ring;
    RingDrop(ptr, size, l, j - 1);
    NotAllocated(size, l, alloc, base, j);
    CutList(l, base, j);
    TookAlloc(size, size, l, Cut(l, j), alloc, base, l[j]);
    forall u ensures Covers(l, u) <==> Covers(Cut(l, j), u) || l[j].Has(u) { CutCovers(l, j, u); }
    TookUnits(l, Cut(l, j), alloc, heap, l[j]);
  }

  lemma TookUnits(l: seq<Block>, r: seq<Block>, alloc: map<nat, nat>, heap: set<nat>, b: Block)
    requires Partition(l, alloc, heap) && b.addr !in alloc
    requires forall u :: Covers(l, u) <==> Covers(r, u) || b.Has(u)
    ensures Partition(r, alloc[b.addr := b.size], heap)
  {
    hide Covers, InAlloc;
    forall u ensures InAlloc(alloc[b.addr := b.size], u) <==> InAlloc(alloc, u) || b.Has(u) { AllocUnits(alloc, b, u); }
  }

  lemma TookAlloc(size: Words, size': Words, l: seq<Block>, r: seq<Block>, alloc: map<nat, nat>, base: nat, b: Block)
    requires AllocOk(size, l, alloc, base) && b.addr !in alloc && base < b.addr && b.size > 0
    requires b.addr in size' && size'[b.addr] == b.size && Clear(r, b)
    requires forall a :: a in alloc && a in size ==> a in size' && size'[a] == size[a]
    requires forall c: Block :: Clear(l, c) && c.size > 0 ==> Clear(r, c) && (b.End() <= c.addr || c.End() <= b.addr)
    ensures AllocOk(size', r, alloc[b.addr := b.size], base)
  {
  }

  function Trim(l: seq<Block>, j: nat, s: nat): seq<Block>
    requires j < |l|
  {
    l[j := Block(l[j].addr, s)]
  }

  lemma TrimOk(l: seq<Block>, base: nat, j: nat, s: nat)
    requires ListOk(l, base) && 1 <= j < |l| && 0 < s < l[j].size
    ensures ListOk(Trim(l, j, s), base) && base < l[j].addr
  {
  }

  lemma TrimList(l: seq<Block>, base: nat, j: nat, s: nat, b: Block)
    requires ListOk(l, base) && 1 <= j < |l| && 0 < s < l[j].size && b == Block(l[j].addr + s, l[j].size - s)
    ensures Clear(Trim(l, j, s), b)
    ensures forall i :: 0 <= i < |l| ==> l[i].addr != b.addr
  {
  }

  lemma TrimClear(l: seq<Block>, j: nat, s: nat, c: Block)
    requires j < |l| && 0 < s < l[j].size && Clear(l, c)
    ensures Clear(Trim(l, j, s), c)
    ensures l[j].End() <= c.addr || c.End() <= l[j].addr + s
  {
  }

  lemma TrimCovers(l: seq<Block>, j: nat, s: nat, b: Block, u: nat)
    requires j < |l| && 0 < s < l[j].size && b == Block(l[j].addr + s, l[j].size - s)
    ensures Covers(l, u) <==> Covers(Trim(l, j, s), u) || b.Has(u)
  {
    hide Covers;
    var c := Block(l[j].addr, s);
    assert l == l[..j] + [l[j]] + l[j + 1..] && Trim(l, j, s) == l[..j] + [c] + l[j + 1..];
    CoversJoin(l[..j], l[j], l[j + 1..], u);
    CoversJoin(l[..j], c, l[j + 1..], u);
  }

  lemma TrimRing(ptr: Words, size: Words, l: seq<Block>, j: nat, s: nat, b: Block)
    requires Ring(ptr, size, l) && Sorted(l) && j < |l| && forall i :: 0 <= i < |l| ==> l[i].addr != b.addr
    ensures RingAt(ptr, size, l, j)
    ensures Ring(ptr, size[l[j].addr := s][b.addr := b.size], Trim(l, j, s))
  {
    assert RingAt(ptr, size, l, j);
    RingResize(ptr, size, l, j, s);
    var r, size1, size2 := Trim(l, j, s), size[l[j].addr := s], size[l[j].addr := s][b.addr := b.size];
    forall i | 0 <= i < |r| ensures RingAt(ptr, size2, r, i) { assert RingAt(ptr, size1, r, i); }
  }

  /** A larger free block gives up its tail. */
  lemma TookTail(ptr: Words, size: Words, l: seq<Block>, alloc: map<nat, nat>, heap: set<nat>, base: nat,
                 j: nat, s: nat, b: Block)
    requires HeapOk(ptr, size, l, alloc, heap, base) && 1 <= j < |l| && 0 < s < l[j].size
    requires b == Block(l[j].addr + s, l[j].size - s)
    ensures RingAt(ptr, size, l, j) && b.addr !in alloc
    ensures HeapOk(ptr, size[l[j].addr := s][b.addr := b.size], Trim(l, j, s), alloc[b.addr := b.size], heap, base)
  {
    hide Covers, InAlloc, Sorted, Clear, AllocOk, Partition, Ring;
    NotAllocated(size, l, alloc, base, j);
    TrimOk(l, base, j, s);
    TrimList(l, base, j, s, b);
    forall c: Block | Clear(l, c) && c.size > 0
      ensures Clear(Trim(l, j, s), c) && (b.End() <= c.addr || c.End() <= b.addr)
    {
      TrimClear(l, j, s, c);
    }
    if b.addr in alloc { AllocAt(size, l, alloc, base, b.addr); }
    TrimRing(ptr, size, l, j, s, b);
    TookAlloc(size, size[l[j].addr := s][b.addr := b.size], l, Trim(l, j, s), alloc, base, b);
    forall u ensures Covers(l, u) <==> Covers(Trim(l, j, s), u) || b.Has(u) { TrimCovers(l, j, s, b, u); }
    TookUnits(l, Trim(l, j, s), alloc, heap, b);
  }

  // ----- what free does to the headers -----

  /** The link words after block `b` was freed behind `p`, whose successor is `q`. */
  function FreePtr(ptr: Words, p: nat, b: nat, next: nat, lower: bool): Words {
    if lower then ptr[b := next][p := next] else ptr[b := next][p := b]
  }

  /** Sizes after the same. */
  function FreeSize(size: Words, p: nat, b: nat, n: nat, lower: bool): Words
    requires p in size
  {
    if lower then size[b := n][p := size[p] + n] else size[b := n]
  }

  lemma DropSorted(l: seq<Block>, t: nat, a: nat)
    requires Sorted(l) && t + 1 < |l| && forall i :: 0 <= i < |l| ==> l[i].addr != a
    ensures var l1 := l[..t + 1] + l[t + 2..];
            && Sorted(l1) && l1[t] == l[t] && l1[..t] == l[..t] && l1[..t + 1] == l[..t + 1]
              && l1[t + 1..] == l[t + 2..]
            && forall i :: 0 <= i < |l1| ==> l1[i].addr != a
  {
  }

  /** The case in which the block touches its successor. */
  lemma FreeRingJoin(ptr: Words, size: Words, l: seq<Block>, t: nat, b: Block)
    requires Ring(ptr, size, l) && Sorted(l) && t < |l| && JoinsNext(l, t, b)
    requires forall i :: 0 <= i < |l| ==> l[i].addr != b.addr
    ensures RingAt(ptr, size, l, t) && RingAt(ptr, size, l, t + 1)
    ensures var p := l[t].addr;
            var lower := l[t].End() == b.addr;
            Ring(FreePtr(ptr, p, b.addr, ptr[ptr[p]], lower),
                 FreeSize(size, p, b.addr, WithNext(l, t, b).size, lower), Splice(l, t, b))
  {
    hide Ring, Sorted;
    var p := l[t].addr;
    RingDrop(ptr, size, l, t);
    var next := ptr[ptr[p]];
    var l1 := l[..t + 1] + l[t + 2..];
    DropSorted(l, t, b.addr);
    FreeRing1(ptr[p := next], size, l1, t, WithNext(l, t, b));
    assert FreePtr(ptr, p, b.addr, next, true) == FreePtr(ptr[p := next], p, b.addr, next, true);
    assert FreePtr(ptr, p, b.addr, next, false) == FreePtr(ptr[p := next], p, b.addr, next, false);
  }

  /** The link and size words that free leaves form the ring of the new list. */
  lemma FreeRing(ptr: Words, size: Words, l: seq<Block>, base: nat, t: nat, b: Block)
    requires ListOk(l, base) && Ring(ptr, size, l) && Place(l, t, b.addr) && Clear(l, b) && b.size > 0
    requires base < b.addr && b.addr in size && size[b.addr] == b.size
    ensures RingAt(ptr, size, l, t)
    ensures var p := l[t].addr;
            var upper := b.End() == ptr[p];
            && upper == JoinsNext(l, t, b)
            && (upper ==> ptr[p] in ptr && ptr[p] in size)
            && WithNext(l, t, b).size == (if upper then b.size + size[ptr[p]] else b.size)
            && Ring(FreePtr(ptr, p, b.addr, if upper then ptr[ptr[p]] else ptr[p], l[t].End() == b.addr),
                    FreeSize(size, p, b.addr, WithNext(l, t, b).size, l[t].End() == b.addr), Splice(l, t, b))
  {
    hide Clear, Sorted;
    ApartFrom(l, base, b);
    assert RingAt(ptr, size, l, t);
    if JoinsNext(l, t, b) {
      FreeRingJoin(ptr, size, l, t, b);
    } else {
      FreeRing1(ptr, size, l, t, b);
    }
  }

  /** The same once the next block, if it had to be joined, is out of the ring. */
  lemma FreeRing1(ptr: Words, size: Words, l: seq<Block>, t: nat, c: Block)
    requires Ring(ptr, size, l) && Sorted(l) && t < |l|
    requires forall i :: 0 <= i < |l| ==> l[i].addr != c.addr
    ensures RingAt(ptr, size, l, t)
    ensures var p := l[t].addr;
            var lower := l[t].End() == c.addr;
            Ring(FreePtr(ptr, p, c.addr, ptr[p], lower),
                 FreeSize(size, p, c.addr, c.size, lower),
                 if lower then l[..t] + [Block(p, l[t].size + c.size)] + l[t + 1..] else l[..t + 1] + [c] + l[t + 1..])
  {
    assert RingAt(ptr, size, l, t);
    var p := l[t].addr;
    if l[t].End() == c.addr {
      RingFrame(ptr, size, l, c.addr, ptr[p], c.size);
      RingResize(ptr[c.addr := ptr[p]], size[c.addr := c.size], l, t, l[t].size + c.size);
      assert l[t := Block(p, l[t].size + c.size)] == l[..t] + [Block(p, l[t].size + c.size)] + l[t + 1..];
      assert ptr[c.addr := ptr[p]] == FreePtr(ptr, p, c.addr, ptr[p], true);
    } else {
      RingInsert(ptr, size, l, t, c);
    }
  }

  /** List `l'` is list `l` with block `b` put in where it belongs. */
  ghost predicate Freed(l: seq<Block>, b: Block, l': seq<Block>) {
    exists t :: Place(l, t, b.addr) && l' == Splice(l, t, b)
  }

  ghost predicate HasFit(l: seq<Block>, n: nat) {
    exists i :: 0 <= i < |l| && l[i].size >= n
  }

  lemma FreedFits(l: seq<Block>, b: Block, l': seq<Block>)
    requires Freed(l, b, l')
    ensures forall n: nat :: n <= b.size ==> HasFit(l', n)
  {
    var t :| Place(l, t, b.addr) && l' == Splice(l, t, b);
    SpliceAt(l, t, b);
  }

  /** How far entry `i` is from entry `f` when the search starts behind `f`. */
  function Pos(n: nat, f: nat, i: nat): int {
    if i > f then i - f - 1 else n - 1 - f + i
  }

  /** Everything the search passed on its way from `f` to `j` is too small. */
  ghost predicate Seen(l: seq<Block>, f: nat, j: nat, n: nat) {
    forall i :: 0 <= i < |l| && Pos(|l|, f, i) < Pos(|l|, f, j) ==> l[i].size < n
  }

  lemma FirstPos(l: seq<Block>, f: nat, n: nat)
    requires f < |l|
    ensures Seen(l, f, Next(|l|, f), n) && Pos(|l|, f, Next(|l|, f)) == 0
  {
  }

  /** One step further; behind `f` itself everything has been seen. */
  lemma SeenNext(l: seq<Block>, f: nat, j: nat, n: nat)
    requires f < |l| && j < |l| && Seen(l, f, j, n) && l[j].size < n
    ensures j != f ==> Seen(l, f, Next(|l|, j), n) && Pos(|l|, f, Next(|l|, j)) == Pos(|l|, f, j) + 1 < |l|
    ensures j == f ==> !HasFit(l, n)
  {
  }

  lemma FoundFit(l1: seq<Block>, l: seq<Block>, j: nat, n: nat, calls: nat)
    requires j < |l| && l[j].size >= n && (calls == 0 ==> l == l1)
    ensures calls == 0 ==> HasFit(l1, n)
  {
  }

  lemma RingStep(ptr: Words, size: Words, l: seq<Block>, alloc: map<nat, nat>, heap: set<nat>, base: nat, k: nat)
    requires HeapOk(ptr, size, l, alloc, heap, base) && k < |l|
    ensures RingAt(ptr, size, l, k)
  {
  }

  lemma SameIndex(ptr: Words, size: Words, l: seq<Block>, alloc: map<nat, nat>, heap: set<nat>, base: nat, i: nat,
                  j: nat)
    requires HeapOk(ptr, size, l, alloc, heap, base) && i < |l| && j < |l| && l[i].addr == l[j].addr
    ensures i == j
  {
  }

  lemma ListStart(ptr: Words, size: Words, l: seq<Block>, alloc: map<nat, nat>, heap: set<nat>, base: nat, k: nat,
                  j: nat)
    requires HeapOk(ptr, size, l, alloc, heap, base) && k < |l| && j == Next(|l|, k) && l[j].size > 0
    ensures 1 <= j < |l| && k == j - 1 && RingAt(ptr, size, l, j) && RingAt(ptr, size, l, k) && l[k].addr >= base
  {
  }

  lemma FirstRing(ptr: Words, size: Words, base: nat)
    requires base in ptr && ptr[base] == base && base in size && size[base] == 0
    ensures HeapOk(ptr, size, [Block(base, 0)], map[], {}, base)
  {
  }

  /** Whether the system was asked, and what that did to the list and the heap. */
  ghost predicate Stage(calls: nat, l1: seq<Block>, l: seq<Block>, heap0: set<nat>, heap: set<nat>, more: nat, n: nat) {
    if calls == 0 then l == l1 && heap == heap0
    else more != 0 && HasFit(l, n) && !HasFit(l1, n)
         && heap == heap0 + Units(more, if n < 4096 then 4096 else n)
  }

  /** Units for `nbytes` bytes and a header: the least number that is enough. */
  function Nunits(nbytes: nat): (n: nat)
    ensures n >= 1 && nbytes <= (n - 1) * 16 < nbytes + 16
  {
    (nbytes + 15) / 16 + 1
  }

  class Heap {
    const base: nat           // address of the static header
    var ptr: Words            // s.ptr of every header
    var size: Words           // s.size of every header
    var freep: nat            // 0 before the first call
    ghost var l: seq<Block>
    ghost var alloc: map<nat, nat>
    ghost var heap: set<nat>  // all units obtained from sbrk

    constructor (base: nat)
      requires base > 0
      ensures Valid() && alloc == map[] && heap == {}
    {
      this.base := base;
      ptr, size, freep := map[], map[], 0;
      l, alloc, heap := [], map[], {};
    }

    /** Before the first call nothing exists; afterwards the ring and the partition do. */
    ghost predicate Valid()
      reads this
    {
      && base > 0
      && if freep == 0 then alloc == map[] && heap == {}
         else HeapOk(ptr, size, l, alloc, heap, base) && exists j :: 0 <= j < |l| && l[j].addr == freep
    }

    /** The search loop of free: it ends at the entry behind which `bp` belongs. */
    method FindPlace(bp: nat) returns (p: nat, ghost t: nat)
      requires Valid() && freep != 0 && bp in alloc
      ensures Place(l, t, bp) && p == l[t].addr && p in ptr
    {
      hide Partition, Covers, InAlloc;
      ApartFrom(l, base, Block(bp, alloc[bp]));
      t := PlaceExists(l, bp, 0);
      p := freep;
      ghost var j :| 0 <= j < |l| && l[j].addr == freep;
      while (assert RingAt(ptr, size, l, j); !(bp > p && bp < ptr[p]))
        invariant 0 <= j < |l| && p == l[j].addr
        decreases if j <= t then t - j else |l| - j + t
      {
        if p >= ptr[p] && (bp > p || bp < ptr[p]) {
          break;
        }
        assert j != t;
        p := ptr[p];
        j := Next(|l|, j);
      }
      assert RingAt(ptr, size, l, j);
      assert j == t;
    }

    /** Gives a block back; the ring stays ascending and coalesced, no other block moves. */
    method Free(ap: nat)
      requires Valid() && ap > 0 && ap - 1 in alloc
      modifies this
      ensures Valid() && freep != 0 && alloc == old(alloc) - {ap - 1} && heap == old(heap)
      ensures Freed(old(l), Block(ap - 1, old(alloc)[ap - 1]), l)
    {
      hide Sorted, Clear, Partition, Ring, Splice, AllocOk;
      var bp := ap - 1;
      ghost var b := Block(bp, alloc[bp]);
      ghost var ptr0, size0, l0 := ptr, size, l;
      AllocAt(size, l, alloc, base, bp);
      ghost var t;
      var p;
      p, t := FindPlace(bp);
      FreeRing(ptr, size, l, base, t, b);
      NotAllocated(size, l, alloc, base, t);
      SpliceList(l, base, t, b);
      SpliceAt(l, t, b);
      FreePartition(l, alloc, heap, t, b);
      if bp + size[bp] == ptr[p] {
        var next := ptr[p];
        size := size[bp := size[bp] + size[next]];
        ptr := ptr[bp := ptr[next]];
      } else {
        ptr := ptr[bp := ptr[p]];
      }
      assert size == size0[bp := WithNext(l, t, b).size];
      if p + size[p] == bp {
        size := size[p := size[p] + size[bp]];
        ptr := ptr[p := ptr[bp]];
      } else {
        ptr := ptr[p := bp];
      }
      freep := p;
      assert size == FreeSize(size0, p, bp, WithNext(l, t, b).size, l[t].End() == b.addr);
      assert ptr == FreePtr(ptr0, p, bp, if b.End() == ptr0[p] then ptr0[ptr0[p]] else ptr0[p], l[t].End() == b.addr);
      FreeAlloc(size0, size, l0, alloc, base, t, b);
      l := Splice(l0, t, b);
      alloc := alloc - {bp};
    }

    /** Address `more` lies above everything that sbrk returned before. */
    ghost predicate Above(more: nat)
      reads this
    {
      more > base && forall u :: u in heap ==> u < more
    }

    /** Asks the system for at least `nu` units; `more` is what sbrk answers, 0 for failure. */
    method Morecore(nu: nat, more: nat) returns (p: nat)
      requires Valid() && freep != 0 && 0 < nu && nu * 16 < 0x8000_0000
      requires more != 0 ==> Above(more)
      modifies this
      ensures Valid() && freep != 0 && alloc == old(alloc)
      ensures more == 0 ==> p == 0 && l == old(l) && heap == old(heap) && freep == old(freep)
      ensures more != 0 ==> p == freep && heap == old(heap) + Units(more, if nu < 4096 then 4096 else nu)
      ensures more != 0 ==> HasFit(l, nu)
    {
      hide HeapOk, Splice;
      var n := if nu < 4096 then 4096 else nu;
      if more == 0 {
        return 0;
      }
      var hp := more;
      Granted(ptr, size, l, alloc, heap, base, Block(hp, n));
      size := size[hp := n];
      alloc := alloc[hp := n];
      heap := heap + Units(hp, n);
      ghost var l0 := l;
      Free(hp + 1);
      FreedFits(l0, Block(hp, n), l);
      assert alloc == old(alloc);
      return freep;
    }

    /** Takes `n` units out of the free block at index `j`, whose predecessor is at `k`. */
    method Take(prevp: nat, p: nat, n: nat, ghost k: nat, ghost j: nat) returns (ap: nat)
      requires Valid() && freep != 0 && n > 0
      requires k < |l| && j == Next(|l|, k) && prevp == l[k].addr && p == l[j].addr && l[j].size >= n
      modifies this
      ensures Valid() && freep == prevp && heap == old(heap)
      ensures ap > 0 && ap - 1 !in old(alloc) && alloc == old(alloc)[ap - 1 := n]
    {
      hide HeapOk, Ring, AllocOk, Partition;
      ListStart(ptr, size, l, alloc, heap, base, k, j);
      var q := p;
      if size[p] == n {
        TookWhole(ptr, size, l, alloc, heap, base, j);
        ptr := ptr[prevp := ptr[p]];
        alloc := alloc[p := n];
        assert Cut(l, j)[k] == l[k];
        l := Cut(l, j);
      } else {
        ghost var s := size[p] - n;
        TookTail(ptr, size, l, alloc, heap, base, j, s, Block(p + s, n));
        size := size[p := size[p] - n];
        q := p + size[p];
        size := size[q := n];
        alloc := alloc[q := n];
        assert Trim(l, j, s)[k].addr == l[k].addr;
        l := Trim(l, j, s);
      }
      freep := prevp;
      ap := q + 1;
    }

    /** The first call makes a ring of the static header alone. */
    method FirstCall()
      requires Valid() && freep == 0
      modifies this
      ensures Valid() && freep == base && l == [Block(base, 0)] && alloc == old(alloc) && heap == old(heap)
      ensures forall n: nat :: n > 0 ==> !HasFit(l, n)
    {
      ptr, size := ptr[base := base], size[base := 0];
      freep := base;
      l := [Block(base, 0)];
      FirstRing(ptr, size, base);
    }

    /**
      The search of malloc for `n` units. It looks at every free block once before it asks the
      system, and asks at most once.
     */
    method Search(n: nat, more: nat) returns (ap: nat, ghost calls: nat)
      requires Valid() && 0 < n && n * 16 < 0x8000_0000
      requires more != 0 ==> Above(more)
      modifies this
      ensures Valid() && calls <= 1
      ensures ap == 0 <==> calls == 1 && more == 0
      ensures ap == 0 ==> alloc == old(alloc) && heap == old(heap) && !HasFit(l, n)
      ensures ap != 0 ==> ap - 1 !in old(alloc) && alloc == old(alloc)[ap - 1 := n]
      ensures heap ==
        if calls == 1 && more != 0 then old(heap) + Units(more, if n < 4096 then 4096 else n) else old(heap)
      ensures calls == 1 <==> old(freep) == 0 || !HasFit(old(l), n)
    {
      hide HeapOk, Units, Seen, HasFit, Pos;
      var prevp := freep;
      calls := 0;
      if prevp == 0 {
        FirstCall();
        prevp := freep;
      }
      ghost var f: nat :| f < |l| && l[f].addr == freep;
      ghost var k: nat := f;
      ghost var j: nat := Next(|l|, k);
      RingStep(ptr, size, l, alloc, heap, base, k);
      var p := ptr[prevp];
      FirstPos(l, f, n);
      ghost var l1 := l;
      while true
        invariant Valid() && freep != 0 && calls <= 1 && alloc == old(alloc)
        invariant f < |l| && freep == l[f].addr && k < |l| && j == Next(|l|, k) && j < |l|
        invariant prevp == l[k].addr && p == l[j].addr
        invariant Seen(l, f, j, n)
        invariant Stage(calls, l1, l, old(heap), heap, more, n)
        decreases 1 - calls, |l| - Pos(|l|, f, j)
      {
        RingStep(ptr, size, l, alloc, heap, base, j);
        if size[p] >= n {
          FoundFit(l1, l, j, n, calls);
          ap := Take(prevp, p, n, k, j);
          return;
        }
        SeenNext(l, f, j, n);
        if p == freep {
          SameIndex(ptr, size, l, alloc, heap, base, f, j);
          p := Morecore(n, more);
          calls := 1;
          if p == 0 {
            return 0, calls;
          }
          f :| f < |l| && l[f].addr == freep;
          k := f;
          FirstPos(l, f, n);
        } else {
          k := j;
        }
        RingStep(ptr, size, l, alloc, heap, base, k);
        prevp := p;
        p := ptr[p];
        j := Next(|l|, k);
      }
    }

    /**
      Allocates room for `nbytes` bytes behind a header. It asks the system exactly when no free
      block is large enough, and fails only if the system does.
     */
    method Malloc(nbytes: nat, more: nat) returns (ap: nat, ghost calls: nat)
      requires Valid() && Nunits(nbytes) * 16 < 0x8000_0000
      requires more != 0 ==> Above(more)
      modifies this
      ensures Valid() && calls <= 1
      ensures calls == 1 <==> old(freep) == 0 || forall i :: 0 <= i < |old(l)| ==> old(l)[i].size < Nunits(nbytes)
      ensures ap == 0 <==> calls == 1 && more == 0
      ensures ap == 0 ==> alloc == old(alloc) && heap == old(heap)
      ensures ap == 0 ==> forall i :: 0 <= i < |l| ==> l[i].size < Nunits(nbytes)
      ensures ap != 0 ==> ap - 1 !in old(alloc) && alloc == old(alloc)[ap - 1 := Nunits(nbytes)]
      ensures var n := Nunits(nbytes);
        heap == if calls == 1 && more != 0 then old(heap) + Units(more, if n < 4096 then 4096 else n) else old(heap)
    {
      hide HeapOk, Units;
      ap, calls := Search(Nunits(nbytes), more);
    }
  }
}
