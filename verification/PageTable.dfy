/**
  Sv39 page tables as kernel/vm.c keeps them in physical pages, and the flat map from virtual
  page numbers to page-table entries that they stand for. A `Tree` names the physical pages a
  page table is made of; `TreeOk` says that memory really holds that tree.
 */
module PageTable {


  /** MAXVA / 4096: one past the highest virtual page number. */
  const MAXVPN: nat := 0x400_0000

  const PTE_V: nat := 1
  const PTE_R: nat := 2
  const PTE_W: nat := 4
  const PTE_X: nat := 8
  const PTE_U: nat := 16

  /** Physical memory: the address of a page and its 512 64-bit words. */
  type Memory = map<nat, seq<nat>>

  // ----- page-table entries -----

  predicate V(w: nat) { w % 2 == 1 }

  predicate User(w: nat) { w / 16 % 2 == 1 }

  /** Some of PTE_R, PTE_W, PTE_X is set: the entry maps a page and is not a pointer to a table. */
  predicate Leafy(w: nat) { w / 2 % 8 != 0 }

  /** PTE2PA */
  function Pa(w: nat): nat { w / 1024 * 4096 }

  /** PTE_FLAGS */
  function Flags(w: nat): nat { w % 1024 }

  /** PA2PTE(pa) | perm | PTE_V */
  function MkPte(pa: nat, perm: nat): nat {
    pa / 4096 * 1024 + (if V(perm) then perm else perm + 1)
  }

  lemma Split1024(q: nat, f: nat)
    requires f < 1024
    ensures (q * 1024 + f) / 1024 == q && (q * 1024 + f) % 1024 == f
    ensures V(q * 1024 + f) == V(f)
  {
  }

  lemma Div2(x: nat, b: nat)
    requires b < 2
    ensures (2 * x + b) / 2 == x && (2 * x + b) % 2 == b
  {
  }

  lemma Div16(x: nat, b: nat)
    requires b < 16
    ensures (16 * x + b) / 16 == x
  {
  }

  lemma SplitLeafy(q: nat, f: nat)
    ensures Leafy(q * 1024 + f) == Leafy(f)
  {
    assert (q * 1024 + f) / 2 == q * 512 + f / 2;
    assert (8 * (q * 64) + f / 2) % 8 == f / 2 % 8;
  }

  lemma SplitUser(q: nat, f: nat)
    ensures User(q * 1024 + f) == User(f)
  {
    var h := f / 16;
    Div16(q * 64 + h, f % 16);
    Div2(q * 32 + h / 2, h % 2);
  }

  /** Entry and address determine each other. */
  lemma PteFields(pa: nat, perm: nat)
    requires pa % 4096 == 0 && perm < 1024
    ensures V(MkPte(pa, perm)) && Pa(MkPte(pa, perm)) == pa
    ensures Leafy(MkPte(pa, perm)) == Leafy(perm) && User(MkPte(pa, perm)) == User(perm)
    ensures Flags(MkPte(pa, perm)) == if V(perm) then perm else perm + 1
  {
    var f := if V(perm) then perm else perm + 1;
    Split1024(pa / 4096, f);
    SplitLeafy(pa / 4096, f);
    SplitUser(pa / 4096, f);
    assert f / 2 == perm / 2 && f / 16 == perm / 16;
  }

  /** pte & ~PTE_U */
  function ClearU(w: nat): nat { if User(w) then w - 16 else w }

  lemma ClearUKeeps(w: nat)
    ensures !User(ClearU(w)) && V(ClearU(w)) == V(w) && Leafy(ClearU(w)) == Leafy(w) && Pa(ClearU(w)) == Pa(w)
  {
    if User(w) {
      var q, f := w / 1024, w % 1024;
      assert w == q * 1024 + f;
      SplitUser(q, f);
      assert f >= 16 && w - 16 == q * 1024 + (f - 16);
      Split1024(q, f);
      Split1024(q, f - 16);
      SplitUser(q, f - 16);
      SplitLeafy(q, f);
      SplitLeafy(q, f - 16);
      ClearUSmall(f);
    }
  }

  lemma ClearUSmall(f: nat)
    requires User(f)
    ensures f >= 16 && !User(f - 16) && V(f - 16) == V(f) && Leafy(f - 16) == Leafy(f)
  {
    assert (f - 16) / 16 == f / 16 - 1;
    assert (f - 16) / 2 == f / 2 - 8;
  }

  /** PX(level, va), with `va` given by its page number. */
  function PX(level: nat, vpn: nat): nat
    requires level <= 2
  {
    match level
    case 0 => vpn % 512
    case 1 => vpn / 512 % 512
    case 2 => vpn / 512 / 512 % 512
  }

  /** Writes one word of a page. */
  function Store(mem: Memory, page: nat, i: nat, w: nat): Memory
    requires page in mem && i < |mem[page]|
  {
    var row: seq<nat> := mem[page][i := w];
    mem[page := row]
  }

  function Zeros(): seq<nat> { seq(512, _ => 0) }

  /** A page every byte of which is `b`. */
  function Fill(b: nat): seq<nat> { seq(512, _ => b * 0x0101_0101_0101_0101) }

  // ----- the tree -----

  /**
    The root table, the level-1 tables by index into the root, and the level-0 tables by the
    combined index vpn / 512.
   */
  datatype Tree = Tree(root: nat, mid: map<nat, nat>, low: map<nat, nat>)

  ghost function Pages(t: Tree): set<nat> {
    {t.root} + t.mid.Values + t.low.Values
  }

  ghost predicate Injective(m: map<nat, nat>) {
    forall i, j :: i in m && j in m && m[i] == m[j] ==> i == j
  }

  /** Every table is reached in exactly one way. */
  ghost predicate Shape(t: Tree) {
    && Injective(t.mid) && Injective(t.low)
    && t.root !in t.mid.Values && t.root !in t.low.Values && t.mid.Values !! t.low.Values
    && (forall k :: k in t.mid ==> k < 512)
    && (forall k :: k in t.low ==> k / 512 in t.mid)
  }

  predicate Aligned(pa: nat) { pa % 4096 == 0 && pa != 0 }

  /** Entry `w` points to the table m[key], or is invalid when there is none. */
  ghost predicate Points(w: nat, m: map<nat, nat>, key: nat) {
    if key in m then V(w) && !Leafy(w) && Pa(w) == m[key] else !V(w)
  }

  ghost predicate InnerRow(row: seq<nat>, m: map<nat, nat>, base: nat) {
    |row| == 512 && forall i :: 0 <= i < 512 ==> Points(row[i], m, base + i)
  }

  ghost predicate LeafRow(row: seq<nat>) {
    |row| == 512 && forall i :: 0 <= i < 512 && V(row[i]) ==> Leafy(row[i])
  }

  ghost predicate TreeOk(mem: Memory, t: Tree) {
    && Shape(t)
    && (forall p :: p in Pages(t) ==> p in mem && Aligned(p))
    && InnerRow(mem[t.root], t.mid, 0)
    && (forall k :: k in t.mid ==> InnerRow(mem[t.mid[k]], t.low, k * 512))
    && (forall k :: k in t.low ==> LeafRow(mem[t.low[k]]))
  }

  /** The flat view: the entry that maps page `vpn`, or 0. */
  ghost function Pte(mem: Memory, t: Tree, vpn: nat): nat
    requires TreeOk(mem, t)
  {
    if vpn / 512 in t.low then mem[t.low[vpn / 512]][vpn % 512] else 0
  }

  /** One past the highest page number three 9-bit indices can form. */
  const VPNS: nat := 0x800_0000

  /** The map from virtual page numbers to entries that a page table stands for. */
  ghost function Flat(mem: Memory, t: Tree): map<nat, nat>
    requires TreeOk(mem, t)
  {
    map v: nat | v < VPNS && V(Pte(mem, t, v)) :: Pte(mem, t, v)
  }

  /** Pages outside `s` have the same contents in both memories. */
  ghost predicate SameBut(mem: Memory, mem': Memory, s: set<nat>) {
    mem'.Keys == mem.Keys && forall p :: p in mem && p !in s ==> mem'[p] == mem[p]
  }

  /** `page` is the table whose entry key % 512 leads to the table for `key`. */
  ghost predicate Inner(t: Tree, level: nat, key: nat, page: nat) {
    if level == 2 then page == t.root && key < 512
    else level == 1 && key / 512 in t.mid && page == t.mid[key / 512]
  }

  ghost function Children(t: Tree, level: nat): map<nat, nat> {
    if level == 2 then t.mid else t.low
  }

  ghost function WithChild(t: Tree, level: nat, key: nat, page: nat): Tree {
    if level == 2 then t.(mid := t.mid[key := page]) else t.(low := t.low[key := page])
  }

  /** What the walk finds at one level. */
  lemma InnerEntry(mem: Memory, t: Tree, level: nat, key: nat, page: nat)
    requires TreeOk(mem, t) && Inner(t, level, key, page)
    ensures page in Pages(t) && page in mem && |mem[page]| == 512
    ensures Points(mem[page][key % 512], Children(t, level), key)
    ensures level == 2 && key !in t.mid ==> forall j :: j in t.low ==> j / 512 != key
  {
  }

  // ----- how writes to memory act on the flat view -----

  /** A tree depends only on the contents of its own pages. */
  lemma TreeFrame(mem: Memory, mem': Memory, t: Tree, s: set<nat>)
    requires TreeOk(mem, t) && SameBut(mem, mem', s) && s !! Pages(t)
    ensures TreeOk(mem', t)
    ensures Flat(mem', t) == Flat(mem, t)
  {
    hide V, Leafy, Pa;
    forall k | k in t.mid ensures mem'[t.mid[k]] == mem[t.mid[k]] {
      assert t.mid[k] in Pages(t);
    }
    forall k | k in t.low ensures mem'[t.low[k]] == mem[t.low[k]] {
      assert t.low[k] in Pages(t);
    }
    assert t.root in Pages(t);
  }

  lemma FlatEq(mem: Memory, t: Tree, mem': Memory, t': Tree)
    requires TreeOk(mem, t) && TreeOk(mem', t')
    requires forall v: nat :: V(Pte(mem, t, v)) || V(Pte(mem', t', v)) ==> Pte(mem, t, v) == Pte(mem', t', v)
    ensures Flat(mem, t) == Flat(mem', t')
  {
  }

  lemma ZeroRow(m: map<nat, nat>, base: nat)
    requires forall key :: key in m ==> !(base <= key < base + 512)
    ensures InnerRow(Zeros(), m, base) && LeafRow(Zeros()) && !V(0)
  {
  }

  /** Writing one entry of an inner row so that it points to a new table. */
  lemma RowPoints(row: seq<nat>, m: map<nat, nat>, base: nat, i: nat, page: nat)
    requires InnerRow(row, m, base) && i < 512 && page % 4096 == 0
    ensures InnerRow(row[i := MkPte(page, 0)], m[base + i := page], base)
  {
    PteFields(page, 0);
  }

  lemma RowKeeps(row: seq<nat>, m: map<nat, nat>, base: nat, key: nat, page: nat)
    requires InnerRow(row, m, base) && !(base <= key < base + 512)
    ensures InnerRow(row, m[key := page], base)
  {
  }

  lemma NewValue(m: map<nat, nat>, k: nat, v: nat)
    requires k !in m
    ensures m[k := v].Values == m.Values + {v}
  {
    var m' := m[k := v];
    forall x | x in m.Values ensures x in m'.Values {
      var j :| j in m && m[j] == x;
      assert j in m' && m'[j] == x;
    }
    assert k in m';
  }

  /** Entry key % 512 of `page` now points to the zeroed page `child`. */
  function Attach(mem: Memory, key: nat, page: nat, child: nat): Memory
    requires page in mem && |mem[page]| == 512
  {
    Store(mem[child := Zeros()], page, key % 512, MkPte(child, 0))
  }

  /** A fresh zeroed level-1 table leaves a tree. */
  lemma GrowMid(mem: Memory, t: Tree, k: nat, page: nat)
    requires TreeOk(mem, t) && k < 512 && k !in t.mid && Aligned(page) && page !in Pages(t)
    ensures var mem' := Attach(mem, k, t.root, page);
            var t' := WithChild(t, 2, k, page);
            && TreeOk(mem', t') && Pages(t') == Pages(t) + {page}
            && (forall j :: j in t.low ==> mem'[t.low[j]] == mem[t.low[j]])
  {
    hide V, Leafy, Pa, MkPte;
    var mem' := Attach(mem, k, t.root, page);
    var t' := WithChild(t, 2, k, page);
    NewValue(t.mid, k, page);
    RowPoints(mem[t.root], t.mid, 0, k, page);
    ZeroRow(t.low, k * 512);
    forall j | j in t.mid ensures mem'[t.mid[j]] == mem[t.mid[j]] { assert t.mid[j] in Pages(t); }
    forall j | j in t.low ensures mem'[t.low[j]] == mem[t.low[j]] { assert t.low[j] in Pages(t); }
  }

  /** A fresh zeroed level-0 table leaves a tree. */
  lemma GrowLow(mem: Memory, t: Tree, k: nat, page: nat)
    requires TreeOk(mem, t) && k / 512 in t.mid && k !in t.low && Aligned(page) && page !in Pages(t)
    ensures var m := t.mid[k / 512];
            var mem' := Attach(mem, k, m, page);
            var t' := WithChild(t, 1, k, page);
            && TreeOk(mem', t') && Pages(t') == Pages(t) + {page} && mem'[page] == Zeros()
            && (forall j :: j in t.low ==> mem'[t.low[j]] == mem[t.low[j]])
  {
    hide V, Leafy, Pa, MkPte;
    var mem' := Attach(mem, k, t.mid[k / 512], page);
    var t' := WithChild(t, 1, k, page);
    NewValue(t.low, k, page);
    ZeroRow(map[], 0);
    forall j | j in t.mid ensures InnerRow(mem'[t.mid[j]], t'.low, j * 512) {
      assert t.mid[j] in Pages(t);
      if j == k / 512 {
        RowPoints(mem[t.mid[j]], t.low, j * 512, k % 512, page);
      } else {
        RowKeeps(mem[t.mid[j]], t.low, j * 512, k, page);
      }
    }
    forall j | j in t.low ensures mem'[t.low[j]] == mem[t.low[j]] { assert t.low[j] in Pages(t); }
    assert mem'[t.root] == mem[t.root];
  }

  /** A fresh zeroed table changes no mapping. */
  lemma GrowTable(mem: Memory, t: Tree, level: nat, key: nat, page: nat, child: nat)
    requires TreeOk(mem, t) && Inner(t, level, key, page) && key !in Children(t, level)
    requires Aligned(child) && child !in Pages(t)
    ensures page in Pages(t) && page in mem && |mem[page]| == 512
    ensures var mem' := Attach(mem, key, page, child);
            var t' := WithChild(t, level, key, child);
            && TreeOk(mem', t') && Pages(t') == Pages(t) + {child}
            && Flat(mem', t') == Flat(mem, t)
            && (child in mem ==> SameBut(mem, mem', {page, child}))
  {
    hide V, Leafy, Pa, MkPte, InnerRow, LeafRow, Shape;
    InnerEntry(mem, t, level, key, page);
    if level == 2 { GrowMid(mem, t, key, child); } else { GrowLow(mem, t, key, child); }
    ZeroRow(map[], 0);
    FlatEq(mem, t, Attach(mem, key, page, child), WithChild(t, level, key, child));
  }

  function WithLeaf(mem: Memory, t: Tree, vpn: nat, w: nat): Memory
    requires vpn / 512 in t.low && t.low[vpn / 512] in mem && |mem[t.low[vpn / 512]]| == 512
  {
    Store(mem, t.low[vpn / 512], vpn % 512, w)
  }

  /** Writing a leaf entry changes exactly one page's mapping. */
  lemma SetLeaf(mem: Memory, t: Tree, vpn: nat, w: nat)
    requires TreeOk(mem, t) && vpn / 512 in t.low && vpn < VPNS && (V(w) ==> Leafy(w))
    ensures var mem' := WithLeaf(mem, t, vpn, w);
            && TreeOk(mem', t)
            && Flat(mem', t) == if V(w) then Flat(mem, t)[vpn := w] else Flat(mem, t) - {vpn}
  {
    hide V, Leafy, Pa;
    var mem' := WithLeaf(mem, t, vpn, w);
    var p := t.low[vpn / 512];
    forall j | j in t.mid ensures mem'[t.mid[j]] == mem[t.mid[j]] { assert t.mid[j] in Pages(t); }
    forall j | j in t.low ensures LeafRow(mem'[t.low[j]]) { }
    forall v: nat | v != vpn ensures v / 512 != vpn / 512 || v % 512 != vpn % 512 {
      assert v == v / 512 * 512 + v % 512 && vpn == vpn / 512 * 512 + vpn % 512;
    }
  }

  /** Reading the slot of a page gives its entry in the flat map. */
  lemma ReadLeaf(mem: Memory, t: Tree, vpn: nat)
    requires TreeOk(mem, t) && vpn < VPNS
    ensures vpn / 512 !in t.low ==> vpn !in Flat(mem, t)
    ensures vpn / 512 in t.low ==> t.low[vpn / 512] in mem && |mem[t.low[vpn / 512]]| == 512
    ensures vpn / 512 in t.low ==>
              var w := mem[t.low[vpn / 512]][vpn % 512];
              if V(w) then Leafy(w) && vpn in Flat(mem, t) && Flat(mem, t)[vpn] == w else vpn !in Flat(mem, t)
  {
    hide Leafy, Pa;
  }

  lemma RootTree(mem: Memory, root: nat)
    requires root in mem && mem[root] == Zeros() && Aligned(root)
    ensures var t := Tree(root, map[], map[]); TreeOk(mem, t) && Flat(mem, t) == map[] && Pages(t) == {root}
  {
  }

  // ----- the part of a tree below one table, for freewalk -----

  ghost predicate Node(t: Tree, level: nat, key: nat, page: nat) {
    match level
    case 0 => key in t.low && page == t.low[key]
    case 1 => key in t.mid && page == t.mid[key]
    case _ => level == 2 && key == 0 && page == t.root
  }

  /** The tables at and below the table for `key`. */
  ghost function Sub(t: Tree, level: nat, key: nat): set<nat> {
    match level
    case 0 => if key in t.low then {t.low[key]} else {}
    case 1 => (if key in t.mid then {t.mid[key]} else {}) + set j | j in t.low && j / 512 == key :: t.low[j]
    case _ => Pages(t)
  }

  /** The tables below the first `i` entries of the table for `key`. */
  ghost function Below(t: Tree, level: nat, key: nat, i: nat): set<nat> {
    match level
    case 0 => {}
    case 1 => set j | j in t.low && j / 512 == key && j % 512 < i :: t.low[j]
    case _ => (set k | k in t.mid && k < i :: t.mid[k]) + set j | j in t.low && j / 512 < i :: t.low[j]
  }

  ghost predicate Blank(row: seq<nat>) {
    |row| == 512 && forall i :: 0 <= i < 512 ==> !V(row[i])
  }

  /** Memory holds the tables below `key`, and they map nothing. */
  ghost predicate SubOk(mem: Memory, t: Tree, level: nat, key: nat) {
    match level
    case 0 => key in t.low && t.low[key] in mem && Blank(mem[t.low[key]])
    case 1 =>
      && key in t.mid && t.mid[key] in mem && InnerRow(mem[t.mid[key]], t.low, key * 512)
      && forall j :: j in t.low && j / 512 == key ==> SubOk(mem, t, 0, j)
    case _ =>
      && t.root in mem && InnerRow(mem[t.root], t.mid, 0)
      && forall k :: k in t.mid ==> SubOk(mem, t, 1, k)
  }

  function ChildKey(level: nat, key: nat, i: nat): nat {
    if level == 2 then i else key * 512 + i
  }

  lemma Apart(t: Tree)
    requires Shape(t)
    ensures forall k :: k in t.mid ==> t.mid[k] != t.root
    ensures forall j :: j in t.low ==> t.low[j] != t.root
    ensures forall k, j :: k in t.mid && j in t.low ==> t.mid[k] != t.low[j]
  {
    forall k | k in t.mid ensures t.mid[k] in t.mid.Values { }
    forall j | j in t.low ensures t.low[j] in t.low.Values { }
  }

  lemma SubFrame(mem: Memory, mem': Memory, t: Tree, level: nat, key: nat, s: set<nat>)
    requires level < 2 && SubOk(mem, t, level, key) && SameBut(mem, mem', s) && s !! Sub(t, level, key)
    ensures SubOk(mem', t, level, key)
  {
  }

  /** What freewalk finds at entry `i`. */
  lemma EntryBelow(mem: Memory, t: Tree, level: nat, key: nat, page: nat, i: nat)
    requires Shape(t) && level <= 2 && Node(t, level, key, page) && SubOk(mem, t, level, key) && i < 512
    ensures page in mem && |mem[page]| == 512 && page in Sub(t, level, key)
    ensures level == 0 ==> !V(mem[page][i])
    ensures level > 0 ==> Points(mem[page][i], Children(t, level), ChildKey(level, key, i))
  {
  }

  lemma ChildBelow(mem: Memory, t: Tree, level: nat, key: nat, page: nat, i: nat)
    requires Shape(t) && 0 < level <= 2 && Node(t, level, key, page) && SubOk(mem, t, level, key) && i < 512
    requires ChildKey(level, key, i) in Children(t, level)
    ensures var c := ChildKey(level, key, i);
            && Node(t, level - 1, c, Children(t, level)[c]) && SubOk(mem, t, level - 1, c)
            && Sub(t, level - 1, c) !! Below(t, level, key, i) + {page}
            && Below(t, level, key, i + 1) == Below(t, level, key, i) + Sub(t, level - 1, c)
  {
    hide V, Leafy, Pa, InnerRow;
    var c := ChildKey(level, key, i);
    Apart(t);
    if level == 1 {
      assert c / 512 == key && c % 512 == i;
      forall j | j in t.low && j / 512 == key && j % 512 < i + 1 ensures j == c || j % 512 < i {
        assert j == j / 512 * 512 + j % 512;
      }
    }
  }

  lemma NoChildBelow(t: Tree, level: nat, key: nat, i: nat)
    requires Shape(t) && level <= 2
    requires level > 0 ==> ChildKey(level, key, i) !in Children(t, level)
    ensures Below(t, level, key, i + 1) == Below(t, level, key, i)
  {
    if level == 1 {
      forall j | j in t.low && j / 512 == key && j % 512 < i + 1 ensures j % 512 < i {
        assert j == j / 512 * 512 + j % 512;
      }
    }
  }

  lemma BelowEnds(t: Tree, level: nat, key: nat, page: nat)
    requires Shape(t) && level <= 2 && Node(t, level, key, page)
    ensures Below(t, level, key, 0) == {}
    ensures Below(t, level, key, 512) + {page} == Sub(t, level, key)
    ensures page !in Below(t, level, key, 512)
  {
    Apart(t);
    if level == 2 {
      assert t.mid.Values == set k | k in t.mid && k < 512 :: t.mid[k];
      assert t.low.Values == set j | j in t.low && j / 512 < 512 :: t.low[j];
    }
  }

  lemma BelowMono(t: Tree, level: nat, key: nat, i: nat)
    requires i <= 512
    ensures Below(t, level, key, i) <= Below(t, level, key, 512)
  {
  }

  /** A tree that maps nothing can be freed from the root. */
  lemma EmptyTree(mem: Memory, t: Tree)
    requires TreeOk(mem, t) && Flat(mem, t) == map[]
    ensures Shape(t) && Node(t, 2, 0, t.root) && SubOk(mem, t, 2, 0) && Sub(t, 2, 0) == Pages(t)
  {
    hide Leafy, Pa, V;
    forall j | j in t.low ensures Blank(mem[t.low[j]]) {
      forall i | 0 <= i < 512 ensures !V(mem[t.low[j]][i]) {
        var v := j * 512 + i;
        assert v / 512 == j && v % 512 == i && v < VPNS;
        assert Pte(mem, t, v) == mem[t.low[j]][i];
        assert v !in Flat(mem, t);
      }
    }
    forall j | j in t.low ensures SubOk(mem, t, 0, j) { assert t.low[j] in Pages(t); }
    forall k | k in t.mid ensures SubOk(mem, t, 1, k) { assert t.mid[k] in Pages(t); }
    assert t.root in Pages(t);
  }
}
