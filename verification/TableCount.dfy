/**
  How many pages a page table takes (kernel/vm.c): one root, a middle table for every 512 * 512
  virtual pages of which one is mapped, and a lowest one for every 512.
 */
module TableCount {
  import opened PageTable

  /** The lowest and the middle tables that the virtual pages `vs` need. */
  ghost function Lows(vs: set<nat>): set<nat> { set v | v in vs :: v / 512 }

  ghost function Mids(vs: set<nat>): set<nat> { set v | v in vs :: v / 512 / 512 }

  /** The pages of a page table for `vs`. */
  ghost function Tables(vs: set<nat>): nat { 1 + |Lows(vs)| + |Mids(vs)| }

  /** How many tables for `vs` are not there yet. */
  ghost function Missing(t: Tree, vs: set<nat>): nat { |Lows(vs) - t.low.Keys| + |Mids(vs) - t.mid.Keys| }

  /** `t'` has the tables of `t` and those for `vs`. */
  ghost predicate Extended(t: Tree, t': Tree, vs: set<nat>) {
    t'.low.Keys == t.low.Keys + Lows(vs) && t'.mid.Keys == t.mid.Keys + Mids(vs)
  }

  /** Exactly the tables for `vs`. */
  ghost predicate Exactly(t: Tree, vs: set<nat>) { t.low.Keys == Lows(vs) && t.mid.Keys == Mids(vs) }

  lemma LowsPlus(vs: set<nat>, ws: set<nat>)
    ensures Lows(vs + ws) == Lows(vs) + Lows(ws) && Mids(vs + ws) == Mids(vs) + Mids(ws)
  {
    forall v | v in vs + ws ensures v / 512 in Lows(vs) + Lows(ws) && v / 512 / 512 in Mids(vs) + Mids(ws) { }
    assert forall v :: v in vs ==> v in vs + ws;
    assert forall v :: v in ws ==> v in vs + ws;
  }

  lemma LowsOne(v: nat)
    ensures Lows({v}) == {v / 512} && Mids({v}) == {v / 512 / 512} && Lows({}) == {} && Mids({}) == {}
  {
    assert v in {v};
  }

  lemma SizeSplit(a: set<nat>, b: set<nat>, k: set<nat>)
    ensures |(a + b) - k| == |a - k| + |b - (k + a)|
  {
    assert (a + b) - k == (a - k) + (b - (k + a));
    assert (a - k) !! (b - (k + a));
  }

  /** The tables for `vs` first, and then those for `ws`. */
  lemma MissingPlus(t: Tree, t': Tree, vs: set<nat>, ws: set<nat>)
    requires Extended(t, t', vs)
    ensures Missing(t, vs + ws) == Missing(t, vs) + Missing(t', ws)
  {
    hide Lows, Mids;
    LowsPlus(vs, ws);
    SizeSplit(Lows(vs), Lows(ws), t.low.Keys);
    SizeSplit(Mids(vs), Mids(ws), t.mid.Keys);
  }

  lemma ExtendedPlus(t: Tree, t': Tree, t'': Tree, vs: set<nat>, ws: set<nat>)
    requires Extended(t, t', vs) && Extended(t', t'', ws)
    ensures Extended(t, t'', vs + ws)
  {
    hide Lows, Mids;
    LowsPlus(vs, ws);
  }

  lemma MissingNone(t: Tree)
    ensures Missing(t, {}) == 0 && Extended(t, t, {})
  {
    hide Lows, Mids;
    LowsOne(0);
  }

  lemma MissingOne(t: Tree, v: nat)
    ensures Missing(t, {v}) == (if v / 512 in t.low then 0 else 1) + (if v / 512 / 512 in t.mid then 0 else 1)
  {
    hide Lows, Mids;
    LowsOne(v);
    assert {v / 512} - t.low.Keys == if v / 512 in t.low then {} else {v / 512};
    assert {v / 512 / 512} - t.mid.Keys == if v / 512 / 512 in t.mid then {} else {v / 512 / 512};
  }

  lemma SizeMono(a: set<nat>, b: set<nat>)
    requires a <= b
    ensures |a| <= |b|
  {
    assert b == a + (b - a);
  }

  lemma MissingMono(t: Tree, vs: set<nat>, ws: set<nat>)
    requires vs <= ws
    ensures Missing(t, vs) <= Missing(t, ws)
  {
    hide Lows, Mids;
    LowsPlus(vs, ws);
    assert vs + ws == ws;
    SizeMono(Lows(vs) - t.low.Keys, Lows(ws) - t.low.Keys);
    SizeMono(Mids(vs) - t.mid.Keys, Mids(ws) - t.mid.Keys);
  }

  /** A table that has been built for `vs` has no table too many. */
  lemma TablesPlus(t: Tree, vs: set<nat>, ws: set<nat>)
    requires Exactly(t, vs)
    ensures Tables(vs + ws) == Tables(vs) + Missing(t, ws)
  {
    hide Lows, Mids;
    LowsPlus(vs, ws);
    SizeSum(Lows(vs), Lows(ws));
    SizeSum(Mids(vs), Mids(ws));
  }

  lemma SizeSum(a: set<nat>, b: set<nat>)
    ensures |a + b| == |a| + |b - a|
  {
    assert a + b == a + (b - a);
  }

  lemma ExactlyPlus(t: Tree, t': Tree, vs: set<nat>, ws: set<nat>)
    requires Exactly(t, vs) && Extended(t, t', ws)
    ensures Exactly(t', vs + ws)
  {
    hide Lows, Mids;
    LowsPlus(vs, ws);
  }

  lemma RootOnly(root: nat, vs: set<nat>)
    ensures Exactly(Tree(root, map[], map[]), {}) && Tables({}) == 1
    ensures Tables(vs) == 1 + Missing(Tree(root, map[], map[]), vs)
  {
    hide Lows, Mids;
    LowsOne(0);
    var t := Tree(root, map[], map[]);
    assert Lows(vs) - t.low.Keys == Lows(vs) && Mids(vs) - t.mid.Keys == Mids(vs);
  }

  /** What a walk has added. */
  lemma WalkDone(t: Tree, t': Tree, v: nat)
    requires t'.low.Keys == t.low.Keys + {v / 512} && t'.mid.Keys == t.mid.Keys + {v / 512 / 512}
    ensures Extended(t, t', {v})
  {
    hide Lows, Mids;
    LowsOne(v);
  }
}
