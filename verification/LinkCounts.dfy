/**
  Link counts while link, unlink and create run at the same time, as a step system. sys_link
  unlocks the inode between counting the new link and entering it, and sys_unlink gives up
  the directory between clearing the entry and counting the link down, so that other calls
  see counts that are ahead of the entries. A step is what a call does under an inode's lock.
 */
module LinkCounts {
  import opened Dirs

  datatype Pc =
    | Out
    | Linking(i: nat)      // the new link is counted and not yet entered
    | Unlinking(i: nat)    // the entry is cleared and the link still counted

  /** `entries` gives the inode that each directory slot in use names. */
  datatype Sys = Sys(nlink: seq<Short>, entries: map<nat, nat>, pcs: seq<Pc>, panicked: bool)

  datatype Step =
    | Count(p: nat, i: nat)     // sys_link, or create of a new inode: nlink++
    | Enter(p: nat, e: nat)     // dirlink succeeds
    | Undo(p: nat)              // there is no directory, the name is taken, or the disk is full
    | Clear(p: nat, e: nat)     // sys_unlink: the entry goes, unless nlink < 1
    | Uncount(p: nat)           // sys_unlink: nlink--

  predicate IsOut(s: Sys, p: nat) { p < |s.pcs| && s.pcs[p].Out? }

  predicate Enabled(s: Sys, a: Step) {
    && !s.panicked
    && match a
       case Count(p, i) => IsOut(s, p) && i < |s.nlink|
       case Enter(p, e) => p < |s.pcs| && s.pcs[p].Linking? && e !in s.entries
       case Undo(p) => p < |s.pcs| && s.pcs[p].Linking? && s.pcs[p].i < |s.nlink|
       case Clear(p, e) => IsOut(s, p) && e in s.entries && s.entries[e] < |s.nlink|
       case Uncount(p) => p < |s.pcs| && s.pcs[p].Unlinking? && s.pcs[p].i < |s.nlink|
  }

  function Do(s: Sys, a: Step): Sys
    requires Enabled(s, a)
  {
    match a
    case Count(p, i) => s.(nlink := s.nlink[i := Inc(s.nlink[i])], pcs := s.pcs[p := Linking(i)])
    case Enter(p, e) => s.(entries := s.entries[e := s.pcs[p].i], pcs := s.pcs[p := Out])
    case Undo(p) => s.(nlink := s.nlink[s.pcs[p].i := Dec(s.nlink[s.pcs[p].i])], pcs := s.pcs[p := Out])
    case Clear(p, e) =>
      var i := s.entries[e];
      if s.nlink[i] < 1 then s.(panicked := true)
      else s.(entries := s.entries - {e}, pcs := s.pcs[p := Unlinking(i)])
    case Uncount(p) => s.(nlink := s.nlink[s.pcs[p].i := Dec(s.nlink[s.pcs[p].i])], pcs := s.pcs[p := Out])
  }

  // ----- the true count -----

  /** The entries that name an inode. */
  ghost function Named(entries: map<nat, nat>, i: nat): set<nat> { set e | e in entries && entries[e] == i }

  predicate AtInode(pc: Pc, i: nat) { (pc.Linking? || pc.Unlinking?) && pc.i == i }

  /** The calls in between at an inode. */
  ghost function Pending(pcs: seq<Pc>, i: nat): set<nat> { set p: nat | p < |pcs| && AtInode(pcs[p], i) }

  ghost function Links(s: Sys, i: nat): nat { |Named(s.entries, i)| + |Pending(s.pcs, i)| }

  /** What a Short holds of a number. */
  function Wrap(n: nat): Short { (n + 32768) % 65536 - 32768 }

  lemma WrapInc(n: nat)
    ensures Inc(Wrap(n)) == Wrap(n + 1) && Dec(Wrap(n + 1)) == Wrap(n)
  {
    var m := n + 32768;
    assert m == 65536 * (m / 65536) + m % 65536;
    if m % 65536 == 65535 {
      assert m + 1 == 65536 * (m / 65536 + 1);
    } else {
      assert m + 1 == 65536 * (m / 65536) + (m % 65536 + 1);
    }
  }

  ghost predicate Inv(s: Sys) {
    && (forall e :: e in s.entries ==> s.entries[e] < |s.nlink|)
    && (forall p :: 0 <= p < |s.pcs| && !s.pcs[p].Out? ==> s.pcs[p].i < |s.nlink|)
    && (forall i :: 0 <= i < |s.nlink| ==> s.nlink[i] == Wrap(Links(s, i)))
  }

  lemma NamedAdd(entries: map<nat, nat>, e: nat, j: nat, i: nat)
    requires e !in entries
    ensures |Named(entries[e := j], i)| == |Named(entries, i)| + if i == j then 1 else 0
  {
    var more := entries[e := j];
    assert Named(more, i) == if i == j then Named(entries, i) + {e} else Named(entries, i);
  }

  lemma NamedLess(entries: map<nat, nat>, e: nat, i: nat)
    requires e in entries
    ensures |Named(entries, i)| == |Named(entries - {e}, i)| + if i == entries[e] then 1 else 0
  {
    NamedAdd(entries - {e}, e, entries[e], i);
    assert (entries - {e})[e := entries[e]] == entries;
  }

  /** A call that starts or ends at an inode. */
  lemma PendingSet(pcs: seq<Pc>, p: nat, pc: Pc, i: nat)
    requires p < |pcs|
    ensures |Pending(pcs[p := pc], i)| + (if AtInode(pcs[p], i) then 1 else 0)
      == |Pending(pcs, i)| + if AtInode(pc, i) then 1 else 0
  {
    var was, now := Pending(pcs, i), Pending(pcs[p := pc], i);
    assert was - {p} == now - {p};
    assert p in was <==> AtInode(pcs[p], i);
    assert p in now <==> AtInode(pc, i);
    Without(was, p);
    Without(now, p);
  }

  lemma Without(s: set<nat>, p: nat)
    ensures |s| == |s - {p}| + if p in s then 1 else 0
  {
    if p in s {
      assert s == (s - {p}) + {p};
    } else {
      assert s == s - {p};
    }
  }

  lemma StepCount(s: Sys, a: Step, i: nat)
    requires Inv(s) && Enabled(s, a) && i < |s.nlink|
    ensures Do(s, a).nlink[i] == Wrap(Links(Do(s, a), i))
  {
    hide Wrap, Inc, Dec, Named, Pending;
    var t := Do(s, a);
    WrapInc(Links(s, i));
    if Links(s, i) > 0 {
      WrapInc(Links(s, i) - 1);
    }
    if !t.panicked {
      PendingSet(s.pcs, a.p, t.pcs[a.p], i);
      if a.Enter? {
        NamedAdd(s.entries, a.e, s.pcs[a.p].i, i);
      } else if a.Clear? {
        NamedLess(s.entries, a.e, i);
      }
    }
  }

  lemma StepKeeps(s: Sys, a: Step)
    requires Inv(s) && Enabled(s, a)
    ensures Inv(Do(s, a))
  {
    hide Wrap, Links, Inc, Dec;
    forall i | 0 <= i < |s.nlink|
      ensures Do(s, a).nlink[i] == Wrap(Links(Do(s, a), i))
    {
      StepCount(s, a, i);
    }
  }

  // ----- runs -----

  predicate Legal(s: Sys, run: seq<Step>)
    decreases run
  {
    run == [] || (Enabled(s, run[0]) && Legal(Do(s, run[0]), run[1..]))
  }

  function Exec(s: Sys, run: seq<Step>): Sys
    requires Legal(s, run)
    decreases run
  {
    if run == [] then s else Exec(Do(s, run[0]), run[1..])
  }

  /** No call has begun, and every count is the number of entries. */
  ghost predicate Boot(s: Sys) {
    && !s.panicked && (forall p :: 0 <= p < |s.pcs| ==> s.pcs[p].Out?)
    && (forall e :: e in s.entries ==> s.entries[e] < |s.nlink|)
    && (forall i :: 0 <= i < |s.nlink| ==> s.nlink[i] == |Named(s.entries, i)|)
  }

  lemma BootInv(s: Sys)
    requires Boot(s)
    ensures Inv(s)
  {
    forall i | 0 <= i < |s.nlink|
      ensures s.nlink[i] == Wrap(Links(s, i))
    {
      assert Pending(s.pcs, i) == {};
    }
  }

  lemma {:induction false} RunKeeps(s: Sys, run: seq<Step>)
    requires Inv(s) && Legal(s, run)
    ensures Inv(Exec(s, run))
    decreases run
  {
    hide Inv, Enabled, Do;
    if run != [] {
      StepKeeps(s, run[0]);
      RunKeeps(Do(s, run[0]), run[1..]);
    }
  }

  ghost predicate Reachable(s: Sys) {
    exists s0, run :: Boot(s0) && Legal(s0, run) && Exec(s0, run) == s
  }

  lemma ReachableInv(s: Sys)
    requires Reachable(s)
    ensures Inv(s)
  {
    hide Inv, Boot;
    var s0, run :| Boot(s0) && Legal(s0, run) && Exec(s0, run) == s;
    BootInv(s0);
    RunKeeps(s0, run);
  }

  // ----- the theorems -----

  /**
    In every interleaving the count of an inode is its entries and the calls in between,
    if and only if those are at most 32767.
   */
  lemma CountRight(s: Sys, i: nat)
    requires Reachable(s) && i < |s.nlink|
    ensures s.nlink[i] == Links(s, i) <==> Links(s, i) < 32768
  {
    ReachableInv(s);
    hide Links;
  }

  /** Unlink panics if and only if the count it sees has wrapped around. */
  lemma UnlinkPanics(s: Sys, p: nat, e: nat)
    requires Reachable(s) && Enabled(s, Clear(p, e))
    ensures Do(s, Clear(p, e)).panicked <==> !(1 <= Links(s, s.entries[e]) % 65536 < 32768)
  {
    ReachableInv(s);
    var n := Links(s, s.entries[e]);
    hide Links;
    WrapSign(n);
  }

  lemma WrapSign(n: nat)
    ensures Wrap(n) < 1 <==> !(1 <= n % 65536 < 32768)
  {
    var q, r := n / 65536, n % 65536;
    assert n + 32768 == 65536 * q + (r + 32768);
    if r < 32768 {
      assert (n + 32768) % 65536 == r + 32768;
    } else {
      assert n + 32768 == 65536 * (q + 1) + (r - 32768);
      assert (n + 32768) % 65536 == r - 32768;
    }
  }

  /** No inode that an entry names has a count of zero while there are fewer than 65536 links. */
  lemma NamedIsCounted(s: Sys, e: nat)
    requires Reachable(s) && e in s.entries && s.entries[e] < |s.nlink| && Links(s, s.entries[e]) < 65536
    ensures s.nlink[s.entries[e]] != 0
  {
    ReachableInv(s);
    var i := s.entries[e];
    assert e in Named(s.entries, i);
    hide Pending;
  }
}
