/**
  What the log does, told by the steps of a run alone: which writes are the committed ones, in
  which order, and what every block holds in memory, on disk and after a crash.
 */
module LogHistory {
  import opened LogDisk
  import opened LogProtocol
  import opened LogTheorems

  /** The log_writes of a run in order, without the one that finds no space and panics. */
  function Puts(cfg: Config, s: State, run: seq<Step>): seq<Write>
    requires Legal(cfg, s, run)
    decreases run
  {
    if run == [] then []
    else PutOf(cfg, s, run[0]) + Puts(cfg, Do(cfg, s, run[0]), run[1..])
  }

  function PutOf(cfg: Config, s: State, step: Step): seq<Write> {
    if step.Put? && |s.lh| < cfg.logSize && |s.lh| < cfg.size - 1 then [Write(step.op, step.b, step.data)] else []
  }

  predicate NoCrash(run: seq<Step>) { forall i :: 0 <= i < |run| ==> !run[i].Crash? }

  /** Image `m` holds the last of the writes to block `b`, and what `d` holds if there is none. */
  ghost predicate HoldsLast(m: Image, d: Image, ws: seq<Write>, b: int) {
    && 0 <= b < |m| == |d|
    && ((forall i :: 0 <= i < |ws| ==> ws[i].b != b) ==> m[b] == d[b])
    && (forall i :: 0 <= i < |ws| && ws[i].b == b && (forall j :: i < j < |ws| ==> ws[j].b != b) ==> m[b] == ws[i].data)
  }

  /** The writes of the operations `ops`, in order. */
  function Keep(ws: seq<Write>, ops: set<nat>): seq<Write> {
    if ws == [] then []
    else Keep(ws[..|ws| - 1], ops) + if ws[|ws| - 1].op in ops then [ws[|ws| - 1]] else []
  }

  function Flat(gs: seq<seq<Write>>): seq<Write> {
    if gs == [] then [] else Flat(gs[..|gs| - 1]) + gs[|gs| - 1]
  }

  // ----- what writes leave -----

  lemma LastSame(m: Image, d: Image, ws: seq<Write>, b: int)
    requires ws != [] && ws[|ws| - 1].b != b && HoldsLast(m, d, ws[..|ws| - 1], b)
    ensures HoldsLast(m, d, ws, b)
  {
    var v := ws[..|ws| - 1];
    assert forall i :: 0 <= i < |v| ==> v[i] == ws[i];
    forall i | 0 <= i < |ws| && ws[i].b == b && (forall j :: i < j < |ws| ==> ws[j].b != b)
      ensures m[b] == ws[i].data
    {
      assert v[i] == ws[i] && forall j :: i < j < |v| ==> v[j].b != b;
    }
  }

  lemma {:induction false} ApplyLast(d: Image, ws: seq<Write>, b: int)
    requires 0 <= b < |d|
    ensures HoldsLast(Apply(d, ws), d, ws, b)
    decreases |ws|
  {
    if ws != [] {
      var n := |ws| - 1;
      ApplyLast(d, ws[..n], b);
      if ws[n].b != b {
        LastSame(Apply(d, ws[..n]), d, ws, b);
      }
    }
  }

  lemma {:induction false} ApplyPlus(d: Image, v: seq<Write>, w: seq<Write>)
    ensures Apply(d, v + w) == Apply(Apply(d, v), w)
    decreases |w|
  {
    if w == [] {
      assert v + w == v;
    } else {
      assert (v + w)[..|v + w| - 1] == v + w[..|w| - 1];
      ApplyPlus(d, v, w[..|w| - 1]);
    }
  }

  lemma {:induction false} ApplyFlat(d: Image, gs: seq<seq<Write>>)
    ensures ApplyAll(d, gs) == Apply(d, Flat(gs))
    decreases |gs|
  {
    if gs != [] {
      var n := |gs| - 1;
      ApplyFlat(d, gs[..n]);
      ApplyPlus(d, Flat(gs[..n]), gs[n]);
    }
  }

  lemma FlatPush(gs: seq<seq<Write>>, g: seq<Write>)
    ensures Flat(gs + [g]) == Flat(gs) + g
  {
    assert (gs + [g])[..|gs|] == gs;
  }

  lemma KeepPush(ws: seq<Write>, w: Write, ops: set<nat>)
    ensures Keep(ws + [w], ops) == Keep(ws, ops) + if w.op in ops then [w] else []
  {
    assert (ws + [w])[..|ws|] == ws;
  }

  lemma {:induction false} KeepSame(ws: seq<Write>, ops: set<nat>, ops': set<nat>)
    requires forall w :: w in ws ==> (w.op in ops <==> w.op in ops')
    ensures Keep(ws, ops) == Keep(ws, ops')
    decreases |ws|
  {
    if ws != [] { KeepSame(ws[..|ws| - 1], ops, ops'); }
  }

  lemma {:induction false} KeepNone(ws: seq<Write>)
    ensures Keep(ws, {}) == []
    decreases |ws|
  {
    if ws != [] { KeepNone(ws[..|ws| - 1]); }
  }

  lemma {:induction false} KeepHas(ws: seq<Write>, ops: set<nat>)
    ensures forall w :: w in ws && w.op in ops ==> w in Keep(ws, ops)
    decreases |ws|
  {
    if ws != [] { KeepHas(ws[..|ws| - 1], ops); }
  }

  // ----- one step -----

  /** What a step adds to the history, to memory and to the writes of committed and open operations. */
  ghost predicate Adds(s: State, t: State, ws: seq<Write>, crash: bool) {
    && t.hist == s.hist + ws
    && (!crash ==> t.mem == Apply(s.mem, ws) && Flat(t.groups) + t.cur == Flat(s.groups) + s.cur + ws)
  }

  lemma AddsNone(s: State, t: State, crash: bool)
    requires t.hist == s.hist && (!crash ==> t.mem == s.mem && Flat(t.groups) + t.cur == Flat(s.groups) + s.cur)
    ensures Adds(s, t, [], crash)
  {
    hide Flat;
  }

  lemma PutAdds(cfg: Config, s: State, op: nat, b: int, data: Block)
    requires Counts(cfg, s) && Enabled(cfg, s, Put(op, b, data))
    ensures Adds(s, DoPut(cfg, s, op, b, data), PutOf(cfg, s, Put(op, b, data)), false)
  {
    hide Flat, Sum, ListOk;
    assert |s.open| == |s.open.Keys| && s.open.Keys != {};
    var t, ws := DoPut(cfg, s, op, b, data), PutOf(cfg, s, Put(op, b, data));
    if ws == [] {
      AddsNone(s, t, false);
    } else {
      assert ws[..0] == [] && |ws| == 1;
      ApplyNone(s.mem);
      assert Apply(s.mem, ws) == s.mem[b := data];
      assert t.cur == s.cur + ws && t.hist == s.hist + ws;
      assert Flat(s.groups) + (s.cur + ws) == Flat(s.groups) + s.cur + ws;
    }
  }

  lemma SectorAdds(cfg: Config, s: State, hi: bool)
    requires WellFormed(cfg, s) && Busy(s.pc)
    ensures Adds(s, DoSector(cfg, s, hi), [], false)
  {
    hide Flat, Target, PutSector, AfterSector;
    FlatPush(s.groups, s.cur);
    assert Flat(s.groups) + s.cur + [] == Flat(s.groups) + s.cur;
    AddsNone(s, DoSector(cfg, s, hi), false);
  }

  lemma StepAdds(cfg: Config, s: State, step: Step)
    requires Inv(cfg, s) && Enabled(cfg, s, step)
    ensures Adds(s, Do(cfg, s, step), PutOf(cfg, s, step), step.Crash?)
  {
    hide Whole, Phase, SameHome, Adds, DoPut, DoSector, Counts, Flat, Recover, Blocked;
    InvCounts(cfg, s);
    InvWhole(cfg, s);
    match step
    case Put(op, b, data) => PutAdds(cfg, s, op, b, data);
    case WriteSector(hi) => SectorAdds(cfg, s, hi);
    case _ => AddsNone(s, Do(cfg, s, step), step.Crash?);
  }

  /** Every group, and the writes that are not committed yet, are whole operations in order. */
  ghost predicate InOrder(s: State) {
    && (forall g :: g in s.groups ==> Keep(s.hist, Ops(g)) == g)
    && Keep(s.hist, Ops(s.cur) + s.open.Keys) == s.cur
  }

  lemma PutOrder(cfg: Config, s: State, op: nat, b: int, data: Block)
    requires Inv(cfg, s) && Enabled(cfg, s, Put(op, b, data)) && InOrder(s)
    ensures InOrder(DoPut(cfg, s, op, b, data))
  {
    hide Phase, SameHome, Counts;
    InvWhole(cfg, s);
    var t, w := DoPut(cfg, s, op, b, data), Write(op, b, data);
    if t.hist != s.hist {
      assert t.open.Keys == s.open.Keys && Ops(t.cur) + t.open.Keys == Ops(s.cur) + s.open.Keys by {
        assert forall x :: x in t.cur <==> x in s.cur || x == w;
      }
      KeepPush(s.hist, w, Ops(s.cur) + s.open.Keys);
      forall g | g in t.groups ensures Keep(t.hist, Ops(g)) == g {
        assert Closed(s, g);
        KeepPush(s.hist, w, Ops(g));
      }
    }
  }

  lemma EndOrder(cfg: Config, s: State, op: nat)
    requires Inv(cfg, s) && Enabled(cfg, s, End(op)) && InOrder(s)
    ensures InOrder(DoEnd(s, op))
  {
    hide Phase, SameHome, Counts;
    InvWhole(cfg, s);
    var ops, ops' := Ops(s.cur) + s.open.Keys, Ops(s.cur) + (s.open - {op}).Keys;
    KeepHas(s.hist, ops);
    forall w | w in s.hist ensures w.op in ops <==> w.op in ops' { }
    KeepSame(s.hist, ops, ops');
  }

  lemma BeginOrder(cfg: Config, s: State, pid: nat)
    requires Inv(cfg, s) && Enabled(cfg, s, Begin(pid)) && InOrder(s)
    ensures InOrder(DoBegin(cfg, s, pid))
  {
    hide Phase, SameHome, Blocked;
    KeepSame(s.hist, Ops(s.cur) + s.open.Keys, Ops(s.cur) + DoBegin(cfg, s, pid).open.Keys);
  }

  lemma SectorOrder(cfg: Config, s: State, hi: bool)
    requires Inv(cfg, s) && Enabled(cfg, s, WriteSector(hi)) && InOrder(s)
    ensures InOrder(DoSector(cfg, s, hi))
  {
    hide Phase, SameHome, Whole, Target, PutSector;
    assert s.open == map[];
    assert Ops(s.cur) + s.open.Keys == Ops(s.cur);
    KeepNone(s.hist);
    assert Ops([]) + s.open.Keys == {};
  }

  lemma StepOrder(cfg: Config, s: State, step: Step)
    requires Inv(cfg, s) && Enabled(cfg, s, step) && InOrder(s)
    ensures InOrder(Do(cfg, s, step))
  {
    hide Inv, DoPut, DoEnd, DoBegin, DoSector;
    InvWhole(cfg, s);
    match step
    case Begin(pid) => BeginOrder(cfg, s, pid);
    case Put(op, b, data) => PutOrder(cfg, s, op, b, data);
    case End(op) => EndOrder(cfg, s, op);
    case WriteSector(hi) => SectorOrder(cfg, s, hi);
    case Finish =>
    case Crash =>
      KeepNone(s.hist);
      assert Ops([]) + Do(cfg, s, step).open.Keys == {};
  }

  // ----- whole runs -----

  lemma {:induction false} RunHist(cfg: Config, s: State, run: seq<Step>)
    requires Inv(cfg, s) && InOrder(s) && Legal(cfg, s, run)
    ensures Exec(cfg, s, run).hist == s.hist + Puts(cfg, s, run) && InOrder(Exec(cfg, s, run))
    decreases run
  {
    hide Inv, Do, Enabled, InOrder, PutOf, Keep;
    if run != [] {
      StepAdds(cfg, s, run[0]);
      StepOrder(cfg, s, run[0]);
      StepKeeps(cfg, s, run[0]);
      RunHist(cfg, Do(cfg, s, run[0]), run[1..]);
    }
  }

  lemma {:induction false} RunMem(cfg: Config, s: State, run: seq<Step>)
    requires Inv(cfg, s) && Legal(cfg, s, run) && NoCrash(run)
    ensures Exec(cfg, s, run).mem == Apply(s.mem, Puts(cfg, s, run))
    ensures Flat(Exec(cfg, s, run).groups) + Exec(cfg, s, run).cur == Flat(s.groups) + s.cur + Puts(cfg, s, run)
    decreases run
  {
    hide Inv, Do, Enabled, PutOf, Flat, Apply;
    if run == [] {
      assert Apply(s.mem, []) == s.mem by { ApplyNone(s.mem); }
    } else {
      StepAdds(cfg, s, run[0]);
      StepKeeps(cfg, s, run[0]);
      RunMem(cfg, Do(cfg, s, run[0]), run[1..]);
      ApplyPlus(s.mem, PutOf(cfg, s, run[0]), Puts(cfg, Do(cfg, s, run[0]), run[1..]));
    }
  }

  lemma ApplyNone(d: Image)
    ensures Apply(d, []) == d
  {
  }

  lemma StartEmpty(cfg: Config, boot: Image, s: State)
    requires Starts(cfg, boot, s)
    ensures s.hist == [] && s.groups == [] && s.cur == [] && s.mem == boot && InOrder(s) && Flat(s.groups) == []
  {
  }

  /** Reads between crashes: a block has what was last written to it. */
  lemma LastWriteWins(cfg: Config, boot: Image, s0: State, run: seq<Step>, b: int)
    requires Starts(cfg, boot, s0) && Legal(cfg, s0, run) && NoCrash(run) && 0 <= b < |boot|
    ensures HoldsLast(Exec(cfg, s0, run).mem, boot, Puts(cfg, s0, run), b)
  {
    hide Starts, Inv, HoldsLast;
    StartInv(cfg, boot, s0);
    StartEmpty(cfg, boot, s0);
    RunMem(cfg, s0, run);
    ApplyLast(boot, Puts(cfg, s0, run), b);
  }

  /**
    Atomicity, with any crashes: the committed groups consist of writes of the run, and each is
    exactly the writes of its operations, in order.
   */
  lemma GroupsAreOperations(cfg: Config, boot: Image, s0: State, run: seq<Step>)
    requires Starts(cfg, boot, s0) && Legal(cfg, s0, run)
    ensures forall g :: g in Exec(cfg, s0, run).groups ==> g == Keep(Puts(cfg, s0, run), Ops(g))
  {
    hide Starts, Inv;
    StartInv(cfg, boot, s0);
    StartEmpty(cfg, boot, s0);
    RunHist(cfg, s0, run);
    assert [] + Puts(cfg, s0, run) == Puts(cfg, s0, run);
  }

  /** After a crash at any point, a block has what the committed groups last wrote to it. */
  lemma CrashHoldsLast(cfg: Config, boot: Image, s0: State, run: seq<Step>, b: int)
    requires Starts(cfg, boot, s0) && Legal(cfg, s0, run)
    ensures var s := Exec(cfg, s0, run);
      && cfg.Fits(s.disk) && HeaderOk(cfg, s.disk)
      && (cfg.Home(s.disk, b) ==> HoldsLast(Recover(cfg, s.disk), boot, Flat(s.groups), b))
  {
    hide Starts, HoldsLast, Recover, HeaderOk, Apply, ApplyAll, Do;
    CrashSafety(cfg, boot, s0, run);
    StartInv(cfg, boot, s0);
    RunKeeps(cfg, s0, run);
    BootSame(cfg, s0, run);
    var s := Exec(cfg, s0, run);
    if cfg.Home(s.disk, b) {
      ApplyFlat(boot, s.groups);
      ApplyLast(boot, Flat(s.groups), b);
      SameLast(Apply(boot, Flat(s.groups)), Recover(cfg, s.disk), boot, Flat(s.groups), b);
    }
  }

  lemma SameLast(m: Image, m': Image, d: Image, ws: seq<Write>, b: int)
    requires HoldsLast(m, d, ws, b) && |m'| == |m| && m'[b] == m[b]
    ensures HoldsLast(m', d, ws, b)
  {
  }

  /** Durability: when all operations are over and the commit is done, the disk has all writes of the run. */
  lemma QuietHoldsLast(cfg: Config, boot: Image, s0: State, run: seq<Step>, b: int)
    requires Starts(cfg, boot, s0) && Legal(cfg, s0, run) && NoCrash(run)
    requires Exec(cfg, s0, run).pc == Idle && Exec(cfg, s0, run).open == map[]
    ensures var s := Exec(cfg, s0, run);
      && Flat(s.groups) == Puts(cfg, s0, run)
      && (cfg.Home(s.disk, b) ==> HoldsLast(s.disk, boot, Puts(cfg, s0, run), b))
  {
    hide Starts, HoldsLast, Apply, ApplyAll, Do, Inv, Flat;
    QuietMeansDurable(cfg, boot, s0, run);
    StartInv(cfg, boot, s0);
    StartEmpty(cfg, boot, s0);
    RunMem(cfg, s0, run);
    RunForm(cfg, s0, run);
    var s := Exec(cfg, s0, run);
    assert [] + [] + Puts(cfg, s0, run) == Puts(cfg, s0, run);
    if cfg.Home(s.disk, b) {
      ApplyLast(boot, Puts(cfg, s0, run), b);
      SameLast(s.mem, s.disk, boot, Puts(cfg, s0, run), b);
    }
  }

  lemma RunForm(cfg: Config, s: State, run: seq<Step>)
    requires Inv(cfg, s) && Legal(cfg, s, run)
    ensures WellFormed(cfg, Exec(cfg, s, run))
  {
    hide Do, Enabled;
    RunKeeps(cfg, s, run);
  }
}
