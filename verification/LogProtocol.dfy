/**
  The logging protocol of kernel/log.c as a step system: any number of processes call
  begin_op, log_write and end_op, the last one out commits, each sector write of a commit or
  of a recovery is a step of its own, and the machine can crash between any two steps.

  The main results are over every run: the recovered disk is always the effect of the groups
  committed so far, each group consists of whole operations, the log never overflows while
  operations keep to their budget, and nobody sleeps in begin_op who could be admitted.
 */
module LogProtocol {
  import opened LogDisk

  /** One log_write: operation `op` leaves block `b` with contents `data`. */
  datatype Write = Write(op: nat, b: int, data: Block)

  /** Which sector of the block being written has already reached the disk. */
  datatype Half = Neither | Lo | Hi

  /** Where the process that runs commit() or recover_from_log() is. */
  datatype Pc =
    | Idle
    | LogCopy(tail: nat, half: Half)
    | HeadWrite(half: Half)
    | Install(tail: nat, half: Half)
    | Erase(half: Half)
    | Done

  /**
    `mem` is what reads through the buffer cache return. `open` gives the blocks each
    operation in progress may still add to the log. The last four fields are history: the
    contents at boot, the committed groups, the writes not yet committed, and every write
    ever made.
   */
  datatype State = State(
    disk: Image, mem: Image, lh: seq<int>, outstanding: nat, committing: bool,
    recovering: bool, pc: Pc, panicked: bool, asleep: set<nat>,
    open: map<nat, nat>, nextOp: nat,
    boot: Image, groups: seq<seq<Write>>, cur: seq<Write>, hist: seq<Write>)

  datatype Step =
    | Begin(pid: nat)
    | Put(op: nat, b: int, data: Block)
    | End(op: nat)
    | WriteSector(hi: bool)
    | Finish
    | Crash

  // ----- what a run of writes means -----

  function Apply(d: Image, ws: seq<Write>): (r: Image)
    ensures |r| == |d|
  {
    if ws == [] then d
    else
      var r := Apply(d, ws[..|ws| - 1]);
      var w := ws[|ws| - 1];
      if 0 <= w.b < |d| then r[w.b := w.data] else r
  }

  function ApplyAll(d: Image, gs: seq<seq<Write>>): (r: Image)
    ensures |r| == |d|
  {
    if gs == [] then d else Apply(ApplyAll(d, gs[..|gs| - 1]), gs[|gs| - 1])
  }

  ghost function Ops(ws: seq<Write>): set<nat> {
    set w | w in ws :: w.op
  }

  // ----- the steps -----

  /** begin_op sleeps exactly when this holds. */
  predicate Blocked(cfg: Config, s: State) {
    s.committing || |s.lh| + (s.outstanding + 1) * cfg.maxOp > cfg.logSize
  }

  /** log_write panics exactly when this holds. */
  predicate LogFull(cfg: Config, s: State) {
    |s.lh| >= cfg.logSize || |s.lh| >= cfg.size - 1
  }

  predicate Busy(pc: Pc) {
    pc.LogCopy? || pc.HeadWrite? || pc.Install? || pc.Erase?
  }

  /** Shape of a state: everything a step reads is there. */
  predicate WellFormed(cfg: Config, s: State) {
    && cfg.Fits(s.disk)
    && |s.mem| == |s.disk| == |s.boot|
    && ListOk(cfg, s.disk, s.lh)
    && (s.pc.LogCopy? || s.pc.Install? ==> s.pc.tail < |s.lh|)
    && (s.pc.HeadWrite? ==> s.lh != [])
  }

  /** The block and the contents the process at `pc` is writing. */
  function Target(cfg: Config, s: State): (int, Block)
    requires WellFormed(cfg, s) && Busy(s.pc)
  {
    match s.pc
    case LogCopy(t, _) => (cfg.start + 1 + t, s.mem[s.lh[t]])
    case HeadWrite(_) => (cfg.start, WithList(s.disk[cfg.start], s.lh))
    case Install(t, _) => (s.lh[t], s.disk[cfg.start + 1 + t])
    case Erase(_) => (cfg.start, WithList(s.disk[cfg.start], []))
  }

  /** Where the process is once it has written its whole block. */
  function Advance(s: State): Pc
    requires Busy(s.pc)
  {
    match s.pc
    case LogCopy(t, _) => if t + 1 < |s.lh| then LogCopy(t + 1, Neither) else HeadWrite(Neither)
    case HeadWrite(_) => Install(0, Neither)
    case Install(t, _) => if t + 1 < |s.lh| then Install(t + 1, Neither) else Erase(Neither)
    case Erase(_) => Done
  }

  function AfterSector(s: State, hi: bool): Pc
    requires Busy(s.pc)
  {
    if s.pc.half == Neither then
      var h := if hi then Hi else Lo;
      match s.pc
      case LogCopy(t, _) => LogCopy(t, h)
      case HeadWrite(_) => HeadWrite(h)
      case Install(t, _) => Install(t, h)
      case Erase(_) => Erase(h)
    else Advance(s)
  }

  /**
    When a step can happen. `Put` carries the promise callers make to the log: an operation
    adds at most MAXOPBLOCKS blocks, all outside the log region.
   */
  predicate Enabled(cfg: Config, s: State, step: Step)
    requires WellFormed(cfg, s)
  {
    match step
    case Begin(pid) => !s.panicked && !s.recovering && pid !in s.asleep
    case Put(op, b, _) =>
      && !s.panicked && op in s.open && cfg.Home(s.disk, b)
      && (b in s.lh || s.open[op] > 0)
    case End(op) => !s.panicked && op in s.open
    case WriteSector(hi) =>
      !s.panicked && Busy(s.pc) && s.pc.half != (if hi then Hi else Lo)
    case Finish => !s.panicked && s.pc == Done
    case Crash => HeaderOk(cfg, s.disk)
  }

  function DoBegin(cfg: Config, s: State, pid: nat): State {
    if Blocked(cfg, s) then s.(asleep := s.asleep + {pid})
    else s.(outstanding := s.outstanding + 1,
            open := s.open[s.nextOp := cfg.maxOp], nextOp := s.nextOp + 1)
  }

  function DoPut(cfg: Config, s: State, op: nat, b: int, data: Block): State
    requires WellFormed(cfg, s) && Enabled(cfg, s, Put(op, b, data))
  {
    if LogFull(cfg, s) || s.outstanding < 1 then s.(panicked := true)
    else
      var w := Write(op, b, data);
      s.(mem := s.mem[b := data],
         lh := if b in s.lh then s.lh else s.lh + [b],
         open := if b in s.lh then s.open else s.open[op := s.open[op] - 1],
         cur := s.cur + [w], hist := s.hist + [w])
  }

  function DoEnd(s: State, op: nat): State
    requires op in s.open
  {
    var n := s.outstanding - 1;
    if s.committing || n < 0 then s.(panicked := true)
    else if n == 0 then
      s.(outstanding := 0, open := s.open - {op}, committing := true,
         pc := if s.lh == [] then Done else LogCopy(0, Neither))
    else s.(outstanding := n, open := s.open - {op}, asleep := {})
  }

  /** Writing the header's first sector is the point at which the group commits. */
  function DoSector(cfg: Config, s: State, hi: bool): State
    requires WellFormed(cfg, s) && Busy(s.pc)
  {
    var (b, blk) := Target(cfg, s);
    var pc := AfterSector(s, hi);
    var commit := s.pc.HeadWrite? && !hi;
    s.(disk := PutSector(s.disk, b, hi, blk), pc := pc,
       lh := if pc == Erase(Neither) then [] else s.lh,
       groups := if commit then s.groups + [s.cur] else s.groups,
       cur := if commit then [] else s.cur)
  }

  function DoFinish(s: State): State {
    s.(committing := false, recovering := false, pc := Idle, asleep := {})
  }

  /** Everything in memory is lost; the next boot reads the header and starts to replay. */
  function DoCrash(cfg: Config, s: State): State
    requires WellFormed(cfg, s) && HeaderOk(cfg, s.disk)
  {
    var lh := HeaderList(cfg, s.disk);
    s.(mem := Recover(cfg, s.disk), lh := lh, outstanding := 0, committing := false,
       recovering := true, pc := if lh == [] then Erase(Neither) else Install(0, Neither),
       panicked := false, asleep := {}, open := map[], cur := [])
  }

  function Do(cfg: Config, s: State, step: Step): State
    requires WellFormed(cfg, s) && Enabled(cfg, s, step)
  {
    match step
    case Begin(pid) => DoBegin(cfg, s, pid)
    case Put(op, b, data) => DoPut(cfg, s, op, b, data)
    case End(op) => DoEnd(s, op)
    case WriteSector(hi) => DoSector(cfg, s, hi)
    case Finish => DoFinish(s)
    case Crash => DoCrash(cfg, s)
  }

  /** A step sequence in which every step can happen when its turn comes. */
  predicate Legal(cfg: Config, s: State, run: seq<Step>)
    decreases run
  {
    run == [] ||
    (WellFormed(cfg, s) && Enabled(cfg, s, run[0]) && Legal(cfg, Do(cfg, s, run[0]), run[1..]))
  }

  function Exec(cfg: Config, s: State, run: seq<Step>): State
    requires Legal(cfg, s, run)
    decreases run
  {
    if run == [] then s else Exec(cfg, Do(cfg, s, run[0]), run[1..])
  }

  /** The machine after boot on a disk with an empty log. */
  function Boot(d: Image): State {
    State(d, d, [], 0, false, false, Idle, false, {}, map[], 0, d, [], [], [])
  }

  /** The machine at power-on, about to recover whatever log the disk holds. */
  function PowerOn(cfg: Config, d: Image): State
    requires cfg.Fits(d) && HeaderOk(cfg, d)
  {
    DoCrash(cfg, Boot(d)).(boot := Recover(cfg, d))
  }

  // ----- the invariant -----

  /** Sum of the budgets of all operations in progress. */
  ghost function Sum(m: map<nat, nat>): nat
    decreases |m|
  {
    if m == map[] then 0
    else var k :| k in m; m[k] + Sum(m - {k})
  }

  lemma {:induction false} SumRemove(m: map<nat, nat>, k: nat)
    requires k in m
    ensures Sum(m) == m[k] + Sum(m - {k})
    decreases |m|
  {
    var j :| j in m && Sum(m) == m[j] + Sum(m - {j});
    if j != k {
      SumRemove(m - {j}, k);
      SumRemove(m - {k}, j);
      assert m - {j} - {k} == m - {k} - {j};
    }
  }

  lemma SumSet(m: map<nat, nat>, k: nat, v: nat)
    ensures Sum(m[k := v]) == v + Sum(m - {k})
  {
    SumRemove(m[k := v], k);
    assert m[k := v] - {k} == m - {k};
  }

  lemma {:induction false} SumBound(m: map<nat, nat>, c: nat)
    requires forall k :: k in m ==> m[k] <= c
    ensures Sum(m) <= |m| * c
    decreases |m|
  {
    if m != map[] {
      var k :| k in m && Sum(m) == m[k] + Sum(m - {k});
      SumBound(m - {k}, c);
      assert |m - {k}| == |m| - 1;
      OneMore(Sum(m - {k}), m[k], |m| - 1, c);
    }
  }

  lemma OneMore(x: nat, y: nat, n: nat, c: nat)
    requires x <= n * c && y <= c
    ensures y + x <= (n + 1) * c
  {
    assert (n + 1) * c == n * c + c;
  }

  /** Block numbers, counters and log space. */
  ghost predicate Counts(cfg: Config, s: State) {
    && WellFormed(cfg, s)
    && cfg.maxOp <= cfg.logSize
    && s.outstanding == |s.open|
    && (s.committing || s.recovering ==> s.open == map[])
    && !(s.committing && s.recovering)
    && (s.pc == Idle <==> !s.committing && !s.recovering)
    && (s.pc.LogCopy? || s.pc.HeadWrite? ==> s.committing)
    && (s.open == map[] && !Busy(s.pc) ==> s.lh == [])
    && (forall i :: 0 <= i < |s.cur| ==> s.cur[i].b in s.lh)
    && (s.pc.Erase? ==> s.lh == [])
    && (forall op :: op in s.open ==> s.open[op] <= cfg.maxOp)
    && |s.lh| + Sum(s.open) <= cfg.logSize
    && (s.asleep != {} ==> Blocked(cfg, s) && !s.recovering)
  }

  /** Operations commit as a whole or not at all. */
  ghost predicate Whole(s: State) {
    && (forall op :: op in s.open ==> op < s.nextOp)
    && (forall w :: w in s.hist ==> w.op < s.nextOp)
    && (forall w :: w in s.cur ==> w in s.hist && w.op < s.nextOp)
    && (forall w :: w in s.hist && (w.op in s.open || w.op in Ops(s.cur)) ==> w in s.cur)
    && (forall g :: g in s.groups ==> Closed(s, g))
  }

  /** Group `g` has every write its operations ever made, and they are all over. */
  ghost predicate Closed(s: State, g: seq<Write>) {
    && (forall w :: w in g ==> w in s.hist && w.op < s.nextOp && w.op !in s.open)
    && (forall w :: w in s.hist && w.op in Ops(g) ==> w in g)
  }

  ghost predicate HalfDone(d: Image, b: int, blk: Block, half: Half)
    requires 0 <= b < |d|
  {
    (half == Lo ==> d[b].lo == blk.lo) && (half == Hi ==> d[b].hi == blk.hi)
  }

  /** The header on disk names the transaction and the log holds its blocks. */
  ghost predicate Committed(cfg: Config, s: State)
    requires WellFormed(cfg, s)
  {
    && HeaderOk(cfg, s.disk)
    && LogHolds(cfg, s.disk, HeaderList(cfg, s.disk), s.mem, |HeaderList(cfg, s.disk)|)
    && SameOutside(cfg, s.disk, HeaderList(cfg, s.disk), s.mem)
    && s.cur == []
  }

  ghost predicate Uncommitted(cfg: Config, s: State)
    requires WellFormed(cfg, s)
  {
    && HeaderCount(cfg, s.disk) == 0
    && SameOutside(cfg, s.disk, s.lh, s.mem)
    && SameHome(cfg, s.disk, ApplyAll(s.boot, s.groups))
  }

  /** The transaction `bl` is committed and its first `k` blocks have reached their homes. */
  ghost predicate Installing(cfg: Config, d: Image, bl: seq<int>, mem: Image, k: nat)
    requires cfg.Fits(d) && |mem| == |d| && k <= |bl|
  {
    && HeaderOk(cfg, d) && HeaderList(cfg, d) == bl
    && LogHolds(cfg, d, bl, mem, |bl|)
    && SameOutside(cfg, d, bl, mem)
    && forall i :: 0 <= i < k ==> d[bl[i]] == mem[bl[i]]
  }

  ghost predicate Phase(cfg: Config, s: State)
    requires WellFormed(cfg, s)
  {
    match s.pc
    case Idle => Uncommitted(cfg, s)
    case Done => Uncommitted(cfg, s)
    case LogCopy(t, half) =>
      && Uncommitted(cfg, s)
      && LogHolds(cfg, s.disk, s.lh, s.mem, t)
      && HalfDone(s.disk, cfg.start + 1 + t, s.mem[s.lh[t]], half)
    case HeadWrite(half) =>
      && LogHolds(cfg, s.disk, s.lh, s.mem, |s.lh|)
      && if half == Lo then Committed(cfg, s) && HeaderList(cfg, s.disk) == s.lh
         else Uncommitted(cfg, s)
    case Install(t, half) =>
      && s.cur == []
      && Installing(cfg, s.disk, s.lh, s.mem, t)
      && HalfDone(s.disk, s.lh[t], s.mem[s.lh[t]], half)
    case Erase(half) =>
      && SameHome(cfg, s.disk, s.mem)
      && s.cur == []
      && if half == Lo then HeaderCount(cfg, s.disk) == 0 else Committed(cfg, s)
  }

  ghost predicate Inv(cfg: Config, s: State) {
    && Counts(cfg, s)
    && Whole(s)
    && SameHome(cfg, s.mem, Apply(ApplyAll(s.boot, s.groups), s.cur))
    && Phase(cfg, s)
  }

  lemma InvCounts(cfg: Config, s: State)
    requires Inv(cfg, s)
    ensures Counts(cfg, s)
  {
  }

  lemma InvWhole(cfg: Config, s: State)
    requires Inv(cfg, s)
    ensures WellFormed(cfg, s) && forall g :: g in s.groups ==> Closed(s, g)
  {
  }

  // ----- the invariant is kept by every step -----

  lemma BootInv(cfg: Config, d: Image)
    requires cfg.Fits(d) && cfg.maxOp <= cfg.logSize && HeaderCount(cfg, d) == 0
    ensures Inv(cfg, Boot(d))
  {
  }

  /** begin_op's admission test leaves room for the newcomer's full budget. */
  lemma NewOpFits(cfg: Config, open: map<nat, nat>, op: nat, n: nat)
    requires op !in open && (forall k :: k in open ==> open[k] <= cfg.maxOp)
    requires n + (|open| + 1) * cfg.maxOp <= cfg.logSize
    ensures n + Sum(open[op := cfg.maxOp]) <= cfg.logSize
    ensures |open[op := cfg.maxOp]| == |open| + 1
  {
    SumSet(open, op, cfg.maxOp);
    assert open - {op} == open;
    SumBound(open, cfg.maxOp);
    assert (|open| + 1) * cfg.maxOp == |open| * cfg.maxOp + cfg.maxOp;
    assert open[op := cfg.maxOp].Keys == open.Keys + {op};
  }

  lemma NotOpen(cfg: Config, s: State, pid: nat)
    requires Inv(cfg, s) && Enabled(cfg, s, Begin(pid))
    ensures s.nextOp !in s.open && !s.recovering
  {
  }

  lemma BeginCounts(cfg: Config, s: State, pid: nat)
    requires Counts(cfg, s) && s.nextOp !in s.open && !s.recovering
    ensures Counts(cfg, DoBegin(cfg, s, pid))
  {
    if !Blocked(cfg, s) {
      NewOpFits(cfg, s.open, s.nextOp, |s.lh|);
      assert s.asleep == {};
    }
  }

  lemma BeginWhole(cfg: Config, s: State, pid: nat)
    requires Whole(s)
    ensures Whole(DoBegin(cfg, s, pid))
  {
    hide Blocked, Ops;
    var t := DoBegin(cfg, s, pid);
    forall g | g in t.groups ensures Closed(t, g) { assert Closed(s, g); }
  }

  lemma BeginPhase(cfg: Config, s: State, pid: nat)
    requires WellFormed(cfg, s) && Phase(cfg, s)
    ensures WellFormed(cfg, DoBegin(cfg, s, pid)) && Phase(cfg, DoBegin(cfg, s, pid))
  {
    hide Blocked, Installing, SameHome, SameOutside, HalfDone, LogHolds, ApplyAll;
  }

  lemma BeginKeeps(cfg: Config, s: State, pid: nat)
    requires Inv(cfg, s) && Enabled(cfg, s, Begin(pid))
    ensures Inv(cfg, DoBegin(cfg, s, pid))
  {
    hide Counts, Whole, Phase, Blocked, SameHome, Apply, ApplyAll;
    InvWhole(cfg, s);
    NotOpen(cfg, s, pid);
    BeginCounts(cfg, s, pid);
    BeginWhole(cfg, s, pid);
    BeginPhase(cfg, s, pid);
  }

  lemma PutKeeps(cfg: Config, s: State, op: nat, b: int, data: Block)
    requires Inv(cfg, s) && Enabled(cfg, s, Put(op, b, data))
    ensures Inv(cfg, DoPut(cfg, s, op, b, data))
    ensures |s.lh| < cfg.logSize && |s.lh| < cfg.size - 1 && s.outstanding > 0 ==>
      var t := DoPut(cfg, s, op, b, data);
      !t.panicked && t.mem == s.mem[b := data] && t.lh == if b in s.lh then s.lh else s.lh + [b]
  {
    if !(LogFull(cfg, s) || s.outstanding < 1) {
      var t := DoPut(cfg, s, op, b, data);
      PutCounts(cfg, s, op, b, data);
      PutWhole(cfg, s, op, b, data);
      var w := Write(op, b, data);
      assert t.cur[..|t.cur| - 1] == s.cur;
      assert Apply(ApplyAll(s.boot, s.groups), t.cur)
          == Apply(ApplyAll(s.boot, s.groups), s.cur)[b := data];
    }
  }

  lemma PutCounts(cfg: Config, s: State, op: nat, b: int, data: Block)
    requires Inv(cfg, s) && Enabled(cfg, s, Put(op, b, data))
    requires !LogFull(cfg, s) && s.outstanding >= 1
    ensures Counts(cfg, DoPut(cfg, s, op, b, data))
  {
    var t := DoPut(cfg, s, op, b, data);
    if b !in s.lh {
      SumRemove(s.open, op);
      SumSet(s.open, op, s.open[op] - 1);
      assert t.open.Keys == s.open.Keys;
      assert |t.open| == |t.open.Keys| && |s.open| == |s.open.Keys|;
    }
  }

  lemma PutWhole(cfg: Config, s: State, op: nat, b: int, data: Block)
    requires Inv(cfg, s) && Enabled(cfg, s, Put(op, b, data))
    requires !LogFull(cfg, s) && s.outstanding >= 1
    ensures Whole(DoPut(cfg, s, op, b, data))
  {
    var t := DoPut(cfg, s, op, b, data);
    var w := Write(op, b, data);
    assert t.open.Keys == s.open.Keys;
    forall g | g in t.groups ensures Closed(t, g) {
      assert Closed(s, g);
      assert w.op !in Ops(g);
    }
    forall x | x in t.hist && (x.op in t.open || x.op in Ops(t.cur)) ensures x in t.cur {
      if x != w && x.op in Ops(t.cur) {
        var y :| y in t.cur && y.op == x.op;
        assert y in s.cur ==> x.op in Ops(s.cur);
      }
    }
  }

  lemma EndKeeps(cfg: Config, s: State, op: nat)
    requires Inv(cfg, s) && Enabled(cfg, s, End(op))
    ensures Inv(cfg, DoEnd(s, op)) && !DoEnd(s, op).panicked
  {
    var t := DoEnd(s, op);
    SumRemove(s.open, op);
    assert t.open.Keys == s.open.Keys - {op};
    assert |t.open| == |t.open.Keys| && |s.open| == |s.open.Keys|;
    assert s.open != map[] ==> |s.open| > 0;
    if s.outstanding == 1 {
      assert t.open == map[];
    }
    forall g | g in t.groups ensures Closed(t, g) { assert Closed(s, g); }
  }

  lemma FinishKeeps(cfg: Config, s: State)
    requires Inv(cfg, s) && Enabled(cfg, s, Finish)
    ensures Inv(cfg, DoFinish(s))
  {
    forall g | g in s.groups ensures Closed(DoFinish(s), g) { assert Closed(s, g); }
  }

  lemma CrashKeeps(cfg: Config, s: State)
    requires Inv(cfg, s)
    ensures HeaderOk(cfg, s.disk)
    ensures SameHome(cfg, Recover(cfg, s.disk), ApplyAll(s.boot, s.groups))
    ensures Inv(cfg, DoCrash(cfg, s))
  {
    assert HeaderOk(cfg, s.disk) by { if HeaderCount(cfg, s.disk) == 0 { RecoverEmpty(cfg, s.disk); } }
    RecoversToGroups(cfg, s);
    hide Recover, SameHome, ApplyAll;
    var t := DoCrash(cfg, s);
    forall g | g in s.groups ensures Closed(t, g) { assert Closed(s, g); }
    CrashPhase(cfg, s);
  }

  lemma CrashPhase(cfg: Config, s: State)
    requires WellFormed(cfg, s) && HeaderOk(cfg, s.disk)
    ensures WellFormed(cfg, DoCrash(cfg, s)) && Phase(cfg, DoCrash(cfg, s))
  {
    hide Recover, LogHolds, SameOutside, SameHome, HeaderOk, HeaderList, ListOk, HalfDone;
    var bl := HeaderList(cfg, s.disk);
    RecoverSelf(cfg, s.disk);
    if bl == [] {
      OutsideNone(cfg, s.disk, Recover(cfg, s.disk));
    } else {
      ListRange(cfg, s.disk, bl);
      NothingDone(s.disk, bl[0], Recover(cfg, s.disk)[bl[0]]);
    }
  }

  lemma ListRange(cfg: Config, d: Image, bl: seq<int>)
    requires ListOk(cfg, d, bl)
    ensures |bl| <= cfg.logSize && |bl| < cfg.size && forall i :: 0 <= i < |bl| ==> cfg.Home(d, bl[i])
  {
  }

  lemma OutsideNone(cfg: Config, d: Image, mem: Image)
    requires SameOutside(cfg, d, [], mem)
    ensures SameHome(cfg, d, mem)
  {
  }

  /** The phases of an installation do not speak of the contents at boot. */
  lemma SamePhase(cfg: Config, s: State, boot: Image)
    requires WellFormed(cfg, s) && (s.pc.Install? || s.pc.Erase?) && |boot| == |s.boot| && Phase(cfg, s)
    ensures Phase(cfg, s.(boot := boot))
  {
    hide Installing, SameHome, HalfDone;
  }

  lemma PowerOnInv(cfg: Config, d: Image)
    requires cfg.Fits(d) && cfg.maxOp <= cfg.logSize && HeaderOk(cfg, d)
    ensures Inv(cfg, PowerOn(cfg, d))
  {
    CrashPhase(cfg, Boot(d));
    SamePhase(cfg, DoCrash(cfg, Boot(d)), Recover(cfg, d));
    hide Phase, Recover, HeaderList, ListOk;
    assert ListOk(cfg, d, HeaderList(cfg, d));
    PowerOnCounts(cfg, d);
  }

  lemma PowerOnCounts(cfg: Config, d: Image)
    requires cfg.Fits(d) && cfg.maxOp <= cfg.logSize && HeaderOk(cfg, d)
    ensures Counts(cfg, PowerOn(cfg, d))
  {
    hide Recover;
  }

  /** In every phase the disk recovers to exactly the committed groups. */
  lemma RecoversToGroups(cfg: Config, s: State)
    requires Inv(cfg, s) && HeaderOk(cfg, s.disk)
    ensures SameHome(cfg, Recover(cfg, s.disk), ApplyAll(s.boot, s.groups))
  {
    if HeaderCount(cfg, s.disk) == 0 {
      RecoverEmpty(cfg, s.disk);
    } else {
      RecoverCommitted(cfg, s.disk, s.mem);
    }
  }

  /** A disk satisfies the commit conditions for its own recovered contents. */
  lemma RecoverSelf(cfg: Config, d: Image)
    requires cfg.Fits(d) && HeaderOk(cfg, d)
    ensures var bl := HeaderList(cfg, d);
            && ListOk(cfg, d, bl) && LogHolds(cfg, d, bl, Recover(cfg, d), |bl|)
            && SameOutside(cfg, d, bl, Recover(cfg, d))
  {
    var bl := HeaderList(cfg, d);
    var data := LogData(cfg, d, |bl|);
    var r := Recover(cfg, d);
    forall i | 0 <= i < |bl| ensures d[cfg.start + 1 + i] == r[bl[i]] {
      ReplayHit(d, bl, data, i);
    }
    forall b | cfg.Home(d, b) && b !in bl ensures d[b] == r[b] {
      ReplayAt(d, bl, data, b);
    }
  }

  // ----- sector writes, phase by phase -----

  /** A sector write disturbs neither the counters nor the bookkeeping of operations. */
  lemma SectorCounts(cfg: Config, s: State, hi: bool)
    requires Inv(cfg, s) && Enabled(cfg, s, WriteSector(hi))
    ensures Counts(cfg, DoSector(cfg, s, hi))
  {
    var t := DoSector(cfg, s, hi);
    assert t.open == s.open == map[];
    assert forall b :: cfg.Home(t.disk, b) <==> cfg.Home(s.disk, b);
    assert s.asleep != {} ==> s.committing;
  }

  lemma SectorWhole(cfg: Config, s: State, hi: bool)
    requires Inv(cfg, s) && Enabled(cfg, s, WriteSector(hi))
    ensures Whole(DoSector(cfg, s, hi))
  {
    var t := DoSector(cfg, s, hi);
    forall g | g in t.groups ensures Closed(t, g) {
      if g in s.groups { assert Closed(s, g); }
    }
  }

  /** Any sector of a block of the log may change while the header is empty. */
  lemma CopySector(cfg: Config, d: Image, e: Image, bl: seq<int>, mem: Image, k: nat)
    requires cfg.Fits(d) && |mem| == |d| == |e| && k < |bl| && ListOk(cfg, d, bl) && ListOk(cfg, e, bl)
    requires forall c :: 0 <= c < |d| && c != cfg.start + 1 + k ==> e[c] == d[c]
    requires LogHolds(cfg, d, bl, mem, k) && SameOutside(cfg, d, bl, mem)
    ensures HeaderCount(cfg, e) == HeaderCount(cfg, d) && SameOutside(cfg, e, bl, mem) && SameHome(cfg, e, d)
    ensures LogHolds(cfg, e, bl, mem, k)
    ensures e[cfg.start + 1 + k] == mem[bl[k]] ==> LogHolds(cfg, e, bl, mem, k + 1)
  {
    assert e[cfg.start] == d[cfg.start];
  }

  lemma HomeTrans(cfg: Config, d: Image, e: Image, f: Image)
    requires SameHome(cfg, d, e) && SameHome(cfg, e, f)
    ensures SameHome(cfg, d, f)
  {
  }

  /** What one sector makes of the block. */
  lemma PutHalf(d: Image, b: int, hi: bool, blk: Block, half: Half)
    requires 0 <= b < |d| && HalfDone(d, b, blk, half)
    ensures |PutSector(d, b, hi, blk)| == |d|
    ensures forall c :: 0 <= c < |d| && c != b ==> PutSector(d, b, hi, blk)[c] == d[c]
    ensures HalfDone(PutSector(d, b, hi, blk), b, blk, if hi then Hi else Lo)
    ensures half == (if hi then Lo else Hi) ==> PutSector(d, b, hi, blk)[b] == blk
  {
  }

  /** What a sector write does to the parts of the state that the phases speak of. */
  lemma SectorParts(cfg: Config, s: State, hi: bool)
    requires WellFormed(cfg, s) && Busy(s.pc)
    ensures var t := DoSector(cfg, s, hi);
            && t.disk == PutSector(s.disk, Target(cfg, s).0, hi, Target(cfg, s).1) && |t.disk| == |s.disk|
            && t.mem == s.mem && t.boot == s.boot && t.pc == AfterSector(s, hi)
            && (t.pc != Erase(Neither) ==> t.lh == s.lh)
            && (!s.pc.HeadWrite? ==> t.groups == s.groups && t.cur == s.cur)
  {
  }

  lemma LogCopyPhase(cfg: Config, s: State, hi: bool)
    requires WellFormed(cfg, s) && Phase(cfg, s) && Enabled(cfg, s, WriteSector(hi)) && s.pc.LogCopy?
    requires WellFormed(cfg, DoSector(cfg, s, hi))
    ensures Phase(cfg, DoSector(cfg, s, hi))
  {
    hide DoSector, LogHolds, SameOutside, SameHome, HalfDone, HeaderCount, ApplyAll, PutSector;
    var t, k := DoSector(cfg, s, hi), s.pc.tail;
    var b, blk := cfg.start + 1 + k, s.mem[s.lh[k]];
    SectorParts(cfg, s, hi);
    PutHalf(s.disk, b, hi, blk, s.pc.half);
    CopySector(cfg, s.disk, t.disk, s.lh, s.mem, k);
    HomeTrans(cfg, t.disk, s.disk, ApplyAll(s.boot, s.groups));
    if t.pc == LogCopy(k + 1, Neither) {
      NothingDone(t.disk, cfg.start + 1 + (k + 1), s.mem[s.lh[k + 1]]);
    }
  }

  lemma NothingDone(d: Image, b: int, blk: Block)
    requires 0 <= b < |d|
    ensures HalfDone(d, b, blk, Neither)
  {
  }

  /** The commit point: the header's first sector turns the whole group on at once. */
  lemma HeadWritePhase(cfg: Config, s: State, hi: bool)
    requires WellFormed(cfg, s) && Phase(cfg, s) && Enabled(cfg, s, WriteSector(hi)) && s.pc.HeadWrite?
    requires WellFormed(cfg, DoSector(cfg, s, hi))
    ensures Phase(cfg, DoSector(cfg, s, hi))
  {
    var t := DoSector(cfg, s, hi);
    if hi {
      assert t.disk == s.disk;
    } else {
      WithListReads(cfg, s.disk, s.disk[cfg.start], s.lh);
      assert t.disk == s.disk[cfg.start := WithList(s.disk[cfg.start], s.lh)];
    }
  }

  /** Any sector of a listed block may change without changing what recovery computes. */
  lemma InstallSector(cfg: Config, d: Image, e: Image, bl: seq<int>, mem: Image, k: nat)
    requires cfg.Fits(d) && |mem| == |d| == |e| && k < |bl|
    requires Installing(cfg, d, bl, mem, k)
    requires forall c :: 0 <= c < |d| && c != bl[k] ==> e[c] == d[c]
    ensures Installing(cfg, e, bl, mem, k)
    ensures e[bl[k]] == mem[bl[k]] ==> Installing(cfg, e, bl, mem, k + 1)
  {
    assert cfg.Home(d, bl[k]);
    assert e[cfg.start] == d[cfg.start];
    assert forall c :: cfg.Home(e, c) <==> cfg.Home(d, c);
  }

  lemma InstalledHome(cfg: Config, d: Image, bl: seq<int>, mem: Image)
    requires cfg.Fits(d) && |mem| == |d| && Installing(cfg, d, bl, mem, |bl|)
    ensures SameHome(cfg, d, mem)
  {
    forall b | cfg.Home(d, b) ensures d[b] == mem[b] {
      if b in bl { var i :| 0 <= i < |bl| && bl[i] == b; }
    }
  }

  lemma InstallAt(cfg: Config, d: Image, bl: seq<int>, mem: Image, k: nat)
    requires cfg.Fits(d) && |mem| == |d| && k < |bl| && Installing(cfg, d, bl, mem, k)
    ensures cfg.Home(d, bl[k]) && d[cfg.start + 1 + k] == mem[bl[k]]
  {
  }

  /** Once all is installed, the header and the log still say so. */
  lemma InstalledCommits(cfg: Config, t: State, bl: seq<int>)
    requires WellFormed(cfg, t) && t.cur == [] && Installing(cfg, t.disk, bl, t.mem, |bl|)
    ensures Committed(cfg, t)
  {
  }

  lemma InstallPhase(cfg: Config, s: State, hi: bool)
    requires WellFormed(cfg, s) && Phase(cfg, s) && Enabled(cfg, s, WriteSector(hi)) && s.pc.Install?
    requires WellFormed(cfg, DoSector(cfg, s, hi))
    ensures Phase(cfg, DoSector(cfg, s, hi))
  {
    hide DoSector, Installing, Committed, SameHome, HalfDone, PutSector;
    var t, k := DoSector(cfg, s, hi), s.pc.tail;
    InstallAt(cfg, s.disk, s.lh, s.mem, k);
    SectorParts(cfg, s, hi);
    PutHalf(s.disk, s.lh[k], hi, s.disk[cfg.start + 1 + k], s.pc.half);
    InstallSector(cfg, s.disk, t.disk, s.lh, s.mem, k);
    if t.pc == Erase(Neither) {
      InstalledHome(cfg, t.disk, s.lh, s.mem);
      InstalledCommits(cfg, t, s.lh);
    } else if t.pc == Install(k + 1, Neither) {
      NothingDone(t.disk, s.lh[k + 1], s.mem[s.lh[k + 1]]);
    }
  }

  lemma ErasePhase(cfg: Config, s: State, hi: bool)
    requires WellFormed(cfg, s) && Phase(cfg, s) && Enabled(cfg, s, WriteSector(hi)) && s.pc.Erase?
    requires SameHome(cfg, s.mem, Apply(ApplyAll(s.boot, s.groups), s.cur)) && s.lh == []
    requires WellFormed(cfg, DoSector(cfg, s, hi))
    ensures Phase(cfg, DoSector(cfg, s, hi))
  {
    var t := DoSector(cfg, s, hi);
    if hi {
      assert t.disk == s.disk;
    } else {
      assert forall b :: 0 <= b < |s.disk| && b != cfg.start ==> t.disk[b] == s.disk[b];
    }
  }

  lemma SectorKeeps(cfg: Config, s: State, hi: bool)
    requires Inv(cfg, s) && Enabled(cfg, s, WriteSector(hi))
    ensures Inv(cfg, DoSector(cfg, s, hi))
  {
    var t := DoSector(cfg, s, hi);
    SectorCounts(cfg, s, hi);
    SectorWhole(cfg, s, hi);
    match s.pc {
      case LogCopy(_, _) => LogCopyPhase(cfg, s, hi);
      case HeadWrite(_) => HeadWritePhase(cfg, s, hi);
      case Install(_, _) => InstallPhase(cfg, s, hi);
      case Erase(_) => ErasePhase(cfg, s, hi);
    }
    if s.pc.HeadWrite? && !hi {
      assert t.groups[..|t.groups| - 1] == s.groups;
    }
  }

  lemma StepKeeps(cfg: Config, s: State, step: Step)
    requires Inv(cfg, s) && Enabled(cfg, s, step)
    ensures Inv(cfg, Do(cfg, s, step))
  {
    match step
    case Begin(pid) => BeginKeeps(cfg, s, pid);
    case Put(op, b, data) => PutKeeps(cfg, s, op, b, data);
    case End(op) => EndKeeps(cfg, s, op);
    case WriteSector(hi) => SectorKeeps(cfg, s, hi);
    case Finish => FinishKeeps(cfg, s);
    case Crash => CrashKeeps(cfg, s);
  }

  lemma {:induction false} RunKeeps(cfg: Config, s: State, run: seq<Step>)
    requires Inv(cfg, s) && Legal(cfg, s, run)
    ensures Inv(cfg, Exec(cfg, s, run))
    decreases run
  {
    if run != [] {
      StepKeeps(cfg, s, run[0]);
      RunKeeps(cfg, Do(cfg, s, run[0]), run[1..]);
    }
  }
}
