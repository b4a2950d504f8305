/**
  Results about whole runs of the logging protocol: atomicity and durability across any
  number of crashes, and the exact log size at which well-behaved operations cannot panic.
 */
module LogTheorems {
  import opened LogDisk
  import opened Seqs
  import opened LogProtocol

  /** A fresh machine on a disk whose log is empty, with room for at least one operation. */
  predicate Bootable(cfg: Config, d: Image) {
    cfg.Fits(d) && cfg.maxOp <= cfg.logSize && HeaderCount(cfg, d) == 0
  }

  /**
    How a machine starts that finds the contents `boot`: fresh, or at power-on with a log to
    recover, as initlog does.
   */
  ghost predicate Starts(cfg: Config, boot: Image, s: State) {
    && cfg.maxOp <= cfg.logSize
    && ((Bootable(cfg, boot) && s == Boot(boot))
        || exists d :: cfg.Fits(d) && HeaderOk(cfg, d) && s == PowerOn(cfg, d) && boot == Recover(cfg, d))
  }

  lemma StartInv(cfg: Config, boot: Image, s: State)
    requires Starts(cfg, boot, s)
    ensures Inv(cfg, s) && s.boot == boot
  {
    if Bootable(cfg, boot) && s == Boot(boot) {
      BootInv(cfg, boot);
    } else {
      var d :| cfg.Fits(d) && HeaderOk(cfg, d) && s == PowerOn(cfg, d) && boot == Recover(cfg, d);
      PowerOnInv(cfg, d);
    }
  }

  /**
    Crash safety. At every point of every run a crash can happen, and the disk found there
    recovers to exactly the effect of the groups committed so far; each of those groups has
    every write of each operation it contains, and none of an operation still in progress.
   */
  lemma CrashSafety(cfg: Config, boot: Image, s0: State, run: seq<Step>)
    requires Starts(cfg, boot, s0) && Legal(cfg, s0, run)
    ensures var s := Exec(cfg, s0, run);
            && WellFormed(cfg, s) && Enabled(cfg, s, Crash)
            && SameHome(cfg, Recover(cfg, s.disk), ApplyAll(boot, s.groups))
            && (forall g :: g in s.groups ==> Closed(s, g))
  {
    hide Starts, Inv, Do, SameHome, ApplyAll, Recover, HeaderOk;
    StartInv(cfg, boot, s0);
    RunKeeps(cfg, s0, run);
    var s := Exec(cfg, s0, run);
    InvWhole(cfg, s);
    CrashKeeps(cfg, s);
    BootSame(cfg, s0, run);
  }

  lemma {:induction false} BootSame(cfg: Config, s: State, run: seq<Step>)
    requires Legal(cfg, s, run)
    ensures Exec(cfg, s, run).boot == s.boot
    decreases run
  {
    if run != [] { BootSame(cfg, Do(cfg, s, run[0]), run[1..]); }
  }

  /** Durability: no later step, crash or recovery takes a committed group away. */
  lemma {:induction false} GroupsOnlyGrow(cfg: Config, s: State, run: seq<Step>)
    requires Legal(cfg, s, run)
    ensures s.groups <= Exec(cfg, s, run).groups
    decreases run
  {
    if run != [] {
      assert s.groups <= Do(cfg, s, run[0]).groups;
      GroupsOnlyGrow(cfg, Do(cfg, s, run[0]), run[1..]);
    }
  }

  /**
    Once the last operation's end_op has returned, everything that was written since the
    last crash is in a committed group and at home on the disk.
   */
  lemma QuietMeansDurable(cfg: Config, boot: Image, s0: State, run: seq<Step>)
    requires Starts(cfg, boot, s0) && Legal(cfg, s0, run)
    ensures var s := Exec(cfg, s0, run);
            s.pc == Idle && s.open == map[] ==>
              s.cur == [] && SameHome(cfg, s.disk, s.mem) && SameHome(cfg, s.mem, ApplyAll(boot, s.groups))
  {
    hide Starts;
    StartInv(cfg, boot, s0);
    RunKeeps(cfg, s0, run);
    BootSame(cfg, s0, run);
    var s := Exec(cfg, s0, run);
    assert s.cur != [] ==> s.cur[0].b in s.lh;
  }

  /**
    No lost wakeup in begin_op: a process sleeps there only while it would not be admitted,
    and then some operation or a commit is under way that will wake it.
   */
  lemma SleepersMustWait(cfg: Config, boot: Image, s0: State, run: seq<Step>)
    requires Starts(cfg, boot, s0) && Legal(cfg, s0, run)
    ensures var s := Exec(cfg, s0, run);
            s.asleep != {} ==> Blocked(cfg, s) && (s.outstanding > 0 || s.committing)
  {
    hide Starts, Inv, Counts, Do, Enabled;
    StartInv(cfg, boot, s0);
    RunKeeps(cfg, s0, run);
    var s := Exec(cfg, s0, run);
    InvCounts(cfg, s);
    if s.asleep != {} { SleeperWaits(cfg, s); }
  }

  lemma SleeperWaits(cfg: Config, s: State)
    requires Counts(cfg, s) && s.asleep != {}
    ensures Blocked(cfg, s) && (s.outstanding > 0 || s.committing)
  {
  }

  // ----- log space -----

  /** A run in which every log_write comes from an operation with budget left. */
  predicate Frugal(cfg: Config, s: State, run: seq<Step>)
    requires Legal(cfg, s, run)
    decreases run
  {
    run == [] ||
    ((run[0].Put? ==> s.open[run[0].op] > 0) && Frugal(cfg, Do(cfg, s, run[0]), run[1..]))
  }

  lemma {:induction false} FrugalKeeps(cfg: Config, s: State, run: seq<Step>)
    requires Inv(cfg, s) && !s.panicked && cfg.size > cfg.logSize
    requires Legal(cfg, s, run) && Frugal(cfg, s, run)
    ensures !Exec(cfg, s, run).panicked
    decreases run
  {
    if run != [] {
      StepKeeps(cfg, s, run[0]);
      match run[0] {
        case Put(op, b, _) => SumRemove(s.open, op);
        case End(op) => EndKeeps(cfg, s, op);
        case _ =>
      }
      FrugalKeeps(cfg, Do(cfg, s, run[0]), run[1..]);
    }
  }

  /** Distinct home blocks, as many as the log can ever hold. */
  predicate Supply(cfg: Config, d: Image, bs: seq<int>) {
    |bs| == cfg.logSize && Distinct(bs) && forall i :: 0 <= i < |bs| ==> cfg.Home(d, bs[i])
  }

  /** The operation that makes the i-th write when three of them fill the log in turn. */
  function Filler(cfg: Config, i: nat): nat {
    if i < cfg.maxOp then 0 else if i < 2 * cfg.maxOp then 1 else 2
  }

  function FillSteps(cfg: Config, bs: seq<int>, data: Block, i: nat, n: nat): seq<Step>
    requires i <= n <= |bs|
    decreases n - i
  {
    if i == n then [] else [Put(Filler(cfg, i), bs[i], data)] + FillSteps(cfg, bs, data, i + 1, n)
  }

  function Left(cfg: Config, op: nat, i: nat): nat {
    if i <= op * cfg.maxOp then cfg.maxOp
    else if i < op * cfg.maxOp + cfg.maxOp then op * cfg.maxOp + cfg.maxOp - i
    else 0
  }

  /** Three operations are open and the first `i` blocks of the supply are in the log. */
  predicate Filled(cfg: Config, d: Image, s: State, bs: seq<int>, i: nat)
  {
    && i <= |bs| && s.lh == bs[..i] && |s.disk| == |d| && WellFormed(cfg, s)
    && s.outstanding == 3 && !s.panicked && !s.committing
    && s.open == map[0 := Left(cfg, 0, i), 1 := Left(cfg, 1, i), 2 := Left(cfg, 2, i)]
  }

  /** The next write takes one from the budget of the operation that makes it. */
  lemma LeftNext(cfg: Config, i: nat)
    requires i < cfg.logSize == 3 * cfg.maxOp
    ensures Filler(cfg, i) <= 2 && Left(cfg, Filler(cfg, i), i) > 0
    ensures forall op :: 0 <= op <= 2 ==>
      Left(cfg, op, i + 1) == Left(cfg, op, i) - if op == Filler(cfg, i) then 1 else 0
    ensures Left(cfg, 0, i) + Left(cfg, 1, i) + Left(cfg, 2, i) == cfg.logSize - i
  {
  }

  lemma FillOne(cfg: Config, d: Image, s: State, bs: seq<int>, data: Block, i: nat)
    requires Supply(cfg, d, bs) && cfg.logSize == 3 * cfg.maxOp
    requires i < |bs| && i < cfg.size - 1 && Filled(cfg, d, s, bs, i)
    ensures Enabled(cfg, s, Put(Filler(cfg, i), bs[i], data)) && s.open[Filler(cfg, i)] > 0
    ensures Filled(cfg, d, Do(cfg, s, Put(Filler(cfg, i), bs[i], data)), bs, i + 1)
  {
    hide Left, Filler, Apply;
    LeftNext(cfg, i);
    assert bs[i] !in s.lh;
    assert cfg.Home(s.disk, bs[i]);
    var t := Do(cfg, s, Put(Filler(cfg, i), bs[i], data));
    assert t.lh == bs[..i + 1];
    assert forall k :: 0 <= k < |t.lh| ==> cfg.Home(d, t.lh[k]);
  }

  lemma {:induction false} Fill(cfg: Config, d: Image, s: State, bs: seq<int>, data: Block, i: nat, n: nat)
    requires Supply(cfg, d, bs) && cfg.logSize == 3 * cfg.maxOp
    requires i <= n <= |bs| && n < cfg.size && Filled(cfg, d, s, bs, i)
    ensures var run := FillSteps(cfg, bs, data, i, n);
            && Legal(cfg, s, run) && Frugal(cfg, s, run)
            && Filled(cfg, d, Exec(cfg, s, run), bs, n)
    decreases n - i
  {
    if i < n {
      FillOne(cfg, d, s, bs, data, i);
      var step := Put(Filler(cfg, i), bs[i], data);
      var rest := FillSteps(cfg, bs, data, i + 1, n);
      Fill(cfg, d, Do(cfg, s, step), bs, data, i + 1, n);
      assert ([step] + rest)[1..] == rest;
    }
  }

  lemma {:induction false} LegalAppend(cfg: Config, s: State, run: seq<Step>, more: seq<Step>)
    requires Legal(cfg, s, run) && Legal(cfg, Exec(cfg, s, run), more)
    ensures Legal(cfg, s, run + more) && Exec(cfg, s, run + more) == Exec(cfg, Exec(cfg, s, run), more)
    ensures Frugal(cfg, s, run) && Frugal(cfg, Exec(cfg, s, run), more) ==> Frugal(cfg, s, run + more)
    decreases run
  {
    hide Do, Enabled, WellFormed;
    if run == [] {
      assert run + more == more;
    } else {
      LegalAppend(cfg, Do(cfg, s, run[0]), run[1..], more);
      assert (run + more)[1..] == run[1..] + more;
    }
  }

  lemma ThreeBegin(cfg: Config, d: Image, bs: seq<int>)
    requires Bootable(cfg, d) && cfg.logSize == 3 * cfg.maxOp && Supply(cfg, d, bs)
    ensures var run := [Begin(0), Begin(0), Begin(0)];
            && Legal(cfg, Boot(d), run) && Frugal(cfg, Boot(d), run)
            && Filled(cfg, d, Exec(cfg, Boot(d), run), bs, 0)
  {
  }

  /** Fill the log with `n` blocks, then write once more. */
  ghost function Overrun(cfg: Config, bs: seq<int>, data: Block, n: nat, last: Step): seq<Step>
    requires n <= |bs|
  {
    [Begin(0), Begin(0), Begin(0)] + FillSteps(cfg, bs, data, 0, n) + [last]
  }

  lemma OverrunPanics(cfg: Config, d: Image, bs: seq<int>, data: Block, n: nat, last: Step)
    requires Bootable(cfg, d) && cfg.logSize == 3 * cfg.maxOp && Supply(cfg, d, bs)
    requires n <= |bs| && n < cfg.size && (n == cfg.logSize || n == cfg.size - 1)
    requires last.Put? && last.op == Filler(cfg, n) && cfg.Home(d, last.b)
    requires last.b in bs[..n] || n < cfg.logSize
    ensures var run := Overrun(cfg, bs, data, n, last);
            && Legal(cfg, Boot(d), run) && Exec(cfg, Boot(d), run).panicked
            && (n < cfg.logSize ==> Frugal(cfg, Boot(d), run))
  {
    var begins := [Begin(0), Begin(0), Begin(0)];
    var fill := FillSteps(cfg, bs, data, 0, n);
    ThreeBegin(cfg, d, bs);
    Fill(cfg, d, Exec(cfg, Boot(d), begins), bs, data, 0, n);
    LegalAppend(cfg, Boot(d), begins, fill);
    var s := Exec(cfg, Boot(d), begins + fill);
    assert cfg.Home(s.disk, last.b);
    assert [last][1..] == [];
    assert n < cfg.logSize ==> Left(cfg, Filler(cfg, n), n) > 0;
    assert Legal(cfg, s, [last]) && (n < cfg.logSize ==> Frugal(cfg, s, [last]));
    LegalAppend(cfg, Boot(d), begins + fill, [last]);
  }

  /**
    The tight threshold. With LOGSIZE three times MAXOPBLOCKS, operations that stay within
    their budget can never make log_write panic if and only if the on-disk log has more than
    LOGSIZE blocks. mkfs makes it exactly LOGSIZE, so three concurrent operations that use
    their whole budget do panic there.
   */
  lemma SpaceThreshold(cfg: Config, d: Image, bs: seq<int>, data: Block)
    requires Bootable(cfg, d) && cfg.logSize == 3 * cfg.maxOp && 0 < cfg.maxOp && Supply(cfg, d, bs)
    ensures cfg.size > cfg.logSize <==>
            forall run :: Legal(cfg, Boot(d), run) && Frugal(cfg, Boot(d), run)
                          ==> !Exec(cfg, Boot(d), run).panicked
  {
    if cfg.size > cfg.logSize {
      BootInv(cfg, d);
      forall run | Legal(cfg, Boot(d), run) && Frugal(cfg, Boot(d), run)
        ensures !Exec(cfg, Boot(d), run).panicked
      {
        FrugalKeeps(cfg, Boot(d), run);
      }
    } else {
      var n := cfg.size - 1;
      OverrunPanics(cfg, d, bs, data, n, Put(Filler(cfg, n), bs[n], data));
    }
  }

  /**
    Budget must be left even to rewrite a block already in the log: with the log full,
    log_write panics before it looks for the block to absorb the write into.
   */
  lemma AbsorptionPanics(cfg: Config, d: Image, bs: seq<int>, data: Block)
    requires Bootable(cfg, d) && cfg.logSize == 3 * cfg.maxOp && 0 < cfg.maxOp && Supply(cfg, d, bs)
    requires cfg.size > cfg.logSize
    ensures var run := Overrun(cfg, bs, data, cfg.logSize, Put(2, bs[0], data));
            Legal(cfg, Boot(d), run) && Exec(cfg, Boot(d), run).panicked
  {
    assert bs[0] in bs[..cfg.logSize];
    OverrunPanics(cfg, d, bs, data, cfg.logSize, Put(2, bs[0], data));
  }

  // ----- reachable states, for the code in module Log -----

  ghost predicate Reachable(cfg: Config, boot: Image, s: State) {
    exists s0, run :: Starts(cfg, boot, s0) && Legal(cfg, s0, run) && Exec(cfg, s0, run) == s
  }

  lemma StartReachable(cfg: Config, boot: Image, s: State)
    requires Starts(cfg, boot, s)
    ensures Reachable(cfg, boot, s) && WellFormed(cfg, s)
  {
    StartInv(cfg, boot, s);
    assert Legal(cfg, s, []) && Exec(cfg, s, []) == s;
  }

  lemma ReachableInv(cfg: Config, boot: Image, s: State)
    requires Reachable(cfg, boot, s)
    ensures Inv(cfg, s) && WellFormed(cfg, s) && s.boot == boot
  {
    hide Do, Enabled, Starts;
    var s0, run :| Starts(cfg, boot, s0) && Legal(cfg, s0, run) && Exec(cfg, s0, run) == s;
    StartInv(cfg, boot, s0);
    RunKeeps(cfg, s0, run);
    BootSame(cfg, s0, run);
  }

  lemma ReachableStep(cfg: Config, boot: Image, s: State, step: Step)
    requires Reachable(cfg, boot, s) && WellFormed(cfg, s) && Enabled(cfg, s, step)
    ensures Reachable(cfg, boot, Do(cfg, s, step)) && WellFormed(cfg, Do(cfg, s, step))
  {
    hide Do, Enabled, WellFormed, Inv, Starts;
    var s0, run :| Starts(cfg, boot, s0) && Legal(cfg, s0, run) && Exec(cfg, s0, run) == s;
    assert [step][1..] == [];
    assert Exec(cfg, Do(cfg, s, step), []) == Do(cfg, s, step);
    assert Legal(cfg, Do(cfg, s, step), []) && Legal(cfg, s, [step]);
    assert Exec(cfg, s, [step]) == Exec(cfg, Do(cfg, s, step), [step][1..]);
    LegalAppend(cfg, s0, run, [step]);
    ReachableInv(cfg, boot, Do(cfg, s, step));
  }

  /** end_op and log_write find the counters as they expect them. */
  lemma OpenOps(cfg: Config, boot: Image, s: State, op: nat)
    requires Reachable(cfg, boot, s) && op in s.open
    ensures s.outstanding == |s.open| >= 1 && !s.committing && !s.recovering && s.pc == Idle
  {
    ReachableInv(cfg, boot, s);
    assert |s.open| == |s.open.Keys| && s.open.Keys != {};
  }

  /** When nothing is under way the log is empty and the disk is up to date. */
  lemma Quiet(cfg: Config, boot: Image, s: State)
    requires Reachable(cfg, boot, s) && (s.pc == Done || (s.pc == Idle && s.open == map[]))
    ensures s.lh == [] && SameHome(cfg, s.disk, s.mem) && SameHome(cfg, s.disk, ApplyAll(boot, s.groups))
  {
    ReachableInv(cfg, boot, s);
  }

  lemma Erasing(cfg: Config, boot: Image, s: State)
    requires Reachable(cfg, boot, s) && s.pc.Erase?
    ensures s.lh == []
  {
    ReachableInv(cfg, boot, s);
  }

  lemma CrashFinds(cfg: Config, boot: Image, s: State)
    requires Reachable(cfg, boot, s)
    ensures WellFormed(cfg, s) && HeaderOk(cfg, s.disk)
    ensures SameHome(cfg, Recover(cfg, s.disk), ApplyAll(boot, s.groups))
  {
    ReachableInv(cfg, boot, s);
    CrashKeeps(cfg, s);
  }
}
