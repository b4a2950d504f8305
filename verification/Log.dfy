/**
  kernel/log.c as code: a class with the fields of `struct log` and one method per function.
  The ghost fields record the run of the logging protocol that the code performs; every
  method shows which protocol steps its statements take, one per sector that reaches the
  disk, so the results of LogTheorems hold at every point of the code.
 */
module Log {
  import opened LogDisk
  import opened Seqs
  import opened LogProtocol
  import opened LogTheorems

  /** Two consecutive sector writes complete a block, in whichever order the disk does them. */
  lemma TwoSectors(cfg: Config, s: State, hi: bool)
    requires WellFormed(cfg, s) && Busy(s.pc) && s.pc.half == Neither
    requires s.pc.Erase? ==> s.lh == []
    requires WellFormed(cfg, DoSector(cfg, s, hi))
    ensures var s2 := DoSector(cfg, DoSector(cfg, s, hi), !hi);
            && s2.disk == s.disk[Target(cfg, s).0 := Target(cfg, s).1]
            && s2.pc == Advance(s)
            && s2.lh == (if s2.pc == Erase(Neither) then [] else s.lh)
            && (s2.mem, s2.outstanding, s2.committing, s2.recovering, s2.panicked)
            == (s.mem, s.outstanding, s.committing, s.recovering, s.panicked)
  {
    var s1 := DoSector(cfg, s, hi);
    var (b, blk) := Target(cfg, s);
    var (b1, blk1) := Target(cfg, s1);
    assert b1 == b;
    assert if hi then blk1.lo == blk.lo else blk1.hi == blk.hi;
  }

  /** A block write is two protocol steps. */
  lemma BlockWrite(cfg: Config, boot: Image, s: State, hi: bool)
    requires Reachable(cfg, boot, s) && WellFormed(cfg, s)
    requires !s.panicked && Busy(s.pc) && s.pc.half == Neither
    ensures s.pc.Erase? ==> s.lh == []
    ensures WellFormed(cfg, DoSector(cfg, s, hi))
    ensures var s2 := DoSector(cfg, DoSector(cfg, s, hi), !hi);
            Reachable(cfg, boot, s2) && WellFormed(cfg, s2)
  {
    hide Reachable;
    if s.pc.Erase? { Erasing(cfg, boot, s); }
    ReachableStep(cfg, boot, s, WriteSector(hi));
    ReachableStep(cfg, boot, DoSector(cfg, s, hi), WriteSector(!hi));
  }

  class Log {
    const cfg: Config
    var disk: Image           // what is on the disk
    var mem: Image            // what reads through the buffer cache return
    var block: array<int>     // log.lh.block
    var n: nat                // log.lh.n
    var outstanding: int
    var committing: bool
    ghost const boot: Image   // the disk at the first boot
    ghost var state: State    // where the protocol is

    ghost predicate Reached()
      reads this
    {
      && Reachable(cfg, boot, state) && WellFormed(cfg, state)
      && disk == state.disk && mem == state.mem
      && outstanding == state.outstanding && committing == state.committing
      && !state.panicked
    }

    /** The fields agree with a reachable state of the protocol. */
    ghost predicate Valid()
      reads this, block
    {
      && Reached()
      && block.Length == cfg.logSize && n <= block.Length && block[..n] == state.lh
    }

    /** initlog: whatever log the disk holds is replayed and erased. */
    constructor (cfg: Config, d: Image, order: seq<bool>)
      requires cfg.Fits(d) && HeaderOk(cfg, d) && cfg.maxOp <= cfg.logSize && |order| >= cfg.logSize + 1
      ensures Valid() && fresh(block) && state.pc == Idle && n == 0
      ensures disk == mem == boot == Recover(cfg, d)
    {
      this.cfg := cfg;
      disk, mem, boot := d, Recover(cfg, d), Recover(cfg, d);
      block := new int[cfg.logSize];
      n, outstanding, committing := 0, 0, false;
      state := PowerOn(cfg, d);
      new;
      StartReachable(cfg, boot, state);
      RecoverFromLog(order);
    }

    /** bwrite: both sectors of block `b` reach the disk, in either order. */
    method Bwrite(b: int, blk: Block, hiFirst: bool)
      requires Reached() && Busy(state.pc) && state.pc.half == Neither
      requires Target(cfg, state) == (b, blk)
      modifies this`disk, this`state
      ensures Reached() && disk == old(disk)[b := blk]
      ensures state.pc == Advance(old(state)) && state.recovering == old(state).recovering
      ensures state.lh == (if state.pc == Erase(Neither) then [] else old(state).lh)
    {
      hide Reachable;
      BlockWrite(cfg, boot, state, hiFirst);
      TwoSectors(cfg, state, hiFirst);
      disk := PutSector(disk, b, hiFirst, blk);
      disk := PutSector(disk, b, !hiFirst, blk);
      state := DoSector(cfg, DoSector(cfg, state, hiFirst), !hiFirst);
    }

    /** Copies the blocks of the transaction from the cache to the log. */
    method WriteLog(order: seq<bool>)
      requires Valid() && state.pc == LogCopy(0, Neither) && |order| >= n
      modifies this`disk, this`state
      ensures Valid() && state.pc == HeadWrite(Neither) && mem == old(mem)
    {
      hide Reachable;
      var tail := 0;
      while tail < n
        invariant tail <= n && Valid()
        invariant state.pc == if tail < n then LogCopy(tail, Neither) else HeadWrite(Neither)
        invariant state.lh == old(state.lh)
      {
        var from := mem[block[tail]];
        assert block[tail] == state.lh[tail];
        Bwrite(cfg.start + tail + 1, from, order[tail]);
        tail := tail + 1;
      }
    }

    /** Writes the in-memory header to the disk: commits when n > 0, erases when n == 0. */
    method WriteHead(hiFirst: bool)
      requires Valid() && (state.pc == HeadWrite(Neither) || state.pc == Erase(Neither))
      modifies this`disk, this`state
      ensures Valid() && mem == old(mem)
      ensures state.pc == if old(state.pc).Erase? then Done else Install(0, Neither)
      ensures state.recovering == old(state.recovering)
      ensures disk == old(disk)[cfg.start := WithList(old(disk)[cfg.start], block[..n])]
    {
      hide Reachable;
      if state.pc.Erase? { Erasing(cfg, boot, state); }
      var hb := disk[cfg.start];
      var words: seq<int> := hb.lo[0 := n];
      var i := 0;
      while i < n
        invariant i <= n && |words| == SECTORWORDS
        invariant words == [n] + block[..i] + hb.lo[1 + i..]
      {
        words := words[1 + i := block[i]];
        assert block[..i + 1] == block[..i] + [block[i]];
        i := i + 1;
      }
      hb := hb.(lo := words);
      assert hb == WithList(disk[cfg.start], block[..n]);
      Bwrite(cfg.start, hb, hiFirst);
    }

    /** Copies the logged blocks to their homes. */
    method InstallTrans(order: seq<bool>)
      requires Valid() && |order| >= n
      requires state.pc == if n > 0 then Install(0, Neither) else Erase(Neither)
      modifies this`disk, this`state
      ensures Reached()
      ensures state.pc == Erase(Neither) && state.lh == [] && state.recovering == old(state.recovering)
      ensures disk == Replay(old(disk), block[..n], LogData(cfg, old(disk), n))
    {
      hide Reachable, HeaderOk, Replay, Distinct;
      ghost var bl := block[..n];
      ghost var data := LogData(cfg, disk, n);
      ReplayNone(disk);
      assert bl[..0] == [] && data[..0] == [];
      var tail := 0;
      while tail < n
        invariant tail <= n && Reached()
        invariant state.pc == if tail < n then Install(tail, Neither) else Erase(Neither)
        invariant state.lh == if tail < n then bl else []
        invariant state.recovering == old(state.recovering)
        invariant disk == Replay(old(disk), bl[..tail], data[..tail])
        invariant forall i :: 0 <= i < n ==> disk[cfg.start + 1 + i] == data[i]
      {
        var lbuf := disk[cfg.start + tail + 1];
        assert block[tail] == state.lh[tail];
        assert cfg.Home(disk, block[tail]);
        ReplayStep(old(disk), bl, data, tail);
        Bwrite(block[tail], lbuf, order[tail]);
        tail := tail + 1;
      }
      assert bl[..n] == bl && data[..n] == data;
    }

    /** Reads the header from the disk into memory. */
    method ReadHead()
      requires cfg.Fits(disk) && HeaderOk(cfg, disk) && block.Length == cfg.logSize
      modifies this`n, block
      ensures n == |HeaderList(cfg, disk)| && n <= block.Length && block[..n] == HeaderList(cfg, disk)
    {
      var lo := disk[cfg.start].lo;
      n := lo[0];
      var i := 0;
      while i < n
        invariant i <= n == lo[0] && block[..i] == lo[1..1 + i]
      {
        block[i] := lo[1 + i];
        i := i + 1;
      }
    }

    /** Runs a whole transaction; nothing happens when no block was logged. */
    method Commit(order: seq<bool>)
      requires Valid() && committing && |order| >= 2 * n + 2
      requires state.pc == if n > 0 then LogCopy(0, Neither) else Done
      modifies this, block
      ensures Valid() && state.pc == Done && n == 0 && mem == old(mem) && block == old(block)
      ensures committing == old(committing) && outstanding == old(outstanding)
      ensures SameHome(cfg, disk, mem)
    {
      hide Reachable;
      if n > 0 {
        WriteLog(order);
        WriteHead(order[n]);
        InstallTrans(order[n + 1..]);
        var last := order[2 * n + 1];
        n := 0;
        WriteHead(last);
      }
      Quiet(cfg, boot, state);
    }

    /** One round of begin_op's loop: admitted, or put to sleep until the next wakeup. */
    method BeginOp(pid: nat) returns (admitted: bool)
      requires Valid() && !state.recovering && pid !in state.asleep
      modifies this`outstanding, this`state
      ensures Valid() && state == DoBegin(cfg, old(state), pid)
      ensures admitted <==> !committing && n + (old(outstanding) + 1) * cfg.maxOp <= cfg.logSize
      ensures outstanding == if admitted then old(outstanding) + 1 else old(outstanding)
      ensures admitted ==> old(state).nextOp in state.open
    {
      hide Reachable;
      if committing {
        admitted := false;
      } else if n + (outstanding + 1) * cfg.maxOp > cfg.logSize {
        admitted := false;
      } else {
        outstanding := outstanding + 1;
        admitted := true;
      }
      ReachableStep(cfg, boot, state, Begin(pid));
      state := DoBegin(cfg, state, pid);
    }

    /** Records that operation `op` has changed block `b`; false where the kernel panics. */
    method LogWrite(ghost op: nat, b: int, data: Block) returns (ok: bool)
      requires Valid() && op in state.open && cfg.Home(disk, b) && (b in block[..n] || state.open[op] > 0)
      modifies this, block
      ensures ok <==> old(n) < cfg.logSize && old(n) < cfg.size - 1
      ensures ok ==> Valid() && state == DoPut(cfg, old(state), op, b, data)
      ensures ok ==> mem == old(mem)[b := data] && disk == old(disk) && outstanding == old(outstanding)
      ensures ok ==> block[..n] == if b in old(block[..n]) then old(block[..n]) else old(block[..n]) + [b]
      ensures block == old(block)
    {
      hide Reachable;
      if n >= cfg.logSize || n >= cfg.size - 1 {
        return false;
      }
      OpenOps(cfg, boot, state, op);
      var i := 0;
      while i < n && block[i] != b
        invariant i <= n && b !in block[..i]
      {
        i := i + 1;
      }
      ghost var lh := block[..n];
      assert i < n ==> b in lh;
      block[i] := b;
      mem := mem[b := data];
      if i == n {
        assert block[..n] == lh;
        n := n + 1;
        assert block[..n] == lh + [b];
      } else {
        assert block[..n] == lh;
      }
      ReachableStep(cfg, boot, state, Put(op, b, data));
      state := DoPut(cfg, state, op, b, data);
      ok := true;
    }

    /** Ends operation `op`; the last one out commits the group. */
    method EndOp(ghost op: nat, order: seq<bool>)
      requires Valid() && op in state.open && |order| >= 2 * cfg.logSize + 2
      modifies this, block
      ensures Valid() && block == old(block) && mem == old(mem)
      ensures outstanding == old(outstanding) - 1 && !committing && state.pc == Idle
      ensures outstanding == 0 ==> n == 0 && SameHome(cfg, disk, mem)
      ensures outstanding > 0 ==> disk == old(disk) && n == old(n) && block[..n] == old(block[..n])
    {
      hide Reachable;
      OpenOps(cfg, boot, state, op);
      outstanding := outstanding - 1;
      var doCommit := false;
      if outstanding == 0 {
        doCommit := true;
        committing := true;
      }
      ReachableStep(cfg, boot, state, End(op));
      state := DoEnd(state, op);
      if doCommit {
        Commit(order);
        committing := false;
        ReachableStep(cfg, boot, state, Finish);
        state := DoFinish(state);
      }
    }

    /** recover_from_log: reads the header, replays the log and erases it. */
    method RecoverFromLog(order: seq<bool>)
      requires Reached() && block.Length == cfg.logSize && |order| >= cfg.logSize + 1
      requires HeaderOk(cfg, disk) && state.lh == HeaderList(cfg, disk) && state.recovering
      requires state.pc == if state.lh == [] then Erase(Neither) else Install(0, Neither)
      requires outstanding == 0 && !committing
      modifies this`disk, this`n, this`state, block
      ensures Valid() && state.pc == Idle && n == 0 && disk == Recover(cfg, old(disk))
    {
      hide Reachable, Replay, LogData;
      ReadHead();
      InstallTrans(order);
      n := 0;
      WriteHead(order[cfg.logSize]);
      ReachableStep(cfg, boot, state, Finish);
      state := DoFinish(state);
    }

    /**
      Power fails and the machine boots again: whatever the memory held, recover_from_log
      leaves a disk that holds exactly the committed groups.
     */
    method RebootAndRecover(junk: array<int>, order: seq<bool>)
      requires Reachable(cfg, boot, state) && disk == state.disk
      requires junk.Length == cfg.logSize && |order| >= cfg.logSize + 1
      modifies this, junk
      ensures Valid() && state.pc == Idle && n == 0 && outstanding == 0 && block == junk
      ensures cfg.Fits(old(disk)) && HeaderOk(cfg, old(disk)) && disk == Recover(cfg, old(disk))
      ensures SameHome(cfg, disk, ApplyAll(boot, old(state).groups))
    {
      hide Reachable, Replay, ApplyAll, LogData;
      CrashFinds(cfg, boot, state);
      ReachableStep(cfg, boot, state, Crash);
      block, outstanding, committing := junk, 0, false;
      mem := Recover(cfg, disk);
      state := DoCrash(cfg, state);
      RecoverFromLog(order);
    }
  }
}
