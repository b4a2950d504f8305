/**
  The disk as the log sees it: an array of blocks, each stored as two sectors that are
  written separately, with the redo log of kernel/log.c laid out in a fixed region.

  This module defines what recovery computes from a disk image (`Recover`) and proves that
  images that differ only where the log is about to write recover to the same contents.
 */
module LogDisk {
  import opened Seqs

  /** A 512-byte sector, seen as 128 32-bit words. */
  const SECTORWORDS: nat := 128

  type Sector = s: seq<int> | |s| == SECTORWORDS witness seq(SECTORWORDS, _ => 0)

  /** A 1024-byte block is two sectors; a crash can separate the two writes. */
  datatype Block = Block(lo: Sector, hi: Sector)

  type Image = seq<Block>

  /**
    Where the log lives and how large it may grow: `start` and `size` come from the
    superblock, `logSize` and `maxOp` are LOGSIZE and MAXOPBLOCKS.
   */
  datatype Config = Config(start: nat, size: nat, logSize: nat, maxOp: nat) {

    /** The header (a count and logSize block numbers) fits into one sector. */
    predicate Valid() {
      && 1 + logSize <= SECTORWORDS
      && 1 <= size
    }

    predicate Fits(d: Image) {
      Valid() && start + size <= |d|
    }

    predicate InLog(b: int) {
      start <= b < start + size
    }

    /** Blocks that a transaction may write: on the disk and outside the log region. */
    predicate Home(d: Image, b: int) {
      0 <= b < |d| && !InLog(b)
    }
  }

  /** A block list that a header may hold: it fits the log and names distinct home blocks. */
  predicate ListOk(cfg: Config, d: Image, bl: seq<int>) {
    && |bl| <= cfg.logSize
    && |bl| < cfg.size
    && Distinct(bl)
    && forall i :: 0 <= i < |bl| ==> cfg.Home(d, bl[i])
  }

  function HeaderCount(cfg: Config, d: Image): int
    requires cfg.Fits(d)
  {
    d[cfg.start].lo[0]
  }

  predicate HeaderOk(cfg: Config, d: Image)
    requires cfg.Fits(d)
  {
    && 0 <= HeaderCount(cfg, d) <= cfg.logSize
    && ListOk(cfg, d, d[cfg.start].lo[1..1 + HeaderCount(cfg, d)])
  }

  function HeaderList(cfg: Config, d: Image): seq<int>
    requires cfg.Fits(d) && HeaderOk(cfg, d)
  {
    d[cfg.start].lo[1..1 + HeaderCount(cfg, d)]
  }

  /** The header block after the count and the first |bl| block numbers were overwritten. */
  function WithList(blk: Block, bl: seq<int>): Block
    requires 1 + |bl| <= SECTORWORDS
  {
    blk.(lo := [|bl|] + bl + blk.lo[1 + |bl|..])
  }

  lemma WithListReads(cfg: Config, d: Image, blk: Block, bl: seq<int>)
    requires cfg.Fits(d) && ListOk(cfg, d, bl)
    ensures var e := d[cfg.start := WithList(blk, bl)];
            HeaderOk(cfg, e) && HeaderList(cfg, e) == bl
  {
  }

  /** Block `b` after sector `hi` or `lo` of it was replaced. */
  function PutSector(d: Image, b: int, hi: bool, blk: Block): Image
    requires 0 <= b < |d|
  {
    if hi then d[b := d[b].(hi := blk.hi)] else d[b := d[b].(lo := blk.lo)]
  }

  function LogData(cfg: Config, d: Image, n: nat): seq<Block>
    requires cfg.Fits(d) && n < cfg.size
  {
    d[cfg.start + 1..cfg.start + 1 + n]
  }

  /** Copies data[i] to block bl[i], in order. */
  function Replay(d: Image, bl: seq<int>, data: seq<Block>): (r: Image)
    requires |bl| == |data|
    requires forall i :: 0 <= i < |bl| ==> 0 <= bl[i] < |d|
    ensures |r| == |d|
    decreases |bl|
  {
    if bl == [] then d
    else
      var n := |bl| - 1;
      Replay(d, bl[..n], data[..n])[bl[n] := data[n]]
  }

  lemma ReplayNone(d: Image)
    ensures Replay(d, [], []) == d
  {
  }

  lemma ReplayStep(d: Image, bl: seq<int>, data: seq<Block>, k: nat)
    requires |bl| == |data| && k < |bl|
    requires forall i :: 0 <= i < |bl| ==> 0 <= bl[i] < |d|
    ensures Replay(d, bl[..k + 1], data[..k + 1]) == Replay(d, bl[..k], data[..k])[bl[k] := data[k]]
  {
    assert bl[..k + 1][..k] == bl[..k] && data[..k + 1][..k] == data[..k];
  }

  lemma {:induction false} ReplayAt(d: Image, bl: seq<int>, data: seq<Block>, b: int)
    requires |bl| == |data|
    requires forall i :: 0 <= i < |bl| ==> 0 <= bl[i] < |d|
    requires 0 <= b < |d| && b !in bl
    ensures Replay(d, bl, data)[b] == d[b]
    decreases |bl|
  {
    if bl != [] {
      var n := |bl| - 1;
      ReplayAt(d, bl[..n], data[..n], b);
    }
  }

  lemma {:induction false} ReplayHit(d: Image, bl: seq<int>, data: seq<Block>, i: nat)
    requires |bl| == |data| && Distinct(bl) && i < |bl|
    requires forall i :: 0 <= i < |bl| ==> 0 <= bl[i] < |d|
    ensures Replay(d, bl, data)[bl[i]] == data[i]
    decreases |bl|
  {
    var n := |bl| - 1;
    if i < n {
      assert bl[..n][i] == bl[i];
      ReplayHit(d, bl[..n], data[..n], i);
    }
  }

  function ClearHead(cfg: Config, d: Image): Image
    requires cfg.Fits(d)
  {
    d[cfg.start := WithList(d[cfg.start], [])]
  }

  /** What recover_from_log leaves on the disk. */
  function Recover(cfg: Config, d: Image): (r: Image)
    requires cfg.Fits(d) && HeaderOk(cfg, d)
    ensures |r| == |d|
  {
    var bl := HeaderList(cfg, d);
    ClearHead(cfg, Replay(d, bl, LogData(cfg, d, |bl|)))
  }

  ghost predicate SameHome(cfg: Config, d: Image, e: Image) {
    |d| == |e| && forall b :: cfg.Home(d, b) ==> d[b] == e[b]
  }

  /** The log holds exactly what `mem` says the blocks in `bl` contain. */
  ghost predicate LogHolds(cfg: Config, d: Image, bl: seq<int>, mem: Image, k: nat)
    requires cfg.Fits(d) && ListOk(cfg, d, bl) && |mem| == |d| && k <= |bl|
  {
    forall i :: 0 <= i < k ==> d[cfg.start + 1 + i] == mem[bl[i]]
  }

  /** A home block outside `bl` has on disk the contents `mem` has. */
  ghost predicate SameOutside(cfg: Config, d: Image, bl: seq<int>, mem: Image) {
    |mem| == |d| && forall b :: cfg.Home(d, b) && b !in bl ==> d[b] == mem[b]
  }

  /**
    Once the header names the blocks and the log holds them, recovery yields `mem`, whatever
    the blocks themselves contain: they may be old, torn or already installed.
   */
  lemma RecoverCommitted(cfg: Config, d: Image, mem: Image)
    requires cfg.Fits(d) && HeaderOk(cfg, d) && |mem| == |d|
    requires LogHolds(cfg, d, HeaderList(cfg, d), mem, |HeaderList(cfg, d)|)
    requires SameOutside(cfg, d, HeaderList(cfg, d), mem)
    ensures SameHome(cfg, Recover(cfg, d), mem)
  {
    var bl := HeaderList(cfg, d);
    hide Recover, HeaderOk, HeaderList, LogHolds, SameOutside;
    forall b | cfg.Home(Recover(cfg, d), b) ensures Recover(cfg, d)[b] == mem[b] {
      if b in bl {
        var i :| 0 <= i < |bl| && bl[i] == b;
        RecoverHit(cfg, d, i);
        LogHoldsAt(cfg, d, bl, mem, i);
      } else {
        RecoverMiss(cfg, d, b);
        OutsideAt(cfg, d, bl, mem, b);
      }
    }
  }

  lemma LogHoldsAt(cfg: Config, d: Image, bl: seq<int>, mem: Image, i: nat)
    requires cfg.Fits(d) && ListOk(cfg, d, bl) && |mem| == |d| && LogHolds(cfg, d, bl, mem, |bl|) && i < |bl|
    ensures cfg.Home(d, bl[i]) && d[cfg.start + 1 + i] == mem[bl[i]]
  {
  }

  lemma OutsideAt(cfg: Config, d: Image, bl: seq<int>, mem: Image, b: int)
    requires SameOutside(cfg, d, bl, mem) && cfg.Home(d, b) && b !in bl
    ensures |mem| == |d| && d[b] == mem[b]
  {
  }

  /** Recovery gives a listed block its contents in the log, */
  lemma RecoverHit(cfg: Config, d: Image, i: nat)
    requires cfg.Fits(d) && HeaderOk(cfg, d) && i < |HeaderList(cfg, d)|
    ensures ListOk(cfg, d, HeaderList(cfg, d)) && cfg.Home(d, HeaderList(cfg, d)[i])
    ensures Recover(cfg, d)[HeaderList(cfg, d)[i]] == d[cfg.start + 1 + i]
  {
    var bl := HeaderList(cfg, d);
    ReplayHit(d, bl, LogData(cfg, d, |bl|), i);
  }

  /** and leaves every other home block alone. */
  lemma RecoverMiss(cfg: Config, d: Image, b: int)
    requires cfg.Fits(d) && HeaderOk(cfg, d) && cfg.Home(d, b) && b !in HeaderList(cfg, d)
    ensures Recover(cfg, d)[b] == d[b]
  {
    var bl := HeaderList(cfg, d);
    ReplayAt(d, bl, LogData(cfg, d, |bl|), b);
  }

  /** With an empty header recovery changes no home block. */
  lemma RecoverEmpty(cfg: Config, d: Image)
    requires cfg.Fits(d) && HeaderCount(cfg, d) == 0
    ensures HeaderOk(cfg, d) && SameHome(cfg, Recover(cfg, d), d)
  {
  }

  /** Recovering again changes no home block: the first recovery leaves an empty header. */
  lemma RecoverTwice(cfg: Config, d: Image)
    requires cfg.Fits(d) && HeaderOk(cfg, d)
    ensures HeaderOk(cfg, Recover(cfg, d))
    ensures SameHome(cfg, Recover(cfg, Recover(cfg, d)), Recover(cfg, d))
  {
    assert HeaderCount(cfg, Recover(cfg, d)) == 0;
    RecoverEmpty(cfg, Recover(cfg, d));
  }
}
