/**
  The disk driver of kernel/virtio_disk.c and the device. A process holds vdisk_lock while it
  is in one of the driver's methods, but the device takes no lock: between any two stores of
  the driver it may take and complete any chains it has been told of. A method's `sched` says
  what the device does at each such point, and the method is right for every schedule.
 */
module Virtio {
  import opened Wrappers
  import opened Seqs
  import opened VirtioQueue

  /** What the device may do: take the next chain, or one of the three stores with which it completes a chain. */
  datatype Move = Take | Answer(head: nat) | Post(head: nat) | Raise(head: nat)

  type Schedule = seq<seq<Move>>

  function At(sched: Schedule, k: nat): seq<Move> { if k < |sched| then sched[k] else [] }

  /** A new request from `h` on, for buffer `b`; the device may have brought it and others further. */
  ghost predicate Launched(reqs: Reqs, reqs': Reqs, h: nat, b: nat, op: Op) {
    && h !in reqs && h in reqs' && Moved(reqs, reqs' - {h})
    && reqs'[h].buf == b && reqs'[h].op == op && reqs'[h].stage != Done
  }

  lemma LaunchedLater(reqs: Reqs, a: Reqs, b: Reqs, r: Req)
    requires Moved(reqs, a) && r.head !in a && r.stage == Submitted && Moved(a[r.head := r], b)
    ensures Launched(reqs, b, r.head, r.buf, r.op)
  {
    assert (b - {r.head}).Keys == reqs.Keys;
  }

  /** What the driver writes for a request of which it has the descriptors. */
  ghost predicate Formatted(s: State, r: Req) {
    && |s.desc| == |s.ops| == |s.info| == 8 && r.head < 8 && r.mid < 8 && r.tail < 8
    && s.ops[r.head] == r.op && s.info[r.head] == Info(Some(r.buf), 0xff)
    && s.desc[r.head] == Desc(Header(r.head), 16, NEXT, r.mid)
    && s.desc[r.mid] == Desc(Data(r.buf), 1024, (if r.op.write then 0 else WRITE) + NEXT, r.tail)
    && s.desc[r.tail] == Desc(Status(r.head), 1, WRITE, 0)
  }

  /** The descriptors of `r` are the lock holder's. */
  ghost predicate Owned(s: State, r: Req) {
    && s.mine == {r.head, r.mid, r.tail} && r.head != r.mid && r.head != r.tail && r.mid != r.tail
    && r.stage == Submitted
  }

  /** All is written but the index. */
  ghost predicate Ready(s: State, r: Req) {
    && Owned(s, r) && Formatted(s, r) && s.own == {r.buf} && r.buf in s.busy
    && |s.avail| == 8 && s.avail[Slot(s.availIdx)] == r.head
  }

  ghost function Published(s: State, r: Req): State {
    s.(reqs := s.reqs[r.head := r], pend := s.pend + [r.head], availIdx := Wrap(s.availIdx + 1), mine := {}, own := {})
  }

  /** The device will read the chain as that request. */
  lemma ReadyKeeps(s: State, r: Req)
    requires Inv(s) && Ready(s, r)
    ensures r.head !in s.reqs && Inv(Published(s, r))
  {
    hide Inv;
    PublishKeeps(s, r);
  }

  /** free_chain before its round `k`, at descriptor `cur` of the chain of `r`. */
  ghost predicate Freed(r: Req, desc0: seq<Desc>, free0: seq<bool>, k: nat, cur: nat, mine: set<nat>,
                        free: seq<bool>, desc: seq<Desc>)
  {
    && ChainOk(desc0, r) && |desc| == |free| == |free0| == 8 && desc[r.tail] == desc0[r.tail]
    && match k
       case 0 => cur == r.head && mine == {r.head, r.mid, r.tail} && free == free0
                 && desc[r.head] == desc0[r.head] && desc[r.mid] == desc0[r.mid]
       case 1 => cur == r.mid && mine == {r.mid, r.tail} && free == free0[r.head := true] && desc[r.mid] == desc0[r.mid]
       case _ => k == 2 && cur == r.tail && mine == {r.tail} && free == free0[r.head := true][r.mid := true]
  }

  /** A round frees the descriptor and goes on exactly where the chain does. */
  lemma FreedNext(r: Req, desc0: seq<Desc>, free0: seq<bool>, k: nat, cur: nat, mine: set<nat>, free: seq<bool>,
                  desc: seq<Desc>)
    requires Freed(r, desc0, free0, k, cur, mine, free, desc)
    ensures cur < |desc| == |free| == 8 && cur in mine && r.head < |free0| && r.mid < |free0| && r.tail < |free0|
    ensures desc[cur].flags % 2 == 1 <==> k < 2
    ensures k < 2 ==>
      Freed(r, desc0, free0, k + 1, desc[cur].next, mine - {cur}, free[cur := true], desc[cur := Desc(Null, 0, 0, 0)])
    ensures k == 2 ==> mine - {cur} == {} && free[cur := true] == free0[r.head := true][r.mid := true][r.tail := true]
  {
  }

  /** The descriptors in `idx`. */
  ghost function Set(idx: seq<nat>): set<nat> { set d | d in idx }

  lemma SetPush(idx: seq<nat>, d: nat)
    requires Distinct(idx) && d !in Set(idx)
    ensures Set(idx + [d]) == Set(idx) + {d} && Distinct(idx + [d])
  {
  }

  lemma SetPop(idx: seq<nat>)
    requires Distinct(idx) && idx != []
    ensures idx[0] in Set(idx) && Set(idx[1..]) == Set(idx) - {idx[0]} && Distinct(idx[1..])
  {
    assert idx == [idx[0]] + idx[1..];
  }

  lemma SetEmpty(idx: seq<nat>)
    requires idx == []
    ensures Set(idx) == {} && Distinct(idx)
  {
  }

  lemma SetThree(idx: seq<nat>)
    requires |idx| == 3
    ensures Set(idx) == {idx[0], idx[1], idx[2]}
  {
  }

  lemma StillHere(reqs: Reqs, info: seq<Info>)
    ensures Moved(reqs, reqs) && SameInfo(info, info, reqs)
  {
  }

  class VirtioDisk {
    const free: array<bool>
    const desc: array<Desc>
    const ops: array<Op>
    const info: array<Info>
    const avail: array<nat>    // disk.avail->ring
    const used: array<nat>     // disk.used->ring
    var availIdx: nat          // disk.avail->idx, 16 bits
    var usedIdx: nat           // disk.used->idx, 16 bits, written by the device
    var seenIdx: nat           // disk.used_idx, 16 bits
    var takenIdx: nat          // how far the device has read the avail ring, 16 bits
    var held: set<nat>         // heads of the chains that the device works on
    var busy: set<nat>         // buffers whose disk flag is 1
    var asleep: set<nat>       // processes asleep until descriptors are freed
    ghost var reqs: Reqs
    ghost var mine: set<nat>   // descriptors of the lock holder
    ghost var own: set<nat>    // the buffer that the lock holder is about to submit
    ghost var pend: seq<nat>   // heads the device has not taken yet
    ghost var comp: seq<nat>   // heads in the used ring that no interrupt has seen
    ghost var availFirst: nat  // how many heads the device has taken
    ghost var usedFirst: nat   // how many completions the driver has seen

    ghost function View(): State
      reads this, free, desc, ops, info, avail, used
    {
      State(free[..], desc[..], ops[..], info[..], avail[..], used[..], availIdx, usedIdx, seenIdx, takenIdx,
            held, busy, reqs, mine, own, pend, comp, availFirst, usedFirst)
    }

    ghost predicate Shape()
      reads this
    {
      && free.Length == desc.Length == ops.Length == info.Length == avail.Length == used.Length == 8
      && avail != used
    }

    /** What holds at every moment. */
    ghost predicate Core()
      reads this, free, desc, ops, info, avail, used
    {
      Shape() && Inv(View())
    }

    /** What holds whenever vdisk_lock is free. */
    ghost predicate Valid()
      reads this, free, desc, ops, info, avail, used
    {
      Core() && mine == {} && own == {} && (asleep != {} ==> Count(free[..]) < 3)
    }

    constructor ()
      ensures Valid() && reqs == map[] && busy == {} && asleep == {}
      ensures fresh(free) && fresh(desc) && fresh(ops) && fresh(info) && fresh(avail) && fresh(used)
    {
      free := new bool[8](_ => true);
      desc := new Desc[8](_ => Desc(Null, 0, 0, 0));
      ops := new Op[8](_ => Op(false, 0));
      info := new Info[8](_ => Info(None, 0));
      avail := new nat[8](_ => 0);
      used := new nat[8](_ => 0);
      availIdx, usedIdx, seenIdx, takenIdx := 0, 0, 0, 0;
      held, busy, asleep, reqs, mine, own := {}, {}, {}, map[], {}, {};
      pend, comp, availFirst, usedFirst := [], [], 0, 0;
      new;
      hide Inv;
      EmptyKeeps(View());
    }

    // ----- the device -----

    /** The device takes the oldest chain it has not seen; what it reads is the request. */
    method DeviceTake() returns (head: nat, req: Option<(Op, nat)>)
      requires Core() && pend != []
      modifies this`reqs, this`pend, this`availFirst, this`takenIdx, this`held
      ensures Core() && head == old(pend)[0] && head in old(reqs) && old(reqs)[head].stage == Submitted
      ensures reqs == Staged(old(reqs), head, Taken)
      ensures req == Some((old(reqs)[head].op, old(reqs)[head].buf))
    {
      hide Inv, Wrap, Slot, Decode;
      TakeKeeps(View());
      head := avail[Slot(takenIdx)];
      req := Decode(desc[..], ops[..], head);
      reqs := Staged(reqs, head, Taken);
      pend := pend[1..];
      availFirst := availFirst + 1;
      takenIdx := Wrap(takenIdx + 1);
      held := held + {head};
    }

    /** The device has done what a chain asks for and stores status 0. */
    method DeviceAnswer(head: nat)
      requires Core() && head in held
      modifies info
      ensures Core() && head in reqs && head < 8 && info[..] == old(info[..])[head := Info(old(info[..])[head].b, 0)]
    {
      hide Inv;
      AnswerKeeps(View(), head);
      info[head] := Info(info[head].b, 0);
      assert info[..] == old(info[..])[head := Info(old(info[..])[head].b, 0)];
    }

    /** It stores the head in the next entry of the used ring, where the driver does not look yet. */
    method DevicePost(head: nat)
      requires Core() && head in held
      modifies used
      ensures Core() && used[..] == old(used[..])[Slot(usedIdx) := head]
    {
      hide Inv, Slot;
      PostKeeps(View(), head);
      used[Slot(usedIdx)] := head;
      assert used[..] == old(used[..])[Slot(usedIdx) := head];
    }

    /** With both in place it increments the index: the request is complete. */
    method DeviceRaise(head: nat)
      requires Core() && head in held && head < 8 && info[head].status == 0 && used[Slot(usedIdx)] == head
      modifies this`reqs, this`comp, this`usedIdx, this`held
      ensures Core() && head in old(reqs) && old(reqs)[head].stage == Taken
      ensures reqs == Staged(old(reqs), head, Completed) && comp == old(comp) + [head]
    {
      hide Inv, Wrap, Slot;
      RaiseKeeps(View(), head);
      usedIdx := Wrap(usedIdx + 1);
      reqs := Staged(reqs, head, Completed);
      comp := comp + [head];
      held := held - {head};
    }

    /** One move of the device, if it can make it. */
    method DeviceMove(m: Move)
      requires Core()
      modifies this`reqs, this`pend, this`comp, this`availFirst, this`takenIdx, this`usedIdx, this`held, used, info
      ensures Core() && Moved(old(reqs), reqs)
      ensures SameInfo(old(info[..]), info[..], reqs) && old(comp) <= comp
    {
      hide Inv, Slot;
      NothingNew(View());
      StillHere(reqs, info[..]);
      match m
      case Take =>
        if takenIdx != availIdx {
          var _, _ := DeviceTake();
        }
      case Answer(h) =>
        if h in held {
          DeviceAnswer(h);
        }
      case Post(h) =>
        if h in held {
          DevicePost(h);
        }
      case Raise(h) =>
        if h in held && h < 8 && info[h].status == 0 && used[Slot(usedIdx)] == h {
          DeviceRaise(h);
        }
    }

    /** Any moves of the device: it brings requests further and touches nothing of the driver's. */
    method Device(moves: seq<Move>)
      requires Core()
      modifies this`reqs, this`pend, this`comp, this`availFirst, this`takenIdx, this`usedIdx, this`held, used, info
      ensures Core() && Moved(old(reqs), reqs)
      ensures SameInfo(old(info[..]), info[..], reqs) && old(comp) <= comp
    {
      hide Inv, Moved, SameInfo;
      StillHere(reqs, info[..]);
      for k := 0 to |moves|
        invariant Core() && Moved(old(reqs), reqs) && SameInfo(old(info[..]), info[..], reqs) && old(comp) <= comp
      {
        ghost var reqs1, info1 := reqs, info[..];
        DeviceMove(moves[k]);
        LaterStill(old(reqs), reqs1, reqs, old(info[..]), info1, info[..]);
      }
    }

    // ----- descriptors -----

    /** The lowest free descriptor, marked used; -1 if there is none. */
    method AllocDesc() returns (i: int)
      requires Core()
      modifies free, this`mine
      ensures Core()
      ensures i == -1 ==> free[..] == old(free[..]) && Count(free[..]) == 0 && mine == old(mine)
      ensures i != -1 ==> 0 <= i < 8 && i !in old(mine) && mine == old(mine) + {i}
      ensures i != -1 ==> free[..] == old(free[..])[i := false] && Count(free[..]) == old(Count(free[..])) - 1
    {
      hide Inv;
      i := 0;
      while i < 8
        invariant 0 <= i <= 8 && free[..] == old(free[..])
        invariant forall j :: 0 <= j < i ==> !free[j]
      {
        if free[i] {
          CountSet(free[..], i, false);
          AllocKeeps(View(), i);
          free[i] := false;
          mine := mine + {i};
          assert free[..] == old(free[..])[i := false];
          return;
        }
        i := i + 1;
      }
      CountNone(free[..]);
      i := -1;
    }

    /** Marks a used descriptor free, clears it and wakes everyone who waits for one. */
    method FreeDesc(i: nat)
      requires Core() && i in mine
      modifies free, desc, this`asleep, this`mine
      ensures Core() && i < 8 && asleep == {} && mine == old(mine) - {i}
      ensures free[..] == old(free[..])[i := true] && Count(free[..]) == old(Count(free[..])) + 1
      ensures desc[..] == old(desc[..])[i := Desc(Null, 0, 0, 0)]
    {
      hide Inv;
      FreeKeeps(View(), i);
      CountSet(free[..], i, true);
      desc[i] := Desc(Null, 0, 0, 0);
      free[i] := true;
      asleep := {};
      mine := mine - {i};
      assert free[..] == old(free[..])[i := true];
      assert desc[..] == old(desc[..])[i := Desc(Null, 0, 0, 0)];
    }

    /** Three descriptors or none: it fails exactly when fewer than three are free. */
    method Alloc3Desc(sched: Schedule) returns (ok: bool, idx: seq<nat>)
      requires Core() && mine == {}
      modifies this`reqs, this`pend, this`comp, this`availFirst, this`takenIdx, this`usedIdx, this`held, used, info
      modifies free, desc, this`asleep, this`mine
      ensures Core() && ok == (old(Count(free[..])) >= 3) && Moved(old(reqs), reqs)
      ensures !ok ==> Count(free[..]) == old(Count(free[..])) && mine == {}
      ensures ok ==> asleep == old(asleep) && |idx| == 3 && Distinct(idx) && mine == {idx[0], idx[1], idx[2]}
    {
      hide Inv, Moved, SameInfo, Count, Set, Distinct;
      StillHere(reqs, info[..]);
      idx := [];
      SetEmpty(idx);
      var i := 0;
      while i < 3
        invariant 0 <= i <= 3 && |idx| == i && Distinct(idx) && Core() && Moved(old(reqs), reqs)
        invariant mine == Set(idx) && asleep == old(asleep)
        invariant Count(free[..]) + i == old(Count(free[..]))
      {
        var d := AllocAfter(At(sched, i), old(reqs));
        if d < 0 {
          UndoAlloc(idx, sched, old(reqs));
          return false, idx;
        }
        SetPush(idx, d);
        idx := idx + [d];
        i := i + 1;
      }
      SetThree(idx);
      ok := true;
    }

    /** alloc_desc, after some moves of the device. */
    method AllocAfter(moves: seq<Move>, ghost reqs0: Reqs) returns (i: int)
      requires Core() && Moved(reqs0, reqs)
      modifies this`reqs, this`pend, this`comp, this`availFirst, this`takenIdx, this`usedIdx, this`held, used, info
      modifies free, this`mine
      ensures Core() && Moved(reqs0, reqs)
      ensures i == -1 ==> Count(free[..]) == old(Count(free[..])) == 0 && mine == old(mine)
      ensures i != -1 ==> 0 <= i < 8 && i !in old(mine) && mine == old(mine) + {i}
      ensures i != -1 ==> Count(free[..]) == old(Count(free[..])) - 1
    {
      hide Inv, Moved, SameInfo, Count;
      ghost var reqs1 := reqs;
      Device(moves);
      MovedTrans(reqs0, reqs1, reqs);
      i := AllocDesc();
    }

    /** free_desc, and some moves of the device. */
    method FreeNext(i: nat, moves: seq<Move>, ghost reqs0: Reqs)
      requires Core() && i in mine && Moved(reqs0, reqs)
      modifies this`reqs, this`pend, this`comp, this`availFirst, this`takenIdx, this`usedIdx, this`held, used, info
      modifies free, desc, this`asleep, this`mine
      ensures Core() && Moved(reqs0, reqs) && i < 8 && asleep == {} && mine == old(mine) - {i}
      ensures free[..] == old(free[..])[i := true] && Count(free[..]) == old(Count(free[..])) + 1
      ensures desc[..] == old(desc[..])[i := Desc(Null, 0, 0, 0)]
    {
      hide Inv, Moved, Count;
      ghost var reqs1 := reqs;
      FreeDesc(i);
      Device(moves);
      MovedTrans(reqs0, reqs1, reqs);
    }

    /** The clean-up loop of alloc3_desc. */
    method UndoAlloc(idx: seq<nat>, sched: Schedule, ghost reqs0: Reqs)
      requires Core() && Distinct(idx) && mine == Set(idx) && Moved(reqs0, reqs)
      modifies this`reqs, this`pend, this`comp, this`availFirst, this`takenIdx, this`usedIdx, this`held, used, info
      modifies free, desc, this`asleep, this`mine
      ensures Core() && mine == {} && Count(free[..]) == old(Count(free[..])) + |idx| && Moved(reqs0, reqs)
    {
      hide Inv, Count, Set, Distinct, Moved;
      var j := 0;
      assert idx[0..] == idx;
      while j < |idx|
        invariant 0 <= j <= |idx| && Core() && Distinct(idx[j..]) && mine == Set(idx[j..]) && Moved(reqs0, reqs)
        invariant Count(free[..]) == old(Count(free[..])) + j
      {
        SetPop(idx[j..]);
        assert idx[j..][1..] == idx[j + 1..];
        FreeNext(idx[j], At(sched, 3 + j), reqs0);
        j := j + 1;
      }
      assert mine == {} by { SetEmpty(idx[j..]); }
    }

    // ----- virtio_disk_rw -----

    method SetOp(i: nat, op: Op)
      requires Core() && i in mine
      modifies ops
      ensures Core() && i < 8 && ops[..] == old(ops[..])[i := op]
    {
      hide Inv;
      StoreKeeps(View(), i, Desc(Null, 0, 0, 0), op, Info(None, 0));
      ops[i] := op;
      assert ops[..] == old(ops[..])[i := op];
    }

    method SetDesc(i: nat, d: Desc)
      requires Core() && i in mine
      modifies desc
      ensures Core() && i < 8 && desc[..] == old(desc[..])[i := d]
    {
      hide Inv;
      StoreKeeps(View(), i, d, Op(false, 0), Info(None, 0));
      desc[i] := d;
      assert desc[..] == old(desc[..])[i := d];
    }

    method SetInfo(i: nat, x: Info)
      requires Core() && i in mine
      modifies info
      ensures Core() && i < 8 && info[..] == old(info[..])[i := x] && i !in reqs
    {
      hide Inv;
      StoreKeeps(View(), i, Desc(Null, 0, 0, 0), Op(false, 0), x);
      info[i] := x;
      assert info[..] == old(info[..])[i := x];
    }

    /** Moves of the device between two stores that concern descriptor `i`. */
    method Yield(moves: seq<Move>, ghost i: nat, ghost reqs0: Reqs)
      requires Core() && i in mine && Moved(reqs0, reqs)
      modifies this`reqs, this`pend, this`comp, this`availFirst, this`takenIdx, this`usedIdx, this`held, used, info
      ensures Core() && Moved(reqs0, reqs) && i < 8 && info[i] == old(info[..])[i]
    {
      hide Inv, Moved;
      ghost var reqs1 := reqs;
      Device(moves);
      MovedTrans(reqs0, reqs1, reqs);
      StoreKeeps(View(), i, Desc(Null, 0, 0, 0), Op(false, 0), Info(None, 0));
    }

    /** The header and the data descriptor of a request. */
    method FormatData(r: Req, sched: Schedule, ghost reqs0: Reqs)
      requires Core() && Owned(View(), r) && Moved(reqs0, reqs)
      modifies this`reqs, this`pend, this`comp, this`availFirst, this`takenIdx, this`usedIdx, this`held, used
      modifies info, desc, ops
      ensures Core() && Moved(reqs0, reqs) && r.head < 8 && r.mid < 8 && ops[r.head] == r.op
      ensures desc[r.head] == Desc(Header(r.head), 16, NEXT, r.mid)
      ensures desc[r.mid] == Desc(Data(r.buf), 1024, (if r.op.write then 0 else WRITE) + NEXT, r.tail)
    {
      hide Inv, Moved, SameInfo, Decode;
      SetOp(r.head, r.op);
      Yield(At(sched, 3), r.head, reqs0);
      SetDesc(r.head, Desc(Header(r.head), 16, NEXT, r.mid));
      Yield(At(sched, 4), r.head, reqs0);
      var flags := if r.op.write then 0 else WRITE;
      SetDesc(r.mid, Desc(Data(r.buf), 1024, flags + NEXT, r.tail));
      Yield(At(sched, 5), r.head, reqs0);
    }

    /** The status descriptor. */
    method FormatStatus(r: Req, sched: Schedule, ghost reqs0: Reqs)
      requires Core() && Owned(View(), r) && Moved(reqs0, reqs)
      modifies this`reqs, this`pend, this`comp, this`availFirst, this`takenIdx, this`usedIdx, this`held, used
      modifies info, desc
      ensures Core() && Moved(reqs0, reqs) && r.tail < 8 && r.head < 8 && info[r.head].status == 0xff
      ensures desc[..] == old(desc[..])[r.tail := Desc(Status(r.head), 1, WRITE, 0)]
    {
      hide Inv, Moved;
      StoreKeeps(View(), r.head, Desc(Null, 0, 0, 0), Op(false, 0), Info(None, 0));
      SetInfo(r.head, Info(info[r.head].b, 0xff));
      Yield(At(sched, 6), r.head, reqs0);
      SetDesc(r.tail, Desc(Status(r.head), 1, WRITE, 0));
      Yield(At(sched, 7), r.head, reqs0);
    }

    /** The disk flag of the buffer, and the record for the interrupt. */
    method SetFlag(r: Req, sched: Schedule, ghost reqs0: Reqs)
      requires Core() && Owned(View(), r) && Moved(reqs0, reqs)
      requires own == {} && forall h :: h in reqs0 ==> reqs0[h].buf != r.buf
      requires r.head < 8
      modifies this`reqs, this`pend, this`comp, this`availFirst, this`takenIdx, this`usedIdx, this`held, used, info
      modifies this`busy, this`own
      ensures Core() && Moved(reqs0, reqs) && r.head < 8
      ensures info[r.head] == Info(Some(r.buf), old(info[..])[r.head].status)
      ensures own == {r.buf} && busy == old(busy) + {r.buf}
    {
      hide Inv, Moved, SameInfo;
      OtherBuffers(reqs0, reqs, r.buf);
      FlagKeeps(View(), r.buf);
      busy := busy + {r.buf};
      own := {r.buf};
      Yield(At(sched, 8), r.head, reqs0);
      SetInfo(r.head, Info(Some(r.buf), info[r.head].status));
      Yield(At(sched, 9), r.head, reqs0);
    }

    /** The head's place in the avail ring, which the index does not cover yet. */
    method StoreRing(h: nat, moves: seq<Move>, ghost reqs0: Reqs)
      requires Core() && h in mine && Moved(reqs0, reqs)
      modifies this`reqs, this`pend, this`comp, this`availFirst, this`takenIdx, this`usedIdx, this`held, used
      modifies info, avail
      ensures Core() && Moved(reqs0, reqs) && h < 8 && info[h] == old(info[..])[h] && avail[Slot(availIdx)] == h
    {
      hide Inv, Moved, Slot;
      RingStoreKeeps(View(), h);
      avail[Slot(availIdx)] := h;
      assert avail[..] == old(avail[..])[Slot(availIdx) := h];
      Yield(moves, h, reqs0);
    }

    /** All that is written before the index. */
    method Format(r: Req, sched: Schedule, ghost reqs0: Reqs)
      requires Core() && Owned(View(), r) && Moved(reqs0, reqs)
      requires own == {} && forall h :: h in reqs0 ==> reqs0[h].buf != r.buf
      modifies this`reqs, this`pend, this`comp, this`availFirst, this`takenIdx, this`usedIdx, this`held, used
      modifies info, desc, ops
      modifies avail, this`busy, this`own
      ensures Core() && Moved(reqs0, reqs) && Ready(View(), r) && busy == old(busy) + {r.buf}
    {
      hide Inv, Moved, Slot;
      FormatData(r, sched, reqs0);
      FormatStatus(r, sched, reqs0);
      SetFlag(r, sched, reqs0);
      StoreRing(r.head, At(sched, 10), reqs0);
    }

    /** The index goes up: from here on the chain is the device's. */
    method Publish(r: Req, moves: seq<Move>, ghost reqs0: Reqs)
      requires Core() && Ready(View(), r) && Moved(reqs0, reqs)
      modifies this`reqs, this`pend, this`comp, this`availFirst, this`takenIdx, this`usedIdx, this`held, used, info
      modifies this`mine, this`own, this`availIdx
      ensures Core() && mine == {} && own == {} && Launched(reqs0, reqs, r.head, r.buf, r.op)
    {
      assert r.stage == Submitted;
      hide Inv, Moved, Launched, Ready, SameInfo;
      ghost var reqs1 := reqs;
      StoreIndex(r);
      Device(moves);
      LaunchedLater(reqs0, reqs1, reqs, r);
    }

    method StoreIndex(ghost r: Req)
      requires Core() && Ready(View(), r)
      modifies this`reqs, this`pend, this`mine, this`own, this`availIdx
      ensures Core() && r.head !in old(reqs) && reqs == old(reqs)[r.head := r] && mine == {} && own == {}
    {
      hide Inv, Wrap, Ready;
      ReadyKeeps(View(), r);
      availIdx := Wrap(availIdx + 1);
      reqs := reqs[r.head := r];
      pend := pend + [r.head];
      mine, own := {}, {};
    }

    /**
      The first part of virtio_disk_rw, up to the wait for completion: the request for block
      `blockno` of buffer `b` is handed to the device, or the process goes to sleep because
      fewer than three descriptors are free. No other request uses the buffer, since the
      caller holds its lock.
     */
    method Submit(pid: nat, b: nat, write: bool, blockno: nat, sched: Schedule) returns (head: Option<nat>)
      requires Valid() && forall h :: h in reqs ==> reqs[h].buf != b
      modifies this, free, desc, ops, info, avail, used
      ensures Valid()
      ensures head.None? <==> old(Count(free[..])) < 3
      ensures head.None? ==> Moved(old(reqs), reqs) && pid in asleep && busy == old(busy)
      ensures head.Some? ==> busy == old(busy) + {b}
                             && Launched(old(reqs), reqs, head.value, b, Op(write, Sector(blockno)))
      ensures head.Some? ==>
        && head.value !in old(reqs) && head.value in reqs && reqs[head.value].buf == b
        && reqs[head.value].op == Op(write, blockno * 2 % 0x1_0000_0000)
    {
      hide Inv, Moved, Count, Ready;
      ghost var reqs0 := reqs;
      var ok, idx := Alloc3Desc(sched);
      if !ok {
        asleep := asleep + {pid};
        return None;
      }
      var r := Req(idx[0], idx[1], idx[2], b, Op(write, Sector(blockno)), Submitted);
      Format(r, sched, reqs0);
      Publish(r, At(sched, 11), reqs0);
      head := Some(idx[0]);
    }

    /** Follows the chain from descriptor `i` and frees exactly its descriptors. */
    method FreeChain(i: nat, ghost r: Req, sched: Schedule)
      requires Core() && ChainOk(desc[..], r) && i == r.head && mine == {r.head, r.mid, r.tail}
      modifies this`reqs, this`pend, this`comp, this`availFirst, this`takenIdx, this`usedIdx, this`held, used, info
      modifies free, desc, this`asleep, this`mine
      ensures Core() && mine == {} && asleep == {} && Moved(old(reqs), reqs)
      ensures free[..] == old(free[..])[r.head := true][r.mid := true][r.tail := true]
    {
      StillHere(reqs, info[..]);
      ghost var desc0, free0 := desc[..], free[..];
      assert Freed(r, desc0, free0, 0, i, mine, free[..], desc[..]);
      hide Inv, Moved, Freed, ChainOk;
      var cur := i;
      var k := 0;
      while true
        invariant Core() && Moved(old(reqs), reqs) && 0 <= k <= 2 && cur >= 0
        invariant Freed(r, desc0, free0, k, cur, mine, free[..], desc[..])
        decreases 2 - k
      {
        FreedNext(r, desc0, free0, k, cur, mine, free[..], desc[..]);
        var flag := desc[cur].flags;
        var nxt := desc[cur].next;
        FreeNext(cur, At(sched, k), old(reqs));
        if flag % 2 == 1 {
          cur := nxt;
        } else {
          break;
        }
        k := k + 1;
      }
    }

    /** The end of virtio_disk_rw: the disk is done with the buffer, the chain is freed. */
    method Finish(head: nat, sched: Schedule)
      requires Valid() && head in reqs && reqs[head].buf !in busy
      modifies this, free, desc, info, used
      ensures Valid() && Moved(old(reqs) - {head}, reqs) && busy == old(busy) && asleep == {}
      ensures var r := old(reqs)[head];
        && r.head == head && r.mid < 8 && r.tail < 8 && head < 8
        && free[..] == old(free[..])[head := true][r.mid := true][r.tail := true]
    {
      hide Inv, Moved, Count;
      ghost var r := reqs[head];
      DropKeeps(View(), head);
      reqs := reqs - {head};
      mine := {head, r.mid, r.tail};
      StoreKeeps(View(), head, Desc(Null, 0, 0, 0), Op(false, 0), Info(None, 0));
      SetInfo(head, Info(None, info[head].status));
      FreeChain(head, r, sched);
    }

    // ----- virtio_disk_intr -----

    /** One round of the interrupt handler. */
    method Acknowledge()
      requires Core() && comp != []
      modifies this`reqs, this`comp, this`seenIdx, this`usedFirst, this`busy
      ensures Core() && comp == old(comp)[1..] && old(comp)[0] in old(reqs)
      ensures old(reqs)[old(comp)[0]].stage == Completed
      ensures var h := old(comp)[0];
        reqs == Staged(old(reqs), h, Done) && busy == old(busy) - {old(reqs)[h].buf}
    {
      hide Inv, Wrap, Slot;
      AckKeeps(View());
      var id := used[Slot(seenIdx)];
      assert info[id].status == 0;    // otherwise "virtio_disk_intr status"
      var b := info[id].b.value;
      busy := busy - {b};
      seenIdx := Wrap(seenIdx + 1);
      reqs := Staged(reqs, id, Done);
      comp := comp[1..];
      usedFirst := usedFirst + 1;
    }

    /** One round, with moves of the device before and after it. */
    method Round(before: seq<Move>, after: seq<Move>, ghost reqs0: Reqs)
      requires Core() && comp != [] && Acked(reqs0, reqs)
      modifies this`reqs, this`pend, this`comp, this`availFirst, this`takenIdx, this`usedIdx, this`held, used, info
      modifies this`seenIdx, this`usedFirst, this`busy
      ensures Core() && Acked(reqs0, reqs) && Open(reqs) < Open(old(reqs))
    {
      hide Inv, Moved, Acked, Open, SameInfo;
      ghost var reqs1 := reqs;
      Device(before);
      ghost var reqs2, h := reqs, comp[0];
      Acknowledge();
      Device(after);
      AckRound(reqs0, reqs1, reqs2, h, reqs);
    }

    /**
      The interrupt handler. It acknowledges everything up to the index it read last: then, in
      the records `last`, no completion was left, and what follows is the device's work alone.
     */
    method Intr(sched: Schedule) returns (ghost last: Reqs)
      requires Valid()
      modifies this, used, info
      ensures Valid() && asleep == old(asleep)
      ensures Acked(old(reqs), last) && Moved(last, reqs)
      ensures forall h :: h in last ==> last[h].stage != Completed
      ensures forall h :: h in last ==> (last[h].buf in busy <==> last[h].stage != Done)
    {
      hide Inv, Moved, Acked, Open, SameInfo;
      Device(At(sched, 0));
      MovedAcked(old(reqs), reqs);
      NothingNew(View());
      var n := 1;
      while seenIdx != usedIdx
        invariant Core() && Acked(old(reqs), reqs) && mine == own == {} && asleep == old(asleep)
        invariant seenIdx == usedIdx <==> comp == []
        decreases Open(reqs)
      {
        Round(At(sched, n), At(sched, n + 1), old(reqs));
        NothingNew(View());
        n := n + 2;
      }
      last := reqs;
      AllSeen(View());
      Device(At(sched, n));
    }
  }
}
