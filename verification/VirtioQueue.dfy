/**
  The descriptor protocol of kernel/virtio_disk.c on values: split virtqueues as in section 2.6
  and block requests as in section 5.2 of Virtio 1.1.

  A record of each request that the device has been told of and that is not yet reclaimed says
  which three descriptors it has and how far it is. The descriptors that the holder of
  vdisk_lock has allocated and not handed over yet, or is about to free, are its own: nothing
  is said about their contents.
 */
module VirtioQueue {
  import opened Wrappers
  import opened Seqs

  /** What a descriptor points to: a request header, a buffer's data, or a status byte. */
  datatype Addr = Null | Header(i: nat) | Data(buf: nat) | Status(i: nat)

  datatype Desc = Desc(addr: Addr, len: nat, flags: nat, next: nat)

  const NEXT: nat := 1
  const WRITE: nat := 2

  datatype Op = Op(write: bool, sector: nat)

  /** b->blockno * (BSIZE / 512), a product of 32-bit numbers. */
  function Sector(blockno: nat): nat { blockno * 2 % 0x1_0000_0000 }

  lemma SectorIs(blockno: nat)
    requires blockno < 0x1_0000_0000
    ensures Sector(blockno) == if blockno < 0x8000_0000 then 2 * blockno else 2 * (blockno - 0x8000_0000)
  {
  }

  /** Where the request starts on the disk: at the block, for all blocks below 2^31. */
  lemma SectorExact(blockno: nat, other: nat)
    requires blockno < 0x1_0000_0000 && other < 0x1_0000_0000
    ensures Sector(blockno) == 2 * blockno <==> blockno < 0x8000_0000
    ensures Sector(blockno) == Sector(other) <==> blockno % 0x8000_0000 == other % 0x8000_0000
  {
    hide Sector;
    SectorIs(blockno);
    SectorIs(other);
  }

  datatype Info = Info(b: Option<nat>, status: nat)

  /** Waiting in the avail ring, with the device, in the used ring, or acknowledged. */
  datatype Stage = Submitted | Taken | Completed | Done

  datatype Req = Req(head: nat, mid: nat, tail: nat, buf: nat, op: Op, stage: Stage) {
    predicate Has(i: nat) { i == head || i == mid || i == tail }
  }

  type Reqs = map<nat, Req>

  // ----- what the device reads -----

  /** The request that the chain from `head` describes, as section 5.2.6 lays it out. */
  function Decode(desc: seq<Desc>, ops: seq<Op>, head: nat): Option<(Op, nat)> {
    if !(head < |desc| == |ops|) then None
    else
      var d0 := desc[head];
      if d0.addr != Header(head) || d0.len != 16 || d0.flags != NEXT || d0.next >= |desc| then None
      else
        var d1 := desc[d0.next];
        var wflag := if ops[head].write then 0 else WRITE;
        if !d1.addr.Data? || d1.len != 1024 || d1.flags != NEXT + wflag || d1.next >= |desc| then None
        else
          var d2 := desc[d1.next];
          if d2 != Desc(Status(head), 1, WRITE, 0) then None else Some((ops[head], d1.addr.buf))
  }

  // ----- the invariant -----

  /** Descriptor `i` belongs to some request. */
  ghost predicate Used(reqs: Reqs, i: nat) {
    exists h :: h in reqs && reqs[h].Has(i)
  }

  /** Each request has three descriptors of its own, linked in order. */
  ghost predicate ChainOk(desc: seq<Desc>, r: Req) {
    && |desc| == 8 && r.head < 8 && r.mid < 8 && r.tail < 8
    && r.head != r.mid && r.head != r.tail && r.mid != r.tail
    && desc[r.head].flags % 2 == 1 && desc[r.head].next == r.mid
    && desc[r.mid].flags % 2 == 1 && desc[r.mid].next == r.tail
    && desc[r.tail].flags % 2 == 0
  }

  /** A descriptor is free, in one request, or the lock holder's. */
  ghost predicate Chains(free: seq<bool>, desc: seq<Desc>, reqs: Reqs, mine: set<nat>) {
    && |free| == 8 && |desc| == 8
    && (forall h :: h in reqs ==> reqs[h].head == h && ChainOk(desc, reqs[h]))
    && (forall h, g, i :: h in reqs && g in reqs && reqs[h].Has(i) && reqs[g].Has(i) ==> h == g)
    && (forall i :: 0 <= i < 8 ==> (free[i] <==> !Used(reqs, i) && i !in mine))
    && (forall i :: i in mine ==> i < 8 && !Used(reqs, i))
  }

  /** Every chain describes its request, and info leads from its head to its buffer. */
  ghost predicate Contents(desc: seq<Desc>, ops: seq<Op>, info: seq<Info>, reqs: Reqs) {
    && |ops| == 8 && |info| == 8
    && (forall h :: h in reqs ==>
          && h < 8 && Decode(desc, ops, h) == Some((reqs[h].op, reqs[h].buf))
          && info[h].b == Some(reqs[h].buf)
          && (reqs[h].stage == Submitted ==> info[h].status == 0xff)
          && (reqs[h].stage == Completed ==> info[h].status == 0))
  }

  /** What the device finds in memory for a request, in the numbers of the standard. */
  lemma ChainLayout(s: State, h: nat)
    requires Inv(s) && h in s.reqs
    ensures |s.desc| == |s.ops| == |s.info| == 8 && h < 8 && s.reqs[h].mid < 8 && s.reqs[h].tail < 8
    ensures var r := s.reqs[h];
      && s.ops[h] == r.op && s.info[h].b == Some(r.buf)
      && s.desc[h] == Desc(Header(h), 16, 1, r.mid)
      && s.desc[r.mid] == Desc(Data(r.buf), 1024, if r.op.write then 1 else 3, r.tail)
      && s.desc[r.tail] == Desc(Status(h), 1, 2, 0)
  {
    hide Buffers, Queue, RingOk, Working, Used, Wrap, Slot;
    assert ChainOk(s.desc, s.reqs[h]);
    assert Decode(s.desc, s.ops, h) == Some((s.reqs[h].op, s.reqs[h].buf));
  }

  /**
    A buffer is in at most one request, and its disk flag says whether that is unfinished; `own`
    are about to be submitted.
   */
  ghost predicate Buffers(busy: set<nat>, reqs: Reqs, own: set<nat>) {
    && (forall h, g :: h in reqs && g in reqs && reqs[h].buf == reqs[g].buf ==> h == g)
    && (forall h :: h in reqs ==> reqs[h].buf !in own && (reqs[h].buf in busy <==> reqs[h].stage != Done))
    && (forall b :: b in busy && b !in own ==> exists h :: h in reqs && reqs[h].buf == b)
  }

  /** The queue of heads in stage `st`. */
  ghost predicate Queue(q: seq<nat>, reqs: Reqs, st: Stage) {
    && Distinct(q)
    && (forall i :: 0 <= i < |q| ==> q[i] in reqs && reqs[q[i]].stage == st)
    && (forall h :: h in reqs && reqs[h].stage == st ==> h in q)
  }

  /** The chains that the device works on. */
  ghost predicate Working(held: set<nat>, reqs: Reqs) {
    && (forall h :: h in held ==> h in reqs && reqs[h].stage == Taken)
    && (forall h :: h in reqs && reqs[h].stage == Taken ==> h in held)
  }

  /** The indices are 16-bit counters. */
  function Wrap(n: nat): nat { n % 65536 }

  /** An index leads to one of the eight ring entries. */
  function Slot(n: nat): (i: nat)
    ensures i < 8
  {
    n % 8
  }

  /** Ring entries first, first+1, ... hold the queue; `idx` is the 16-bit index behind it. */
  ghost predicate RingOk(ring: seq<nat>, q: seq<nat>, first: nat, idx: nat) {
    && |ring| == 8 && |q| <= 8 && idx == Wrap(first + |q|)
    && forall i :: 0 <= i < |q| ==> ring[Slot(first + i)] == q[i]
  }

  // ----- rings -----

  lemma WrapNext(n: nat)
    ensures Wrap(Wrap(n) + 1) == Wrap(n + 1)
  {
  }

  lemma Mod8(x: nat, r: nat)
    ensures (8 * x + r) % 8 == r % 8
  {
  }

  lemma SlotWrap(n: nat)
    ensures Slot(Wrap(n)) == Slot(n)
  {
    var q, r := n / 65536, n % 65536;
    assert n == 65536 * q + r;
    Mod8(8192 * q, r);
  }

  lemma SlotApart(first: nat, i: nat, n: nat)
    requires i < n <= 7
    ensures Slot(first + i) != Slot(first + n)
  {
  }

  lemma WrapApart(first: nat, n: nat)
    requires 0 < n <= 8
    ensures Wrap(first) != Wrap(first + n)
  {
  }

  /** Adding an entry overwrites none that is still in the queue. */
  lemma RingPush(ring: seq<nat>, q: seq<nat>, first: nat, idx: nat, h: nat)
    requires RingOk(ring, q, first, idx) && |q| < 8
    ensures RingOk(ring[Slot(idx) := h], q + [h], first, Wrap(idx + 1))
  {
    hide Wrap, Slot;
    var n := first + |q|;
    SlotWrap(n);
    WrapNext(n);
    forall i | 0 <= i < |q| ensures ring[Slot(idx) := h][Slot(first + i)] == q[i] { SlotApart(first, i, |q|); }
  }

  lemma RingPop(ring: seq<nat>, q: seq<nat>, first: nat, idx: nat)
    requires RingOk(ring, q, first, idx) && |q| > 0
    ensures ring[Slot(Wrap(first))] == q[0] && RingOk(ring, q[1..], first + 1, idx)
    ensures Wrap(Wrap(first) + 1) == Wrap(first + 1)
  {
    hide Wrap, Slot;
    SlotWrap(first);
    WrapNext(first);
    assert ring[Slot(first + 0)] == q[0];
    forall i | 0 <= i < |q| - 1 ensures ring[Slot(first + 1 + i)] == q[1..][i] {
      assert ring[Slot(first + (i + 1))] == q[i + 1];
    }
  }

  /** Equal 16-bit indices mean an empty queue: fewer than 65536 entries can be in between. */
  lemma RingEmpty(ring: seq<nat>, q: seq<nat>, first: nat, idx: nat)
    requires RingOk(ring, q, first, idx)
    ensures Wrap(first) == idx <==> q == []
  {
    hide Wrap, Slot;
    if q != [] { WrapApart(first, |q|); }
  }

  // ----- counting free descriptors -----

  ghost function Count(s: seq<bool>): nat {
    if s == [] then 0 else Count(s[..|s| - 1]) + if s[|s| - 1] then 1 else 0
  }

  lemma {:induction false} CountSet(s: seq<bool>, i: nat, v: bool)
    requires i < |s|
    ensures Count(s[i := v]) == Count(s) - (if s[i] then 1 else 0) + (if v then 1 else 0)
    decreases |s|
  {
    var n := |s| - 1;
    if i < n {
      CountSet(s[..n], i, v);
      assert s[i := v][..n] == s[..n][i := v];
    } else {
      assert s[i := v][..n] == s[..n];
    }
  }

  lemma {:induction false} CountNone(s: seq<bool>)
    requires forall i :: 0 <= i < |s| ==> !s[i]
    ensures Count(s) == 0
    decreases |s|
  {
    if s != [] { CountNone(s[..|s| - 1]); }
  }

  // ----- what the lock holder does with its descriptors -----

  lemma MineUnused(free: seq<bool>, desc: seq<Desc>, reqs: Reqs, mine: set<nat>, i: nat)
    requires Chains(free, desc, reqs, mine) && i in mine
    ensures i < 8 && !free[i] && i !in reqs && forall h :: h in reqs ==> !reqs[h].Has(i)
  {
    if i in reqs { assert reqs[i].Has(i); }
    forall h | h in reqs ensures !reqs[h].Has(i) { assert !Used(reqs, i); }
  }

  /** A free descriptor becomes the lock holder's. */
  lemma AllocChains(free: seq<bool>, desc: seq<Desc>, reqs: Reqs, mine: set<nat>, i: nat)
    requires Chains(free, desc, reqs, mine) && i < 8 && free[i]
    ensures Chains(free[i := false], desc, reqs, mine + {i}) && i !in mine
  {
    hide Used;
  }

  lemma DecodeFrame(desc: seq<Desc>, ops: seq<Op>, desc': seq<Desc>, ops': seq<Op>, r: Req)
    requires ChainOk(desc, r) && |desc'| == 8 && |ops| == 8 && |ops'| == 8
    requires desc'[r.head] == desc[r.head] && desc'[r.mid] == desc[r.mid] && desc'[r.tail] == desc[r.tail]
    requires ops'[r.head] == ops[r.head]
    ensures Decode(desc', ops', r.head) == Decode(desc, ops, r.head)
  {
  }

  /** It may write its descriptors as it likes. */
  lemma StoreDescs(free: seq<bool>, desc: seq<Desc>, ops: seq<Op>, info: seq<Info>, reqs: Reqs, mine: set<nat>,
                   i: nat, d: Desc)
    requires Chains(free, desc, reqs, mine) && Contents(desc, ops, info, reqs) && i in mine
    ensures i < 8 && Chains(free, desc[i := d], reqs, mine) && Contents(desc[i := d], ops, info, reqs)
  {
    MineUnused(free, desc, reqs, mine, i);
    hide Decode, Used;
    forall h | h in reqs
      ensures ChainOk(desc[i := d], reqs[h]) && Decode(desc[i := d], ops, h) == Decode(desc, ops, h)
    {
      assert reqs[h].Has(reqs[h].head) && reqs[h].Has(reqs[h].mid) && reqs[h].Has(reqs[h].tail);
      DecodeFrame(desc, ops, desc[i := d], ops, reqs[h]);
    }
  }

  /** And what goes with the head of its chain. */
  lemma StoreHead(free: seq<bool>, desc: seq<Desc>, ops: seq<Op>, info: seq<Info>, reqs: Reqs, mine: set<nat>,
                  i: nat, op: Op, x: Info)
    requires Chains(free, desc, reqs, mine) && Contents(desc, ops, info, reqs) && i in mine
    ensures i < 8 && Contents(desc, ops[i := op], info, reqs) && Contents(desc, ops, info[i := x], reqs)
  {
    MineUnused(free, desc, reqs, mine, i);
    hide Decode, Used;
    forall h | h in reqs ensures Decode(desc, ops[i := op], h) == Decode(desc, ops, h) {
      DecodeFrame(desc, ops, desc, ops[i := op], reqs[h]);
    }
  }

  /** A descriptor given back. */
  lemma FreeChains(free: seq<bool>, desc: seq<Desc>, reqs: Reqs, mine: set<nat>, i: nat)
    requires Chains(free, desc, reqs, mine) && i in mine
    ensures i < 8 && Chains(free[i := true], desc, reqs, mine - {i})
  {
    hide Used;
  }

  // ----- handing a chain over -----

  lemma UsedAdd(reqs: Reqs, r: Req, i: nat)
    requires r.head !in reqs
    ensures Used(reqs[r.head := r], i) <==> Used(reqs, i) || r.Has(i)
  {
    var reqs' := reqs[r.head := r];
    if Used(reqs, i) {
      var h :| h in reqs && reqs[h].Has(i);
      assert h in reqs' && reqs'[h].Has(i);
    }
    if r.Has(i) { assert r.head in reqs' && reqs'[r.head].Has(i); }
  }

  /** The lock holder's three descriptors become a request. */
  lemma AddChain(free: seq<bool>, desc: seq<Desc>, reqs: Reqs, mine: set<nat>, r: Req)
    requires Chains(free, desc, reqs, mine) && ChainOk(desc, r) && mine == {r.head, r.mid, r.tail}
    ensures r.head !in reqs && Chains(free, desc, reqs[r.head := r], {})
  {
    MineUnused(free, desc, reqs, mine, r.head);
    MineUnused(free, desc, reqs, mine, r.mid);
    MineUnused(free, desc, reqs, mine, r.tail);
    hide Used, ChainOk;
    forall i: nat ensures Used(reqs[r.head := r], i) <==> Used(reqs, i) || r.Has(i) { UsedAdd(reqs, r, i); }
  }

  lemma AddContents(desc: seq<Desc>, ops: seq<Op>, info: seq<Info>, reqs: Reqs, r: Req)
    requires Contents(desc, ops, info, reqs) && r.head < 8 && r.stage == Submitted && info[r.head].status == 0xff
    requires Decode(desc, ops, r.head) == Some((r.op, r.buf)) && info[r.head].b == Some(r.buf)
    ensures Contents(desc, ops, info, reqs[r.head := r])
  {
  }

  lemma AddQueues(reqs: Reqs, pend: seq<nat>, comp: seq<nat>, held: set<nat>, busy: set<nat>, r: Req)
    requires Queue(pend, reqs, Submitted) && Queue(comp, reqs, Completed) && Working(held, reqs)
    requires Buffers(busy, reqs, {r.buf}) && r.buf in busy && r.head !in reqs && r.stage == Submitted
    ensures var reqs' := reqs[r.head := r];
      && Queue(pend + [r.head], reqs', Submitted) && Queue(comp, reqs', Completed) && Working(held, reqs')
      && Buffers(busy, reqs', {})
  {
    var reqs' := reqs[r.head := r];
    assert r.head in reqs';
    forall b | b in busy ensures exists h :: h in reqs' && reqs'[h].buf == b {
      if b != r.buf {
        var h :| h in reqs && reqs[h].buf == b;
        assert h in reqs' && reqs'[h].buf == b;
      } else {
        assert reqs'[r.head].buf == b;
      }
    }
  }

  // ----- what the device and the interrupt do -----

  /** A request that changes only its stage keeps its descriptors. */
  lemma StageChains(free: seq<bool>, desc: seq<Desc>, ops: seq<Op>, info: seq<Info>, info': seq<Info>,
                    reqs: Reqs, mine: set<nat>, h: nat, st: Stage)
    requires Chains(free, desc, reqs, mine) && Contents(desc, ops, info, reqs) && h in reqs && |info'| == 8
    requires forall i :: 0 <= i < 8 ==> info'[i].b == info[i].b && (i != h ==> info'[i] == info[i])
    requires st != Submitted && (st == Completed ==> h < 8 && info'[h].status == 0)
    ensures var reqs' := reqs[h := reqs[h].(stage := st)];
      Chains(free, desc, reqs', mine) && Contents(desc, ops, info', reqs')
  {
    var reqs' := reqs[h := reqs[h].(stage := st)];
    hide Decode;
    forall i: nat ensures Used(reqs', i) <==> Used(reqs, i) {
      StageUsed(reqs, h, st, i);
    }
  }

  lemma StageUsed(reqs: Reqs, h: nat, st: Stage, i: nat)
    requires h in reqs
    ensures Used(reqs[h := reqs[h].(stage := st)], i) <==> Used(reqs, i)
  {
    var reqs' := reqs[h := reqs[h].(stage := st)];
    if Used(reqs, i) { var g :| g in reqs && reqs[g].Has(i); assert g in reqs' && reqs'[g].Has(i); }
    if Used(reqs', i) { var g :| g in reqs' && reqs'[g].Has(i); assert g in reqs && reqs[g].Has(i); }
  }

  lemma StageQueue(q: seq<nat>, reqs: Reqs, h: nat, st: Stage, which: Stage)
    requires Queue(q, reqs, which) && h in reqs
    ensures var reqs' := reqs[h := reqs[h].(stage := st)];
      && (reqs[h].stage != which && st != which ==> Queue(q, reqs', which))
      && (reqs[h].stage != which && st == which ==> Queue(q + [h], reqs', which))
      && (reqs[h].stage == which && st != which && |q| > 0 && q[0] == h ==> Queue(q[1..], reqs', which))
  {
    var reqs' := reqs[h := reqs[h].(stage := st)];
    if reqs[h].stage == which && st != which && |q| > 0 && q[0] == h {
      forall g | g in reqs' && reqs'[g].stage == which ensures g in q[1..] { assert g in q && g != q[0]; }
    }
  }

  lemma StageWorking(held: set<nat>, reqs: Reqs, h: nat, st: Stage)
    requires Working(held, reqs) && h in reqs
    ensures Working(if st == Taken then held + {h} else held - {h}, reqs[h := reqs[h].(stage := st)])
  {
  }

  lemma StageBuffers(busy: set<nat>, reqs: Reqs, own: set<nat>, h: nat, st: Stage)
    requires Buffers(busy, reqs, own) && h in reqs
    requires reqs[h].stage != Done
    ensures var reqs' := reqs[h := reqs[h].(stage := st)];
      && (st != Done ==> Buffers(busy, reqs', own))
      && (st == Done ==> Buffers(busy - {reqs[h].buf}, reqs', own))
  {
    var reqs' := reqs[h := reqs[h].(stage := st)];
    forall b | b in busy && b !in own ensures exists g :: g in reqs' && reqs'[g].buf == b {
      var g :| g in reqs && reqs[g].buf == b;
      assert g in reqs' && reqs'[g].buf == b;
    }
  }

  // ----- taking a chain back -----

  /** A finished request is in no queue. */
  lemma DropQueues(pend: seq<nat>, comp: seq<nat>, held: set<nat>, reqs: Reqs, h: nat)
    requires Queue(pend, reqs, Submitted) && Queue(comp, reqs, Completed) && Working(held, reqs)
    requires h in reqs && reqs[h].stage == Done
    ensures Queue(pend, reqs - {h}, Submitted) && Queue(comp, reqs - {h}, Completed) && Working(held, reqs - {h})
  {
    hide Distinct;
  }

  lemma DropContents(desc: seq<Desc>, ops: seq<Op>, info: seq<Info>, busy: set<nat>, reqs: Reqs, h: nat)
    requires Contents(desc, ops, info, reqs) && Buffers(busy, reqs, {}) && h in reqs && reqs[h].stage == Done
    ensures Contents(desc, ops, info, reqs - {h}) && Buffers(busy, reqs - {h}, {})
  {
    hide Decode;
    var reqs' := reqs - {h};
    forall b | b in busy ensures exists g :: g in reqs' && reqs'[g].buf == b {
      var g :| g in reqs && reqs[g].buf == b;
      assert g in reqs' && reqs'[g].buf == b;
    }
  }

  /** Its descriptors become the lock holder's. */
  lemma DropChains(free: seq<bool>, desc: seq<Desc>, reqs: Reqs, h: nat)
    requires Chains(free, desc, reqs, {}) && h in reqs
    ensures Chains(free, desc, reqs - {h}, {h, reqs[h].mid, reqs[h].tail})
    ensures ChainOk(desc, reqs[h]) && reqs[h].head == h
  {
    var r, reqs' := reqs[h], reqs - {h};
    assert ChainOk(desc, r) && r.Has(r.head) && r.Has(r.mid) && r.Has(r.tail);
    forall i: nat ensures Used(reqs', i) <==> Used(reqs, i) && !r.Has(i) {
      if Used(reqs', i) { var g :| g in reqs' && reqs'[g].Has(i); assert g in reqs; assert Used(reqs, i); }
      if Used(reqs, i) && !r.Has(i) { var g :| g in reqs && reqs[g].Has(i); assert g in reqs' && reqs'[g].Has(i); }
    }
    assert forall i: nat :: r.Has(i) ==> Used(reqs, i);
  }

  // ----- reading the invariant -----

  /** A head that is not waiting yet finds room in the ring. */
  lemma PendRoom(q: seq<nat>, free: seq<bool>, desc: seq<Desc>, reqs: Reqs, mine: set<nat>, h: nat, st: Stage)
    requires Queue(q, reqs, st) && Chains(free, desc, reqs, mine) && h < 8 && h !in q
    ensures |q| < 8
  {
    var q' := q + [h];
    forall i | 0 <= i < |q'| ensures q'[i] < 8 {
      if i < |q| { assert ChainOk(desc, reqs[q[i]]); }
    }
    Pigeons(q', 8);
  }

  lemma QueueHead(q: seq<nat>, reqs: Reqs, st: Stage)
    requires Queue(q, reqs, st) && q != []
    ensures q[0] in reqs && reqs[q[0]].stage == st
  {
  }

  lemma DecodesTo(desc: seq<Desc>, ops: seq<Op>, info: seq<Info>, reqs: Reqs, h: nat)
    requires Contents(desc, ops, info, reqs) && h in reqs
    ensures h < 8 == |info| && Decode(desc, ops, h) == Some((reqs[h].op, reqs[h].buf))
    ensures info[h].b == Some(reqs[h].buf) && (reqs[h].stage == Completed ==> info[h].status == 0)
  {
    hide Decode;
  }

  // ----- what time does to the records -----

  /** How far the device brings a request on its own. */
  predicate Advances(a: Stage, b: Stage) {
    a == b || (a.Submitted? && (b.Taken? || b.Completed?)) || (a.Taken? && b.Completed?)
  }

  /** The same requests, some of them brought further by the device. */
  ghost predicate Moved(a: Reqs, b: Reqs) {
    && a.Keys == b.Keys
    && forall h :: h in a ==> b[h] == a[h].(stage := b[h].stage) && Advances(a[h].stage, b[h].stage)
  }

  /** The same, and some of them acknowledged. */
  ghost predicate Acked(a: Reqs, b: Reqs) {
    && a.Keys == b.Keys
    && forall h :: h in a ==>
      b[h] == a[h].(stage := b[h].stage) && (b[h].stage.Done? || Advances(a[h].stage, b[h].stage))
  }

  lemma MovedTrans(a: Reqs, b: Reqs, c: Reqs)
    requires Moved(a, b) && Moved(b, c)
    ensures Moved(a, c)
  {
  }

  lemma AckedTrans(a: Reqs, b: Reqs, c: Reqs)
    requires Acked(a, b) && Acked(b, c)
    ensures Acked(a, c)
  {
  }

  lemma OtherBuffers(a: Reqs, b: Reqs, buf: nat)
    requires Moved(a, b) && forall h :: h in a ==> a[h].buf != buf
    ensures forall h :: h in b ==> b[h].buf != buf
  {
  }

  lemma MovedAcked(a: Reqs, b: Reqs)
    requires Moved(a, b)
    ensures Acked(a, b)
  {
  }

  /** What is not in a request is not the device's to write. */
  ghost predicate SameInfo(a: seq<Info>, b: seq<Info>, reqs: Reqs) {
    |a| == |b| && forall i :: 0 <= i < |a| && i !in reqs ==> a[i] == b[i]
  }

  lemma LaterStill(a: Reqs, b: Reqs, c: Reqs, x: seq<Info>, y: seq<Info>, z: seq<Info>)
    requires Moved(a, b) && Moved(b, c) && SameInfo(x, y, b) && SameInfo(y, z, c)
    ensures Moved(a, c) && SameInfo(x, z, c)
  {
    MovedTrans(a, b, c);
  }

  /** The requests that the driver has not acknowledged yet. */
  ghost function Open(reqs: Reqs): set<nat> { set h | h in reqs && !reqs[h].stage.Done? }

  /** A round of the interrupt handler, with the device at work before and after it. */
  lemma AckRound(a: Reqs, b: Reqs, c: Reqs, h: nat, d: Reqs)
    requires Acked(a, b) && Moved(b, c) && h in c && c[h].stage == Completed && Moved(c[h := c[h].(stage := Done)], d)
    ensures Acked(a, d) && Open(d) < Open(b)
  {
    var e := c[h := c[h].(stage := Done)];
    assert Acked(b, c) && Acked(c, e) && Acked(e, d);
    AckedTrans(a, b, c);
    AckedTrans(a, c, e);
    AckedTrans(a, e, d);
    assert h in Open(b) && Open(d) == Open(b) - {h};
  }

  // ----- the whole state -----

  /** The driver's and the device's memory, and the ghost records. */
  datatype State = State(
    free: seq<bool>, desc: seq<Desc>, ops: seq<Op>, info: seq<Info>, avail: seq<nat>, used: seq<nat>,
    availIdx: nat, usedIdx: nat, seenIdx: nat, takenIdx: nat, held: set<nat>, busy: set<nat>,
    reqs: Reqs, mine: set<nat>, own: set<nat>, pend: seq<nat>, comp: seq<nat>, availFirst: nat, usedFirst: nat)

  /** What holds at every moment. */
  ghost predicate Inv(s: State) {
    && Chains(s.free, s.desc, s.reqs, s.mine)
    && Contents(s.desc, s.ops, s.info, s.reqs)
    && Buffers(s.busy, s.reqs, s.own)
    && Queue(s.pend, s.reqs, Submitted) && RingOk(s.avail, s.pend, s.availFirst, s.availIdx)
    && Queue(s.comp, s.reqs, Completed) && RingOk(s.used, s.comp, s.usedFirst, s.usedIdx)
    && Working(s.held, s.reqs)
    && s.seenIdx == Wrap(s.usedFirst) && s.takenIdx == Wrap(s.availFirst)
  }

  /** Nothing has been submitted yet. */
  lemma EmptyKeeps(s: State)
    requires |s.free| == |s.desc| == |s.ops| == |s.info| == |s.avail| == |s.used| == 8
    requires forall i :: 0 <= i < 8 ==> s.free[i]
    requires s.availIdx == s.usedIdx == s.seenIdx == s.takenIdx == s.availFirst == s.usedFirst == 0
    requires s.held == s.busy == s.mine == s.own == {} && s.reqs == map[] && s.pend == s.comp == []
    ensures Inv(s)
  {
  }

  ghost function Staged(reqs: Reqs, h: nat, st: Stage): Reqs
    requires h in reqs
  {
    reqs[h := reqs[h].(stage := st)]
  }

  /** The device takes the oldest chain it has not seen. */
  lemma TakeKeeps(s: State)
    requires Inv(s) && s.pend != []
    ensures var h := s.pend[0];
      && s.avail[Slot(s.takenIdx)] == h < 8 && h in s.reqs && s.reqs[h].stage == Submitted
      && Decode(s.desc, s.ops, h) == Some((s.reqs[h].op, s.reqs[h].buf))
      && Inv(s.(reqs := Staged(s.reqs, h, Taken), pend := s.pend[1..], availFirst := s.availFirst + 1,
                takenIdx := Wrap(s.takenIdx + 1), held := s.held + {h}))
  {
    hide Chains, Contents, Buffers, RingOk, Wrap, Slot, Decode, Queue, Working;
    var h := s.pend[0];
    QueueHead(s.pend, s.reqs, Submitted);
    RingPop(s.avail, s.pend, s.availFirst, s.availIdx);
    DecodesTo(s.desc, s.ops, s.info, s.reqs, h);
    StageChains(s.free, s.desc, s.ops, s.info, s.info, s.reqs, s.mine, h, Taken);
    StageQueue(s.pend, s.reqs, h, Taken, Submitted);
    StageQueue(s.comp, s.reqs, h, Taken, Completed);
    StageWorking(s.held, s.reqs, h, Taken);
    StageBuffers(s.busy, s.reqs, s.own, h, Taken);
  }

  /** It stores the status of one that it has taken, */
  lemma AnswerKeeps(s: State, h: nat)
    requires Inv(s) && h in s.held
    ensures h in s.reqs && h < |s.info| && Inv(s.(info := s.info[h := Info(s.info[h].b, 0)]))
  {
    hide Chains, Buffers, RingOk, Wrap, Slot, Decode, Queue, Working;
    WorksOn(s.held, s.reqs, h);
    DecodesTo(s.desc, s.ops, s.info, s.reqs, h);
  }

  /** the next entry of the used ring, which holds no completion that is still to be seen, */
  lemma PostKeeps(s: State, h: nat)
    requires Inv(s) && h in s.held
    ensures |s.used| == 8 && |s.comp| < 8 && Inv(s.(used := s.used[Slot(s.usedIdx) := h]))
  {
    hide Chains, Contents, Buffers, Wrap, Slot, Decode, Working, Queue;
    WorksOn(s.held, s.reqs, h);
    DecodesTo(s.desc, s.ops, s.info, s.reqs, h);
    NotQueued(s.comp, s.reqs, Completed, h);
    PendRoom(s.comp, s.free, s.desc, s.reqs, s.mine, h, Completed);
    RingPush(s.used, s.comp, s.usedFirst, s.usedIdx, h);
    assert forall i :: 0 <= i < |s.comp| ==> (s.comp + [h])[i] == s.comp[i];
  }

  /** and then the index. */
  lemma RaiseKeeps(s: State, h: nat)
    requires Inv(s) && h in s.held && h < |s.info| && s.info[h].status == 0
    requires |s.used| == 8 && s.used[Slot(s.usedIdx)] == h
    ensures h in s.reqs && s.reqs[h].stage == Taken
    ensures Inv(s.(reqs := Staged(s.reqs, h, Completed), comp := s.comp + [h], usedIdx := Wrap(s.usedIdx + 1),
                   held := s.held - {h}))
  {
    hide Chains, Contents, Buffers, RingOk, Wrap, Slot, Decode, Queue, Working;
    WorksOn(s.held, s.reqs, h);
    DecodesTo(s.desc, s.ops, s.info, s.reqs, h);
    StageChains(s.free, s.desc, s.ops, s.info, s.info, s.reqs, s.mine, h, Completed);
    StageQueue(s.pend, s.reqs, h, Completed, Submitted);
    StageQueue(s.comp, s.reqs, h, Completed, Completed);
    StageWorking(s.held, s.reqs, h, Completed);
    StageBuffers(s.busy, s.reqs, s.own, h, Completed);
    NotQueued(s.comp, s.reqs, Completed, h);
    PendRoom(s.comp, s.free, s.desc, s.reqs, s.mine, h, Completed);
    RingPush(s.used, s.comp, s.usedFirst, s.usedIdx, h);
    assert s.used[Slot(s.usedIdx) := h] == s.used;
  }

  lemma WorksOn(held: set<nat>, reqs: Reqs, h: nat)
    requires Working(held, reqs) && h in held
    ensures h in reqs && reqs[h].stage == Taken
  {
  }

  lemma NotQueued(q: seq<nat>, reqs: Reqs, st: Stage, h: nat)
    requires Queue(q, reqs, st) && (h in reqs ==> reqs[h].stage != st)
    ensures h !in q
  {
  }

  /** The interrupt handler acknowledges the oldest completion it has not seen. */
  lemma AckKeeps(s: State)
    requires Inv(s) && s.comp != []
    ensures var h := s.comp[0];
      && |s.used| == |s.info| == 8 && s.used[Slot(s.seenIdx)] == h < 8 && h in s.reqs && s.reqs[h].stage == Completed
      && s.info[h] == Info(Some(s.reqs[h].buf), 0)
      && Inv(s.(reqs := Staged(s.reqs, h, Done), comp := s.comp[1..], usedFirst := s.usedFirst + 1,
                seenIdx := Wrap(s.seenIdx + 1), busy := s.busy - {s.reqs[h].buf}))
  {
    hide Chains, Contents, Buffers, Wrap, Slot, Decode, Queue, Working;
    var h := s.comp[0];
    QueueHead(s.comp, s.reqs, Completed);
    RingPop(s.used, s.comp, s.usedFirst, s.usedIdx);
    DecodesTo(s.desc, s.ops, s.info, s.reqs, h);
    StageChains(s.free, s.desc, s.ops, s.info, s.info, s.reqs, s.mine, h, Done);
    StageQueue(s.pend, s.reqs, h, Done, Submitted);
    StageQueue(s.comp, s.reqs, h, Done, Completed);
    NotWorking(s.held, s.reqs, h);
    StageWorking(s.held, s.reqs, h, Done);
    StageBuffers(s.busy, s.reqs, s.own, h, Done);
  }

  lemma NotWorking(held: set<nat>, reqs: Reqs, h: nat)
    requires Working(held, reqs) && h in reqs && reqs[h].stage != Taken
    ensures held - {h} == held
  {
  }

  /** Equal indices mean that there is nothing new. */
  lemma NothingNew(s: State)
    requires Inv(s)
    ensures s.seenIdx == s.usedIdx <==> s.comp == []
    ensures s.takenIdx == s.availIdx <==> s.pend == []
  {
    hide Chains, Contents, Buffers, Wrap, Slot, Decode, Queue, Working;
    RingEmpty(s.used, s.comp, s.usedFirst, s.usedIdx);
    RingEmpty(s.avail, s.pend, s.availFirst, s.availIdx);
  }

  /** The lock holder allocates a descriptor, */
  lemma AllocKeeps(s: State, i: nat)
    requires Inv(s) && i < |s.free| && s.free[i]
    ensures Inv(s.(free := s.free[i := false], mine := s.mine + {i})) && i !in s.mine
  {
    hide Contents, Buffers, Wrap, Slot, Decode, Queue, Working, RingOk;
    AllocChains(s.free, s.desc, s.reqs, s.mine, i);
  }

  /** gives one back, */
  lemma FreeKeeps(s: State, i: nat)
    requires Inv(s) && i in s.mine
    ensures i < |s.free| == |s.desc| == 8 && !s.free[i]
    ensures Inv(s.(free := s.free[i := true], desc := s.desc[i := Desc(Null, 0, 0, 0)], mine := s.mine - {i}))
  {
    hide Contents, Buffers, Wrap, Slot, Decode, Queue, Working, RingOk;
    MineUnused(s.free, s.desc, s.reqs, s.mine, i);
    StoreDescs(s.free, s.desc, s.ops, s.info, s.reqs, s.mine, i, Desc(Null, 0, 0, 0));
    FreeChains(s.free, s.desc[i := Desc(Null, 0, 0, 0)], s.reqs, s.mine, i);
  }

  /** and writes what it likes into one, or into what goes with it. */
  lemma StoreKeeps(s: State, i: nat, d: Desc, op: Op, x: Info)
    requires Inv(s) && i in s.mine
    ensures i < |s.desc| == |s.ops| == |s.info| == 8 && i !in s.reqs
    ensures Inv(s.(desc := s.desc[i := d])) && Inv(s.(ops := s.ops[i := op])) && Inv(s.(info := s.info[i := x]))
  {
    hide Buffers, Wrap, Slot, Decode, Queue, Working, RingOk;
    MineUnused(s.free, s.desc, s.reqs, s.mine, i);
    StoreDescs(s.free, s.desc, s.ops, s.info, s.reqs, s.mine, i, d);
    StoreHead(s.free, s.desc, s.ops, s.info, s.reqs, s.mine, i, op, x);
  }

  /** The disk flag of a buffer that is in no request. */
  lemma FlagKeeps(s: State, b: nat)
    requires Inv(s) && s.own == {} && forall h :: h in s.reqs ==> s.reqs[h].buf != b
    ensures Inv(s.(busy := s.busy + {b}, own := {b}))
  {
    hide Chains, Contents, Wrap, Slot, Decode, Queue, Working, RingOk;
  }

  /** There is room in the avail ring, and the next entry is not in use. */
  lemma RingStoreKeeps(s: State, h: nat)
    requires Inv(s) && h in s.mine
    ensures |s.avail| == 8 && |s.pend| < 8 && h !in s.reqs && Inv(s.(avail := s.avail[Slot(s.availIdx) := h]))
  {
    hide Contents, Buffers, Wrap, Slot, Decode, Working, Queue;
    MineUnused(s.free, s.desc, s.reqs, s.mine, h);
    NotQueued(s.pend, s.reqs, Submitted, h);
    PendRoom(s.pend, s.free, s.desc, s.reqs, s.mine, h, Submitted);
    RingPush(s.avail, s.pend, s.availFirst, s.availIdx, h);
    assert forall i :: 0 <= i < |s.pend| ==> (s.pend + [h])[i] == s.pend[i];
  }

  /** The index goes up: the lock holder's chain is a request. */
  lemma PublishKeeps(s: State, r: Req)
    requires Inv(s) && s.mine == {r.head, r.mid, r.tail} && s.own == {r.buf} && r.buf in s.busy && r.stage == Submitted
    requires ChainOk(s.desc, r) && Decode(s.desc, s.ops, r.head) == Some((r.op, r.buf))
    requires r.head < |s.info| && s.info[r.head] == Info(Some(r.buf), 0xff)
    requires |s.avail| == 8 && s.avail[Slot(s.availIdx)] == r.head
    ensures r.head !in s.reqs
    ensures Inv(s.(reqs := s.reqs[r.head := r], pend := s.pend + [r.head], availIdx := Wrap(s.availIdx + 1),
                   mine := {}, own := {}))
  {
    hide Chains, Contents, Buffers, Wrap, Slot, Decode, Queue, Working, RingOk;
    AddChain(s.free, s.desc, s.reqs, s.mine, r);
    AddContents(s.desc, s.ops, s.info, s.reqs, r);
    AddQueues(s.reqs, s.pend, s.comp, s.held, s.busy, r);
    NotQueued(s.pend, s.reqs, Submitted, r.head);
    PendRoom(s.pend, s.free, s.desc, s.reqs, s.mine, r.head, Submitted);
    RingPush(s.avail, s.pend, s.availFirst, s.availIdx, r.head);
    assert s.avail[Slot(s.availIdx) := r.head] == s.avail;
  }

  /** The lock holder takes a finished request back. */
  lemma DropKeeps(s: State, h: nat)
    requires Inv(s) && s.mine == {} && s.own == {} && h in s.reqs && s.reqs[h].buf !in s.busy
    ensures ChainOk(s.desc, s.reqs[h]) && s.reqs[h].head == h && s.reqs[h].stage == Done
    ensures Inv(s.(reqs := s.reqs - {h}, mine := {h, s.reqs[h].mid, s.reqs[h].tail}))
  {
    assert s.reqs[h].stage == Done;
    hide Chains, Contents, Buffers, Wrap, Slot, Decode, Queue, Working, RingOk;
    DropChains(s.free, s.desc, s.reqs, h);
    DropContents(s.desc, s.ops, s.info, s.busy, s.reqs, h);
    DropQueues(s.pend, s.comp, s.held, s.reqs, h);
  }

  /** When the indices agree, no completion is left. */
  lemma AllSeen(s: State)
    requires Inv(s) && s.comp == []
    ensures forall h :: h in s.reqs ==> s.reqs[h].stage != Completed
    ensures s.own == {} ==> forall h :: h in s.reqs ==> (s.reqs[h].buf in s.busy <==> s.reqs[h].stage != Done)
  {
    hide Chains, Contents, Decode, Working, RingOk;
  }
}
