/**
  The buffer cache of kernel/bio.c: buffers in a doubly linked ring in order of release, with a
  head that is not a buffer. Each method is what one process does while it holds bcache.lock
  or the buffer's sleep-lock. `view` is the plain block map that the cache stands for.
 */
module Bio {
  import opened Wrappers
  import opened Seqs

  type Data = seq<nat>

  datatype Buf = Buf(dev: nat, blockno: nat, valid: bool, refcnt: nat, data: Data, prev: nat, next: nat)

  type Key = (nat, nat)

  // ----- the ring -----

  /** head, then the buffers from most to least recently released, then head again. */
  function Path(n: nat, order: seq<nat>): seq<nat> { [n] + order + [n] }

  ghost predicate LinkAt(s: seq<Buf>, p: seq<nat>, i: nat)
    requires i + 1 < |p|
  {
    p[i] < |s| && p[i + 1] < |s| && s[p[i]].next == p[i + 1] && s[p[i + 1]].prev == p[i]
  }

  ghost predicate Linked(s: seq<Buf>, n: nat, order: seq<nat>) {
    && |s| == n + 1 && Distinct(order) && n !in order
    && (forall i :: 0 <= i < |order| ==> order[i] < n)
    && (forall i :: 0 <= i < |order| + 1 ==> LinkAt(s, Path(n, order), i))
  }

  function SetNext(s: seq<Buf>, i: nat, x: nat): seq<Buf>
    requires i < |s|
  {
    s[i := s[i].(next := x)]
  }

  function SetPrev(s: seq<Buf>, i: nat, x: nat): seq<Buf>
    requires i < |s|
  {
    s[i := s[i].(prev := x)]
  }

  /** Takes buffer `b` out of the ring. */
  function Unlink(s: seq<Buf>, b: nat): seq<Buf>
    requires b < |s| && s[b].next < |s| && s[b].prev < |s|
  {
    SetNext(SetPrev(s, s[b].next, s[b].prev), s[b].prev, s[b].next)
  }

  /** Puts buffer `b` in at the front. */
  function Push(s: seq<Buf>, n: nat, b: nat): seq<Buf>
    requires n < |s| && b < |s| && s[n].next < |s|
  {
    var s1 := SetPrev(SetNext(s, b, s[n].next), b, n);
    SetNext(SetPrev(s1, s1[n].next, b), n, b)
  }

  lemma UnlinkOk(s: seq<Buf>, n: nat, order: seq<nat>, k: nat)
    requires Linked(s, n, order) && k < |order|
    ensures var b := order[k];
            && b < n && s[b].next < |s| && s[b].prev < |s| && s[b].next != b && s[b].prev != b
            && Linked(Unlink(s, b), n, order[..k] + order[k + 1..])
  {
    var b := order[k];
    var p := Path(n, order);
    assert p[k + 1] == b && LinkAt(s, p, k) && LinkAt(s, p, k + 1);
    var r := order[..k] + order[k + 1..];
    assert forall i :: 0 <= i < |r| ==> r[i] == order[if i < k then i else i + 1];
    var q := Path(n, r);
    var s' := Unlink(s, b);
    forall i | 0 <= i < |r| + 1 ensures LinkAt(s', q, i) {
      if i < k { assert LinkAt(s, p, i) && q[i] == p[i] && q[i + 1] == p[i + 1]; }
      else if i == k { assert q[k] == p[k] && q[k + 1] == p[k + 2]; }
      else { assert LinkAt(s, p, i + 1) && q[i] == p[i + 1] && q[i + 1] == p[i + 2]; }
      PathDistinct(n, order);
    }
  }

  lemma PathDistinct(n: nat, order: seq<nat>)
    requires Distinct(order) && n !in order
    ensures forall i, j :: 0 <= i < j < |order| + 2 && (i, j) != (0, |order| + 1) ==>
      Path(n, order)[i] != Path(n, order)[j]
  {
  }

  lemma PushOk(s: seq<Buf>, n: nat, order: seq<nat>, b: nat)
    requires Linked(s, n, order) && b < n && b !in order
    ensures s[n].next < |s| && Linked(Push(s, n, b), n, [b] + order)
  {
    var p := Path(n, order);
    assert LinkAt(s, p, 0);
    var r := [b] + order;
    var q := Path(n, r);
    var s' := Push(s, n, b);
    assert forall i :: 1 <= i < |q| ==> q[i] == (if i == 1 then b else p[i - 1]);
    PathDistinct(n, order);
    forall i | 0 <= i < |r| + 1 ensures LinkAt(s', q, i) {
      if i > 0 { assert LinkAt(s, p, i - 1); }
    }
  }

  /** The two buffer arrays differ at most in their links. */
  ghost predicate SameBut(s: seq<Buf>, t: seq<Buf>) {
    |s| == |t| && forall i :: 0 <= i < |s| ==> t[i] == s[i].(prev := t[i].prev, next := t[i].next)
  }

  /** Links do not depend on the other fields of a buffer. */
  lemma LinkedFields(s: seq<Buf>, n: nat, order: seq<nat>, i: nat, b: Buf)
    requires Linked(s, n, order) && i < |s| && b.prev == s[i].prev && b.next == s[i].next
    ensures Linked(s[i := b], n, order)
  {
    var p := Path(n, order);
    var t := s[i := b];
    forall j | 0 <= j < |order| + 1 ensures LinkAt(t, p, j) { assert LinkAt(s, p, j); }
  }

  // ----- what the cache holds -----

  predicate Holds(b: Buf, k: Key) { b.dev != 0 && (b.dev, b.blockno) == k }

  ghost predicate Cached(s: seq<Buf>, n: nat, k: Key)
    requires n <= |s|
  {
    exists i :: 0 <= i < n && Holds(s[i], k)
  }

  /** Device 0 marks a buffer that was never assigned; no two others hold the same block. */
  ghost predicate Unique(s: seq<Buf>, n: nat)
    requires n <= |s|
  {
    forall i, j, k :: 0 <= i < j < n && Holds(s[i], k) ==> !Holds(s[j], k)
  }

  /** A buffer nobody refers to, or that was never read, has nothing the disk does not have. */
  ghost predicate BufOk(b: Buf, disk: map<Key, Data>, view: map<Key, Data>) {
    b.dev != 0 ==>
      var k := (b.dev, b.blockno);
      && k in view && k in disk
      && (b.valid ==> b.data == view[k])
      && (b.refcnt == 0 || !b.valid ==> disk[k] == view[k])
  }

  /** Cache and disk together hold the block map `view`. */
  ghost predicate Agrees(s: seq<Buf>, n: nat, disk: map<Key, Data>, view: map<Key, Data>)
    requires n <= |s|
  {
    && Unique(s, n)
    && (forall i :: 0 <= i < n ==> BufOk(s[i], disk, view))
    && (forall k :: k in view ==> k in disk && (disk[k] == view[k] || Cached(s, n, k)))
  }

  lemma AgreesLinks(s: seq<Buf>, t: seq<Buf>, n: nat, disk: map<Key, Data>, view: map<Key, Data>)
    requires |s| == n + 1 && Agrees(s, n, disk, view) && SameBut(s, t)
    ensures Agrees(t, n, disk, view)
  {
    forall k | Cached(s, n, k) ensures Cached(t, n, k) {
      var i :| 0 <= i < n && Holds(s[i], k);
      assert Holds(t[i], k);
    }
    forall i | 0 <= i < n ensures BufOk(t[i], disk, view) { assert BufOk(s[i], disk, view); }
    forall i, j, k | 0 <= i < j < n && Holds(t[i], k) ensures !Holds(t[j], k) {
      assert Holds(s[i], k) && t[j] == s[j].(prev := t[j].prev, next := t[j].next);
    }
  }

  lemma OnlyOne(s: seq<Buf>, n: nat, i: nat, j: nat, k: Key)
    requires n <= |s| && Unique(s, n) && i < n && j < n && i != j && Holds(s[i], k)
    ensures !Holds(s[j], k)
  {
  }

  /** Changing a buffer that keeps its block. */
  lemma AgreesSame(s: seq<Buf>, n: nat, disk: map<Key, Data>, view: map<Key, Data>, i: nat, b: Buf)
    requires |s| == n + 1 && Agrees(s, n, disk, view) && i < n
    requires b.dev == s[i].dev && b.blockno == s[i].blockno && BufOk(b, disk, view)
    ensures Agrees(s[i := b], n, disk, view)
  {
    var t := s[i := b];
    forall k | Cached(s, n, k) ensures Cached(t, n, k) {
      var j :| 0 <= j < n && Holds(s[j], k);
      assert Holds(t[j], k);
    }
  }

  /** Recycling an unused buffer for a block that is not cached loses nothing. */
  lemma AgreesRecycle(s: seq<Buf>, n: nat, disk: map<Key, Data>, view: map<Key, Data>, i: nat, b: Buf)
    requires |s| == n + 1 && Agrees(s, n, disk, view) && i < n && s[i].refcnt == 0
    requires b.dev != 0 && !b.valid && (b.dev, b.blockno) in view && !Cached(s, n, (b.dev, b.blockno))
    ensures Agrees(s[i := b], n, disk, view)
  {
    var t := s[i := b];
    var key := (b.dev, b.blockno);
    assert forall j :: 0 <= j < n ==> !Holds(s[j], key);
    assert BufOk(s[i], disk, view);
    forall k | k in view && disk[k] != view[k] ensures Cached(t, n, k) {
      var j :| 0 <= j < n && Holds(s[j], k);
      assert j != i;
      assert Holds(t[j], k);
    }
  }

  /** The holder writes the buffer, and with it the block. */
  lemma AgreesWrite(s: seq<Buf>, n: nat, disk: map<Key, Data>, view: map<Key, Data>, i: nat, data: Data)
    requires |s| == n + 1 && Agrees(s, n, disk, view) && i < n && s[i].dev != 0 && s[i].valid && s[i].refcnt > 0
    ensures Agrees(s[i := s[i].(data := data)], n, disk, view[(s[i].dev, s[i].blockno) := data])
  {
    var t, key := s[i := s[i].(data := data)], (s[i].dev, s[i].blockno);
    assert Holds(s[i], key) && Holds(t[i], key);
    assert BufOk(s[i], disk, view);
    forall j | 0 <= j < n && j != i ensures !Holds(s[j], key) && BufOk(t[j], disk, view[key := data]) {
      assert BufOk(s[j], disk, view);
      OnlyOne(s, n, i, j, key);
    }
    forall k | k in view && disk[k] != view[k] ensures Cached(t, n, k) {
      var j :| 0 <= j < n && Holds(s[j], k);
      assert Holds(t[j], k);
    }
  }

  /** The buffer reaches the disk. */
  lemma AgreesFlush(s: seq<Buf>, n: nat, disk: map<Key, Data>, view: map<Key, Data>, i: nat)
    requires |s| == n + 1 && Agrees(s, n, disk, view) && i < n && s[i].dev != 0 && s[i].valid
    ensures Agrees(s, n, disk[(s[i].dev, s[i].blockno) := s[i].data], view)
  {
  }

  // ----- recency -----

  /** The ring is ordered by the time of the last release. */
  ghost predicate Recency(stamp: map<nat, nat>, order: seq<nat>, clock: nat) {
    && (forall i :: 0 <= i < |order| ==> order[i] in stamp && stamp[order[i]] <= clock)
    && (forall i, j :: 0 <= i < j < |order| ==> stamp[order[i]] > stamp[order[j]])
  }

  /** Whoever holds a buffer's lock also has a reference. */
  ghost predicate Locks(s: seq<Buf>, n: nat, held: set<nat>) {
    n <= |s| && forall b :: b in held ==> b < n && s[b].refcnt > 0
  }

  /** No unused buffer was released before buffer `v`. */
  ghost predicate LeastRecent(s: seq<Buf>, n: nat, stamp: map<nat, nat>, v: nat)
    requires n <= |s|
  {
    && v < n && s[v].refcnt == 0 && v in stamp
    && forall i :: 0 <= i < n && s[i].refcnt == 0 && i in stamp ==> stamp[v] <= stamp[i]
  }

  predicate Fresh(b: Buf) { b.dev == 0 && b.refcnt == 0 && !b.valid }

  lemma EmptyRing(s: seq<Buf>, n: nat)
    requires |s| == n + 1 && s[n].prev == n && s[n].next == n
    ensures Linked(s, n, []) && Recency(map[], [], 0)
  {
  }

  lemma PushFresh(s: seq<Buf>, n: nat, b: nat)
    requires |s| == n + 1 && b < n && s[n].next < |s| && forall i :: 0 <= i < n ==> Fresh(s[i])
    ensures forall i :: 0 <= i < n ==> Fresh(Push(s, n, b)[i])
  {
  }

  lemma FreshAgrees(s: seq<Buf>, n: nat, disk: map<Key, Data>)
    requires |s| == n + 1 && forall i :: 0 <= i < n ==> Fresh(s[i])
    ensures Agrees(s, n, disk, disk)
  {
  }

  lemma RecencyPush(stamp: map<nat, nat>, order: seq<nat>, clock: nat, b: nat)
    requires Recency(stamp, order, clock) && b !in order
    ensures Recency(stamp[b := clock + 1], [b] + order, clock + 1)
  {
  }

  lemma RingAt(s: seq<Buf>, n: nat, order: seq<nat>, i: nat)
    requires Linked(s, n, order) && i <= |order|
    ensures LinkAt(s, Path(n, order), i)
    ensures i < |order| ==> Path(n, order)[i + 1] == order[i] < n
    ensures i > 0 ==> Path(n, order)[i] == order[i - 1] < n
    ensures Path(n, order)[0] == n == Path(n, order)[|order| + 1]
  {
  }

  /** n distinct numbers below n are all of them. */
  lemma AllInOrder(s: seq<Buf>, n: nat, order: seq<nat>)
    requires Linked(s, n, order) && |order| == n
    ensures forall b :: 0 <= b < n ==> b in order
    ensures forall i :: 0 <= i < n ==> order[i] < n
  {
    forall b | 0 <= b < n ensures b in order {
      if b !in order { Pigeons(order + [b], n); }
    }
  }

  /** The first unused buffer from the back was released before all other unused ones. */
  lemma Victim(s: seq<Buf>, n: nat, stamp: map<nat, nat>, order: seq<nat>, clock: nat, k: nat)
    requires Linked(s, n, order) && |order| == n && Recency(stamp, order, clock) && k < n
    requires s[order[k]].refcnt == 0
    requires forall j :: k < j < n ==> order[j] < n && s[order[j]].refcnt > 0
    ensures LeastRecent(s, n, stamp, order[k])
  {
    AllInOrder(s, n, order);
    forall c | 0 <= c < n && s[c].refcnt == 0 ensures c in stamp && stamp[order[k]] <= stamp[c] {
      assert c in order;
      var j :| 0 <= j < |order| && order[j] == c;
    }
  }

  lemma CutDistinct(s: seq<Buf>, n: nat, order: seq<nat>, k: nat)
    requires Linked(s, n, order) && |order| == n && k < n
    ensures var rest := order[..k] + order[k + 1..]; order[k] !in rest && |rest| == n - 1
  {
  }

  lemma FrontRecency(s: seq<Buf>, n: nat, stamp: map<nat, nat>, order: seq<nat>, clock: nat, k: nat)
    requires Linked(s, n, order) && Recency(stamp, order, clock) && k < |order|
    ensures Recency(stamp[order[k] := clock + 1], [order[k]] + (order[..k] + order[k + 1..]), clock + 1)
  {
  }

  lemma LinksUnlink(s: seq<Buf>, b: nat)
    requires b < |s| && s[b].next < |s| && s[b].prev < |s|
    ensures SameBut(s, Unlink(s, b))
  {
  }

  lemma LinksPush(s: seq<Buf>, t: seq<Buf>, n: nat, b: nat)
    requires SameBut(s, t) && n < |t| && b < |t| && b != n && t[n].next < |t|
    ensures SameBut(s, Push(t, n, b))
  {
  }

  lemma LinksOnly(s: seq<Buf>, n: nat, b: nat)
    requires n < |s| && b < n && s[b].next < |s| && s[b].prev < |s| && Unlink(s, b)[n].next < |s|
    ensures SameBut(s, Push(Unlink(s, b), n, b))
  {
    hide SameBut;
    LinksUnlink(s, b);
    LinksPush(s, Unlink(s, b), n, b);
  }

  lemma BufAt(s: seq<Buf>, n: nat, disk: map<Key, Data>, view: map<Key, Data>, i: nat)
    requires n <= |s| && Agrees(s, n, disk, view) && i < n
    ensures BufOk(s[i], disk, view)
  {
  }

  class Bcache {
    const n: nat                   // NBUF
    const buf: array<Buf>          // bcache.buf, with bcache.head last
    var disk: map<Key, Data>
    var held: set<nat>             // buffers whose sleep-lock is taken
    ghost var view: map<Key, Data>
    ghost var order: seq<nat>
    ghost var stamp: map<nat, nat>
    ghost var clock: nat

    ghost predicate Valid()
      reads this, buf
    {
      && buf.Length == n + 1
      && Linked(buf[..], n, order) && |order| == n
      && Agrees(buf[..], n, disk, view)
      && Recency(stamp, order, clock)
      && Locks(buf[..], n, held)
    }

    constructor (n: nat, disk: map<Key, Data>)
      ensures Valid() && fresh(buf) && this.n == n && this.disk == disk && view == disk && held == {}
      ensures forall i :: 0 <= i < n ==> Fresh(buf[i])
    {
      this.n := n;
      this.disk := disk;
      buf := new Buf[n + 1](_ => Buf(0, 0, false, 0, [], 0, 0));
      held := {};
      view, order, stamp, clock := disk, [], map[], 0;
      new;
      Binit();
    }

    /** A ring of unassigned buffers, the last one in front. */
    method Binit()
      requires buf.Length == n + 1 && view == disk && held == {} && forall i :: 0 <= i < n ==> Fresh(buf[i])
      modifies this`order, this`stamp, this`clock, buf
      ensures Valid() && forall i :: 0 <= i < n ==> Fresh(buf[i])
    {
      hide Linked, Recency, Agrees;
      buf[n] := buf[n].(prev := n, next := n);
      order, stamp, clock := [], map[], 0;
      EmptyRing(buf[..], n);
      var b := 0;
      while b < n
        invariant 0 <= b <= n && Linked(buf[..], n, order) && |order| == b
        invariant forall i :: 0 <= i < n ==> Fresh(buf[i])
        invariant forall i :: 0 <= i < |order| ==> order[i] < b
        invariant Recency(stamp, order, clock)
      {
        PushOk(buf[..], n, order, b);
        RecencyPush(stamp, order, clock, b);
        ghost var s := buf[..];
        PushFront(b);
        PushFresh(s, n, b);
        assert forall i :: 0 <= i < n ==> buf[i] == buf[..][i];
        order, stamp, clock := [b] + order, stamp[b := clock + 1], clock + 1;
        b := b + 1;
      }
      FreshAgrees(buf[..], n, disk);
    }

    /** The four assignments that put `b` behind the head. */
    method PushFront(b: nat)
      requires buf.Length == n + 1 && b < n && buf[n].next < buf.Length
      modifies buf
      ensures buf[..] == Push(old(buf[..]), n, b)
    {
      buf[b] := buf[b].(next := buf[n].next);
      buf[b] := buf[b].(prev := n);
      var f := buf[n].next;
      buf[f] := buf[f].(prev := b);
      buf[n] := buf[n].(next := b);
    }

    /** The forward scan of bget: the buffer that holds the block, or the head. */
    method Find(dev: nat, blockno: nat) returns (b: nat)
      requires Valid() && dev != 0
      ensures b <= n
      ensures b < n ==> Holds(buf[b], (dev, blockno))
      ensures b == n ==> !Cached(buf[..], n, (dev, blockno))
    {
      hide Agrees, Recency, Linked;
      ghost var p := Path(n, order);
      AllInOrder(buf[..], n, order);
      RingAt(buf[..], n, order, 0);
      b := buf[n].next;
      ghost var i := 0;
      while b != n
        invariant 0 <= i <= n && b == p[i + 1]
        invariant forall j :: 0 <= j < i ==> !Holds(buf[order[j]], (dev, blockno))
        decreases n - i
      {
        RingAt(buf[..], n, order, i);
        RingAt(buf[..], n, order, i + 1);
        if buf[b].dev == dev && buf[b].blockno == blockno {
          return;
        }
        b := buf[b].next;
        i := i + 1;
      }
      RingAt(buf[..], n, order, i);
      assert i == n;
      forall c | 0 <= c < n ensures !Holds(buf[c], (dev, blockno)) {
        assert c in order;
        var j :| 0 <= j < |order| && order[j] == c;
      }
    }

    /** The backward scan of bget: the least recently released unused buffer, or the head. */
    method FindUnused() returns (b: nat)
      requires Valid()
      ensures b <= n
      ensures b < n ==> LeastRecent(buf[..], n, stamp, b)
      ensures b == n ==> forall i :: 0 <= i < n ==> buf[i].refcnt > 0
    {
      hide Agrees, Linked, Recency;
      ghost var p := Path(n, order);
      RingAt(buf[..], n, order, n);
      b := buf[n].prev;
      ghost var i := n;
      AllInOrder(buf[..], n, order);
      while b != n
        invariant 0 <= i <= n && b == p[i]
        invariant forall j :: i <= j < n ==> buf[order[j]].refcnt > 0
        decreases i
      {
        RingAt(buf[..], n, order, i);
        RingAt(buf[..], n, order, i - 1);
        if buf[b].refcnt == 0 {
          Victim(buf[..], n, stamp, order, clock, i - 1);
          return;
        }
        b := buf[b].prev;
        i := i - 1;
      }
      RingAt(buf[..], n, order, i);
      assert i == 0;
      forall c | 0 <= c < n ensures buf[c].refcnt > 0 {
        assert c in order;
        var j :| 0 <= j < |order| && order[j] == c;
      }
    }

    /** Writes fields of a buffer other than its block and its links. */
    method SetBuf(b: nat, x: Buf)
      requires Valid() && b < n && BufOk(x, disk, view)
      requires x.dev == buf[b].dev && x.blockno == buf[b].blockno && x.prev == buf[b].prev && x.next == buf[b].next
      requires b in held ==> x.refcnt > 0
      modifies buf
      ensures Valid() && buf[..] == old(buf[..])[b := x]
    {
      hide Agrees, Recency, Linked;
      LinkedFields(buf[..], n, order, b, x);
      AgreesSame(buf[..], n, disk, view, b, x);
      buf[b] := x;
      assert buf[..] == old(buf[..])[b := x];
    }

    /** Gives an unused buffer to a block that is not cached. */
    method Recycle(b: nat, x: Buf)
      requires Valid() && b < n && buf[b].refcnt == 0 && x.refcnt > 0 && !x.valid
      requires x.dev != 0 && (x.dev, x.blockno) in view && !Cached(buf[..], n, (x.dev, x.blockno))
      requires x.prev == buf[b].prev && x.next == buf[b].next
      modifies buf
      ensures Valid() && buf[..] == old(buf[..])[b := x]
    {
      hide Agrees, Recency, Linked;
      LinkedFields(buf[..], n, order, b, x);
      AgreesRecycle(buf[..], n, disk, view, b, x);
      buf[b] := x;
      assert buf[..] == old(buf[..])[b := x];
    }

    /**
      bget up to the sleep-lock: a reference to the buffer for the block. A buffer that
      somebody refers to is never given to another block; None stands for the panic that
      no buffer is free.
     */
    method Bget(dev: nat, blockno: nat) returns (r: Option<nat>)
      requires Valid() && dev != 0 && (dev, blockno) in view
      modifies this, buf
      ensures Valid() && view == old(view) && disk == old(disk) && held == old(held) && stamp == old(stamp)
      ensures r.None? ==> buf[..] == old(buf[..]) && !Cached(buf[..], n, (dev, blockno))
                          && forall i :: 0 <= i < n ==> buf[i].refcnt > 0
      ensures r.Some? ==> r.value < n && Holds(buf[r.value], (dev, blockno))
                          && forall i :: 0 <= i < n && i != r.value ==> buf[i] == old(buf[..])[i]
      ensures r.Some? && old(Cached(buf[..], n, (dev, blockno)))
              ==> buf[r.value] == old(buf[..])[r.value].(refcnt := old(buf[..])[r.value].refcnt + 1)
      ensures r.Some? && !old(Cached(buf[..], n, (dev, blockno)))
              ==> LeastRecent(old(buf[..]), n, stamp, r.value) && buf[r.value].refcnt == 1 && !buf[r.value].valid
    {
      hide Agrees, Recency, Linked;
      var b := Find(dev, blockno);
      if b < n {
        BufAt(buf[..], n, disk, view, b);
        assert Cached(buf[..], n, (dev, blockno));
        SetBuf(b, buf[b].(refcnt := buf[b].refcnt + 1));
        return Some(b);
      }
      b := FindUnused();
      if b < n {
        Recycle(b, buf[b].(dev := dev, blockno := blockno, valid := false, refcnt := 1));
        return Some(b);
      }
      return None;
    }

    /** The end of bget: the caller gets the buffer's sleep-lock when nobody holds it. */
    method Acquire(b: nat)
      requires Valid() && b < n && buf[b].refcnt > 0 && b !in held
      modifies this`held
      ensures Valid() && held == old(held) + {b}
    {
      held := held + {b};
    }

    /** The rest of bread: the caller reads exactly what the block map holds. */
    method Fill(b: nat) returns (data: Data)
      requires Valid() && b in held && buf[b].dev != 0
      modifies buf
      ensures Valid() && Holds(buf[b], (buf[b].dev, buf[b].blockno)) && buf[b].valid
      ensures (buf[b].dev, buf[b].blockno) == old((buf[b].dev, buf[b].blockno)) && buf[b].refcnt == old(buf[b].refcnt)
      ensures (buf[b].dev, buf[b].blockno) in view && data == buf[b].data == view[(buf[b].dev, buf[b].blockno)]
      ensures forall i :: 0 <= i < n && i != b ==> buf[i] == old(buf[..])[i]
    {
      hide Agrees, Recency, Linked;
      BufAt(buf[..], n, disk, view, b);
      if !buf[b].valid {
        var d := disk[(buf[b].dev, buf[b].blockno)];
        SetBuf(b, buf[b].(data := d, valid := true));
      }
      data := buf[b].data;
    }

    /** The holder changes the buffer's data; from now on this is the block. */
    method Modify(b: nat, data: Data)
      requires Valid() && b in held && buf[b].dev != 0 && buf[b].valid
      modifies buf, this`view
      ensures Valid() && buf[..] == old(buf[..])[b := old(buf[..])[b].(data := data)]
      ensures view == old(view)[(buf[b].dev, buf[b].blockno) := data]
    {
      hide Agrees, Recency, Linked;
      LinkedFields(buf[..], n, order, b, buf[b].(data := data));
      AgreesWrite(buf[..], n, disk, view, b, data);
      view := view[(buf[b].dev, buf[b].blockno) := data];
      buf[b] := buf[b].(data := data);
      assert buf[..] == old(buf[..])[b := old(buf[..])[b].(data := data)];
    }

    /** Writes the buffer to the disk. */
    method Bwrite(b: nat)
      requires Valid() && b in held && buf[b].dev != 0 && buf[b].valid
      modifies this`disk
      ensures Valid() && disk == old(disk)[(buf[b].dev, buf[b].blockno) := buf[b].data]
    {
      hide Agrees, Recency, Linked;
      AgreesFlush(buf[..], n, disk, view, b);
      disk := disk[(buf[b].dev, buf[b].blockno) := buf[b].data];
    }

    /** Dropping the last reference is safe once the disk has the data. */
    ghost predicate Clean(b: nat)
      requires buf.Length == n + 1 && b < n
      reads this, buf
    {
      var k := (buf[b].dev, buf[b].blockno);
      buf[b].dev != 0 && buf[b].valid ==> k in disk && disk[k] == buf[b].data
    }

    /**
      Gives up the lock and a reference. A buffer with no reference left moves to the front of
      the ring. Its data must be on the disk by then: every change is written, or logged and
      so pinned, before the buffer is released.
     */
    method Brelse(b: nat)
      requires Valid() && b in held && (buf[b].refcnt == 1 ==> Clean(b))
      modifies this, buf
      ensures Valid() && held == old(held) - {b} && view == old(view) && disk == old(disk)
      ensures SameBut(old(buf[..])[b := old(buf[..])[b].(refcnt := old(buf[..])[b].refcnt - 1)], buf[..])
      ensures if old(buf[b].refcnt) == 1 then order[..1] == [b] && stamp == old(stamp)[b := clock]
        && clock == old(clock) + 1
              else order == old(order) && stamp == old(stamp)
    {
      hide Agrees, Recency, Linked;
      BufAt(buf[..], n, disk, view, b);
      held := held - {b};
      SetBuf(b, buf[b].(refcnt := buf[b].refcnt - 1));
      if buf[b].refcnt == 0 {
        MoveToFront(b);
      }
    }

    /** The two assignments that take `b` out of the ring. */
    method TakeOut(b: nat)
      requires buf.Length == n + 1 && b < n && buf[b].next < buf.Length && buf[b].prev < buf.Length
      requires buf[b].next != b && buf[b].prev != b
      modifies buf
      ensures buf[..] == Unlink(old(buf[..]), b)
    {
      buf[buf[b].next] := buf[buf[b].next].(prev := buf[b].prev);
      buf[buf[b].prev] := buf[buf[b].prev].(next := buf[b].next);
      assert buf[..] == Unlink(old(buf[..]), b);
    }

    /** The six assignments that move `b` to the front of the ring. */
    method MoveToFront(b: nat)
      requires Valid() && b < n
      modifies buf, this`order, this`stamp, this`clock
      ensures Valid() && SameBut(old(buf[..]), buf[..])
      ensures order[..1] == [b] && stamp == old(stamp)[b := clock] && clock == old(clock) + 1
    {
      hide Agrees, Recency, Linked;
      AllInOrder(buf[..], n, order);
      assert b in order;
      ghost var k :| 0 <= k < |order| && order[k] == b;
      ghost var s := buf[..];
      UnlinkOk(s, n, order, k);
      ghost var rest := order[..k] + order[k + 1..];
      TakeOut(b);
      CutDistinct(s, n, order, k);
      PushOk(buf[..], n, rest, b);
      PushFront(b);
      LinksOnly(s, n, b);
      AgreesLinks(s, buf[..], n, disk, view);
      FrontRecency(s, n, stamp, order, clock, k);
      order, stamp, clock := [b] + rest, stamp[b := clock + 1], clock + 1;
    }

    method Bpin(b: nat)
      requires Valid() && b < n
      modifies buf
      ensures Valid() && buf[..] == old(buf[..])[b := old(buf[..])[b].(refcnt := old(buf[..])[b].refcnt + 1)]
    {
      hide Agrees, Recency, Linked;
      BufAt(buf[..], n, disk, view, b);
      SetBuf(b, buf[b].(refcnt := buf[b].refcnt + 1));
    }

    /** Drops a pin; the last reference only when the disk has the data. */
    method Bunpin(b: nat)
      requires Valid() && b < n && buf[b].refcnt > (if b in held then 1 else 0)
      requires buf[b].refcnt == 1 ==> Clean(b)
      modifies buf
      ensures Valid() && buf[..] == old(buf[..])[b := old(buf[..])[b].(refcnt := old(buf[..])[b].refcnt - 1)]
    {
      hide Agrees, Recency, Linked;
      BufAt(buf[..], n, disk, view, b);
      SetBuf(b, buf[b].(refcnt := buf[b].refcnt - 1));
    }
  }
}
