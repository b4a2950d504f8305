/**
  Inodes that are allocated and freed: a free inode owns no block, so that ialloc may clear it
  and iput leaves nothing behind.
 */
module FsInodes {
  import opened FsImage
  import opened FsContent

  function NoAddrs(): seq<nat> { seq(13, _ => 0) }

  /** A free inode is empty and has no links. */
  predicate FreeInode(ip: Inode) { ip.kind == 0 ==> ip.nlink == 0 && ip.size == 0 && ip.addrs == NoAddrs() }

  predicate FreeInodes(inodes: map<nat, Inode>) { forall i :: i in inodes ==> FreeInode(inodes[i]) }

  /** A used data block belongs to exactly one slot, and that slot to an inode in use. */
  lemma UsedByLive(d: Disk, b: nat)
    requires Owned(d, {}) && FreeInodes(d.inodes) && d.first <= b < |d.bitmap|
    ensures d.bitmap[b] <==> exists s :: SlotIn(d, s) && Ref(d, s) == b && d.inodes[s.inum].kind != 0
    ensures forall s, t :: SlotIn(d, s) && SlotIn(d, t) && Ref(d, s) == b && Ref(d, t) == b ==> s == t
  {
    if d.bitmap[b] {
      var s :| SlotIn(d, s) && Ref(d, s) == b;
      OwnerInUse(d, s);
    }
  }

  lemma OwnerInUse(d: Disk, s: Slot)
    requires FreeInodes(d.inodes) && SlotIn(d, s) && Ref(d, s) != 0
    ensures d.inodes[s.inum].kind != 0
  {
    assert FreeInode(d.inodes[s.inum]);
  }

  function WithInode(d: Disk, inum: nat, ip: Inode): Disk { d.(inodes := d.inodes[inum := ip]) }

  /** An inode that changes neither its size nor its addresses. */
  lemma Relabel(d: Disk, inum: nat, ip: Inode)
    requires Owned(d, {}) && Sized(d) && inum in d.inodes
    requires ip.size == d.inodes[inum].size && ip.addrs == d.inodes[inum].addrs
    ensures var e := WithInode(d, inum, ip);
      && Owned(e, {}) && Sized(e) && NoNewHoles(d, e)
      && OtherContents(d, e, inum) && Content(e, inum) == Content(d, inum)
  {
    var e := WithInode(d, inum, ip);
    forall c | 0 <= c < |e.bitmap|
      ensures BlockIn(e, c)
    {
      assert BlockIn(d, c);
    }
    assert WellFormed(e);
    SameRefsOwned(d, e);
    hide Ref, Get32, RefsUsed, RefsDiffer, NoLeaks;
    forall i, bn: nat | i in d.inodes
      ensures BlockNo(e, i, bn) == BlockNo(d, i, bn)
    {
      if bn < NDIRECT + NINDIRECT {
        assert SlotIn(d, SlotOf(i, bn)) && Ref(e, SlotOf(i, bn)) == Ref(d, SlotOf(i, bn));
      }
    }
    forall i | i in d.inodes
      ensures NoHoles(d, i) ==> NoHoles(e, i)
      ensures Content(e, i) == Content(d, i)
    {
    }
  }

  lemma KeepsFree(inodes: map<nat, Inode>, inum: nat, ip: Inode)
    requires FreeInodes(inodes) && FreeInode(ip)
    ensures FreeInodes(inodes[inum := ip])
  {
  }

  /** Every file but `inum` has the slots it had, and `inum` has none left: its blocks are free. */
  lemma NothingLeft(d: Disk, e: Disk, inum: nat, s: Slot)
    requires Owned(d, {}) && Owned(e, {}) && e.first == d.first && |e.bitmap| == |d.bitmap|
    requires OthersSame(d, e, inum) && inum in e.inodes && e.inodes[inum].addrs == NoAddrs()
    requires SlotIn(d, s) && s.inum == inum && Ref(d, s) != 0
    ensures Ref(d, s) < |e.bitmap| && !e.bitmap[Ref(d, s)]
  {
    var b := Ref(d, s);
    if HasOwner(e, b) {
      var t :| SlotIn(e, t) && Ref(e, t) == b;
      SameSlot(d, e, inum, t);
    }
  }

  /** A slot of another file refers to what it did. */
  lemma SameSlot(d: Disk, e: Disk, inum: nat, t: Slot)
    requires OthersSame(d, e, inum) && SlotIn(e, t) && inum in e.inodes && e.inodes[inum].addrs == NoAddrs()
    ensures Ref(e, t) != 0 ==> t.inum != inum && SlotIn(d, t) && Ref(d, t) == Ref(e, t)
  {
    if t.inum != inum {
      match t
      case Direct(i, k) => assert BlockNo(e, i, k) == BlockNo(d, i, k);
      case Entry(i, j) => assert BlockNo(e, i, NDIRECT + j) == BlockNo(d, i, NDIRECT + j);
      case Indirect(_) =>
    }
  }
}
