/**
  readi on a file with holes (kernel/fs.c): bmap allocates the blocks that are missing, and
  nobody writes the inode back. What a read may have done, and when a block is lost by it.
 */
module FsRead {
  import opened FsImage
  import opened FsContent
  import opened FsInodes

  predicate AllUsed(bitmap: seq<bool>) { forall c :: 0 <= c < |bitmap| ==> bitmap[c] }

  ghost predicate OnlyInode(d: Disk, e: Disk, inum: nat) {
    e.inodes.Keys == d.inodes.Keys && forall i :: i in d.inodes && i != inum ==> e.inodes[i] == d.inodes[i]
  }

  /** The addresses that an inode has stay. */
  ghost predicate AddrsStay(ip: Inode, jp: Inode) {
    |ip.addrs| == 13 == |jp.addrs| && forall k :: 0 <= k < 13 && ip.addrs[k] != 0 ==> jp.addrs[k] == ip.addrs[k]
  }

  /** To reach block `bn`, bmap has to store an address in the inode. */
  predicate Missing(ip: Inode, bn: nat)
    requires |ip.addrs| == 13
  {
    ip.addrs[if bn < NDIRECT then bn else NDIRECT] == 0
  }

  ghost predicate MissingIn(ip: Inode, off: nat, end: nat)
    requires |ip.addrs| == 13
  {
    off < end && exists bn: nat :: off / 1024 <= bn && bn * 1024 < end && Missing(ip, bn)
  }

  /** A block of the bytes from `off` to `end` does not exist. */
  ghost predicate HoleIn(d: Disk, inum: nat, off: nat, end: nat)
    requires inum in d.inodes && |d.inodes[inum].addrs| == 13
  {
    off < end && exists bn: nat :: off / 1024 <= bn && bn * 1024 < end && BlockNo(d, inum, bn) == 0
  }

  /** What bmap does to an image when it is asked for block `bn`. */
  ghost predicate Mapped(d: Disk, e: Disk, inum: nat, bn: nat) {
    && Owned(d, {}) && Owned(e, {}) && Keeps(d, e) && inum in d.inodes && OnlyInode(d, e, inum)
    && AddrsStay(d.inodes[inum], e.inodes[inum])
    && (AllUsed(d.bitmap) || BlockNo(d, inum, bn) != 0 ==> e == d)
    && (e.inodes == d.inodes <==> AllUsed(d.bitmap) || !Missing(d.inodes[inum], bn))
    && (BlockNo(e, inum, bn) == 0 ==> AllUsed(e.bitmap))
  }

  /** bmap finds the block, or none is free. */
  lemma MapNone(d: Disk, inum: nat, bn: nat)
    requires Owned(d, {}) && inum in d.inodes
    requires AllUsed(d.bitmap) || BlockNo(d, inum, bn) != 0
    ensures Mapped(d, d, inum, bn)
  {
    hide RefsUsed, RefsDiffer, NoLeaks, Get32;
    KeepsSelf(d);
  }

  /** An entry of the indirect block was stored, or none is free. */
  lemma MapEntry(d: Disk, e: Disk, inum: nat, bn: nat)
    requires Owned(d, {}) && Owned(e, {}) && Keeps(d, e) && inum in d.inodes && e.inodes == d.inodes
    requires bn >= NDIRECT && d.inodes[inum].addrs[NDIRECT] != 0 && BlockNo(d, inum, bn) == 0
    requires (AllUsed(d.bitmap) ==> e == d) && (BlockNo(e, inum, bn) == 0 ==> AllUsed(e.bitmap))
    ensures Mapped(d, e, inum, bn)
  {
    hide RefsUsed, RefsDiffer, NoLeaks, BlockNo, Keeps;
  }

  /** An address was stored in the inode, and then perhaps an entry of the indirect block. */
  lemma MapAddr(d: Disk, e: Disk, inum: nat, bn: nat)
    requires Owned(d, {}) && Owned(e, {}) && Keeps(d, e) && inum in d.inodes && OnlyInode(d, e, inum)
    requires var i := if bn < NDIRECT then bn else NDIRECT;
      && d.inodes[inum].addrs[i] == 0 != e.inodes[inum].addrs[i]
      && forall k :: 0 <= k < 13 && k != i ==> e.inodes[inum].addrs[k] == d.inodes[inum].addrs[k]
    requires !AllUsed(d.bitmap) && (BlockNo(e, inum, bn) == 0 ==> AllUsed(e.bitmap))
    ensures Mapped(d, e, inum, bn)
  {
    hide RefsUsed, RefsDiffer, NoLeaks, Keeps;
  }

  /** What reading the bytes from `off` to `pos` may have done to an image. */
  ghost predicate Reading(d: Disk, e: Disk, inum: nat, off: nat, pos: nat) {
    && Owned(d, {}) && Owned(e, {}) && Keeps(d, e) && inum in d.inodes && OnlyInode(d, e, inum)
    && AddrsStay(d.inodes[inum], e.inodes[inum])
    && (AllUsed(d.bitmap) || !HoleIn(d, inum, off, pos) ==> e == d)
    && (e.inodes == d.inodes <==> AllUsed(d.bitmap) || !MissingIn(d.inodes[inum], off, pos))
    && (e.inodes == d.inodes && (d.inodes[inum].addrs[NDIRECT] == 0 || pos <= NDIRECT * 1024) ==> e == d)
  }

  lemma ReadingNone(d: Disk, inum: nat, off: nat)
    requires Owned(d, {}) && inum in d.inodes
    ensures Reading(d, d, inum, off, off)
  {
    hide RefsUsed, RefsDiffer, NoLeaks;
    KeepsSelf(d);
  }

  /** Another block: from `pos`, where a block or the read begins, to `next` in the same block. */
  lemma MissingNext(ip: Inode, off: nat, pos: nat, next: nat)
    requires |ip.addrs| == 13 && off <= pos < next <= pos / 1024 * 1024 + 1024 && (pos == off || pos % 1024 == 0)
    ensures MissingIn(ip, off, next) <==> MissingIn(ip, off, pos) || Missing(ip, pos / 1024)
  {
    hide Missing;
    if MissingIn(ip, off, next) {
      var bn: nat :| off / 1024 <= bn && bn * 1024 < next && Missing(ip, bn);
      assert bn <= pos / 1024;
      if bn < pos / 1024 {
        assert bn * 1024 < pos && off < pos;
      }
    }
  }

  lemma HoleNext(d: Disk, inum: nat, off: nat, pos: nat, next: nat)
    requires inum in d.inodes && |d.inodes[inum].addrs| == 13
    requires off <= pos < next <= pos / 1024 * 1024 + 1024 && (pos == off || pos % 1024 == 0)
    ensures HoleIn(d, inum, off, next) <==> HoleIn(d, inum, off, pos) || BlockNo(d, inum, pos / 1024) == 0
  {
    hide BlockNo;
    if HoleIn(d, inum, off, next) {
      var bn: nat :| off / 1024 <= bn && bn * 1024 < next && BlockNo(d, inum, bn) == 0;
      assert bn <= pos / 1024;
      if bn < pos / 1024 {
        assert bn * 1024 < pos && off < pos;
      }
    }
  }

  lemma AddrsTrans(ip: Inode, jp: Inode, kp: Inode)
    requires AddrsStay(ip, jp) && AddrsStay(jp, kp)
    ensures AddrsStay(ip, kp)
    ensures jp.addrs != ip.addrs ==> kp.addrs != ip.addrs
  {
    if jp.addrs != ip.addrs {
      var k :| 0 <= k < 13 && jp.addrs[k] != ip.addrs[k];
      assert ip.addrs[k] == 0 && kp.addrs[k] == jp.addrs[k];
    }
  }

  /** The inode table has changed when the addresses of the inode have. */
  lemma InodesDiffer(d: Disk, e: Disk, inum: nat)
    requires SameMeta(d, e) && inum in d.inodes && OnlyInode(d, e, inum)
    ensures e.inodes == d.inodes <==> e.inodes[inum].addrs == d.inodes[inum].addrs
  {
    assert e.inodes[inum].(addrs := d.inodes[inum].addrs) == d.inodes[inum];
  }

  lemma InodesTrans(d: Disk, c: Disk, e: Disk, inum: nat)
    requires SameMeta(d, c) && SameMeta(c, e) && SameMeta(d, e) && inum in d.inodes
    requires OnlyInode(d, c, inum) && OnlyInode(c, e, inum)
    requires AddrsStay(d.inodes[inum], c.inodes[inum]) && AddrsStay(c.inodes[inum], e.inodes[inum])
    ensures OnlyInode(d, e, inum) && AddrsStay(d.inodes[inum], e.inodes[inum])
    ensures e.inodes == d.inodes <==> c.inodes == d.inodes && e.inodes == c.inodes
  {
    hide AddrsStay, SameMeta;
    AddrsTrans(d.inodes[inum], c.inodes[inum], e.inodes[inum]);
    InodesDiffer(d, c, inum);
    InodesDiffer(d, e, inum);
  }

  lemma KeepsMeta(d: Disk, e: Disk)
    requires Keeps(d, e)
    ensures SameMeta(d, e)
  {
  }

  lemma ReadingStep(d: Disk, c: Disk, e: Disk, inum: nat, off: nat, pos: nat, next: nat)
    requires Reading(d, c, inum, off, pos) && Mapped(c, e, inum, pos / 1024)
    requires off <= pos < next <= pos / 1024 * 1024 + 1024 && (pos == off || pos % 1024 == 0)
    ensures Reading(d, e, inum, off, next)
    ensures BlockNo(e, inum, pos / 1024) == 0 ==> HoleIn(d, inum, off, next)
  {
    hide Owned, Keeps, OnlyInode, AddrsStay, AllUsed, MissingIn, BlockNo, SameMeta, HoleIn;
    KeepsTrans(d, c, e);
    KeepsMeta(d, c);
    KeepsMeta(c, e);
    KeepsMeta(d, e);
    InodesTrans(d, c, e, inum);
    OwnedForm(d);
    OwnedForm(c);
    MissingNext(d.inodes[inum], off, pos, next);
    HoleNext(d, inum, off, pos, next);
    StaysThere(d, e, inum, pos / 1024);
    DirectThere(c, inum, pos / 1024);
  }

  lemma StaysThere(d: Disk, e: Disk, inum: nat, bn: nat)
    requires Keeps(d, e) && inum in d.inodes
    ensures inum in e.inodes && |d.inodes[inum].addrs| == |e.inodes[inum].addrs| == 13
    ensures BlockNo(d, inum, bn) != 0 ==> BlockNo(e, inum, bn) == BlockNo(d, inum, bn)
  {
    hide BlockNo, SameData;
  }

  lemma DirectThere(d: Disk, inum: nat, bn: nat)
    requires inum in d.inodes && |d.inodes[inum].addrs| == 13
    ensures bn < NDIRECT && !Missing(d.inodes[inum], bn) ==> BlockNo(d, inum, bn) != 0
  {
  }

  /** A read that stops because the disk is full has done all that it could have done. */
  lemma ReadingStuck(d: Disk, e: Disk, inum: nat, off: nat, pos: nat, end: nat)
    requires Reading(d, e, inum, off, pos) && AllUsed(e.bitmap) && off < pos <= end
    ensures Reading(d, e, inum, off, end)
  {
    hide Owned, Keeps, OnlyInode, AddrsStay, BlockNo, AllUsed;
  }

  /** What an old address leads to is where the new one leads. */
  lemma OldSlot(d: Disk, e: Disk, inum: nat, t: Slot)
    requires inum in d.inodes && OnlyInode(d, e, inum) && AddrsStay(d.inodes[inum], e.inodes[inum])
    ensures var f := e.(inodes := d.inodes);
      SlotIn(f, t) && Ref(f, t) != 0 ==>
        && SlotIn(e, t) && Ref(e, t) == Ref(f, t)
        && (t.inum == inum && t.Direct? ==> d.inodes[inum].addrs[t.i] != 0)
        && (t.inum == inum && t.Indirect? ==> d.inodes[inum].addrs[NDIRECT] != 0)
  {
  }

  /**
    If the inode is not written back, a block is lost: it is marked used, and no address on
    the disk leads to it.
   */
  lemma HoleLeaks(d: Disk, e: Disk, inum: nat)
    requires Owned(e, {}) && SameMeta(d, e) && inum in d.inodes && OnlyInode(d, e, inum)
    requires AddrsStay(d.inodes[inum], e.inodes[inum]) && e.inodes != d.inodes
    ensures !Owned(e.(inodes := d.inodes), {})
  {
    InodesDiffer(d, e, inum);
    var f := e.(inodes := d.inodes);
    var k :| 0 <= k < 13 && e.inodes[inum].addrs[k] != d.inodes[inum].addrs[k];
    var b := e.inodes[inum].addrs[k];
    var s := if k < NDIRECT then Direct(inum, k) else Indirect(inum);
    assert SlotIn(e, s) && Ref(e, s) == b && d.inodes[inum].addrs[k] == 0;
    forall t | SlotIn(f, t)
      ensures Ref(f, t) != b
    {
      OldSlot(d, e, inum, t);
    }
  }

  /** A root directory as mkfs makes it when the entries fill one block: a second one is in its size only. */
  function HoleDisk(): Disk {
    Disk(1, [true, true, false], map[0 := ZeroBlock(), 1 := ZeroBlock(), 2 := ZeroBlock()],
         map[1 := Inode(1, 1, 2048, [1, 0, 0, 0, 0, 0, 0, 0, 0, 0, 0, 0, 0])])
  }

  lemma HoleRefs(s: Slot)
    requires SlotIn(HoleDisk(), s)
    ensures s.inum == 1 && Ref(HoleDisk(), s) == if s == Direct(1, 0) then 1 else 0
  {
  }

  /** Such an image is in good order, and a read of the first entry in the second block allocates it. */
  lemma RootHole()
    ensures var d := HoleDisk();
      && Owned(d, {}) && Sized(d) && FreeInodes(d.inodes)
      && !AllUsed(d.bitmap) && MissingIn(d.inodes[1], 1024, 1040)
  {
    var d := HoleDisk();
    forall s | SlotIn(d, s)
      ensures s.inum == 1 && Ref(d, s) == if s == Direct(1, 0) then 1 else 0
    {
      HoleRefs(s);
    }
    assert SlotIn(d, Direct(1, 0));
    assert !d.bitmap[2] && Missing(d.inodes[1], 1);
  }
}
