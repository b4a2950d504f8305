/**
  The part of a disk image that kernel/fs.c manages: the block bitmap, the data area and the
  inodes, with the indirect blocks stored as bytes. A block is referred to from a slot: a
  direct address, the indirect address, or an entry of the indirect block of an inode.
 */
module FsImage {

  /** A disk block of 1024 bytes. */
  type Block = seq<nat>

  const NDIRECT: nat := 12
  const NINDIRECT: nat := 256

  datatype Inode = Inode(kind: nat, nlink: int, size: nat, addrs: seq<nat>)

  /** `first` is the first block of the data area. */
  datatype Disk = Disk(first: nat, bitmap: seq<bool>, blocks: map<nat, Block>, inodes: map<nat, Inode>)

  function ZeroBlock(): (b: Block)
    ensures |b| == 1024
  {
    seq(1024, _ => 0)
  }

  // ----- 32-bit entries of an indirect block, little-endian -----

  function Get32(b: Block, j: nat): nat
    requires |b| == 1024 && j < 256
  {
    b[4 * j] + 0x100 * b[4 * j + 1] + 0x1_0000 * b[4 * j + 2] + 0x100_0000 * b[4 * j + 3]
  }

  function Put32(b: Block, j: nat, v: nat): (r: Block)
    requires |b| == 1024 && j < 256 && v < 0x1_0000_0000
    ensures |r| == 1024
  {
    b[4 * j := v % 0x100]
     [4 * j + 1 := v / 0x100 % 0x100]
     [4 * j + 2 := v / 0x1_0000 % 0x100]
     [4 * j + 3 := v / 0x100_0000]
  }

  lemma Bytes32(v: nat)
    ensures v % 0x100 + 0x100 * (v / 0x100 % 0x100) + 0x1_0000 * (v / 0x1_0000 % 0x100)
      + 0x100_0000 * (v / 0x100_0000) == v
  {
    assert v == 0x100 * (v / 0x100) + v % 0x100;
    assert v / 0x100 == 0x100 * (v / 0x100 / 0x100) + v / 0x100 % 0x100;
    assert v / 0x100 / 0x100 == v / 0x1_0000;
    assert v / 0x1_0000 == 0x100 * (v / 0x1_0000 / 0x100) + v / 0x1_0000 % 0x100;
    assert v / 0x1_0000 / 0x100 == v / 0x100_0000;
  }

  /** Writing an entry changes that entry and no other. */
  lemma GetPut(b: Block, j: nat, v: nat, k: nat)
    requires |b| == 1024 && j < 256 && k < 256 && v < 0x1_0000_0000
    ensures Get32(Put32(b, j, v), k) == if j == k then v else Get32(b, k)
  {
    Bytes32(v);
  }

  // ----- slots -----

  datatype Slot = Direct(inum: nat, i: nat) | Indirect(inum: nat) | Entry(inum: nat, j: nat)

  predicate SlotIn(d: Disk, s: Slot) {
    && s.inum in d.inodes && |d.inodes[s.inum].addrs| == 13
    && (s.Direct? ==> s.i < NDIRECT) && (s.Entry? ==> s.j < NINDIRECT)
  }

  predicate BlockIn(d: Disk, b: nat) { b in d.blocks && |d.blocks[b]| == 1024 }

  function At(d: Disk, b: nat): (r: Block)
    ensures |r| == 1024
  {
    if BlockIn(d, b) then d.blocks[b] else ZeroBlock()
  }

  /** The block that a slot refers to; 0 means none. */
  function Ref(d: Disk, s: Slot): nat
    requires SlotIn(d, s)
  {
    var addrs := d.inodes[s.inum].addrs;
    match s
    case Direct(_, i) => addrs[i]
    case Indirect(_) => addrs[12]
    case Entry(_, j) => if addrs[12] != 0 && BlockIn(d, addrs[12]) then Get32(d.blocks[addrs[12]], j) else 0
  }

  /** Sizes and ranges: every block number below the size of the disk is a block. */
  ghost predicate WellFormed(d: Disk) {
    && 0 < d.first <= |d.bitmap| <= 0x1_0000_0000
    && (forall b :: 0 <= b < |d.bitmap| ==> BlockIn(d, b))
    && (forall i :: i in d.inodes ==> |d.inodes[i].addrs| == 13)
    && (forall b :: 0 <= b < d.first ==> d.bitmap[b])
  }

  /** Whatever a slot refers to is a data block that is marked used. */
  ghost predicate RefsUsed(d: Disk) {
    forall s :: SlotIn(d, s) && Ref(d, s) != 0 ==> d.first <= Ref(d, s) < |d.bitmap| && d.bitmap[Ref(d, s)]
  }

  /** No two slots refer to the same block. */
  ghost predicate RefsDiffer(d: Disk) {
    forall s, t :: SlotIn(d, s) && SlotIn(d, t) && Ref(d, s) == Ref(d, t) != 0 ==> s == t
  }

  ghost predicate HasOwner(d: Disk, b: nat) {
    exists s :: SlotIn(d, s) && Ref(d, s) == b
  }

  /** Every used data block has a slot, except those in `extra`, which have none. */
  ghost predicate NoLeaks(d: Disk, extra: set<nat>) {
    && (forall b :: d.first <= b < |d.bitmap| && d.bitmap[b] && b !in extra ==> HasOwner(d, b))
    && (forall b :: b in extra ==> d.first <= b < |d.bitmap| && d.bitmap[b] && !HasOwner(d, b))
  }

  /** The bitmap and the slots agree: used blocks and owned blocks are the same, one owner each. */
  ghost predicate Owned(d: Disk, extra: set<nat>) {
    WellFormed(d) && RefsUsed(d) && RefsDiffer(d) && NoLeaks(d, extra)
  }

  // ----- file contents -----

  /** The block that holds bytes 1024*bn .. of a file, or 0. */
  function BlockNo(d: Disk, inum: nat, bn: nat): nat
    requires inum in d.inodes && |d.inodes[inum].addrs| == 13
  {
    if bn < NDIRECT then Ref(d, Direct(inum, bn))
    else if bn < NDIRECT + NINDIRECT then Ref(d, Entry(inum, bn - NDIRECT))
    else 0
  }

  ghost function Data(d: Disk, inum: nat, bn: nat): (r: Block)
    requires inum in d.inodes && |d.inodes[inum].addrs| == 13
    ensures |r| == 1024
  {
    var b := BlockNo(d, inum, bn);
    if b != 0 then At(d, b) else ZeroBlock()
  }

  ghost function ByteAt(d: Disk, inum: nat, k: nat): nat
    requires inum in d.inodes && |d.inodes[inum].addrs| == 13
  {
    Data(d, inum, k / 1024)[k % 1024]
  }

  /** A file as a sequence of bytes. */
  ghost function Content(d: Disk, inum: nat): (c: seq<nat>)
    requires inum in d.inodes && |d.inodes[inum].addrs| == 13
    ensures |c| == d.inodes[inum].size
  {
    seq(d.inodes[inum].size, k requires k >= 0 => ByteAt(d, inum, k))
  }

  /** Every block below the file's size exists. */
  ghost predicate NoHoles(d: Disk, inum: nat)
    requires inum in d.inodes && |d.inodes[inum].addrs| == 13
  {
    forall bn: nat :: bn * 1024 < d.inodes[inum].size ==> BlockNo(d, inum, bn) != 0
  }

  // ----- changing one reference -----

  /** `e` has the slots of `d`, and only slot `s` refers elsewhere. */
  ghost predicate RefsExcept(d: Disk, e: Disk, s: Slot, b: nat) {
    && (forall t :: SlotIn(d, t) <==> SlotIn(e, t))
    && (forall t :: SlotIn(d, t) ==> Ref(e, t) == if t == s then b else Ref(d, t))
  }

  ghost predicate SameRefs(d: Disk, e: Disk) {
    && (forall t :: SlotIn(d, t) <==> SlotIn(e, t))
    && (forall t :: SlotIn(d, t) ==> Ref(e, t) == Ref(d, t))
  }

  /** An allocated block that gets its first slot. */
  lemma Adopt(d: Disk, e: Disk, s: Slot, b: nat)
    requires Owned(d, {b}) && WellFormed(e) && e.bitmap == d.bitmap && e.first == d.first
    requires SlotIn(d, s) && Ref(d, s) == 0 && RefsExcept(d, e, s, b)
    ensures Owned(e, {})
  {
  }

  /** A slot that is cleared when its block is freed. */
  lemma Release(d: Disk, e: Disk, s: Slot, extra: set<nat>)
    requires Owned(d, extra) && WellFormed(e) && e.first == d.first
    requires SlotIn(d, s) && Ref(d, s) != 0 && RefsExcept(d, e, s, 0)
    requires e.bitmap == d.bitmap[Ref(d, s) := false]
    ensures Owned(e, extra)
  {
    forall t | SlotIn(e, t) && Ref(e, t) != 0
      ensures e.first <= Ref(e, t) < |e.bitmap| && e.bitmap[Ref(e, t)]
    {
      assert Ref(d, t) != Ref(d, s);
    }
    forall b | e.first <= b < |e.bitmap| && e.bitmap[b] && b !in extra
      ensures HasOwner(e, b)
    {
      var t :| SlotIn(d, t) && Ref(d, t) == b;
      assert Ref(e, t) == b;
    }
    forall b | b in extra
      ensures e.first <= b < |e.bitmap| && e.bitmap[b] && !HasOwner(e, b)
    {
      assert b != Ref(d, s);
    }
  }

  // ----- allocation -----

  /** A free block, marked and zeroed. */
  function Allocated(d: Disk, b: nat): Disk
    requires b < |d.bitmap|
  {
    d.(bitmap := d.bitmap[b := true], blocks := d.blocks[b := ZeroBlock()])
  }

  lemma Unowned(d: Disk, b: nat)
    requires Owned(d, {}) && b < |d.bitmap| && !d.bitmap[b]
    ensures d.first <= b && !HasOwner(d, b)
  {
  }

  lemma AllocRefs(d: Disk, b: nat)
    requires Owned(d, {}) && b < |d.bitmap| && !d.bitmap[b]
    ensures SameRefs(d, Allocated(d, b))
  {
    var e := Allocated(d, b);
    forall t | SlotIn(d, t)
      ensures Ref(e, t) == Ref(d, t)
    {
      if t.Entry? {
        assert SlotIn(d, Indirect(t.inum)) && Ref(d, Indirect(t.inum)) != b;
      }
    }
  }

  lemma AllocOwned(d: Disk, b: nat)
    requires Owned(d, {}) && b < |d.bitmap| && !d.bitmap[b]
    ensures Owned(Allocated(d, b), {b})
  {
    var e := Allocated(d, b);
    AllocRefs(d, b);
    forall c | 0 <= c < |e.bitmap|
      ensures BlockIn(e, c)
    {
      assert BlockIn(d, c);
    }
    assert WellFormed(e);
    forall c | e.first <= c < |e.bitmap| && e.bitmap[c] && c !in {b}
      ensures HasOwner(e, c)
    {
      var t :| SlotIn(d, t) && Ref(d, t) == c;
      assert Ref(e, t) == c;
    }
  }

  // ----- what a file operation must keep -----

  ghost predicate SameMeta(d: Disk, e: Disk) {
    && e.first == d.first && |e.bitmap| == |d.bitmap| && e.inodes.Keys == d.inodes.Keys
    && (forall i :: i in d.inodes ==> e.inodes[i].(addrs := d.inodes[i].addrs) == d.inodes[i])
  }

  ghost predicate SameData(d: Disk, e: Disk)
    requires WellFormed(d) && WellFormed(e) && SameMeta(d, e)
  {
    forall i, bn: nat :: i in d.inodes ==> Data(e, i, bn) == Data(d, i, bn)
  }

  ghost predicate RefsStay(d: Disk, e: Disk)
    requires WellFormed(d) && WellFormed(e) && SameMeta(d, e)
  {
    forall i, bn: nat :: i in d.inodes && BlockNo(d, i, bn) != 0 ==> BlockNo(e, i, bn) == BlockNo(d, i, bn)
  }

  /** `e` holds the same files as `d`, with blocks added at most. */
  ghost predicate Keeps(d: Disk, e: Disk) {
    WellFormed(d) && WellFormed(e) && SameMeta(d, e) && SameData(d, e) && RefsStay(d, e)
  }

  lemma KeepsSelf(d: Disk)
    requires WellFormed(d)
    ensures Keeps(d, d)
  {
  }

  lemma KeepsTrans(d: Disk, e: Disk, f: Disk)
    requires Keeps(d, e) && Keeps(e, f)
    ensures Keeps(d, f)
  {
  }

  /** The slot that BlockNo reads. */
  function SlotOf(inum: nat, bn: nat): (s: Slot)
    requires bn < NDIRECT + NINDIRECT
    ensures s.inum == inum
  {
    if bn < NDIRECT then Direct(inum, bn) else Entry(inum, bn - NDIRECT)
  }

  lemma AllocKeeps(d: Disk, b: nat)
    requires Owned(d, {}) && b < |d.bitmap| && !d.bitmap[b]
    ensures Keeps(d, Allocated(d, b))
  {
    var e := Allocated(d, b);
    AllocRefs(d, b);
    AllocOwned(d, b);
    forall i, bn: nat | i in d.inodes
      ensures BlockNo(e, i, bn) == BlockNo(d, i, bn) && Data(e, i, bn) == Data(d, i, bn)
    {
      if bn < NDIRECT + NINDIRECT {
        var s := SlotOf(i, bn);
        assert SlotIn(d, s) && BlockNo(d, i, bn) == Ref(d, s) != b;
      }
    }
  }

  /** Giving a zeroed block to an empty slot changes no byte of any file. */
  lemma AdoptKeeps(d: Disk, e: Disk, s: Slot, b: nat)
    requires Owned(d, {b}) && WellFormed(e) && SameMeta(d, e)
    requires SlotIn(d, s) && Ref(d, s) == 0 && RefsExcept(d, e, s, b)
    requires At(e, b) == ZeroBlock()
    requires forall t :: SlotIn(d, t) && !t.Indirect? && Ref(d, t) != 0 ==> At(e, Ref(d, t)) == At(d, Ref(d, t))
    ensures Keeps(d, e)
  {
    forall i, bn: nat | i in d.inodes
      ensures BlockNo(d, i, bn) != 0 ==> BlockNo(e, i, bn) == BlockNo(d, i, bn)
      ensures Data(e, i, bn) == Data(d, i, bn)
    {
      if bn < NDIRECT + NINDIRECT {
        var t := SlotOf(i, bn);
        assert SlotIn(d, t) && BlockNo(d, i, bn) == Ref(d, t) && BlockNo(e, i, bn) == Ref(e, t);
      }
    }
  }

  // ----- the references that bmap and itrunc store -----

  function WithAddr(d: Disk, inum: nat, i: nat, b: nat): Disk
    requires inum in d.inodes && i < |d.inodes[inum].addrs|
  {
    var ip := d.inodes[inum];
    d.(inodes := d.inodes[inum := ip.(addrs := ip.addrs[i := b])])
  }

  function WithEntry(d: Disk, ib: nat, j: nat, b: nat): Disk
    requires BlockIn(d, ib) && j < NINDIRECT && b < 0x1_0000_0000
  {
    d.(blocks := d.blocks[ib := Put32(d.blocks[ib], j, b)])
  }

  lemma WithAddrForm(d: Disk, inum: nat, i: nat, b: nat)
    requires WellFormed(d) && inum in d.inodes && i < 13
    ensures WellFormed(WithAddr(d, inum, i, b)) && SameMeta(d, WithAddr(d, inum, i, b))
  {
    var e := WithAddr(d, inum, i, b);
    forall c | 0 <= c < |e.bitmap|
      ensures BlockIn(e, c)
    {
      assert BlockIn(d, c);
    }
  }

  lemma WithEntryForm(d: Disk, ib: nat, j: nat, b: nat)
    requires WellFormed(d) && BlockIn(d, ib) && j < NINDIRECT && b < 0x1_0000_0000
    ensures WellFormed(WithEntry(d, ib, j, b)) && SameMeta(d, WithEntry(d, ib, j, b))
  {
    var e := WithEntry(d, ib, j, b);
    forall c | 0 <= c < |e.bitmap|
      ensures BlockIn(e, c)
    {
      assert BlockIn(d, c);
    }
  }

  lemma DirectRefs(d: Disk, inum: nat, i: nat, b: nat)
    requires inum in d.inodes && |d.inodes[inum].addrs| == 13 && i < NDIRECT
    ensures RefsExcept(d, WithAddr(d, inum, i, b), Direct(inum, i), b)
  {
  }

  /** The entries of a fresh indirect block are all empty. */
  lemma IndirectRefs(d: Disk, inum: nat, b: nat)
    requires inum in d.inodes && |d.inodes[inum].addrs| == 13 && d.inodes[inum].addrs[12] == 0
    requires At(d, b) == ZeroBlock()
    ensures RefsExcept(d, WithAddr(d, inum, 12, b), Indirect(inum), b)
  {
  }

  lemma EntryRefs(d: Disk, inum: nat, j: nat, b: nat)
    requires WellFormed(d) && RefsDiffer(d)
    requires inum in d.inodes && d.inodes[inum].addrs[12] != 0 && BlockIn(d, d.inodes[inum].addrs[12])
    requires j < NINDIRECT && b < 0x1_0000_0000
    ensures RefsExcept(d, WithEntry(d, d.inodes[inum].addrs[12], j, b), Entry(inum, j), b)
  {
    var ib := d.inodes[inum].addrs[12];
    var e := WithEntry(d, ib, j, b);
    forall t | SlotIn(d, t)
      ensures Ref(e, t) == if t == Entry(inum, j) then b else Ref(d, t)
    {
      if t.Entry? {
        if t.inum == inum {
          GetPut(d.blocks[ib], j, b, t.j);
        } else {
          assert SlotIn(d, Indirect(t.inum)) && SlotIn(d, Indirect(inum));
          assert Ref(d, Indirect(inum)) == ib;
          assert Ref(d, Indirect(t.inum)) == d.inodes[t.inum].addrs[12];
        }
      }
    }
  }

  lemma AddDirect(d: Disk, inum: nat, i: nat, b: nat)
    requires Owned(d, {b}) && At(d, b) == ZeroBlock()
    requires inum in d.inodes && i < NDIRECT && d.inodes[inum].addrs[i] == 0
    ensures Owned(WithAddr(d, inum, i, b), {}) && Keeps(d, WithAddr(d, inum, i, b))
  {
    var e := WithAddr(d, inum, i, b);
    WithAddrForm(d, inum, i, b);
    DirectRefs(d, inum, i, b);
    assert SlotIn(d, Direct(inum, i)) && Ref(d, Direct(inum, i)) == 0;
    Adopt(d, e, Direct(inum, i), b);
    AdoptKeeps(d, e, Direct(inum, i), b);
  }

  lemma AddIndirect(d: Disk, inum: nat, b: nat)
    requires Owned(d, {b}) && At(d, b) == ZeroBlock()
    requires inum in d.inodes && d.inodes[inum].addrs[12] == 0
    ensures Owned(WithAddr(d, inum, 12, b), {}) && Keeps(d, WithAddr(d, inum, 12, b))
  {
    var e := WithAddr(d, inum, 12, b);
    WithAddrForm(d, inum, 12, b);
    IndirectRefs(d, inum, b);
    assert SlotIn(d, Indirect(inum)) && Ref(d, Indirect(inum)) == 0;
    Adopt(d, e, Indirect(inum), b);
    AdoptKeeps(d, e, Indirect(inum), b);
  }

  lemma AddEntry(d: Disk, inum: nat, j: nat, b: nat)
    requires Owned(d, {b}) && At(d, b) == ZeroBlock()
    requires inum in d.inodes && d.inodes[inum].addrs[12] != 0 && j < NINDIRECT
    requires BlockIn(d, d.inodes[inum].addrs[12]) && Get32(d.blocks[d.inodes[inum].addrs[12]], j) == 0
    requires b < 0x1_0000_0000
    ensures Owned(WithEntry(d, d.inodes[inum].addrs[12], j, b), {})
    ensures Keeps(d, WithEntry(d, d.inodes[inum].addrs[12], j, b))
  {
    var ib := d.inodes[inum].addrs[12];
    var e := WithEntry(d, ib, j, b);
    WithEntryForm(d, ib, j, b);
    EntryRefs(d, inum, j, b);
    assert SlotIn(d, Entry(inum, j)) && Ref(d, Entry(inum, j)) == 0;
    Adopt(d, e, Entry(inum, j), b);
    assert SlotIn(d, Indirect(inum)) && Ref(d, Indirect(inum)) == ib;
    assert b in {b};
    AdoptKeeps(d, e, Entry(inum, j), b);
  }

  // ----- data blocks -----

  function WithData(d: Disk, b: nat, data: Block): Disk {
    d.(blocks := d.blocks[b := data])
  }

  lemma DataRefs(d: Disk, s: Slot, data: Block)
    requires Owned(d, {}) && |data| == 1024
    requires SlotIn(d, s) && Ref(d, s) != 0 && !s.Indirect?
    ensures WellFormed(WithData(d, Ref(d, s), data)) && SameRefs(d, WithData(d, Ref(d, s), data))
  {
    var b := Ref(d, s);
    var e := WithData(d, b, data);
    forall c | 0 <= c < |e.bitmap|
      ensures BlockIn(e, c)
    {
      assert BlockIn(d, c);
    }
    forall t | SlotIn(d, t)
      ensures Ref(e, t) == Ref(d, t)
    {
      if t.Entry? {
        var u := Indirect(t.inum);
        assert SlotIn(d, u) && Ref(d, u) == d.inodes[t.inum].addrs[12] && u != s;
      }
    }
  }

  lemma SameRefsOwned(d: Disk, e: Disk)
    requires Owned(d, {}) && WellFormed(e) && SameRefs(d, e) && e.first == d.first && e.bitmap == d.bitmap
    ensures Owned(e, {})
  {
  }

  /** Writing a data block of a file changes that block of that file and nothing else. */
  lemma WriteBlock(d: Disk, inum: nat, bn: nat, data: Block)
    requires Owned(d, {}) && |data| == 1024
    requires inum in d.inodes && BlockNo(d, inum, bn) != 0
    ensures var e := WithData(d, BlockNo(d, inum, bn), data);
      && Owned(e, {}) && SameMeta(d, e) && e.inodes == d.inodes
      && (forall i, k: nat :: i in d.inodes ==> BlockNo(e, i, k) == BlockNo(d, i, k))
      && (forall i, k: nat :: i in d.inodes ==> Data(e, i, k) == if i == inum && k == bn then data else Data(d, i, k))
  {
    var b := BlockNo(d, inum, bn);
    var e := WithData(d, b, data);
    var s := SlotOf(inum, bn);
    assert SlotIn(d, s) && Ref(d, s) == b;
    DataRefs(d, s, data);
    SameRefsOwned(d, e);
    forall i, k: nat | i in d.inodes
      ensures BlockNo(e, i, k) == BlockNo(d, i, k)
      ensures Data(e, i, k) == if i == inum && k == bn then data else Data(d, i, k)
    {
      if k < NDIRECT + NINDIRECT {
        var t := SlotOf(i, k);
        assert SlotIn(d, t) && BlockNo(d, i, k) == Ref(d, t);
        assert BlockNo(e, i, k) == Ref(e, t);
      }
    }
  }

  // ----- freeing -----

  function Freed(d: Disk, b: nat): Disk
    requires b < |d.bitmap|
  {
    d.(bitmap := d.bitmap[b := false])
  }

  lemma FreedForm(d: Disk, b: nat)
    requires WellFormed(d) && d.first <= b < |d.bitmap|
    ensures WellFormed(Freed(d, b))
  {
    var e := Freed(d, b);
    forall c | 0 <= c < |e.bitmap|
      ensures BlockIn(e, c)
    {
      assert BlockIn(d, c);
    }
  }

  lemma WithDataForm(d: Disk, b: nat, data: Block)
    requires WellFormed(d) && |data| == 1024
    ensures WellFormed(WithData(d, b, data))
  {
    var e := WithData(d, b, data);
    forall c | 0 <= c < |e.bitmap|
      ensures BlockIn(e, c)
    {
      assert BlockIn(d, c);
    }
  }

  /** Every file but `inum` is as before. */
  ghost predicate OthersSame(d: Disk, e: Disk, inum: nat) {
    && WellFormed(d) && WellFormed(e)
    && e.inodes.Keys == d.inodes.Keys
    && (forall i :: i in d.inodes && i != inum ==> e.inodes[i] == d.inodes[i])
    && (forall i, bn: nat :: i in d.inodes && i != inum ==> BlockNo(e, i, bn) == BlockNo(d, i, bn))
    && (forall i, bn: nat :: i in d.inodes && i != inum ==> Data(e, i, bn) == Data(d, i, bn))
  }

  lemma OthersSelf(d: Disk, inum: nat)
    requires WellFormed(d)
    ensures OthersSame(d, d, inum)
  {
  }

  lemma OthersTrans(d: Disk, e: Disk, f: Disk, inum: nat)
    requires OthersSame(d, e, inum) && OthersSame(e, f, inum)
    ensures OthersSame(d, f, inum)
  {
  }

  lemma ReleaseOthers(d: Disk, e: Disk, s: Slot)
    requires Owned(d, {}) && WellFormed(e) && e.inodes.Keys == d.inodes.Keys
    requires SlotIn(d, s) && RefsExcept(d, e, s, 0)
    requires forall i :: i in d.inodes && i != s.inum ==> e.inodes[i] == d.inodes[i]
    requires forall t :: SlotIn(d, t) && !t.Indirect? && Ref(d, t) != 0 ==> At(e, Ref(d, t)) == At(d, Ref(d, t))
    ensures OthersSame(d, e, s.inum)
  {
    forall i, bn: nat | i in d.inodes && i != s.inum
      ensures BlockNo(e, i, bn) == BlockNo(d, i, bn) && Data(e, i, bn) == Data(d, i, bn)
    {
      if bn < NDIRECT + NINDIRECT {
        var t := SlotOf(i, bn);
        assert SlotIn(d, t) && BlockNo(d, i, bn) == Ref(d, t) && BlockNo(e, i, bn) == Ref(e, t);
      }
    }
  }

  lemma DropDirect(d: Disk, inum: nat, i: nat)
    requires Owned(d, {}) && inum in d.inodes && i < NDIRECT && d.inodes[inum].addrs[i] != 0
    ensures d.inodes[inum].addrs[i] < |d.bitmap| && d.bitmap[d.inodes[inum].addrs[i]]
    ensures var e := WithAddr(Freed(d, d.inodes[inum].addrs[i]), inum, i, 0);
      Owned(e, {}) && OthersSame(d, e, inum)
  {
    var b := d.inodes[inum].addrs[i];
    var s := Direct(inum, i);
    assert SlotIn(d, s) && Ref(d, s) == b;
    var e := WithAddr(Freed(d, b), inum, i, 0);
    FreedForm(d, b);
    WithAddrForm(Freed(d, b), inum, i, 0);
    Release(d, e, s, {});
    ReleaseOthers(d, e, s);
  }

  lemma DropEntry(d: Disk, inum: nat, j: nat)
    requires Owned(d, {}) && inum in d.inodes && d.inodes[inum].addrs[12] != 0 && j < NINDIRECT
    ensures BlockIn(d, d.inodes[inum].addrs[12])
    ensures var b := Get32(d.blocks[d.inodes[inum].addrs[12]], j);
      && (b != 0 ==> b < |d.bitmap| && d.bitmap[b])
      && (b != 0 ==>
           var e := WithEntry(Freed(d, b), d.inodes[inum].addrs[12], j, 0);
           Owned(e, {}) && OthersSame(d, e, inum))
  {
    var ib := d.inodes[inum].addrs[12];
    assert SlotIn(d, Indirect(inum)) && Ref(d, Indirect(inum)) == ib;
    assert BlockIn(d, ib);
    var b := Get32(d.blocks[ib], j);
    var s := Entry(inum, j);
    assert SlotIn(d, s) && Ref(d, s) == b;
    if b != 0 {
      var f := WithEntry(d, ib, j, 0);
      var e := WithEntry(Freed(d, b), ib, j, 0);
      EntryRefs(d, inum, j, 0);
      assert RefsExcept(d, e, s, 0) by {
        assert forall t :: SlotIn(f, t) ==> SlotIn(e, t) && Ref(e, t) == Ref(f, t);
      }
      FreedForm(d, b);
      WithEntryForm(Freed(d, b), ib, j, 0);
      Release(d, e, s, {});
      ReleaseOthers(d, e, s);
    }
  }

  ghost predicate NoEntries(d: Disk, inum: nat)
    requires inum in d.inodes && |d.inodes[inum].addrs| == 13
  {
    forall j :: 0 <= j < NINDIRECT ==> Ref(d, Entry(inum, j)) == 0
  }

  /** The indirect block goes last, when its entries refer to nothing; what it holds then no longer matters. */
  lemma DropIndirect(d: Disk, inum: nat, junk: Block)
    requires Owned(d, {}) && inum in d.inodes && d.inodes[inum].addrs[12] != 0 && |junk| == 1024
    requires NoEntries(d, inum)
    ensures var ib := d.inodes[inum].addrs[12];
      && ib < |d.bitmap| && d.bitmap[ib]
      && var e := WithAddr(Freed(WithData(d, ib, junk), ib), inum, 12, 0);
      Owned(e, {}) && OthersSame(d, e, inum)
  {
    var ib := d.inodes[inum].addrs[12];
    var s := Indirect(inum);
    assert SlotIn(d, s) && Ref(d, s) == ib;
    var e := WithAddr(Freed(WithData(d, ib, junk), ib), inum, 12, 0);
    WithDataForm(d, ib, junk);
    FreedForm(WithData(d, ib, junk), ib);
    WithAddrForm(Freed(WithData(d, ib, junk), ib), inum, 12, 0);
    forall t | SlotIn(d, t)
      ensures Ref(e, t) == if t == s then 0 else Ref(d, t)
    {
      if t.Entry? {
        assert SlotIn(d, Indirect(t.inum)) && Ref(d, Indirect(t.inum)) == d.inodes[t.inum].addrs[12];
      }
    }
    Release(d, e, s, {});
    ReleaseOthers(d, e, s);
  }
}
