/**
  Block allocation and file content in kernel/fs.c, and the chunked writes of kernel/file.c.
  Inodes are held twice: the copies in memory, which the code changes, and the copies on
  disk, which iupdate writes. `logged` collects the blocks an operation passes to log_write.
 */
module Fs {
  import opened FsImage
  import opened FsContent
  import opened FsInodes
  import opened FsRead

  const MAXFILE: nat := 268

  /** The indirect block of an inode, if it has one. */
  function Ind(ip: Inode): set<nat>
    requires |ip.addrs| == 13
  {
    if ip.addrs[12] == 0 then {} else {ip.addrs[12]}
  }

  function One(addr: nat): set<nat> { if addr == 0 then {} else {addr} }

  /** How many blocks were allocated so that block `bn` of a file could be written. */
  ghost function NewBlocks(d: Disk, e: Disk, inum: nat, bn: nat): nat
    requires inum in d.inodes && |d.inodes[inum].addrs| == 13
    requires inum in e.inodes && |e.inodes[inum].addrs| == 13
  {
    (if BlockNo(d, inum, bn) == 0 && BlockNo(e, inum, bn) != 0 then 1 else 0) + NewInd(d, e, inum)
  }

  ghost function NewInd(d: Disk, e: Disk, inum: nat): nat
    requires inum in d.inodes && |d.inodes[inum].addrs| == 13
    requires inum in e.inodes && |e.inodes[inum].addrs| == 13
  {
    if d.inodes[inum].addrs[12] == 0 && e.inodes[inum].addrs[12] != 0 then 1 else 0
  }

  ghost predicate IndStays(d: Disk, e: Disk, inum: nat)
    requires inum in d.inodes && |d.inodes[inum].addrs| == 13
    requires inum in e.inodes && |e.inodes[inum].addrs| == 13
  {
    d.inodes[inum].addrs[12] != 0 ==> e.inodes[inum].addrs[12] == d.inodes[inum].addrs[12]
  }

  lemma IndirectIn(d: Disk, inum: nat, b: nat)
    requires Owned(d, {}) || Owned(d, {b})
    requires inum in d.inodes && d.inodes[inum].addrs[12] != 0
    ensures d.inodes[inum].addrs[12] < |d.bitmap| && BlockIn(d, d.inodes[inum].addrs[12])
  {
    assert SlotIn(d, Indirect(inum)) && Ref(d, Indirect(inum)) != 0;
  }

  lemma EntryStored(d: Disk, inum: nat, j: nat, b: nat)
    requires inum in d.inodes && |d.inodes[inum].addrs| == 13 && d.inodes[inum].addrs[12] != 0
    requires BlockIn(d, d.inodes[inum].addrs[12]) && j < NINDIRECT && b < 0x1_0000_0000
    ensures Ref(WithEntry(d, d.inodes[inum].addrs[12], j, b), Entry(inum, j)) == b
  {
    GetPut(d.blocks[d.inodes[inum].addrs[12]], j, b, j);
  }

  lemma BlockThere(d: Disk, inum: nat, bn: nat)
    requires Owned(d, {}) && inum in d.inodes && BlockNo(d, inum, bn) != 0
    ensures BlockNo(d, inum, bn) < |d.bitmap| && BlockIn(d, BlockNo(d, inum, bn))
  {
  }

  /** After `it` rounds of the loop of writei, all but the last ended at a block boundary. */
  predicate Rounds(off: nat, n: nat, tot: nat, it: nat) {
    if it == 0 then tot == 0
    else
      && (it - 1) * 1024 - off % 1024 < tot <= it * 1024 - off % 1024
      && (tot < n ==> tot == it * 1024 - off % 1024)
  }

  /** The first block of an unaligned write exists already in a file without holes: it holds the byte before. */
  ghost function Spare(d: Disk, inum: nat, off: nat, it: nat): nat
    requires inum in d.inodes && |d.inodes[inum].addrs| == 13
  {
    if NoHoles(d, inum) && off % 1024 != 0 && it > 0 then 1 else 0
  }

  ghost predicate Tally(d: Disk, e: Disk, inum: nat, off: nat, it: nat, data: nat, maps: nat) {
    && WellFormed(d) && WellFormed(e) && inum in d.inodes && inum in e.inodes
    && IndStays(d, e, inum)
    && data <= it && maps <= it - Spare(d, inum, off, it) + NewInd(d, e, inum)
  }

  /** The bytes of a copy that fall into the block of position `pos`. */
  function Chunk(left: nat, pos: nat): nat {
    if left < 1024 - pos % 1024 then left else 1024 - pos % 1024
  }

  lemma RoundsStep(off: nat, n: nat, tot: nat, it: nat)
    requires Rounds(off, n, tot, it) && tot < n
    ensures var m := Chunk(n - tot, off + tot);
      && 0 < m && tot + m <= n && (off + tot) % 1024 + m <= 1024
      && Rounds(off, n, tot + m, it + 1)
  {
  }

  lemma TallyStep(d0: Disk, d: Disk, e: Disk, inum: nat, off: nat, w: seq<nat>, it: nat, data: nat, maps: nat,
                  more: nat)
    requires Tally(d0, d, inum, off, it, data, maps) && Wrote(d0, d, inum, off, w) && (it == 0 ==> w == [])
    requires off <= d0.inodes[inum].size
    requires WellFormed(e) && inum in e.inodes && IndStays(d, e, inum)
    requires more <= NewBlocks(d, e, inum, (off + |w|) / 1024)
    ensures BlockNo(e, inum, (off + |w|) / 1024) != 0 ==> Tally(d0, e, inum, off, it + 1, data + 1, maps + more)
    ensures BlockNo(e, inum, (off + |w|) / 1024) == 0 ==> Tally(d0, e, inum, off, it, data, maps + more)
  {
    hide RefsUsed, RefsDiffer, NoLeaks, NewBytes, OtherData, Backed, BlockNo, Ref;
    if it == 0 && off % 1024 != 0 && NoHoles(d0, inum) {
      assert BlockNo(d0, inum, off / 1024) != 0;
      assert BlockNo(d, inum, off / 1024) != 0;
    }
  }

  lemma WriteStart(d: Disk, inum: nat, off: nat, n: nat)
    requires WellFormed(d) && inum in d.inodes
    ensures Rounds(off, n, 0, 0) && Tally(d, d, inum, off, 0, 0, 0)
  {
  }

  lemma WroteSizes(d0: Disk, d: Disk, inum: nat, off: nat, w: seq<nat>)
    requires Wrote(d0, d, inum, off, w)
    ensures inum in d.inodes && d.inodes[inum].size == d0.inodes[inum].size && |d.inodes[inum].addrs| == 13
    ensures d.inodes[inum].kind == d0.inodes[inum].kind && d.inodes[inum].nlink == d0.inodes[inum].nlink
    ensures |d.bitmap| == |d0.bitmap| && WithSize(d, inum, d.inodes[inum].size) == d
  {
  }

  lemma WriteCount(d0: Disk, d: Disk, inum: nat, off: nat, n: nat, tot: nat, it: nat, data: nat, maps: nat)
    requires Rounds(off, n, tot, it) && tot <= n <= 3072 && Tally(d0, d, inum, off, it, data, maps)
    ensures data <= 4 && maps <= if NoHoles(d0, inum) then 4 else 5
  {
  }

  lemma RoundEnd(d0: Disk, d: Disk, e: Disk, inum: nat, off: nat, w: seq<nat>, it: nat,
                 data: set<nat>, maps: set<nat>, more: set<nat>, addr: nat)
    requires Tally(d0, d, inum, off, it, |data|, |maps|) && Wrote(d0, d, inum, off, w) && (it == 0 ==> w == [])
    requires off <= d0.inodes[inum].size
    requires WellFormed(e) && inum in e.inodes && IndStays(d, e, inum)
    requires |more| <= NewBlocks(d, e, inum, (off + |w|) / 1024) && addr == BlockNo(e, inum, (off + |w|) / 1024)
    ensures addr != 0 ==> Tally(d0, e, inum, off, it + 1, |data + One(addr)|, |maps + more|)
    ensures addr == 0 ==> Tally(d0, e, inum, off, it, |data + One(addr)|, |maps + more|)
  {
    hide Wrote, NoHoles, NewBlocks, BlockNo, Ref;
    TallyStep(d0, d, e, inum, off, w, it, |data|, |maps|, |more|);
    UnionSize(data, One(addr));
    UnionSize(maps, more);
    if addr != 0 {
      TallyLess(d0, e, inum, off, it + 1, |data| + 1, |maps| + |more|, |data + One(addr)|, |maps + more|);
    } else {
      TallyLess(d0, e, inum, off, it, |data|, |maps| + |more|, |data + One(addr)|, |maps + more|);
    }
  }

  /** What a round adds to the log, with the indirect block the same or new. */
  lemma LogGrows(ip: Inode, jp: Inode, start: set<nat>, data: set<nat>, maps: set<nat>,
                 logs: set<nat>, more: set<nat>, addr: nat, after: set<nat>)
    requires |ip.addrs| == 13 && |jp.addrs| == 13 && (ip.addrs[12] != 0 ==> jp.addrs[12] == ip.addrs[12])
    requires logs <= start + data + maps + Ind(ip) && after <= logs + more + Ind(jp) + One(addr)
    ensures after <= start + (data + One(addr)) + (maps + more) + Ind(jp)
  {
  }

  lemma UnionSize(a: set<nat>, b: set<nat>)
    ensures |a + b| <= |a| + |b|
  {
  }

  lemma TallyLess(d0: Disk, e: Disk, inum: nat, off: nat, it: nat, data: nat, maps: nat, data1: nat, maps1: nat)
    requires Tally(d0, e, inum, off, it, data, maps) && data1 <= data && maps1 <= maps
    ensures Tally(d0, e, inum, off, it, data1, maps1)
  {
  }

  lemma EntriesAfter(b: Block, j: nat)
    requires |b| == 1024 && j < 256
    ensures forall k :: 0 <= k < 256 ==> Get32(Put32(b, j, 0), k) == if k == j then 0 else Get32(b, k)
  {
  }

  lemma ChunkFits(left: nat, pos: nat)
    requires left > 0
    ensures 0 < Chunk(left, pos) <= left && pos % 1024 + Chunk(left, pos) <= 1024
    ensures Chunk(left, pos) == left || (pos + Chunk(left, pos)) % 1024 == 0
  {
  }

  lemma AtBlock(d: Disk, b: nat)
    requires BlockIn(d, b)
    ensures At(d, b) == d.blocks[b]
  {
  }

  function Cleared(addrs: seq<nat>, i: nat): (r: seq<nat>)
    requires i <= |addrs|
    ensures |r| == |addrs|
  {
    seq(|addrs|, k requires 0 <= k < |addrs| => if k < i then 0 else addrs[k])
  }

  lemma ClearedStep(addrs: seq<nat>, i: nat)
    requires i < |addrs|
    ensures Cleared(addrs, i)[i := 0] == Cleared(addrs, i + 1)
    ensures Cleared(addrs, i)[i] == addrs[i]
    ensures addrs[i] == 0 ==> Cleared(addrs, i) == Cleared(addrs, i + 1)
  {
  }

  lemma SubsetSize(a: set<nat>, b: set<nat>)
    requires a <= b
    ensures |a| <= |b|
  {
    assert b == a + (b - a);
  }

  /** Four data blocks, the indirect block, the inode's block and the bitmap blocks. */
  lemma WriteBudget(logged: set<nat>, data: set<nat>, maps: set<nat>, ind: set<nat>, ino: set<nat>)
    requires logged <= data + maps + ind + ino && |data| <= 4 && |ind| <= 1 && |ino| <= 1
    ensures |logged| <= 6 + |maps|
  {
    SubsetSize(logged, data + maps + ind + ino);
    UnionSize(data, maps);
    UnionSize(data + maps, ind);
    UnionSize(data + maps + ind, ino);
  }

  /** An open file: kernel/file.h. */
  class File {
    const inum: nat
    const writable: bool
    var off: nat

    constructor (inum: nat, writable: bool)
      ensures this.inum == inum && this.writable == writable && off == 0
    {
      this.inum := inum;
      this.writable := writable;
      off := 0;
    }
  }

  /**
    From `d` to `e`, the first `m` bytes of `src` were written to the file at `off`; past the
    end of the file none are.
   */
  ghost predicate FileWritten(d: Disk, e: Disk, inum: nat, off: nat, src: seq<nat>, m: nat)
  {
    && m <= |src| && inum in d.inodes && OtherContents(d, e, inum)
    && (off <= d.inodes[inum].size ==> Content(e, inum) == Splice(Content(d, inum), off, src[..m]))
    && (off > d.inodes[inum].size ==> e == d && m == 0)
  }

  lemma NothingWritten(d: Disk, inum: nat, off: nat, src: seq<nat>)
    requires WellFormed(d) && inum in d.inodes
    ensures FileWritten(d, d, inum, off, src, 0)
  {
  }

  lemma HoleWider(d: Disk, inum: nat, off: nat, pos: nat, end: nat)
    requires inum in d.inodes && |d.inodes[inum].addrs| == 13 && HoleIn(d, inum, off, pos) && pos <= end
    ensures HoleIn(d, inum, off, end)
  {
    hide BlockNo;
  }

  /** Where all blocks exist there is no hole. */
  lemma BackedWhole(d: Disk, inum: nat, off: nat, end: nat)
    requires WellFormed(d) && inum in d.inodes && Backed(d, inum, off / 1024, end)
    ensures !HoleIn(d, inum, off, end)
  {
    hide BlockNo;
  }

  /** What one call of writei does, seen from outside. */
  ghost predicate WriteDone(d: Disk, e: Disk, inum: nat, off: nat, v: seq<nat>, r: int) {
    && WellFormed(d) && WellFormed(e) && inum in d.inodes && e.inodes.Keys == d.inodes.Keys
    && (r == -1 <==> off > d.inodes[inum].size || off + |v| > 268 * 1024)
    && (r == -1 ==> e == d)
    && (r != -1 ==>
         && 0 <= r <= |v| && OtherContents(d, e, inum)
         && Content(e, inum) == Splice(Content(d, inum), off, v[..r])
         && (r > 0 ==> Backed(e, inum, off / 1024, off + r)))
  }

  lemma ChunkWritten(d0: Disk, d: Disk, e: Disk, inum: nat, off: nat, src: seq<nat>, i: nat, n1: nat, r: int)
    requires WellFormed(d0) && FileWritten(d0, d, inum, off, src, i) && 0 < n1 && i + n1 <= |src|
    requires inum in d.inodes && WriteDone(d, e, inum, off + i, src[i..i + n1], r)
    ensures FileWritten(d0, e, inum, off, src, if r > 0 then i + r else i)
    ensures r != -1 ==> off + i + r <= 268 * 1024
  {
    hide ByteAt, Splice;
    if off > d0.inodes[inum].size {
      assert r == -1;
    } else if r != -1 {
      var c := Content(d0, inum);
      assert src[i..i + n1][..r] == src[i..i + r];
      assert |Content(d, inum)| == d.inodes[inum].size;
      SpliceTwice(c, off, src[..i], src[i..i + r]);
      assert src[..i] + src[i..i + r] == src[..i + r];
    }
  }

  function EmptyInode(): Inode { Inode(0, 0, 0, seq(13, _ => 0)) }

  /** A disk on which only the metadata blocks are used and every inode is empty is a valid start. */
  lemma EmptyDisk(d: Disk)
    requires 0 < d.first <= |d.bitmap| <= 0x1_0000_0000
    requires forall c :: 0 <= c < |d.bitmap| ==> d.bitmap[c] == (c < d.first)
    requires forall c :: 0 <= c < |d.bitmap| ==> BlockIn(d, c)
    requires forall i :: i in d.inodes ==> d.inodes[i] == EmptyInode()
    ensures Owned(d, {}) && Sized(d) && FreeInodes(d.inodes)
    ensures forall i :: i in d.inodes ==> NoHoles(d, i)
  {
  }

  /** The same inodes, of the same types and with the same link counts. */
  predicate SameLabels(m: map<nat, Inode>, m': map<nat, Inode>) {
    m'.Keys == m.Keys && forall i :: i in m ==> m'[i].kind == m[i].kind && m'[i].nlink == m[i].nlink
  }

  lemma FreeIs(m: map<nat, Inode>, i: nat)
    requires FreeInodes(m) && i in m
    ensures m[i].kind == 0 ==> m[i].nlink == 0 && m[i].size == 0 && m[i].addrs == NoAddrs()
  {
    assert FreeInode(m[i]);
  }

  lemma EmptyContent(d: Disk, inum: nat)
    requires WellFormed(d) && inum in d.inodes && d.inodes[inum].size == 0
    ensures Content(d, inum) == []
  {
  }

  lemma OtherTrans(d: Disk, e: Disk, f: Disk, inum: nat)
    requires OtherContents(d, e, inum) && OtherContents(e, f, inum)
    ensures OtherContents(d, f, inum)
  {
  }

  lemma AllFreed(d: Disk, e: Disk, inum: nat)
    requires Owned(d, {}) && Owned(e, {}) && e.first == d.first && |e.bitmap| == |d.bitmap|
    requires OthersSame(d, e, inum) && inum in e.inodes && e.inodes[inum].addrs == NoAddrs()
    ensures forall s :: SlotIn(d, s) && s.inum == inum && Ref(d, s) != 0 ==>
      Ref(d, s) < |e.bitmap| && !e.bitmap[Ref(d, s)]
  {
    hide Owned, OthersSame, Ref;
    forall s | SlotIn(d, s) && s.inum == inum && Ref(d, s) != 0
      ensures Ref(d, s) < |e.bitmap| && !e.bitmap[Ref(d, s)]
    {
      NothingLeft(d, e, inum, s);
    }
  }

  /** An inode in use has other addresses, and nothing else changed. */
  lemma StillFree(m: map<nat, Inode>, m': map<nat, Inode>, inum: nat)
    requires FreeInodes(m) && inum in m && m[inum].kind != 0 && m'.Keys == m.Keys
    requires m'[inum].kind == m[inum].kind && m'[inum].nlink == m[inum].nlink
    requires forall i :: i in m && i != inum ==> m'[i] == m[i]
    ensures FreeInodes(m') && SameLabels(m, m')
  {
  }

  /** The end of itrunc: the size is set. */
  lemma TruncEnds(d: Disk, e: Disk, inum: nat)
    requires Owned(d, {}) && Sized(d) && FreeInodes(d.inodes) && Owned(e, {}) && OthersSame(d, e, inum)
    requires inum in d.inodes && e.first == d.first && |e.bitmap| == |d.bitmap|
    requires e.inodes == d.inodes[inum := d.inodes[inum].(addrs := NoAddrs())]
    ensures var f := WithSize(e, inum, 0);
      && f.inodes == d.inodes[inum := d.inodes[inum].(size := 0, addrs := NoAddrs())]
      && Owned(f, {}) && Sized(f) && NoNewHoles(d, f) && FreeInodes(f.inodes)
      && OtherContents(d, f, inum) && Content(f, inum) == []
    ensures forall s :: SlotIn(d, s) && s.inum == inum && Ref(d, s) != 0 ==>
      Ref(d, s) < |e.bitmap| && !e.bitmap[Ref(d, s)]
  {
    hide Owned, OthersSame, OtherContents, Content, Sized, NoNewHoles, FreeInodes, Ref;
    OwnedForm(d);
    Truncated(d, e, inum);
    AllFreed(d, e, inum);
    FreeIs(d.inodes, inum);
    KeepsFree(d.inodes, inum, d.inodes[inum].(size := 0, addrs := NoAddrs()));
    assert WithSize(e, inum, 0).inodes == d.inodes[inum := d.inodes[inum].(size := 0, addrs := NoAddrs())];
  }

  /** What a read sees of the file while it goes on. */
  lemma ReadForm(d: Disk, e: Disk, inum: nat, off: nat, pos: nat)
    requires Reading(d, e, inum, off, pos)
    ensures Owned(e, {}) && WellFormed(d) && WellFormed(e) && inum in d.inodes && inum in e.inodes
    ensures e.inodes[inum].size == d.inodes[inum].size && Content(e, inum) == Content(d, inum)
    ensures !HoleIn(d, inum, off, pos) ==> e == d
  {
    hide Owned, Content, Data, BlockNo, AddrsStay, MissingIn, HoleIn;
    OwnedForm(d);
    KeepsContent(d, e, inum);
    assert |Content(e, inum)| == |Content(d, inum)|;
  }

  lemma SliceNext(c: seq<nat>, lo: nat, mid: nat, hi: nat)
    requires lo <= mid <= hi <= |c|
    ensures c[lo..mid] + c[mid..hi] == c[lo..hi]
  {
  }

  /** The end of a read. */
  lemma ReadDone(d: Disk, e: Disk, inum: nat, off: nat, end: nat)
    requires Reading(d, e, inum, off, end) && Sized(d) && FreeInodes(d.inodes) && d.inodes[inum].kind != 0
    ensures Owned(e, {}) && Sized(e) && FreeInodes(e.inodes) && e.inodes.Keys == d.inodes.Keys
    ensures |d.inodes[inum].addrs| == 13
    ensures e.inodes == d.inodes <==> AllUsed(d.bitmap) || !MissingIn(d.inodes[inum], off, end)
    ensures e.inodes != d.inodes ==> !Owned(e.(inodes := d.inodes), {})
  {
    hide Owned, BlockNo, AddrsStay, MissingIn, FreeInodes, SameData, RefsStay, NoHoles, AllUsed;
    OwnedForm(d);
    assert e.inodes[inum].(addrs := d.inodes[inum].addrs) == d.inodes[inum];
    StillFree(d.inodes, e.inodes, inum);
    forall i | i in d.inodes ensures e.inodes[i].size == d.inodes[i].size {
      assert e.inodes[i].(addrs := d.inodes[i].addrs) == d.inodes[i];
    }
    if e.inodes != d.inodes {
      HoleLeaks(d, e, inum);
    }
  }

  function Max(a: nat, b: nat): nat { if a > b then a else b }

  lemma NothingDone(d: Disk, inum: nat, off: nat, src: seq<nat>)
    requires Owned(d, {}) && inum in d.inodes
    ensures off > d.inodes[inum].size || off + |src| > 268 * 1024 ==> WriteDone(d, d, inum, off, src, -1)
    ensures NoNewHoles(d, d)
  {
  }

  lemma WroteBacked(d0: Disk, d: Disk, inum: nat, off: nat, w: seq<nat>, n: nat)
    requires Wrote(d0, d, inum, off, w) && w != []
    ensures WellFormed(WithSize(d, inum, n)) && Backed(WithSize(d, inum, n), inum, off / 1024, off + |w|)
  {
    hide BlockNo, RefsUsed, RefsDiffer, NoLeaks, NewBytes, OtherData, RefsStay;
    WithSizeKeeps(d, inum, n);
  }

  /** The end of writei: the size is set. */
  lemma WriteEnds(d0: Disk, d: Disk, inum: nat, off: nat, src: seq<nat>, tot: nat)
    requires tot <= |src| && Wrote(d0, d, inum, off, src[..tot]) && OnlyInode(d0, d, inum)
    requires Sized(d0) && FreeInodes(d0.inodes) && d0.inodes[inum].kind != 0
    requires off <= d0.inodes[inum].size && off + |src| <= 268 * 1024
    ensures inum in d.inodes && d.inodes[inum].size == d0.inodes[inum].size && |d.inodes[inum].addrs| == 13
    ensures WithSize(d, inum, d.inodes[inum].size) == d
    ensures var e := WithSize(d, inum, Max(off + tot, d.inodes[inum].size));
      && Owned(e, {}) && Sized(e) && NoNewHoles(d0, e) && FreeInodes(e.inodes) && SameLabels(d0.inodes, e.inodes)
      && WriteDone(d0, e, inum, off, src, tot)
  {
    hide RefsUsed, RefsDiffer, NoLeaks, BlockNo, NoHoles, NoNewHoles, Ref, Wrote, Splice, FreeInodes, SameLabels,
      Backed;
    WroteSizes(d0, d, inum, off, src[..tot]);
    var n := Max(off + tot, d.inodes[inum].size);
    WroteEnd(d0, d, inum, off, src[..tot], n);
    if tot > 0 { WroteBacked(d0, d, inum, off, src[..tot], n); }
    StillFree(d0.inodes, WithSize(d, inum, n).inodes, inum);
  }

  class Fs {
    const first: nat
    const bmapstart: nat
    const inodestart: nat
    const ninodes: nat
    var bitmap: seq<bool>
    var blocks: map<nat, Block>
    var inodes: map<nat, Inode>
    var dinodes: map<nat, Inode>
    var logged: set<nat>

    function Image(): Disk
      reads this`bitmap, this`blocks, this`inodes
    {
      Disk(first, bitmap, blocks, inodes)
    }

    function BBlock(b: nat): nat { b / 8192 + bmapstart }

    function IBlock(inum: nat): nat { inum / 16 + inodestart }

    ghost predicate Full()
      reads this`bitmap
    {
      AllUsed(bitmap)
    }

    /** The state between operations. */
    ghost predicate Valid()
      reads this`bitmap, this`blocks, this`inodes, this`dinodes
    {
      && Owned(Image(), {}) && Sized(Image()) && FreeInodes(inodes) && dinodes == inodes
      && forall i: nat :: i < ninodes ==> i in inodes
    }

    /** The image found at boot. */
    constructor (d: Disk, bmapstart: nat, inodestart: nat, ninodes: nat)
      requires Owned(d, {}) && Sized(d) && FreeInodes(d.inodes) && forall i: nat :: i < ninodes ==> i in d.inodes
      ensures Valid() && Image() == d && logged == {}
    {
      first := d.first;
      this.bmapstart := bmapstart;
      this.inodestart := inodestart;
      this.ninodes := ninodes;
      bitmap := d.bitmap;
      blocks := d.blocks;
      inodes := d.inodes;
      dinodes := d.inodes;
      logged := {};
    }

    // ----- blocks -----

    method Bzero(b: nat)
      modifies this`blocks, this`logged
      ensures blocks == old(blocks)[b := ZeroBlock()] && logged == old(logged) + {b}
    {
      blocks := blocks[b := ZeroBlock()];
      logged := logged + {b};
    }

    /** First fit: the lowest free block, which nothing refers to, marked and zeroed; 0 when none is free. */
    method Balloc() returns (addr: nat)
      requires Owned(Image(), {})
      modifies this`bitmap, this`blocks, this`logged
      ensures addr == 0 <==> forall c :: 0 <= c < |old(bitmap)| ==> old(bitmap)[c]
      ensures addr == 0 ==> Image() == old(Image()) && logged == old(logged)
      ensures addr != 0 ==> addr < |old(bitmap)| && !old(bitmap)[addr] && Image() == Allocated(old(Image()), addr)
      ensures addr != 0 ==> forall c :: 0 <= c < addr ==> old(bitmap)[c]
      ensures addr != 0 ==> !HasOwner(old(Image()), addr)
      ensures addr != 0 ==> logged == old(logged) + {BBlock(addr), addr}
    {
      hide RefsUsed, RefsDiffer, NoLeaks, HasOwner;
      var b := 0;
      while b < |bitmap|
        invariant Image() == old(Image()) && logged == old(logged)
        invariant b % 8192 == 0
        invariant forall c :: 0 <= c < b && c < |bitmap| ==> bitmap[c]
      {
        var bi := 0;
        while bi < 8192 && b + bi < |bitmap|
          invariant 0 <= bi <= 8192
          invariant Image() == old(Image()) && logged == old(logged)
          invariant forall c :: 0 <= c < b + bi && c < |bitmap| ==> bitmap[c]
        {
          if !bitmap[b + bi] {
            Unowned(Image(), b + bi);
            bitmap := bitmap[b + bi := true];
            logged := logged + {BBlock(b)};
            Bzero(b + bi);
            assert BBlock(b + bi) == BBlock(b);
            return b + bi;
          }
          bi := bi + 1;
        }
        b := b + 8192;
      }
      return 0;
    }

    /** The panic "freeing free block" is the precondition. */
    method Bfree(b: nat)
      requires b < |bitmap| && bitmap[b]
      modifies this`bitmap, this`logged
      ensures Image() == Freed(old(Image()), b)
      ensures logged == old(logged) + {BBlock(b)}
    {
      bitmap := bitmap[b := false];
      logged := logged + {BBlock(b)};
    }

    method SetAddr(inum: nat, i: nat, b: nat)
      requires inum in inodes && i < |inodes[inum].addrs|
      modifies this`inodes
      ensures Image() == WithAddr(old(Image()), inum, i, b)
      ensures OnlyInode(old(Image()), Image(), inum)
    {
      inodes := inodes[inum := inodes[inum].(addrs := inodes[inum].addrs[i := b])];
    }

    /** Allocates a block for an empty address of an inode: a direct block, or with `i == 12` the indirect block. */
    method AllocAddr(inum: nat, i: nat) returns (addr: nat)
      requires Owned(Image(), {}) && inum in inodes && i < 13 && inodes[inum].addrs[i] == 0
      modifies this`bitmap, this`blocks, this`inodes, this`logged
      ensures Owned(Image(), {}) && Keeps(old(Image()), Image()) && OnlyInode(old(Image()), Image(), inum)
      ensures addr == inodes[inum].addrs[i]
      ensures forall k :: 0 <= k < 13 && k != i ==> inodes[inum].addrs[k] == old(inodes)[inum].addrs[k]
      ensures addr == 0 <==> old(Full())
      ensures addr == 0 ==> Full() && Image() == old(Image()) && logged == old(logged)
      ensures addr != 0 ==> At(Image(), addr) == ZeroBlock()
      ensures addr != 0 ==> logged == old(logged) + {BBlock(addr), addr}
      ensures addr != 0 && |bitmap| <= 8192 ==> BBlock(addr) == bmapstart
    {
      hide RefsUsed, RefsDiffer, NoLeaks, HasOwner, SameData, RefsStay, Ref, BlockNo;
      addr := Balloc();
      if addr == 0 {
        KeepsSelf(Image());
        return;
      }
      ghost var d := Image();
      AllocOwned(old(Image()), addr);
      AllocKeeps(old(Image()), addr);
      SetAddr(inum, i, addr);
      if i < 12 {
        AddDirect(d, inum, i, addr);
      } else {
        AddIndirect(d, inum, addr);
      }
      KeepsTrans(old(Image()), d, Image());
    }

    /** Allocates a block for an empty entry of an indirect block. */
    method AllocEntry(inum: nat, ib: nat, j: nat) returns (addr: nat)
      requires Owned(Image(), {}) && inum in inodes && ib == inodes[inum].addrs[12] != 0 && j < NINDIRECT
      requires Ref(Image(), Entry(inum, j)) == 0
      modifies this`bitmap, this`blocks, this`logged
      ensures Owned(Image(), {}) && Keeps(old(Image()), Image())
      ensures addr == Ref(Image(), Entry(inum, j))
      ensures addr == 0 <==> old(Full())
      ensures addr == 0 ==> Full() && Image() == old(Image()) && logged == old(logged)
      ensures addr != 0 ==> logged == old(logged) + {BBlock(addr), addr, ib}
      ensures addr != 0 && |bitmap| <= 8192 ==> BBlock(addr) == bmapstart
    {
      hide RefsUsed, RefsDiffer, NoLeaks, HasOwner, SameData, RefsStay, BlockNo, Get32, Put32;
      addr := Balloc();
      if addr == 0 {
        KeepsSelf(Image());
        return;
      }
      ghost var d := Image();
      AllocOwned(old(Image()), addr);
      AllocKeeps(old(Image()), addr);
      AllocRefs(old(Image()), addr);
      IndirectIn(d, inum, addr);
      AddEntry(d, inum, j, addr);
      EntryStored(d, inum, j, addr);
      blocks := blocks[ib := Put32(blocks[ib], j, addr)];
      logged := logged + {ib};
      KeepsTrans(old(Image()), d, Image());
    }

    /** The block that holds block `bn` of the file, allocated if it was missing; 0 when the disk is full. */
    method Bmap(inum: nat, bn: nat) returns (addr: nat, ghost maps: set<nat>)
      requires Owned(Image(), {}) && inum in inodes && bn < MAXFILE
      modifies this`bitmap, this`blocks, this`inodes, this`logged
      ensures Owned(Image(), {}) && Keeps(old(Image()), Image()) && OnlyInode(old(Image()), Image(), inum)
      ensures addr == BlockNo(Image(), inum, bn)
      ensures addr == 0 ==> Full()
      ensures BlockNo(old(Image()), inum, bn) != 0 ==> Image() == old(Image()) && logged == old(logged)
      ensures Mapped(old(Image()), Image(), inum, bn)
      ensures IndStays(old(Image()), Image(), inum)
      ensures |maps| <= NewBlocks(old(Image()), Image(), inum, bn)
      ensures |bitmap| <= 8192 ==> maps <= {bmapstart}
      ensures logged <= old(logged) + maps + Ind(inodes[inum]) + One(addr)
    {
      hide RefsUsed, RefsDiffer, NoLeaks, HasOwner, SameData, RefsStay, Get32, Put32, BBlock, Mapped, AllUsed;
      ghost var d0 := Image();
      maps := {};
      if bn < 12 {
        addr := inodes[inum].addrs[bn];
        if addr == 0 {
          addr := AllocAddr(inum, bn);
          maps := if addr == 0 then {} else {BBlock(addr)};
          if addr == 0 { MapNone(d0, inum, bn); } else { MapAddr(d0, Image(), inum, bn); }
        } else {
          MapNone(d0, inum, bn);
          KeepsSelf(Image());
        }
        return;
      }
      addr := inodes[inum].addrs[12];
      ghost var maps1 := {};
      if addr == 0 {
        addr := AllocAddr(inum, 12);
        if addr == 0 {
          MapNone(d0, inum, bn);
          return;
        }
        maps1 := {BBlock(addr)};
      } else {
        KeepsSelf(Image());
      }
      ghost var d := Image();
      IndirectIn(d, inum, 0);
      var ib := addr;
      addr := Get32(blocks[ib], bn - 12);
      assert addr == Ref(d, Entry(inum, bn - 12));
      maps := maps1;
      if addr == 0 {
        addr := AllocEntry(inum, ib, bn - 12);
        KeepsTrans(old(Image()), d, Image());
        maps := maps1 + (if addr == 0 then {} else {BBlock(addr)});
      }
      if d0.inodes[inum].addrs[12] == 0 {
        MapAddr(d0, Image(), inum, bn);
      } else if BlockNo(d0, inum, bn) == 0 {
        MapEntry(d0, Image(), inum, bn);
      } else {
        MapNone(d0, inum, bn);
      }
    }

    // ----- writing -----

    method Iupdate(inum: nat)
      requires inum in inodes
      modifies this`dinodes, this`logged
      ensures dinodes == old(dinodes)[inum := inodes[inum]] && logged == old(logged) + {IBlock(inum)}
    {
      dinodes := dinodes[inum := inodes[inum]];
      logged := logged + {IBlock(inum)};
    }

    /** One round of the loop of writei: the bytes `v` go to one block, at position `pos` of the file. */
    method WriteRound(inum: nat, ghost d0: Disk, ghost off: nat, ghost w: seq<nat>, pos: nat, v: seq<nat>)
      returns (addr: nat, ghost maps: set<nat>)
      requires Wrote(d0, Image(), inum, off, w) && pos == off + |w|
      requires pos % 1024 + |v| <= 1024 && pos / 1024 < MAXFILE
      modifies this`bitmap, this`blocks, this`inodes, this`logged
      ensures OnlyInode(old(Image()), Image(), inum) && |bitmap| == |old(bitmap)|
      ensures WellFormed(Image()) && inum in inodes && |inodes[inum].addrs| == 13
      ensures addr != 0 ==> Wrote(d0, Image(), inum, off, w + v)
      ensures addr == 0 ==> Wrote(d0, Image(), inum, off, w) && Full()
      ensures IndStays(old(Image()), Image(), inum)
      ensures |maps| <= NewBlocks(old(Image()), Image(), inum, pos / 1024)
      ensures addr == BlockNo(Image(), inum, pos / 1024)
      ensures |bitmap| <= 8192 ==> maps <= {bmapstart}
      ensures logged <= old(logged) + maps + Ind(inodes[inum]) + One(addr)
    {
      hide RefsUsed, RefsDiffer, NoLeaks, SameData, RefsStay, NewBytes, OtherData, Backed, Keeps, BlockNo;
      addr, maps := Bmap(inum, pos / 1024);
      ghost var d := Image();
      WroteKeeps(d0, old(Image()), d, inum, off, w);
      if addr != 0 {
        WroteChunk(d0, d, inum, off, w, v);
        WriteBlock(d, inum, pos / 1024, Patch(At(d, addr), pos % 1024, v));
        BlockThere(d, inum, pos / 1024);
        blocks := blocks[addr := Patch(blocks[addr], pos % 1024, v)];
        logged := logged + {addr};
      }
    }

    /** The loop of writei: it ends when all bytes are written or the disk is full. */
    method WriteLoop(inum: nat, off: nat, src: seq<nat>)
      returns (tot: nat, ghost it: nat, ghost data: set<nat>, ghost maps: set<nat>)
      requires Owned(Image(), {}) && inum in inodes
      requires off <= inodes[inum].size && off + |src| <= 268 * 1024
      modifies this`bitmap, this`blocks, this`inodes, this`logged
      ensures tot <= |src| && Wrote(old(Image()), Image(), inum, off, src[..tot])
      ensures tot < |src| ==> Full()
      ensures Rounds(off, |src|, tot, it) && Tally(old(Image()), Image(), inum, off, it, |data|, |maps|)
      ensures inum in inodes && |inodes[inum].addrs| == 13
      ensures logged <= old(logged) + data + maps + Ind(inodes[inum])
      ensures OnlyInode(old(Image()), Image(), inum) && |bitmap| == |old(bitmap)|
      ensures |bitmap| <= 8192 ==> maps <= {bmapstart}
    {
      hide Owned, WellFormed, SameMeta, Full, Ind, One, BlockNo, NoHoles, Wrote, Tally, Rounds, NewBlocks, Chunk;
      OwnedForm(Image());
      var n := |src|;
      tot, it, data, maps := 0, 0, {}, {};
      ghost var d0 := Image();
      WroteNothing(d0, inum, off);
      WriteStart(d0, inum, off, n);
      assert src[..0] == [];
      var full := false;
      while tot < n && !full
        decreases n - tot, !full
        invariant 0 <= tot <= n && |bitmap| == |d0.bitmap|
        invariant inum in inodes && |inodes[inum].addrs| == 13
        invariant Wrote(d0, Image(), inum, off, src[..tot])
        invariant Rounds(off, n, tot, it) && Tally(d0, Image(), inum, off, it, |data|, |maps|)
        invariant logged <= old(logged) + data + maps + Ind(inodes[inum])
        invariant OnlyInode(d0, Image(), inum)
        invariant (full ==> Full()) && (it == 0 ==> tot == 0)
        invariant |bitmap| <= 8192 ==> maps <= {bmapstart}
      {
        var m := Chunk(n - tot, off + tot);
        RoundsStep(off, n, tot, it);
        ghost var d, logs := Image(), logged;
        var addr; ghost var more;
        addr, more := WriteRound(inum, d0, off, src[..tot], off + tot, src[tot..tot + m]);
        RoundEnd(d0, d, Image(), inum, off, src[..tot], it, data, maps, more, addr);
        LogGrows(d.inodes[inum], inodes[inum], old(logged), data, maps, logs, more, addr, logged);
        data, maps := data + One(addr), maps + more;
        if addr == 0 {
          full := true;
        } else {
          assert src[..tot] + src[tot..tot + m] == src[..tot + m];
          tot := tot + m;
          it := it + 1;
        }
      }
    }

    /** Splices the bytes that fit on the disk into the file; no other file changes. */
    method Writei(inum: nat, off: nat, src: seq<nat>) returns (r: int, ghost data: set<nat>, ghost maps: set<nat>)
      requires Valid() && inum in inodes && inodes[inum].kind != 0 && off < 0x1_0000_0000 && |src| < 0x1_0000_0000
      modifies this`bitmap, this`blocks, this`inodes, this`dinodes, this`logged
      ensures Valid() && |bitmap| == |old(bitmap)| && SameLabels(old(inodes), inodes)
      ensures WriteDone(old(Image()), Image(), inum, off, src, r)
      ensures r == -1 ==> logged == old(logged)
      ensures r != -1 && r < |src| ==> Full()
      ensures r != -1 ==> logged <= old(logged) + data + maps + Ind(inodes[inum]) + {IBlock(inum)}
      ensures NoNewHoles(old(Image()), Image())
      ensures r != -1 && |src| <= 3072 ==> |data| <= 4 && |maps| <= if NoHoles(old(Image()), inum) then 4 else 5
      ensures |bitmap| <= 8192 ==> maps <= {bmapstart}
    {
      hide RefsUsed, RefsDiffer, NoLeaks, BlockNo, NoHoles, Ref, Wrote, Tally, Rounds, Splice, NewBlocks,
           FreeInodes, SameLabels, WriteDone, Owned, Full, NoNewHoles, Sized, WellFormed;
      data, maps := {}, {};
      StillFree(inodes, inodes, inum);
      NothingDone(Image(), inum, off, src);
      if off > inodes[inum].size || (off + |src|) % 0x1_0000_0000 < off {
        return -1, data, maps;
      }
      if off + |src| > 268 * 1024 {
        return -1, data, maps;
      }
      ghost var d0 := Image();
      OwnedForm(d0);
      var tot;
      ghost var it;
      tot, it, data, maps := WriteLoop(inum, off, src);
      WriteEnds(d0, Image(), inum, off, src, tot);
      if |src| <= 3072 {
        WriteCount(d0, Image(), inum, off, |src|, tot, it, |data|, |maps|);
      }
      if off + tot > inodes[inum].size {
        inodes := inodes[inum := inodes[inum].(size := off + tot)];
      }
      Iupdate(inum);
      return tot, data, maps;
    }

    // ----- reading -----

    /** One round of the loop of readi: the bytes of one block, from position `pos` of the file. */
    method ReadRound(inum: nat, pos: nat, m: nat, ghost d: Disk, ghost off: nat) returns (addr: nat, piece: seq<nat>)
      requires Reading(d, Image(), inum, off, pos) && Sized(d) && off <= pos && (pos == off || pos % 1024 == 0)
      requires 0 < m && pos % 1024 + m <= 1024 && pos + m <= d.inodes[inum].size
      modifies this`bitmap, this`blocks, this`inodes, this`logged
      ensures Reading(d, Image(), inum, off, pos + m)
      ensures !HoleIn(d, inum, off, pos + m) ==> logged == old(logged)
      ensures addr == 0 ==> Full() && HoleIn(d, inum, off, pos + m)
      ensures addr != 0 ==> piece == Content(d, inum)[pos..pos + m]
    {
      hide RefsUsed, RefsDiffer, NoLeaks, BlockNo, Ref, Keeps, Content, ByteAt, Data, At, Reading, Mapped, Owned,
        NoHoles, AllUsed, HoleIn;
      ghost var c := Image();
      ReadForm(d, c, inum, off, pos);
      HoleNext(d, inum, off, pos, pos + m);
      ghost var maps;
      addr, maps := Bmap(inum, pos / 1024);
      piece := [];
      ReadingStep(d, c, Image(), inum, off, pos, pos + m);
      ReadForm(d, Image(), inum, off, pos + m);
      if addr != 0 {
        BlockThere(Image(), inum, pos / 1024);
        ReadChunk(Image(), inum, pos, m);
        AtBlock(Image(), addr);
        piece := blocks[addr][pos % 1024..pos % 1024 + m];
      }
    }

    /** The loop of readi over the blocks of a range that lies within the file. */
    method ReadBlocks(inum: nat, off: nat, n: nat) returns (dst: seq<nat>)
      requires Reading(Image(), Image(), inum, off, off) && Sized(Image())
      requires inum in inodes && off + n <= inodes[inum].size
      modifies this`bitmap, this`blocks, this`inodes, this`logged
      ensures Reading(old(Image()), Image(), inum, off, off + n)
      ensures |dst| <= n && off + |dst| <= |Content(old(Image()), inum)|
      ensures dst == Content(old(Image()), inum)[off..off + |dst|]
      ensures |dst| < n ==> Full() && HoleIn(old(Image()), inum, off, off + n)
      ensures !HoleIn(old(Image()), inum, off, off + n) ==> logged == old(logged)
    {
      hide RefsUsed, RefsDiffer, NoLeaks, BlockNo, Ref, Keeps, Content, ByteAt, Data, At, Chunk, Reading, Mapped, Owned,
        NoHoles, MissingIn, FreeInodes, HoleIn, AllUsed;
      dst := [];
      ghost var d := Image();
      ReadForm(d, d, inum, off, off);
      var tot := 0;
      while tot < n
        invariant 0 <= tot <= n && (tot < n ==> tot == 0 || (off + tot) % 1024 == 0)
        invariant Reading(d, Image(), inum, off, off + tot)
        invariant !HoleIn(d, inum, off, off + tot) ==> logged == old(logged)
        invariant dst == Content(d, inum)[off..off + tot]
      {
        var pos := off + tot;
        var m := Chunk(n - tot, pos);
        ChunkFits(n - tot, pos);
        HoleNext(d, inum, off, pos, pos + m);
        var addr, piece := ReadRound(inum, pos, m, d, off);
        if addr == 0 {
          HoleWider(d, inum, off, pos + m, off + n);
          ReadingStuck(d, Image(), inum, off, pos + m, off + n);
          return;
        }
        SliceNext(Content(d, inum), off, pos, pos + m);
        dst := dst + piece;
        tot := tot + m;
      }
    }

    /**
      The clipped slice of the file, or as much of it as bmap can map while the disk fills up. No
      file changes. The inode is in memory as on disk afterwards if and only if no address was
      missing in it that bmap could supply; otherwise a block is lost unless somebody writes it back.
     */
    method Readi(inum: nat, off: nat, n: nat) returns (dst: seq<nat>)
      requires Valid() && inum in inodes && inodes[inum].kind != 0 && off < 0x1_0000_0000 && n < 0x1_0000_0000
      modifies this`bitmap, this`blocks, this`inodes, this`logged
      ensures off > old(inodes)[inum].size || off + n >= 0x1_0000_0000 ==>
        dst == [] && Image() == old(Image()) && logged == old(logged)
      ensures off <= old(inodes)[inum].size && off + n < 0x1_0000_0000 ==>
        var d, size := old(Image()), old(inodes)[inum].size;
        var end := if off + n < size then off + n else size;
        && Reading(d, Image(), inum, off, end)
        && off + |dst| <= end && dst == Content(d, inum)[off..off + |dst|]
        && (off + |dst| < end ==> Full() && HoleIn(d, inum, off, end))
        && (!HoleIn(d, inum, off, end) ==> Image() == d && logged == old(logged))
        && (Valid() <==> old(Full()) || !MissingIn(d.inodes[inum], off, end))
        && (!Valid() ==> !Owned(Image().(inodes := dinodes), {}))
    {
      hide RefsUsed, RefsDiffer, NoLeaks, BlockNo, Ref, Keeps, Content, ByteAt, Data, At, Chunk, Reading, Mapped, Owned,
        NoHoles, MissingIn, FreeInodes, HoleIn;
      dst := [];
      ghost var d := Image();
      OwnedForm(d);
      ReadingNone(d, inum, off);
      if off > inodes[inum].size || (off + n) % 0x1_0000_0000 < off {
        return;
      }
      var n' := if off + n > inodes[inum].size then inodes[inum].size - off else n;
      dst := ReadBlocks(inum, off, n');
      ReadForm(d, Image(), inum, off, off + n');
      ReadDone(d, Image(), inum, off, off + n');
    }

    /** What was written is what is read. */
    method ReadBack(inum: nat, off: nat, src: seq<nat>) returns (r: int, dst: seq<nat>)
      requires Valid() && inum in inodes && inodes[inum].kind != 0 && off < 0x1_0000_0000 && |src| < 0x1_0000_0000
      modifies this`bitmap, this`blocks, this`inodes, this`dinodes, this`logged
      ensures r == |src| ==> dst == src
    {
      hide RefsUsed, RefsDiffer, NoLeaks, BlockNo, Ref, Keeps, Content, ByteAt, Data, At, Reading, Owned, NoHoles,
        MissingIn, FreeInodes, HoleIn, Splice, OtherContents, Backed;
      ghost var data, maps;
      r, data, maps := Writei(inum, off, src);
      ghost var d := Image();
      dst := Readi(inum, off, |src|);
      if r == |src| {
        OwnedForm(d);
        assert src[..r] == src;
        SpliceRead(Content(old(Image()), inum), off, src);
        if src != [] { BackedWhole(d, inum, off, off + |src|); }
      }
    }

    // ----- truncating -----

    /** Frees what the entries of the indirect block refer to, and then the block; its contents stay behind. */
    method FreeIndirect(inum: nat)
      requires Owned(Image(), {}) && inum in inodes && inodes[inum].addrs[12] != 0
      modifies this`bitmap, this`inodes, this`logged
      ensures Owned(Image(), {}) && OthersSame(old(Image()), Image(), inum)
      ensures inodes == old(inodes)[inum := old(inodes)[inum].(addrs := old(inodes)[inum].addrs[12 := 0])]
      ensures |bitmap| == |old(bitmap)|
    {
      hide RefsUsed, RefsDiffer, NoLeaks, BlockNo, OthersSame, Data, Get32, Put32, WellFormed;
      ghost var g := Image();
      OwnedForm(g);
      OthersSelf(g, inum);
      IndirectIn(g, inum, 0);
      var ib := inodes[inum].addrs[12];
      var j := 0;
      while j < NINDIRECT
        invariant 0 <= j <= 256
        invariant Owned(g, {}) && OthersSame(old(Image()), g, inum)
        invariant ib in g.blocks && g == Image().(blocks := blocks[ib := g.blocks[ib]]) && BlockIn(g, ib)
        invariant forall k :: 0 <= k < 256 ==> Get32(g.blocks[ib], k) == if k < j then 0 else Get32(blocks[ib], k)
        invariant inodes == old(inodes) && |bitmap| == |old(bitmap)|
      {
        var b := Get32(blocks[ib], j);
        DropEntry(g, inum, j);
        assert Get32(g.blocks[ib], j) == b;
        if b != 0 {
          ghost var h := WithEntry(Freed(g, b), ib, j, 0);
          Bfree(b);
          OthersTrans(old(Image()), g, h, inum);
          EntriesAfter(g.blocks[ib], j);
          assert h == Image().(blocks := blocks[ib := h.blocks[ib]]);
          g := h;
        }
        j := j + 1;
      }
      DropIndirect(g, inum, blocks[ib]);
      assert WithData(g, ib, blocks[ib]) == Image();
      ghost var f := WithAddr(Freed(Image(), ib), inum, 12, 0);
      Bfree(ib);
      SetAddr(inum, 12, 0);
      assert Image() == f;
      OthersTrans(old(Image()), g, f, inum);
    }

    method FreeDirect(inum: nat)
      requires Owned(Image(), {}) && inum in inodes
      modifies this`bitmap, this`inodes, this`logged
      ensures Owned(Image(), {}) && OthersSame(old(Image()), Image(), inum)
      ensures inodes == old(inodes)[inum := old(inodes)[inum].(addrs := Cleared(old(inodes)[inum].addrs, 12))]
      ensures |bitmap| == |old(bitmap)|
    {
      hide RefsUsed, RefsDiffer, NoLeaks, BlockNo, OthersSame, Data, WellFormed;
      ghost var d0 := Image();
      OwnedForm(d0);
      OthersSelf(d0, inum);
      assert Cleared(inodes[inum].addrs, 0) == inodes[inum].addrs;
      assert inodes[inum := inodes[inum]] == inodes;
      var i := 0;
      while i < NDIRECT
        invariant 0 <= i <= 12
        invariant Owned(Image(), {}) && OthersSame(d0, Image(), inum) && |bitmap| == |d0.bitmap|
        invariant inodes == d0.inodes[inum := d0.inodes[inum].(addrs := Cleared(d0.inodes[inum].addrs, i))]
      {
        ghost var d := Image();
        ClearedStep(d0.inodes[inum].addrs, i);
        if inodes[inum].addrs[i] != 0 {
          DropDirect(d, inum, i);
          Bfree(inodes[inum].addrs[i]);
          SetAddr(inum, i, 0);
          OthersTrans(d0, d, Image(), inum);
        }
        i := i + 1;
      }
    }

    /** Frees every block of the file; "freeing free block" is never reached. */
    method Itrunc(inum: nat)
      requires Valid() && inum in inodes
      modifies this`bitmap, this`inodes, this`dinodes, this`logged
      ensures Valid() && OtherContents(old(Image()), Image(), inum) && NoNewHoles(old(Image()), Image())
      ensures Content(Image(), inum) == []
      ensures inodes == old(inodes)[inum := old(inodes)[inum].(size := 0, addrs := NoAddrs())]
      ensures forall s :: SlotIn(old(Image()), s) && s.inum == inum && Ref(old(Image()), s) != 0 ==>
        Ref(old(Image()), s) < |bitmap| && !bitmap[Ref(old(Image()), s)]
    {
      hide Owned, BlockNo, OthersSame, OtherContents, Data, Content, Sized, NoNewHoles, FreeInodes, Ref;
      ghost var d0 := Image();
      OwnedForm(d0);
      FreeDirect(inum);
      ghost var d := Image();
      if inodes[inum].addrs[NDIRECT] != 0 {
        FreeIndirect(inum);
        OthersTrans(d0, d, Image(), inum);
      }
      assert inodes[inum].addrs == NoAddrs();
      TruncEnds(d0, Image(), inum);
      inodes := inodes[inum := inodes[inum].(size := 0)];
      Iupdate(inum);
    }

    // ----- inodes that come and go -----

    /** ialloc: the lowest free inode from 1 on gets a type and is empty; 0 when none is free. No file changes. */
    method Ialloc(kind: nat) returns (inum: nat)
      requires Valid() && kind != 0
      modifies this`inodes, this`dinodes, this`logged
      ensures Valid() && NoNewHoles(old(Image()), Image())
      ensures inum == 0 <==> forall i: nat :: 1 <= i < ninodes ==> old(inodes)[i].kind != 0
      ensures inum == 0 ==> inodes == old(inodes) && logged == old(logged)
      ensures inum != 0 ==>
        && inum < ninodes && old(inodes)[inum].kind == 0
        && (forall i: nat :: 1 <= i < inum ==> old(inodes)[i].kind != 0)
        && inodes == old(inodes)[inum := Inode(kind, 0, 0, NoAddrs())] && logged == old(logged) + {IBlock(inum)}
        && OtherContents(old(Image()), Image(), inum) && Content(Image(), inum) == []
    {
      hide Owned, NoHoles, OtherContents, Content, FreeInodes;
      OwnedForm(Image());
      inum := 1;
      while inum < ninodes
        invariant 1 <= inum
        invariant forall i: nat :: 1 <= i < inum && i < ninodes ==> inodes[i].kind != 0
        invariant inodes == old(inodes) && dinodes == old(dinodes) && logged == old(logged)
      {
        if dinodes[inum].kind == 0 {
          ghost var d, ip := Image(), Inode(kind, 0, 0, NoAddrs());
          FreeIs(inodes, inum);
          OwnedForm(d);
          Relabel(d, inum, ip);
          KeepsFree(inodes, inum, ip);
          OwnedForm(WithInode(d, inum, ip));
          EmptyContent(WithInode(d, inum, ip), inum);
          dinodes := dinodes[inum := Inode(kind, 0, 0, NoAddrs())];
          logged := logged + {IBlock(inum)};
          inodes := inodes[inum := dinodes[inum]];
          return;
        }
        inum := inum + 1;
      }
      inum := 0;
    }

    /** iput of the last reference to an inode without links: every block it had is free again, and so is the inode. */
    method FreeInum(inum: nat)
      requires Valid() && inum in inodes && inodes[inum].nlink == 0
      modifies this`bitmap, this`inodes, this`dinodes, this`logged
      ensures Valid() && OtherContents(old(Image()), Image(), inum) && NoNewHoles(old(Image()), Image())
      ensures inodes == old(inodes)[inum := Inode(0, 0, 0, NoAddrs())]
      ensures forall s :: SlotIn(old(Image()), s) && s.inum == inum && Ref(old(Image()), s) != 0 ==>
        Ref(old(Image()), s) < |bitmap| && !bitmap[Ref(old(Image()), s)]
    {
      hide Owned, NoHoles, OtherContents, Content, FreeInodes, Ref;
      Itrunc(inum);
      ghost var d := Image();
      OwnedForm(d);
      Relabel(d, inum, inodes[inum].(kind := 0));
      KeepsFree(inodes, inum, inodes[inum].(kind := 0));
      inodes := inodes[inum := inodes[inum].(kind := 0)];
      Iupdate(inum);
      OtherTrans(old(Image()), d, Image(), inum);
    }

    // ----- chunked writes -----

    method BeginOp()
      modifies this`logged
      ensures logged == {}
    {
      logged := {};
    }

    /**
      One transaction of filewrite. On a file without holes it stays within MAXOPBLOCKS, however
      many blocks the bitmap takes.
     */
    method WriteOp(inum: nat, off: nat, src: seq<nat>) returns (r: int)
      requires Valid() && inum in inodes && inodes[inum].kind != 0 && off < 0x1_0000_0000 && |src| <= 3072
      modifies this`bitmap, this`blocks, this`inodes, this`dinodes, this`logged
      ensures Valid() && |bitmap| == |old(bitmap)| && SameLabels(old(inodes), inodes)
      ensures WriteDone(old(Image()), Image(), inum, off, src, r)
      ensures r != -1 && r < |src| ==> Full()
      ensures NoNewHoles(old(Image()), Image())
      ensures |logged| <= if NoHoles(old(Image()), inum) then 10 else 11
      ensures |bitmap| <= 8192 ==> |logged| <= 7
    {
      hide NoHoles, RefsUsed, RefsDiffer, NoLeaks, Content, OtherContents, Splice, Full;
      BeginOp();
      ghost var data, maps;
      r, data, maps := Writei(inum, off, src);
      if r != -1 {
        WriteBudget(logged, data, maps, Ind(inodes[inum]), {IBlock(inum)});
        if |bitmap| <= 8192 {
          SubsetSize(maps, {bmapstart});
        }
      }
    }

    /**
      The bytes that reach the file are a prefix of `src`, as if written by one call; all of
      them when `ret` is its length.
     */
    method FileWrite(f: File, src: seq<nat>) returns (ret: int)
      requires Valid() && f.inum in inodes && inodes[f.inum].kind != 0 && f.off < 0x1_0000_0000
      modifies this`bitmap, this`blocks, this`inodes, this`dinodes, this`logged, f
      ensures Valid() && f.inum in inodes && SameLabels(old(inodes), inodes) && NoNewHoles(old(Image()), Image())
      ensures old(f.off) <= f.off <= old(f.off) + |src|
      ensures ret == (if f.writable && f.off == old(f.off) + |src| then |src| else -1)
      ensures FileWritten(old(Image()), Image(), f.inum, old(f.off), src, f.off - old(f.off))
      ensures f.writable && ret == -1 ==>
        Full() || f.off > inodes[f.inum].size || old(f.off) + |src| > 268 * 1024
    {
      hide RefsUsed, RefsDiffer, NoLeaks, NoHoles, Content, Splice, OtherContents, Full, FileWritten, Backed;
      ghost var d0 := Image();
      NothingWritten(d0, f.inum, f.off, src);
      if !f.writable {
        return -1;
      }
      var n := |src|;
      var i := 0;
      while i < n
        invariant 0 <= i <= n
        invariant Valid() && f.inum in inodes && SameLabels(old(inodes), inodes) && f.off == old(f.off) + i
        invariant f.off < 0x1_0000_0000
        invariant FileWritten(d0, Image(), f.inum, old(f.off), src, i) && NoNewHoles(d0, Image())
      {
        var n1 := if n - i > 3072 then 3072 else n - i;
        ghost var d := Image();
        var r := WriteOp(f.inum, f.off, src[i..i + n1]);
        if r > 0 {
          f.off := f.off + r;
        }
        ChunkWritten(d0, d, Image(), f.inum, old(f.off), src, i, n1, r);
        if r != n1 {
          return -1;
        }
        i := i + r;
      }
      return n;
    }
  }
}
