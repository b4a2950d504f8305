/** Files as byte sequences: what one chunk of a write does to the bytes of every file. */
module FsContent {
  import opened FsImage

  /** `c` with `w` written over it from `off` on. */
  function Splice(c: seq<nat>, off: nat, w: seq<nat>): (r: seq<nat>)
    requires off <= |c|
    ensures |r| == if off + |w| > |c| then off + |w| else |c|
  {
    if off + |w| < |c| then c[..off] + w + c[off + |w|..] else c[..off] + w
  }

  /** Two writes, one after the other, are one write. */
  lemma SpliceTwice(c: seq<nat>, off: nat, v: seq<nat>, w: seq<nat>)
    requires off <= |c|
    ensures Splice(Splice(c, off, v), off + |v|, w) == Splice(c, off, v + w)
  {
  }

  /** Byte by byte: the bytes written where they were written, and the old ones elsewhere. */
  lemma SpliceAt(c: seq<nat>, off: nat, w: seq<nat>, k: nat)
    requires off <= |c| && k < |Splice(c, off, w)|
    ensures Splice(c, off, w)[k] == if off <= k < off + |w| then w[k - off] else c[k]
  {
  }

  /** What was written is what is read. */
  lemma SpliceRead(c: seq<nat>, off: nat, w: seq<nat>)
    requires off <= |c|
    ensures off + |w| <= |Splice(c, off, w)| && Splice(c, off, w)[off..off + |w|] == w
  {
  }

  /** The bytes of a block with `w` copied in at `o`. */
  function Patch(b: Block, o: nat, w: seq<nat>): (r: Block)
    requires o + |w| <= |b|
    ensures |r| == |b|
    ensures forall k :: 0 <= k < |b| ==> r[k] == if o <= k < o + |w| then w[k - o] else b[k]
  {
    b[..o] + w + b[o + |w|..]
  }

  /** No file is longer than MAXFILE blocks. */
  predicate Sized(d: Disk) { forall i :: i in d.inodes ==> d.inodes[i].size <= 268 * 1024 }

  /** A file that had no hole in `d` has none in `e`. */
  ghost predicate NoNewHoles(d: Disk, e: Disk) {
    && WellFormed(d) && WellFormed(e) && e.inodes.Keys == d.inodes.Keys
    && forall i :: i in d.inodes && NoHoles(d, i) ==> NoHoles(e, i)
  }

  // ----- writes in progress -----

  ghost predicate NewBytes(d0: Disk, d: Disk, inum: nat, off: nat, w: seq<nat>)
    requires WellFormed(d0) && WellFormed(d) && SameMeta(d0, d) && inum in d0.inodes
  {
    forall k: nat :: ByteAt(d, inum, k) == if off <= k < off + |w| then w[k - off] else ByteAt(d0, inum, k)
  }

  ghost predicate OtherData(d0: Disk, d: Disk, inum: nat)
    requires WellFormed(d0) && WellFormed(d) && SameMeta(d0, d)
  {
    forall i, bn: nat :: i in d0.inodes && i != inum ==> Data(d, i, bn) == Data(d0, i, bn)
  }

  ghost predicate Backed(d: Disk, inum: nat, lo: nat, hi: nat)
    requires WellFormed(d) && inum in d.inodes
  {
    forall bn: nat :: lo <= bn && bn * 1024 < hi ==> BlockNo(d, inum, bn) != 0
  }

  /** From `d0` to `d`, the bytes `w` were written to the blocks of `inum` at `off`; sizes are as before. */
  ghost predicate Wrote(d0: Disk, d: Disk, inum: nat, off: nat, w: seq<nat>) {
    && Owned(d0, {}) && Owned(d, {}) && SameMeta(d0, d) && inum in d0.inodes
    && NewBytes(d0, d, inum, off, w) && OtherData(d0, d, inum) && RefsStay(d0, d)
    && (w != [] ==> Backed(d, inum, off / 1024, off + |w|))
  }

  lemma WroteNothing(d: Disk, inum: nat, off: nat)
    requires Owned(d, {}) && inum in d.inodes
    ensures Wrote(d, d, inum, off, [])
  {
  }

  /** Blocks that bmap adds change none of it. */
  lemma WroteKeeps(d0: Disk, d: Disk, e: Disk, inum: nat, off: nat, w: seq<nat>)
    requires Wrote(d0, d, inum, off, w) && Keeps(d, e) && Owned(e, {})
    ensures Wrote(d0, e, inum, off, w)
  {
    hide Ref, BlockNo, RefsUsed, RefsDiffer, NoLeaks;
    assert SameMeta(d0, e) by {
      assert forall i :: i in d.inodes ==> e.inodes[i].(addrs := d.inodes[i].addrs) == d.inodes[i];
    }
    RefsStayTrans(d0, d, e);
    forall k: nat
      ensures ByteAt(e, inum, k) == ByteAt(d, inum, k)
    {
      assert Data(e, inum, k / 1024) == Data(d, inum, k / 1024);
    }
    forall i, bn: nat | i in d0.inodes && i != inum
      ensures Data(e, i, bn) == Data(d0, i, bn)
    {
      assert Data(d, i, bn) == Data(d0, i, bn);
    }
    forall bn: nat | w != [] && off / 1024 <= bn && bn * 1024 < off + |w|
      ensures BlockNo(e, inum, bn) != 0
    {
      assert BlockNo(d, inum, bn) != 0;
    }
  }

  lemma RefsStayTrans(d: Disk, e: Disk, f: Disk)
    requires WellFormed(d) && WellFormed(e) && WellFormed(f) && SameMeta(d, e) && SameMeta(e, f) && SameMeta(d, f)
    requires RefsStay(d, e) && RefsStay(e, f)
    ensures RefsStay(d, f)
  {
  }

  /** One chunk of a write: the bytes of one block from the current position on. */
  lemma WroteChunk(d0: Disk, d: Disk, inum: nat, off: nat, w: seq<nat>, v: seq<nat>)
    requires Wrote(d0, d, inum, off, w)
    requires (off + |w|) % 1024 + |v| <= 1024
    requires BlockNo(d, inum, (off + |w|) / 1024) != 0
    ensures var b := BlockNo(d, inum, (off + |w|) / 1024);
      Wrote(d0, WithData(d, b, Patch(At(d, b), (off + |w|) % 1024, v)), inum, off, w + v)
  {
    hide BlockNo, RefsStay, Get32, Ref, RefsUsed, RefsDiffer, NoLeaks, Data, ByteAt, At, ZeroBlock;
    var pos := off + |w|;
    var b := BlockNo(d, inum, pos / 1024);
    var data := Patch(At(d, b), pos % 1024, v);
    var e := WithData(d, b, data);
    OwnedForm(d0);
    OwnedForm(d);
    WriteBlock(d, inum, pos / 1024, data);
    OwnedForm(e);
    SameMetaStep(d0, d, e);
    ChunkBytes(d, e, inum, pos, v);
    forall k: nat
      ensures ByteAt(e, inum, k) == if off <= k < off + |w + v| then (w + v)[k - off] else ByteAt(d0, inum, k)
    {
      assert ByteAt(d, inum, k) == if off <= k < off + |w| then w[k - off] else ByteAt(d0, inum, k);
    }
    forall i, bn: nat | i in d0.inodes && i != inum
      ensures Data(e, i, bn) == Data(d0, i, bn)
    {
      assert Data(d, i, bn) == Data(d0, i, bn);
    }
    assert Backed(e, inum, off / 1024, off + |w + v|) by {
      ChunkBacked(d, e, inum, off, pos, |v|);
    }
    assert RefsStay(d0, e) by { RefsStaySame(d0, d, e); }
  }

  lemma OwnedForm(d: Disk)
    requires Owned(d, {})
    ensures WellFormed(d)
    ensures forall i :: i in d.inodes ==> |d.inodes[i].addrs| == 13
  {
  }

  lemma SameMetaStep(d0: Disk, d: Disk, e: Disk)
    requires SameMeta(d0, d) && e.inodes == d.inodes && e.first == d.first && e.bitmap == d.bitmap
    ensures SameMeta(d0, e) && SameMeta(d, e)
  {
  }

  lemma RefsStaySame(d0: Disk, d: Disk, e: Disk)
    requires WellFormed(d0) && WellFormed(d) && WellFormed(e) && SameMeta(d0, d) && SameMeta(d0, e) && SameMeta(d, e)
    requires RefsStay(d0, d)
    requires forall i, k: nat :: i in d.inodes ==> BlockNo(e, i, k) == BlockNo(d, i, k)
    ensures RefsStay(d0, e)
  {
  }

  lemma ChunkBytes(d: Disk, e: Disk, inum: nat, pos: nat, v: seq<nat>)
    requires WellFormed(d) && WellFormed(e) && inum in d.inodes && inum in e.inodes
    requires pos % 1024 + |v| <= 1024 && BlockNo(d, inum, pos / 1024) != 0
    requires Data(e, inum, pos / 1024) == Patch(At(d, BlockNo(d, inum, pos / 1024)), pos % 1024, v)
    requires forall k: nat :: k != pos / 1024 ==> Data(e, inum, k) == Data(d, inum, k)
    ensures forall k: nat :: ByteAt(e, inum, k) == if pos <= k < pos + |v| then v[k - pos] else ByteAt(d, inum, k)
  {
  }

  lemma ChunkBacked(d: Disk, e: Disk, inum: nat, off: nat, pos: nat, m: nat)
    requires WellFormed(d) && WellFormed(e) && inum in d.inodes && inum in e.inodes
    requires off <= pos && pos % 1024 + m <= 1024
    requires pos == off || Backed(d, inum, off / 1024, pos)
    requires BlockNo(d, inum, pos / 1024) != 0
    requires forall k: nat :: BlockNo(e, inum, k) == BlockNo(d, inum, k)
    ensures Backed(e, inum, off / 1024, pos + m)
  {
  }

  // ----- the end of a write -----

  function WithSize(d: Disk, inum: nat, n: nat): Disk
    requires inum in d.inodes
  {
    d.(inodes := d.inodes[inum := d.inodes[inum].(size := n)])
  }

  lemma WithSizeKeeps(d: Disk, inum: nat, n: nat)
    requires Owned(d, {}) && inum in d.inodes
    ensures var e := WithSize(d, inum, n);
      && Owned(e, {}) && e.inodes.Keys == d.inodes.Keys
      && (forall i, bn: nat :: i in d.inodes ==>
        BlockNo(e, i, bn) == BlockNo(d, i, bn) && Data(e, i, bn) == Data(d, i, bn))
      && (forall i, k: nat :: i in d.inodes ==> ByteAt(e, i, k) == ByteAt(d, i, k))
  {
    var e := WithSize(d, inum, n);
    forall c | 0 <= c < |e.bitmap|
      ensures BlockIn(e, c)
    {
      assert BlockIn(d, c);
    }
    assert WellFormed(e);
    SameRefsOwned(d, e);
    forall i, bn: nat | i in d.inodes
      ensures BlockNo(e, i, bn) == BlockNo(d, i, bn)
    {
      if bn < NDIRECT + NINDIRECT {
        assert SlotIn(d, SlotOf(i, bn));
      }
    }
  }

  ghost predicate OtherContents(d: Disk, e: Disk, inum: nat) {
    && WellFormed(d) && WellFormed(e) && e.inodes.Keys == d.inodes.Keys
    && (forall i :: i in d.inodes && i != inum ==> Content(e, i) == Content(d, i))
  }

  lemma NoHolesEnd(d0: Disk, d: Disk, inum: nat, off: nat, w: seq<nat>, n: nat)
    requires Wrote(d0, d, inum, off, w) && off <= d0.inodes[inum].size
    requires n == if off + |w| > d0.inodes[inum].size then off + |w| else d0.inodes[inum].size
    ensures NoNewHoles(d0, WithSize(d, inum, n))
  {
    hide Ref, BlockNo, Get32, NewBytes, OtherData, RefsUsed, RefsDiffer, NoLeaks;
    var e := WithSize(d, inum, n);
    WithSizeKeeps(d, inum, n);
    forall i | i in d0.inodes && NoHoles(d0, i)
      ensures NoHoles(e, i)
    {
      forall bn: nat | bn * 1024 < e.inodes[i].size
        ensures BlockNo(e, i, bn) != 0
      {
        if bn * 1024 < d0.inodes[i].size {
          assert BlockNo(d0, i, bn) != 0;
        } else {
          assert i == inum && off / 1024 <= bn;
        }
      }
    }
  }

  /** Once the size is set, the file is the old one with `w` spliced in, and no other file has changed. */
  lemma WroteEnd(d0: Disk, d: Disk, inum: nat, off: nat, w: seq<nat>, n: nat)
    requires Wrote(d0, d, inum, off, w) && Sized(d0) && off <= d0.inodes[inum].size && off + |w| <= 268 * 1024
    requires n == if off + |w| > d0.inodes[inum].size then off + |w| else d0.inodes[inum].size
    ensures var e := WithSize(d, inum, n);
      && Owned(e, {}) && Sized(e) && NoNewHoles(d0, e)
      && Content(e, inum) == Splice(Content(d0, inum), off, w)
      && OtherContents(d0, e, inum)
  {
    hide Ref, BlockNo, Get32, RefsStay, RefsUsed, RefsDiffer, NoLeaks, NoHoles, Data, Backed;
    var e := WithSize(d, inum, n);
    WithSizeKeeps(d, inum, n);
    NoHolesEnd(d0, d, inum, off, w, n);
    var c := Splice(Content(d0, inum), off, w);
    assert |Content(e, inum)| == |c|;
    forall k: nat | k < |c|
      ensures Content(e, inum)[k] == c[k]
    {
      assert ByteAt(e, inum, k) == ByteAt(d, inum, k);
    }
    forall i | i in d0.inodes && i != inum
      ensures Content(e, i) == Content(d0, i)
    {
      forall k: nat
        ensures ByteAt(e, i, k) == ByteAt(d0, i, k)
      {
        assert Data(d, i, k / 1024) == Data(d0, i, k / 1024);
        SameByte(d0, d, i, k);
      }
    }
  }

  lemma SameByte(d: Disk, e: Disk, i: nat, k: nat)
    requires WellFormed(d) && WellFormed(e) && i in d.inodes && i in e.inodes
    requires Data(e, i, k / 1024) == Data(d, i, k / 1024)
    ensures ByteAt(e, i, k) == ByteAt(d, i, k)
  {
  }

  // ----- reading -----

  lemma ReadByte(d: Disk, inum: nat, pos: nat, k: nat)
    requires WellFormed(d) && inum in d.inodes && pos + k < d.inodes[inum].size
    requires pos % 1024 + k < 1024 && BlockNo(d, inum, pos / 1024) != 0
    ensures At(d, BlockNo(d, inum, pos / 1024))[pos % 1024 + k] == Content(d, inum)[pos + k]
  {
  }

  /** The bytes of one block of a file, from a position on. */
  lemma ReadChunk(d: Disk, inum: nat, pos: nat, m: nat)
    requires Owned(d, {}) && inum in d.inodes && pos + m <= d.inodes[inum].size
    requires pos % 1024 + m <= 1024 && BlockNo(d, inum, pos / 1024) != 0
    ensures At(d, BlockNo(d, inum, pos / 1024))[pos % 1024..pos % 1024 + m] == Content(d, inum)[pos..pos + m]
  {
    hide *;
    OwnedForm(d);
    var l := At(d, BlockNo(d, inum, pos / 1024))[pos % 1024..pos % 1024 + m];
    var r := Content(d, inum)[pos..pos + m];
    forall k | 0 <= k < m
      ensures l[k] == r[k]
    {
      ReadByte(d, inum, pos, k);
    }
  }

  /** Blocks that bmap adds change no file. */
  lemma KeepsContent(d: Disk, e: Disk, inum: nat)
    requires Keeps(d, e) && inum in d.inodes
    ensures inum in e.inodes && |e.inodes[inum].addrs| == 13 && Content(e, inum) == Content(d, inum)
  {
    hide Ref, BlockNo, RefsStay, Data;
    assert e.inodes[inum].(addrs := d.inodes[inum].addrs) == d.inodes[inum];
    forall k: nat
      ensures ByteAt(e, inum, k) == ByteAt(d, inum, k)
    {
      assert Data(e, inum, k / 1024) == Data(d, inum, k / 1024);
    }
  }

  // ----- truncation -----

  /** With the size at zero and every other file as before, no file has a new hole. */
  lemma Truncated(d: Disk, e: Disk, inum: nat)
    requires WellFormed(d) && Sized(d) && inum in d.inodes && OthersSame(d, e, inum) && Owned(e, {})
    ensures var f := WithSize(e, inum, 0);
      && Owned(f, {}) && Sized(f) && NoNewHoles(d, f) && Content(f, inum) == [] && OtherContents(d, f, inum)
  {
    hide Ref, BlockNo, Get32, RefsUsed, RefsDiffer, NoLeaks, Data;
    var f := WithSize(e, inum, 0);
    WithSizeKeeps(e, inum, 0);
    forall i | i in d.inodes && NoHoles(d, i)
      ensures NoHoles(f, i)
    {
      forall bn: nat | bn * 1024 < f.inodes[i].size
        ensures BlockNo(f, i, bn) != 0
      {
        assert BlockNo(e, i, bn) == BlockNo(d, i, bn);
      }
    }
    forall i | i in d.inodes && i != inum
      ensures Content(f, i) == Content(d, i)
    {
      forall k: nat
        ensures ByteAt(f, i, k) == ByteAt(d, i, k)
      {
        assert Data(e, i, k / 1024) == Data(d, i, k / 1024);
      }
    }
  }
}
