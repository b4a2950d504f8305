/**
  The program headers of an executable as exec (kernel/exec.c) reads them, and the memory image
  that they describe: which page has which permissions and whose bytes.
 */
module ExecFile {
  import opened PageTable
  import opened Vm

  /**
    A program header, unless the read falls short (`whole`), with the pages that reading the
    file gives before it fails.
   */
  datatype Segment = Segment(whole: bool, kind: nat, flags: nat, vaddr: nat, filesz: nat, memsz: nat,
                             data: seq<seq<nat>>)

  const ELF_PROG_LOAD: nat := 1

  /** The sizes are 64-bit numbers, and a page is a page. */
  predicate SegmentOk(s: Segment) {
    && s.vaddr < 0x1_0000_0000_0000_0000 && s.memsz < 0x1_0000_0000_0000_0000
    && forall k :: 0 <= k < |s.data| ==> |s.data[k]| == 512
  }

  predicate BadSegment(s: Segment) {
    s.memsz < s.filesz || (s.vaddr + s.memsz) % 0x1_0000_0000_0000_0000 < s.vaddr || s.vaddr % 4096 != 0
  }

  /** flags2perm */
  function Perm(flags: nat): (perm: nat)
    ensures perm in {0, PTE_W, PTE_X, PTE_W + PTE_X}
  {
    (if flags % 2 == 1 then PTE_X else 0) + (if flags / 2 % 2 == 1 then PTE_W else 0)
  }

  // ----- what the headers ask for -----

  /** loadseg takes the size of the file part as a 32-bit number. */
  function FilePages(s: Segment): nat { Up(s.filesz % 0x1_0000_0000) }

  /** Page `v` gets bytes of the file from header `s`. */
  predicate Covers(s: Segment, v: nat) { s.kind == 1 && s.vaddr / 4096 <= v < s.vaddr / 4096 + FilePages(s) }

  /** The size of the image after the first `k` headers: the highest end of a segment to load. */
  function Top(segs: seq<Segment>, k: nat): nat
    requires k <= |segs|
  {
    if k == 0 then 0
    else
      var n, s := Top(segs, k - 1), segs[k - 1];
      if s.kind == 1 && s.vaddr + s.memsz > n then s.vaddr + s.memsz else n
  }

  /** Page `v` is mapped for header `j`. */
  predicate MappedBy(segs: seq<Segment>, j: nat, v: nat)
    requires j < |segs|
  {
    segs[j].kind == 1 && Up(Top(segs, j)) <= v < Up(Top(segs, j + 1))
  }

  /** What exec demands of a header. */
  predicate Loadable(s: Segment) {
    && s.whole
    && (s.kind == 1 ==> s.filesz <= s.memsz && s.vaddr + s.memsz < 0x1_0000_0000_0000_0000 && s.vaddr % 4096 == 0
                        && FilePages(s) <= |s.data|)
  }

  /** The first `k` headers are in order, and no segment leaves the image empty. */
  predicate AllLoadable(segs: seq<Segment>, k: nat)
    requires k <= |segs|
  {
    forall i :: 0 <= i < k ==> Loadable(segs[i]) && (segs[i].kind == 1 ==> Top(segs, i + 1) > 0)
  }

  // ----- the image -----

  ghost predicate Lies(mem: Memory, f: map<nat, nat>, v: nat, page: seq<nat>) {
    v in f && Pa(f[v]) in mem && mem[Pa(f[v])] == page
  }

  /** The page that the first `k` headers make of page `v`. */
  function PageOf(segs: seq<Segment>, k: nat, v: nat): seq<nat>
    requires k <= |segs|
  {
    if k == 0 then Zeros()
    else
      var s := segs[k - 1];
      if Covers(s, v) && v - s.vaddr / 4096 < |s.data| then s.data[v - s.vaddr / 4096] else PageOf(segs, k - 1, v)
  }

  /** It has the bytes of the last header that covers it. */
  lemma {:induction false} PageOfLast(segs: seq<Segment>, k: nat, v: nat, j: nat)
    requires j < k <= |segs| && AllLoadable(segs, k)
    requires Covers(segs[j], v) && forall i :: j < i < k ==> !Covers(segs[i], v)
    ensures v - segs[j].vaddr / 4096 < |segs[j].data| && PageOf(segs, k, v) == segs[j].data[v - segs[j].vaddr / 4096]
    decreases k
  {
    hide Top;
    assert Loadable(segs[j]);
    hide AllLoadable;
    if j == k - 1 {
      assert Covers(segs[k - 1], v);
    } else {
      assert !Covers(segs[k - 1], v);
      assert AllLoadable(segs, k - 1) by { Fewer(segs, k); }
      PageOfLast(segs, k - 1, v, j);
    }
  }

  lemma Fewer(segs: seq<Segment>, k: nat)
    requires 0 < k <= |segs| && AllLoadable(segs, k)
    ensures AllLoadable(segs, k - 1)
  {
    hide Loadable, Top;
  }

  /** And zeros if no header covers it. */
  lemma {:induction false} PageOfNone(segs: seq<Segment>, k: nat, v: nat)
    requires k <= |segs| && forall j :: 0 <= j < k ==> !Covers(segs[j], v)
    ensures PageOf(segs, k, v) == Zeros()
    decreases k
  {
    hide Covers;
    if k > 0 {
      PageOfNone(segs, k - 1, v);
    }
  }

  /** The first `n` pages are those that the first `k` headers make. */
  ghost predicate BytesOf(segs: seq<Segment>, k: nat, n: nat, mem: Memory, f: map<nat, nat>)
    requires k <= |segs|
  {
    forall v: nat :: v < n ==> Lies(mem, f, v, PageOf(segs, k, v))
  }

  ghost predicate HasPerms(f: map<nat, nat>, v: nat, flags: nat) {
    v in f && Flags(f[v]) == PTE_V + PTE_R + PTE_U
      + (if flags / 2 % 2 == 1 then PTE_W else 0) + (if flags % 2 == 1 then PTE_X else 0)
  }

  /** A page that is mapped for a header can be read, and written or executed as its flags say. */
  ghost predicate PermsOf(segs: seq<Segment>, k: nat, f: map<nat, nat>)
    requires k <= |segs|
  {
    forall v: nat, j: nat :: j < k && MappedBy(segs, j, v) ==> HasPerms(f, v, segs[j].flags)
  }

  /** The first `n` pages are what they were. */
  ghost predicate KeepsPages(m: Memory, f: map<nat, nat>, m': Memory, f': map<nat, nat>, n: nat) {
    forall v: nat :: v < n ==>
      v in f && v in f' && f'[v] == f[v] && Pa(f[v]) in m && Pa(f[v]) in m' && m'[Pa(f[v])] == m[Pa(f[v])]
  }

  // ----- sizes -----

  lemma UpGrows(a: nat, b: nat)
    requires a <= b
    ensures Up(a) <= Up(b)
  {
  }

  lemma {:induction false} TopMono(segs: seq<Segment>, j: nat, k: nat)
    requires j <= k <= |segs|
    ensures Top(segs, j) <= Top(segs, k) && Up(Top(segs, j)) <= Up(Top(segs, k))
    decreases k
  {
    if j < k {
      TopMono(segs, j, k - 1);
      UpGrows(Top(segs, k - 1), Top(segs, k));
    }
  }

  /** No segment to load ends above the size, and one ends there unless there is none. */
  lemma {:induction false} TopIs(segs: seq<Segment>, k: nat)
    requires k <= |segs|
    ensures forall j :: 0 <= j < k && segs[j].kind == 1 ==> segs[j].vaddr + segs[j].memsz <= Top(segs, k)
    ensures Top(segs, k) == 0
      || exists j :: 0 <= j < k && segs[j].kind == 1 && segs[j].vaddr + segs[j].memsz == Top(segs, k)
    decreases k
  {
    if k > 0 {
      TopIs(segs, k - 1);
      assert Top(segs, k - 1) <= Top(segs, k);
      if Top(segs, k) != Top(segs, k - 1) { assert segs[k - 1].vaddr + segs[k - 1].memsz == Top(segs, k); }
    }
  }

  /** The file part of a segment is within the image. */
  lemma CoverBelow(s: Segment, n: nat, v: nat)
    requires Loadable(s) && Covers(s, v) && s.vaddr + s.memsz <= n
    ensures v < Up(n)
  {
    assert s.filesz % 0x1_0000_0000 <= s.filesz;
  }

  // ----- building the image -----

  lemma BytesNone(segs: seq<Segment>, mem: Memory, f: map<nat, nat>)
    ensures BytesOf(segs, 0, Up(Top(segs, 0)), mem, f) && PermsOf(segs, 0, f)
  {
  }

  /** A header that is not to be loaded. */
  lemma SkipHeader(segs: seq<Segment>, k: nat, mem: Memory, f: map<nat, nat>)
    requires k < |segs| && segs[k].kind != 1
    requires BytesOf(segs, k, Up(Top(segs, k)), mem, f) && PermsOf(segs, k, f)
    ensures Top(segs, k + 1) == Top(segs, k)
    ensures BytesOf(segs, k + 1, Up(Top(segs, k + 1)), mem, f) && PermsOf(segs, k + 1, f)
  {
    hide FilePages, Lies, Up;
    var n, k1 := Up(Top(segs, k)), k + 1;
    forall v: nat | v < n ensures Lies(mem, f, v, PageOf(segs, k1, v)) {
      assert Lies(mem, f, v, PageOf(segs, k, v)) && !Covers(segs[k], v);
    }
    forall v: nat, j: nat | j < k + 1 && MappedBy(segs, j, v) ensures j < k { }
  }

  /** Other pages than the first `n` have changed. */
  lemma BytesKept(segs: seq<Segment>, k: nat, n: nat, m: Memory, f: map<nat, nat>, m': Memory, f': map<nat, nat>)
    requires k <= |segs| && BytesOf(segs, k, n, m, f) && KeepsPages(m, f, m', f', n)
    ensures BytesOf(segs, k, n, m', f')
  {
    hide PageOf, Pa;
    forall v: nat | v < n ensures Lies(m', f', v, PageOf(segs, k, v)) { assert Lies(m, f, v, PageOf(segs, k, v)); }
  }

  lemma PermsKept(segs: seq<Segment>, k: nat, m: Memory, f: map<nat, nat>, m': Memory, f': map<nat, nat>)
    requires k <= |segs| && PermsOf(segs, k, f) && KeepsPages(m, f, m', f', Up(Top(segs, k)))
    ensures PermsOf(segs, k, f')
  {
    hide Pa, Flags, Top, Up;
    forall v: nat, j: nat | j < k && MappedBy(segs, j, v) ensures v < Up(Top(segs, k)) {
      TopMono(segs, j + 1, k);
    }
  }

  /** Zeroed pages for a header, before the file is read into them: no header before it covers them. */
  lemma GrowHeader(segs: seq<Segment>, k: nat, m: Memory, f: map<nat, nat>, m': Memory, f': map<nat, nat>)
    requires k < |segs| && segs[k].kind == 1 && AllLoadable(segs, k)
    requires BytesOf(segs, k, Up(Top(segs, k)), m, f) && PermsOf(segs, k, f)
    requires KeepsPages(m, f, m', f', Up(Top(segs, k)))
    requires PagesAre(m', f', Up(Top(segs, k)), Up(Top(segs, k + 1)), Zeroed(PTE_R + PTE_U + Perm(segs[k].flags)))
    ensures BytesOf(segs, k, Up(Top(segs, k + 1)), m', f') && PermsOf(segs, k + 1, f')
  {
    hide Pa, Top, Up, Flags, MkPte, Perm, PageOf, BytesOf, PermsOf, PagesAre, AllLoadable, KeepsPages;
    var n0, n := Up(Top(segs, k)), Up(Top(segs, k + 1));
    BytesKept(segs, k, n0, m, f, m', f');
    PermsKept(segs, k, m, f, m', f');
    forall v: nat | n0 <= v < n
      ensures Lies(m', f', v, PageOf(segs, k, v)) && HasPerms(f', v, segs[k].flags)
    {
      NewPage(m', f', n0, n, segs[k].flags, v);
      AboveTop(segs, k, v);
    }
    BytesJoin(segs, k, n0, n, m', f');
    PermsJoin(segs, k, f');
  }

  lemma BytesJoin(segs: seq<Segment>, k: nat, n0: nat, n: nat, m: Memory, f: map<nat, nat>)
    requires k <= |segs| && BytesOf(segs, k, n0, m, f)
    requires forall v: nat :: n0 <= v < n ==> Lies(m, f, v, PageOf(segs, k, v))
    ensures BytesOf(segs, k, n, m, f)
  {
  }

  lemma PermsJoin(segs: seq<Segment>, k: nat, f: map<nat, nat>)
    requires k < |segs| && PermsOf(segs, k, f)
    requires forall v: nat :: Up(Top(segs, k)) <= v < Up(Top(segs, k + 1)) ==> HasPerms(f, v, segs[k].flags)
    ensures PermsOf(segs, k + 1, f)
  {
    hide Top, Up, Flags;
  }

  lemma NewPage(m: Memory, f: map<nat, nat>, n0: nat, n: nat, flags: nat, v: nat)
    requires PagesAre(m, f, n0, n, Zeroed(PTE_R + PTE_U + Perm(flags))) && n0 <= v < n
    ensures Lies(m, f, v, Zeros()) && HasPerms(f, v, flags)
  {
    hide Pa, MkPte, Perm, Flags;
    assert PageIs(m, f[v], Zeroed(PTE_R + PTE_U + Perm(flags))(v));
    PermFlags(f[v], flags);
  }

  /** What lies above the size is covered by no header. */
  lemma AboveTop(segs: seq<Segment>, k: nat, v: nat)
    requires k <= |segs| && AllLoadable(segs, k) && Up(Top(segs, k)) <= v
    ensures PageOf(segs, k, v) == Zeros()
  {
    hide Up, FilePages, Covers;
    TopIs(segs, k);
    forall j | 0 <= j < k ensures !Covers(segs[j], v) { NotCovered(segs[j], Top(segs, k), v); }
    PageOfNone(segs, k, v);
  }

  lemma NotCovered(s: Segment, n: nat, v: nat)
    requires Loadable(s) && (s.kind == 1 ==> s.vaddr + s.memsz <= n) && Up(n) <= v
    ensures !Covers(s, v)
  {
    if Covers(s, v) { CoverBelow(s, n, v); }
  }

  lemma PermFlags(w: nat, flags: nat)
    requires w == MkPte(Pa(w), PTE_R + PTE_U + Perm(flags))
    ensures Flags(w) == PTE_V + PTE_R + PTE_U
      + (if flags / 2 % 2 == 1 then PTE_W else 0) + (if flags % 2 == 1 then PTE_X else 0)
  {
    hide Pa;
    var p := PTE_R + PTE_U + Perm(flags);
    assert w == Pa(w) / 4096 * 1024 + (p + 1) && p + 1 < 1024;
  }

  /** Pages other than those from `v` to `v + k` keep their contents. */
  ghost predicate OthersStay(m: Memory, m': Memory, f: map<nat, nat>, n: nat, v: nat, k: nat) {
    forall u: nat :: u < n && !(v <= u < v + k) ==>
      u in f && Pa(f[u]) in m && Pa(f[u]) in m' && m'[Pa(f[u])] == m[Pa(f[u])]
  }

  /** The pages from `v` on hold `data`. */
  ghost predicate Holds(mem: Memory, f: map<nat, nat>, v: nat, k: nat, data: seq<seq<nat>>) {
    k <= |data| && forall u: nat :: v <= u < v + k ==> u in f && Pa(f[u]) in mem && mem[Pa(f[u])] == data[u - v]
  }

  /** The file has been read into the pages of a header. */
  lemma LoadHeader(segs: seq<Segment>, k: nat, m: Memory, f: map<nat, nat>, m': Memory)
    requires k < |segs| && segs[k].kind == 1 && Loadable(segs[k])
    requires BytesOf(segs, k, Up(Top(segs, k + 1)), m, f)
    requires Holds(m', f, segs[k].vaddr / 4096, FilePages(segs[k]), segs[k].data)
    requires OthersStay(m, m', f, Up(Top(segs, k + 1)), segs[k].vaddr / 4096, FilePages(segs[k]))
    ensures BytesOf(segs, k + 1, Up(Top(segs, k + 1)), m', f)
  {
    hide Pa, Top, Up, FilePages;
    var n, k1 := Up(Top(segs, k + 1)), k + 1;
    forall v: nat | v < n
      ensures Lies(m', f, v, PageOf(segs, k1, v))
    {
      assert Lies(m, f, v, PageOf(segs, k, v));
    }
  }

  lemma HoldsNone(mem: Memory, f: map<nat, nat>, v: nat, data: seq<seq<nat>>)
    ensures Holds(mem, f, v, 0, data)
  {
  }

  lemma HoldsNext(mem: Memory, f: map<nat, nat>, n: nat, v: nat, k: nat, data: seq<seq<nat>>)
    requires Injects(f, 0, n) && v + k < n && Holds(mem, f, v, k, data) && k < |data|
    ensures Holds(mem[Pa(f[v + k]) := data[k]], f, v, k + 1, data)
  {
    hide Pa;
    forall u: nat | v <= u < v + k ensures Pa(f[u]) != Pa(f[v + k]) { }
  }

  lemma StayNext(m: Memory, m1: Memory, f: map<nat, nat>, n: nat, v: nat, k: nat, page: seq<nat>)
    requires Injects(f, 0, n) && v + k < n && OthersStay(m, m1, f, n, v, k)
    ensures OthersStay(m, m1[Pa(f[v + k]) := page], f, n, v, k + 1)
  {
    hide Pa;
    forall u: nat | u < n && u != v + k ensures Pa(f[u]) != Pa(f[v + k]) { }
  }
}
