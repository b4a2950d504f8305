/**
  Directories as kernel/fs.c and kernel/sysfile.c see them: a table of inodes in which a
  directory is a sequence of entries, and the link counts of inodes.
 */
module Dirs {

  /** An entry; inum 0 marks a free slot. Names have at most DIRSIZ characters. */
  datatype Dirent = Dirent(inum: nat, name: string)

  datatype Kind = Unused | Dir | File | Device

  /** The C type of a link count. */
  type Short = n: int | -32768 <= n < 32768

  datatype Node = Node(kind: Kind, nlink: Short, entries: seq<Dirent>)

  type Table = seq<Node>

  /** nlink++ and nlink--, which wrap around. */
  function Inc(n: Short): Short { if n == 32767 then -32768 else n + 1 }

  function Dec(n: Short): Short { if n == -32768 then 32767 else n - 1 }

  const ROOTINO: nat := 1
  const DIRSIZ: nat := 14

  /** The first entry with a name, or the length: the search of dirlookup. */
  function Find(es: seq<Dirent>, name: string): (k: nat)
    ensures k <= |es|
    ensures k < |es| ==> es[k].inum != 0 && es[k].name == name
    ensures forall j :: 0 <= j < k ==> es[j].inum == 0 || es[j].name != name
  {
    if es == [] then 0
    else if es[0].inum != 0 && es[0].name == name then 0
    else 1 + Find(es[1..], name)
  }

  /** The inode that a directory gives a name; 0 when it has none. */
  function Lookup(es: seq<Dirent>, name: string): nat {
    if Find(es, name) < |es| then es[Find(es, name)].inum else 0
  }

  // ----- counting links -----

  /** An entry that counts as a link to `i`: every one but "." */
  function Names(e: Dirent, i: nat): nat {
    if e.inum == i && e.name != "." then 1 else 0
  }

  function InDir(es: seq<Dirent>, i: nat): nat {
    if es == [] then 0 else Names(es[0], i) + InDir(es[1..], i)
  }

  /** A directory that itself has a link. */
  predicate Live(n: Node) { n.kind == Dir && n.nlink > 0 }

  function Weight(n: Node, i: nat): nat {
    if Live(n) then InDir(n.entries, i) else 0
  }

  /** The entries other than "." that name `i`, in all live directories. */
  function Count(t: Table, i: nat): nat {
    if t == [] then 0 else Weight(t[0], i) + Count(t[1..], i)
  }

  lemma {:induction false} InDirStore(es: seq<Dirent>, k: nat, e: Dirent, i: nat)
    requires k < |es|
    ensures InDir(es[k := e], i) == InDir(es, i) - Names(es[k], i) + Names(e, i)
  {
    if k == 0 {
      assert es[k := e][1..] == es[1..];
    } else {
      assert es[k := e][1..] == es[1..][k - 1 := e];
      InDirStore(es[1..], k - 1, e, i);
    }
  }

  lemma {:induction false} InDirAppend(es: seq<Dirent>, e: Dirent, i: nat)
    ensures InDir(es + [e], i) == InDir(es, i) + Names(e, i)
  {
    if es == [] {
      assert es + [e] == [e];
      assert [e][1..] == [];
    } else {
      assert (es + [e])[1..] == es[1..] + [e];
      InDirAppend(es[1..], e, i);
    }
  }

  lemma {:induction false} InDirAtLeast(es: seq<Dirent>, k: nat, i: nat)
    requires k < |es|
    ensures InDir(es, i) >= Names(es[k], i)
  {
    if k > 0 {
      InDirAtLeast(es[1..], k - 1, i);
    }
  }

  lemma {:induction false} InDirNone(es: seq<Dirent>, i: nat)
    requires forall k :: 0 <= k < |es| ==> Names(es[k], i) == 0
    ensures InDir(es, i) == 0
  {
    if es != [] {
      InDirNone(es[1..], i);
    }
  }

  lemma {:induction false} InDirOne(es: seq<Dirent>, k: nat, i: nat)
    requires k < |es| && forall j :: 0 <= j < |es| && j != k ==> Names(es[j], i) == 0
    ensures InDir(es, i) == Names(es[k], i)
  {
    if k == 0 {
      InDirNone(es[1..], i);
    } else {
      InDirOne(es[1..], k - 1, i);
    }
  }

  lemma {:induction false} CountStore(t: Table, d: nat, n: Node, i: nat)
    requires d < |t|
    ensures Count(t[d := n], i) == Count(t, i) - Weight(t[d], i) + Weight(n, i)
  {
    if d == 0 {
      assert t[d := n][1..] == t[1..];
    } else {
      assert t[d := n][1..] == t[1..][d - 1 := n];
      CountStore(t[1..], d - 1, n, i);
    }
  }

  lemma {:induction false} CountAtLeast(t: Table, d: nat, i: nat)
    requires d < |t|
    ensures Count(t, i) >= Weight(t[d], i)
  {
    if d > 0 {
      CountAtLeast(t[1..], d - 1, i);
    }
  }

  lemma {:induction false} CountTwo(t: Table, d: nat, e: nat, i: nat)
    requires d < e < |t|
    ensures Count(t, i) >= Weight(t[d], i) + Weight(t[e], i)
  {
    if d == 0 {
      CountAtLeast(t[1..], e - 1, i);
    } else {
      CountTwo(t[1..], d - 1, e - 1, i);
    }
  }

  lemma {:induction false} CountNone(t: Table, i: nat)
    requires forall d :: 0 <= d < |t| ==> Weight(t[d], i) == 0
    ensures Count(t, i) == 0
  {
    if t != [] {
      CountNone(t[1..], i);
    }
  }

  lemma {:induction false} CountOne(t: Table, d: nat, i: nat)
    requires d < |t| && forall e :: 0 <= e < |t| && e != d ==> Weight(t[e], i) == 0
    ensures Count(t, i) == Weight(t[d], i)
  {
    if d == 0 {
      CountNone(t[1..], i);
    } else {
      CountOne(t[1..], d - 1, i);
    }
  }

  /** An entry of a live directory is a link. */
  lemma Counts(t: Table, d: nat, k: nat)
    requires d < |t| && Live(t[d]) && k < |t[d].entries| && t[d].entries[k].name != "."
    ensures Count(t, t[d].entries[k].inum) >= 1
  {
    InDirAtLeast(t[d].entries, k, t[d].entries[k].inum);
    CountAtLeast(t, d, t[d].entries[k].inum);
  }

  // ----- the invariant -----

  /** Link counts: nlink is the number of entries other than "." in live directories. */
  ghost predicate Counted(t: Table) {
    forall i :: 0 < i < |t| ==> t[i].nlink == Count(t, i)
  }

  predicate IsDots(name: string) { name == "." || name == ".." }

  /** A directory starts with "." and "..", and no other entry has those names. */
  predicate DirOk(t: Table, d: nat, n: Node) {
    && |n.entries| >= 2
    && n.entries[0] == Dirent(d, ".") && n.entries[1].name == ".." && n.entries[1].inum != 0
    && (forall k :: 2 <= k < |n.entries| ==> n.entries[k].inum == 0 || !IsDots(n.entries[k].name))
    && (forall k :: 0 <= k < |n.entries| ==> n.entries[k].inum < |t|)
    && (n.nlink == 0 ==> IsEmpty(n.entries))
    && Unique(n.entries)
  }

  /** No two entries in use have the same name. */
  predicate Unique(es: seq<Dirent>) {
    forall j, k :: 0 <= j < k < |es| && es[j].inum != 0 && es[k].inum != 0 ==> es[j].name != es[k].name
  }

  /** isdirempty: nothing but "." and ".." */
  predicate IsEmpty(es: seq<Dirent>) { forall k :: 2 <= k < |es| ==> es[k].inum == 0 }

  predicate NodeOk(t: Table, d: nat, n: Node) {
    && n.nlink >= 0
    && (n.kind == Unused ==> n.nlink == 0 && n.entries == [])
    && (n.kind == Dir ==> DirOk(t, d, n))
  }

  /** Entry `k` of the live directory `d` names the directory `c` as a child. */
  predicate Child(t: Table, d: nat, k: nat, c: nat) {
    && d < |t| && Live(t[d]) && 2 <= k < |t[d].entries| && t[d].entries[k].inum == c
    && 0 < c < |t| && t[c].kind == Dir
  }

  predicate Above(t: Table, c: nat, d: nat) {
    0 < c < |t| && Live(t[c]) && |t[c].entries| >= 2 && t[c].entries[1].inum == d
  }

  /** Directories form a tree: ".." leads to the one directory that has the child. */
  ghost predicate TreeOk(t: Table) {
    && ROOTINO < |t| && Above(t, ROOTINO, ROOTINO)
    && (forall d, k, c :: Child(t, d, k, c) ==> c != ROOTINO && Above(t, c, d))
    && (forall d, k, j, c :: Child(t, d, k, c) && Child(t, d, j, c) ==> k == j)
    && (forall c, d :: Above(t, c, d) && c != ROOTINO ==> exists k :: Child(t, d, k, c))
  }

  ghost predicate NodesOk(t: Table) {
    && |t| > 0 && t[0].kind == Unused
    && forall d :: 0 <= d < |t| ==> NodeOk(t, d, t[d])
  }

  ghost predicate Inv(t: Table) { NodesOk(t) && TreeOk(t) && Counted(t) }
}
