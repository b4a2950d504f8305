/** What link, unlink, create and the freeing of an inode do to a table, and that each keeps the link counts. */
module DirOps {
  import opened Dirs

  /** The slot that dirlink uses: the first free one, or the end. */
  function FreeSlot(es: seq<Dirent>): (k: nat)
    ensures k <= |es|
    ensures k < |es| ==> es[k].inum == 0
    ensures forall j :: 0 <= j < k ==> es[j].inum != 0
  {
    if es == [] then 0 else if es[0].inum == 0 then 0 else 1 + FreeSlot(es[1..])
  }

  function PutEntry(es: seq<Dirent>, k: nat, e: Dirent): seq<Dirent>
    requires k <= |es|
  {
    if k < |es| then es[k := e] else es + [e]
  }

  /** A name that a directory does not have, and that is neither "." nor "..". */
  predicate IsNew(es: seq<Dirent>, name: string) { !IsDots(name) && Find(es, name) == |es| }

  /** A successful dirlink gives one name a meaning and changes no other. */
  lemma LinkSetsOne(es: seq<Dirent>, name: string, inum: nat, n: string)
    requires Find(es, name) == |es| && inum != 0
    ensures Lookup(PutEntry(es, FreeSlot(es), Dirent(inum, name)), n) == if n == name then inum else Lookup(es, n)
  {
    hide Find, FreeSlot;
    var k := FreeSlot(es);
    var fs := PutEntry(es, k, Dirent(inum, name));
    if n == name {
      assert fs[k] == Dirent(inum, name);
      assert forall j :: 0 <= j < k ==> fs[j] == es[j] && es[j].name != name;
      assert Find(fs, n) == k;
    } else if Find(es, n) < |es| {
      assert fs[Find(es, n)] == es[Find(es, n)];
      assert Find(fs, n) == Find(es, n);
    } else {
      assert Find(fs, n) == |fs|;
    }
  }

  /** Where names are unique, a cleared entry takes away its name and no other. */
  lemma ClearTakesOne(es: seq<Dirent>, k: nat, n: string)
    requires Unique(es) && k < |es| && es[k].inum != 0
    ensures Lookup(es[k := Dirent(0, "")], n) == if n == es[k].name then 0 else Lookup(es, n)
  {
    hide Find;
    var fs := es[k := Dirent(0, "")];
    if n != es[k].name && Find(es, n) < |es| {
      assert fs[Find(es, n)] == es[Find(es, n)];
      assert Find(fs, n) == Find(es, n);
    } else {
      assert Find(fs, n) == |fs|;
    }
  }

  /** Directory `d` with entry `k` replaced or added. */
  function WithEntry(t: Table, d: nat, k: nat, e: Dirent): (u: Table)
    requires d < |t| && k <= |t[d].entries|
    ensures |u| == |t|
  {
    t[d := t[d].(entries := PutEntry(t[d].entries, k, e))]
  }

  function WithLinks(t: Table, i: nat, nlink: Short): (u: Table)
    requires i < |t|
    ensures |u| == |t|
  {
    t[i := t[i].(nlink := nlink)]
  }

  // ----- small facts -----

  /** An inode without links is named by no live directory. */
  lemma Unnamed(t: Table, i: nat, d: nat, k: nat)
    requires Counted(t) && 0 < i < |t| && t[i].nlink == 0
    requires d < |t| && Live(t[d]) && k < |t[d].entries| && t[d].entries[k].name != "."
    ensures t[d].entries[k].inum != i
  {
    Counts(t, d, k);
  }

  /** Neither "." nor ".." is a free slot of a directory. */
  lemma SlotAfterDots(t: Table, d: nat)
    requires Inv(t) && d < |t| && t[d].kind == Dir
    ensures d > 0 && |t[d].entries| >= 2 && 2 <= FreeSlot(t[d].entries)
  {
    assert NodeOk(t, d, t[d]);
  }

  /** Names that a directory does not have are neither "." nor "..". */
  lemma NotDots(t: Table, d: nat, name: string)
    requires Inv(t) && d < |t| && t[d].kind == Dir && Find(t[d].entries, name) == |t[d].entries|
    ensures !IsDots(name)
  {
    SlotAfterDots(t, d);
    assert NodeOk(t, d, t[d]);
  }

  lemma CountPut(t: Table, d: nat, k: nat, e: Dirent, i: nat)
    requires d < |t| && Live(t[d]) && k <= |t[d].entries| && i > 0
    requires k < |t[d].entries| ==> t[d].entries[k].inum == 0 || e.inum == 0
    ensures Count(WithEntry(t, d, k, e), i) ==
      Count(t, i) + Names(e, i) - if k < |t[d].entries| then Names(t[d].entries[k], i) else 0
  {
    var n := t[d].(entries := PutEntry(t[d].entries, k, e));
    CountStore(t, d, n, i);
    if k < |t[d].entries| {
      InDirStore(t[d].entries, k, e, i);
    } else {
      InDirAppend(t[d].entries, e, i);
    }
  }

  /** The link count of a file weighs on no other count. */
  lemma CountLinks(t: Table, i: nat, nlink: Short, j: nat)
    requires i < |t| && (Live(t[i]) <==> Live(t[i].(nlink := nlink)))
    ensures Count(WithLinks(t, i, nlink), j) == Count(t, j)
  {
    CountStore(t, i, t[i].(nlink := nlink), j);
  }

  // ----- trees with the same directories -----

  ghost predicate SameTree(t: Table, u: Table) {
    && (forall d, k, c :: Child(u, d, k, c) <==> Child(t, d, k, c))
    && (forall c, d :: Above(u, c, d) <==> Above(t, c, d))
  }

  lemma TreeSame(t: Table, u: Table)
    requires TreeOk(t) && |u| == |t| && SameTree(t, u)
    ensures TreeOk(u)
  {
  }

  // ----- files -----

  predicate IsFile(n: Node) { n.kind == File || n.kind == Device }

  /** Adding an entry for a file, or clearing one, changes no directory relation. */
  lemma FileEntry(t: Table, d: nat, k: nat, e: Dirent)
    requires TreeOk(t) && d < |t| && Live(t[d]) && 2 <= k <= |t[d].entries|
    requires e.inum < |t| && t[e.inum].kind != Dir
    requires k < |t[d].entries| ==> t[d].entries[k].inum < |t| && t[t[d].entries[k].inum].kind != Dir
    ensures TreeOk(WithEntry(t, d, k, e))
  {
    var u := WithEntry(t, d, k, e);
    forall d': nat, k': nat, c: nat
      ensures Child(u, d', k', c) <==> Child(t, d', k', c)
    {
    }
    TreeSame(t, u);
  }

  lemma EntryNodes(t: Table, d: nat, k: nat, e: Dirent)
    requires NodesOk(t) && d < |t| && Live(t[d]) && 2 <= k <= |t[d].entries|
    requires e.inum < |t| && (e.inum == 0 || (!IsDots(e.name) && Find(t[d].entries, e.name) == |t[d].entries|))
    ensures NodesOk(WithEntry(t, d, k, e))
  {
  }

  lemma LinksKeep(t: Table, i: nat, nlink: Short)
    requires NodesOk(t) && TreeOk(t) && 0 < i < |t| && nlink >= 0 && t[i].kind != Unused
    requires t[i].kind == Dir ==> (t[i].nlink > 0 && nlink > 0)
    ensures NodesOk(WithLinks(t, i, nlink)) && TreeOk(WithLinks(t, i, nlink))
  {
    var u := WithLinks(t, i, nlink);
    assert NodeOk(t, i, t[i]);
    forall j | 0 <= j < |u|
      ensures NodeOk(u, j, u[j])
    {
      assert NodeOk(t, j, t[j]);
    }
    TreeSame(t, u);
  }

  /** link: one more entry for a file, and one more link. */
  lemma LinkKeeps(t: Table, d: nat, k: nat, name: string, i: nat)
    requires Inv(t) && d < |t| && Live(t[d]) && k == FreeSlot(t[d].entries) && IsNew(t[d].entries, name)
    requires 0 < i < |t| && IsFile(t[i]) && t[i].nlink < 32767
    ensures Inv(WithEntry(WithLinks(t, i, t[i].nlink + 1), d, k, Dirent(i, name)))
  {
    hide TreeOk, NodesOk;
    assert NodesOk(t) && TreeOk(t) && Counted(t);
    SlotAfterDots(t, d);
    NodeAt(t, i);
    var u := WithLinks(t, i, t[i].nlink + 1);
    LinksKeep(t, i, t[i].nlink + 1);
    var w := WithEntry(u, d, k, Dirent(i, name));
    ZeroUnused(t);
    FileEntry(u, d, k, Dirent(i, name));
    EntryNodes(u, d, k, Dirent(i, name));
    forall j | 0 < j < |w|
      ensures w[j].nlink == Count(w, j)
    {
      CountLinks(t, i, t[i].nlink + 1, j);
      CountPut(u, d, k, Dirent(i, name), j);
    }
  }

  lemma NodeAt(t: Table, i: nat)
    requires NodesOk(t) && i < |t|
    ensures NodeOk(t, i, t[i])
  {
  }

  lemma ZeroUnused(t: Table)
    requires NodesOk(t)
    ensures |t| > 0 && t[0].kind == Unused
  {
  }

  /** unlink of a file: its entry is cleared, and it has one link less. */
  lemma UnlinkKeeps(t: Table, d: nat, k: nat, i: nat)
    requires Inv(t) && d < |t| && Live(t[d]) && 2 <= k < |t[d].entries| && t[d].entries[k].inum == i
    requires 0 < i < |t| && IsFile(t[i]) && !IsDots(t[d].entries[k].name)
    ensures t[i].nlink >= 1
    ensures Inv(WithLinks(WithEntry(t, d, k, Dirent(0, "")), i, t[i].nlink - 1))
  {
    hide TreeOk, NodesOk;
    assert NodesOk(t) && TreeOk(t) && Counted(t);
    Counts(t, d, k);
    NodeAt(t, i);
    ZeroUnused(t);
    var e := Dirent(0, "");
    var u := WithEntry(t, d, k, e);
    FileEntry(t, d, k, e);
    EntryNodes(t, d, k, e);
    var w := WithLinks(u, i, t[i].nlink - 1);
    LinksKeep(u, i, t[i].nlink - 1);
    forall j | 0 < j < |w|
      ensures w[j].nlink == Count(w, j)
    {
      CountPut(t, d, k, e, j);
      CountLinks(u, i, t[i].nlink - 1, j);
    }
  }

  // ----- inodes that come and go -----

  /** An inode without links, freed or made an empty file. */
  lemma FreshNode(t: Table, i: nat, n: Node)
    requires Inv(t) && 0 < i < |t| && t[i].nlink == 0 && n.nlink == 0 && n.kind != Dir && n.entries == []
    ensures Inv(t[i := n])
  {
    var u := t[i := n];
    assert NodeOk(t, i, t[i]);
    forall j | 0 <= j < |u|
      ensures NodeOk(u, j, u[j])
    {
      assert NodeOk(t, j, t[j]);
    }
    TreeSame(t, u);
    forall j | 0 < j < |u|
      ensures u[j].nlink == Count(u, j)
    {
      CountStore(t, i, n, j);
    }
  }

  /** create of a file: a new inode with one link, and its entry. */
  lemma MakeFileKeeps(t: Table, d: nat, k: nat, name: string, i: nat, kind: Kind)
    requires Inv(t) && d < |t| && Live(t[d]) && k == FreeSlot(t[d].entries) && IsNew(t[d].entries, name)
    requires 0 < i < |t| && t[i].kind == Unused && (kind == File || kind == Device)
    ensures Inv(WithEntry(t[i := Node(kind, 1, [])], d, k, Dirent(i, name)))
  {
    assert NodeOk(t, i, t[i]);
    hide Inv;
    var u := t[i := Node(kind, 0, [])];
    FreshNode(t, i, Node(kind, 0, []));
    LinkKeeps(u, d, k, name, i);
    assert WithLinks(u, i, 1) == t[i := Node(kind, 1, [])];
  }

  function NewDir(i: nat, d: nat): Node { Node(Dir, 1, [Dirent(i, "."), Dirent(d, "..")]) }

  /** mkdir: a new directory with "." and "..", its entry in `d`, and a link of `d` for "..". */
  function MadeDir(t: Table, d: nat, k: nat, name: string, i: nat): Table
    requires d < |t| && i < |t| && i != d && k <= |t[d].entries|
  {
    WithLinks(WithEntry(t[i := NewDir(i, d)], d, k, Dirent(i, name)), d, Inc(t[d].nlink))
  }

  lemma MakeDirNodes(t: Table, d: nat, k: nat, name: string, i: nat)
    requires NodesOk(t) && 0 < d < |t| && Live(t[d]) && 2 <= k <= |t[d].entries| && IsNew(t[d].entries, name)
    requires 0 < i < |t| && t[i].kind == Unused && t[d].nlink < 32767
    ensures NodesOk(MadeDir(t, d, k, name, i))
  {
    var u := t[i := NewDir(i, d)];
    forall j | 0 <= j < |u|
      ensures NodeOk(u, j, u[j])
    {
      assert NodeOk(t, j, t[j]);
    }
    EntryNodes(u, d, k, Dirent(i, name));
    var w := WithEntry(u, d, k, Dirent(i, name));
    var v := WithLinks(w, d, t[d].nlink + 1);
    forall j | 0 <= j < |v|
      ensures NodeOk(v, j, v[j])
    {
      assert NodeOk(w, j, w[j]);
    }
  }

  lemma MakeDirTree(t: Table, d: nat, k: nat, name: string, i: nat)
    requires Inv(t) && 0 < d < |t| && Live(t[d]) && k == FreeSlot(t[d].entries) && 2 <= k
    requires 0 < i < |t| && t[i].kind == Unused && t[d].nlink < 32767
    ensures TreeOk(MadeDir(t, d, k, name, i))
  {
    var u := MadeDir(t, d, k, name, i);
    assert NodeOk(t, i, t[i]);
    forall d': nat, k': nat, c: nat
      ensures Child(u, d', k', c) <==> Child(t, d', k', c) || (d' == d && k' == k && c == i)
    {
      if Child(u, d', k', c) && c == i && !(d' == d && k' == k) {
        assert d' != i && t[d'].entries[k'].inum == i;
        assert NodeOk(t, d', t[d']);
        Unnamed(t, i, d', k');
      }
    }
    forall c: nat, e: nat
      ensures Above(u, c, e) <==> Above(t, c, e) || (c == i && e == d)
    {
    }
    forall c: nat, e: nat | Above(u, c, e) && c != ROOTINO
      ensures exists k' :: Child(u, e, k', c)
    {
      if c == i {
        assert Child(u, d, k, i);
      } else {
        var k' :| Child(t, e, k', c);
        assert Child(u, e, k', c);
      }
    }
  }

  lemma NewDirWeight(i: nat, d: nat, j: nat)
    ensures Weight(NewDir(i, d), j) == if j == d then 1 else 0
  {
    var dot, up := Dirent(i, "."), Dirent(d, "..");
    InDirAppend([dot], up, j);
    InDirAppend([], dot, j);
    assert [] + [dot] == [dot] && [dot] + [up] == NewDir(i, d).entries;
  }

  lemma MakeDirCount(t: Table, d: nat, k: nat, name: string, i: nat, j: nat)
    requires Inv(t) && 0 < d < |t| && Live(t[d]) && k == FreeSlot(t[d].entries) && 2 <= k && IsNew(t[d].entries, name)
    requires 0 < i < |t| && t[i].kind == Unused && t[d].nlink < 32767 && 0 < j < |t|
    ensures MadeDir(t, d, k, name, i)[j].nlink == Count(MadeDir(t, d, k, name, i), j)
  {
    assert NodeOk(t, i, t[i]);
    hide NodesOk, TreeOk;
    var n := NewDir(i, d);
    var u := t[i := n];
    CountStore(t, i, n, j);
    NewDirWeight(i, d, j);
    var e := Dirent(i, name);
    CountPut(u, d, k, e, j);
    var w := WithEntry(u, d, k, e);
    CountLinks(w, d, t[d].nlink + 1, j);
  }

  lemma MakeDirKeeps(t: Table, d: nat, k: nat, name: string, i: nat)
    requires Inv(t) && d < |t| && Live(t[d]) && k == FreeSlot(t[d].entries) && IsNew(t[d].entries, name)
    requires 0 < i < |t| && t[i].kind == Unused && t[d].nlink < 32767
    ensures i != d && Inv(MadeDir(t, d, k, name, i))
  {
    hide NodesOk, TreeOk;
    SlotAfterDots(t, d);
    MakeDirNodes(t, d, k, name, i);
    MakeDirTree(t, d, k, name, i);
    forall j | 0 < j < |t|
      ensures MadeDir(t, d, k, name, i)[j].nlink == Count(MadeDir(t, d, k, name, i), j)
    {
      MakeDirCount(t, d, k, name, i, j);
    }
  }

  /** rmdir: the entry is cleared, and both directories have one link less. */
  function RemovedDir(t: Table, d: nat, k: nat, c: nat): Table
    requires d < |t| && c < |t| && k < |t[d].entries|
  {
    var u := WithLinks(WithEntry(t, d, k, Dirent(0, "")), d, Dec(t[d].nlink));
    WithLinks(u, c, Dec(u[c].nlink))
  }

  /** Only its parent names an empty directory, and only once. */
  lemma OneName(t: Table, d: nat, k: nat, c: nat)
    requires Inv(t) && Child(t, d, k, c) && IsEmpty(t[c].entries)
    ensures d != c && t[c].nlink == 1 && Above(t, c, d) && c != ROOTINO
  {
    assert Above(t, c, d);
    forall e | 0 <= e < |t|
      ensures Weight(t[e], c) == if e == d then 1 else 0
    {
      if Live(t[e]) {
        assert NodeOk(t, e, t[e]);
        forall j | 0 <= j < |t[e].entries| && !(e == d && j == k)
          ensures Names(t[e].entries[j], c) == 0
        {
          NotNamed(t, d, k, c, e, j);
        }
        if e == d {
          InDirOne(t[d].entries, k, c);
        } else {
          InDirNone(t[e].entries, c);
        }
      }
    }
    CountOne(t, d, c);
  }

  lemma NotNamed(t: Table, d: nat, k: nat, c: nat, e: nat, j: nat)
    requires Inv(t) && Child(t, d, k, c) && IsEmpty(t[c].entries)
    requires e < |t| && Live(t[e]) && j < |t[e].entries| && !(e == d && j == k)
    ensures Names(t[e].entries[j], c) == 0
  {
    assert NodeOk(t, e, t[e]);
    assert Above(t, c, d) && c != ROOTINO;
    if t[e].entries[j].inum == c && j > 0 {
      assert j == 1 ==> Above(t, e, c);
      assert j > 1 ==> Child(t, e, j, c);
    }
  }

  /** A directory with a child has a link beside the child's "..". */
  lemma StillLinked(t: Table, d: nat, k: nat, c: nat)
    requires Inv(t) && Child(t, d, k, c) && d != c && IsEmpty(t[c].entries)
    ensures t[d].nlink >= 2
  {
    assert Above(t, c, d) && NodeOk(t, c, t[c]) && NodeOk(t, d, t[d]);
    InDirAtLeast(t[c].entries, 1, d);
    var p := t[d].entries[1].inum;
    assert Above(t, d, p);
    if d == ROOTINO {
      InDirAtLeast(t[d].entries, 1, d);
      Both(t, c, d, d);
    } else {
      var j :| Child(t, p, j, d);
      assert NodeOk(t, p, t[p]);
      InDirAtLeast(t[p].entries, j, d);
      Both(t, c, p, d);
    }
  }

  lemma Both(t: Table, c: nat, p: nat, i: nat)
    requires c < |t| && p < |t| && c != p
    ensures Count(t, i) >= Weight(t[c], i) + Weight(t[p], i)
  {
    if c < p {
      CountTwo(t, c, p, i);
    } else {
      CountTwo(t, p, c, i);
    }
  }

  lemma RemoveDirNodes(t: Table, d: nat, k: nat, c: nat)
    requires NodesOk(t) && Child(t, d, k, c) && d != c && IsEmpty(t[c].entries)
    requires t[d].nlink >= 2 && t[c].nlink == 1
    ensures NodesOk(RemovedDir(t, d, k, c))
  {
  }

  lemma RemoveDirTree(t: Table, d: nat, k: nat, c: nat)
    requires Inv(t) && Child(t, d, k, c) && d != c && IsEmpty(t[c].entries)
    requires t[d].nlink >= 2 && t[c].nlink == 1
    ensures TreeOk(RemovedDir(t, d, k, c))
  {
    var u := RemovedDir(t, d, k, c);
    assert Above(t, c, d) && c != ROOTINO;
    forall d': nat, k': nat, x: nat
      ensures Child(u, d', k', x) <==> Child(t, d', k', x) && !(d' == d && k' == k)
    {
    }
    forall x: nat, e: nat
      ensures Above(u, x, e) <==> Above(t, x, e) && x != c
    {
    }
    forall d': nat, k': nat, x: nat | Child(u, d', k', x)
      ensures x != ROOTINO && Above(u, x, d')
    {
      assert Child(t, d', k', x);
    }
    forall x: nat, e: nat | Above(u, x, e) && x != ROOTINO
      ensures exists k' :: Child(u, e, k', x)
    {
      var k' :| Child(t, e, k', x);
      assert Child(u, e, k', x);
    }
  }

  lemma RemoveDirCount(t: Table, d: nat, k: nat, c: nat, j: nat)
    requires Inv(t) && Child(t, d, k, c) && d != c && IsEmpty(t[c].entries) && Above(t, c, d)
    requires t[d].nlink >= 2 && t[c].nlink == 1 && 0 < j < |t|
    ensures RemovedDir(t, d, k, c)[j].nlink == Count(RemovedDir(t, d, k, c), j)
  {
    assert NodeOk(t, c, t[c]) && NodeOk(t, d, t[d]);
    hide NodesOk, TreeOk;
    var e := Dirent(0, "");
    CountPut(t, d, k, e, j);
    var u := WithEntry(t, d, k, e);
    CountLinks(u, d, t[d].nlink - 1, j);
    var v := WithLinks(u, d, t[d].nlink - 1);
    CountStore(v, c, v[c].(nlink := 0), j);
    EmptyWeight(t, c, d, j);
  }

  /** What an empty directory weighs on the counts: its "..". */
  lemma EmptyWeight(t: Table, c: nat, d: nat, j: nat)
    requires c < |t| && DirOk(t, c, t[c]) && Live(t[c]) && IsEmpty(t[c].entries) && t[c].entries[1].inum == d && j > 0
    ensures Weight(t[c], j) == if j == d then 1 else 0
  {
    InDirOne(t[c].entries, 1, j);
  }

  lemma RemoveDirKeeps(t: Table, d: nat, k: nat, c: nat)
    requires Inv(t) && Child(t, d, k, c) && IsEmpty(t[c].entries)
    ensures Inv(RemovedDir(t, d, k, c)) && RemovedDir(t, d, k, c)[c].nlink == 0
  {
    hide NodesOk, TreeOk, Child;
    OneName(t, d, k, c);
    StillLinked(t, d, k, c);
    RemoveDirNodes(t, d, k, c);
    RemoveDirTree(t, d, k, c);
    ChildIn(t, d, k, c);
    forall j | 0 < j < |t|
      ensures RemovedDir(t, d, k, c)[j].nlink == Count(RemovedDir(t, d, k, c), j)
    {
      RemoveDirCount(t, d, k, c, j);
    }
  }

  lemma ChildIn(t: Table, d: nat, k: nat, c: nat)
    requires Child(t, d, k, c)
    ensures d < |t| && c < |t| && k < |t[d].entries|
  {
  }

  // ----- when the counts stay right -----

  /** Entry `name` for inode `i`, in a slot of directory `d` that is free or new. */
  lemma CountEntry(t: Table, d: nat, k: nat, name: string, i: nat, j: nat)
    requires d < |t| && k == FreeSlot(t[d].entries) && j > 0 && t[d].kind == Dir && name != "."
    ensures Count(WithEntry(t, d, k, Dirent(i, name)), j) == Count(t, j) + if Live(t[d]) && i == j then 1 else 0
  {
    if Live(t[d]) {
      CountPut(t, d, k, Dirent(i, name), j);
    } else {
      CountStore(t, d, t[d].(entries := PutEntry(t[d].entries, k, Dirent(i, name))), j);
    }
  }

  /**
    A new link is counted right if and only if its directory has not been removed and the
    count does not wrap around.
   */
  lemma LinkNeedsLive(t: Table, d: nat, k: nat, name: string, i: nat)
    requires Inv(t) && 0 < d < |t| && t[d].kind == Dir && k == FreeSlot(t[d].entries) && IsNew(t[d].entries, name)
    requires 0 < i < |t| && IsFile(t[i])
    ensures Counted(WithEntry(WithLinks(t, i, Inc(t[i].nlink)), d, k, Dirent(i, name))) <==>
      Live(t[d]) && t[i].nlink < 32767
  {
    var u := WithLinks(t, i, Inc(t[i].nlink));
    var w := WithEntry(u, d, k, Dirent(i, name));
    if Live(t[d]) && t[i].nlink < 32767 {
      LinkKeeps(t, d, k, name, i);
    } else {
      assert NodeOk(t, i, t[i]);
      CountLinks(t, i, Inc(t[i].nlink), i);
      CountEntry(u, d, k, name, i, i);
      assert w[i].nlink != Count(w, i);
    }
  }

  /** A new file is counted right if and only if its directory has not been removed. */
  lemma FileNeedsLive(t: Table, d: nat, k: nat, name: string, i: nat, kind: Kind)
    requires Inv(t) && d < |t| && t[d].kind == Dir && k == FreeSlot(t[d].entries) && IsNew(t[d].entries, name)
    requires 0 < i < |t| && t[i].kind == Unused && (kind == File || kind == Device)
    ensures Counted(WithEntry(t[i := Node(kind, 1, [])], d, k, Dirent(i, name))) <==> Live(t[d])
  {
    if Live(t[d]) {
      MakeFileKeeps(t, d, k, name, i, kind);
    } else {
      assert NodeOk(t, i, t[i]);
      var u := t[i := Node(kind, 1, [])];
      CountStore(t, i, u[i], i);
      CountEntry(u, d, k, name, i, i);
      assert WithEntry(u, d, k, Dirent(i, name))[i].nlink == 1;
    }
  }

  /** A new directory is, if and only if its parent has not been removed and the parent's count does not wrap around. */
  lemma DirNeedsLive(t: Table, d: nat, k: nat, name: string, i: nat)
    requires Inv(t) && d < |t| && t[d].kind == Dir && k == FreeSlot(t[d].entries) && IsNew(t[d].entries, name)
    requires 0 < i < |t| && t[i].kind == Unused
    ensures Counted(MadeDir(t, d, k, name, i)) <==> Live(t[d]) && t[d].nlink < 32767
  {
    assert NodeOk(t, d, t[d]);
    SlotAfterDots(t, d);
    if Live(t[d]) && t[d].nlink < 32767 {
      MakeDirKeeps(t, d, k, name, i);
    } else if Live(t[d]) {
      assert MadeDir(t, d, k, name, i)[d].nlink == -32768;
    } else {
      RevivedCount(t, d, k, name, i);
    }
  }

  /** A directory made in a removed one gives that one a link, so that its own ".." counts again. */
  lemma RevivedCount(t: Table, d: nat, k: nat, name: string, i: nat)
    requires Inv(t) && 0 < d < |t| && t[d].kind == Dir && t[d].nlink == 0 && k == FreeSlot(t[d].entries) && 2 <= k
    requires IsNew(t[d].entries, name) && 0 < i < |t| && t[i].kind == Unused
    ensures !Counted(MadeDir(t, d, k, name, i))
  {
    assert NodeOk(t, d, t[d]) && NodeOk(t, i, t[i]);
    var p := t[d].entries[1].inum;
    var u := t[i := NewDir(i, d)];
    var w := WithEntry(u, d, k, Dirent(i, name));
    var v := WithLinks(w, d, 1);
    CountStore(t, i, NewDir(i, d), p);
    NewDirWeight(i, d, p);
    CountEntry(u, d, k, name, i, p);
    CountStore(w, d, v[d], p);
    InDirAtLeast(t[d].entries, 1, p);
    if k < |t[d].entries| {
      InDirStore(t[d].entries, k, Dirent(i, name), p);
    } else {
      InDirAppend(t[d].entries, Dirent(i, name), p);
    }
    assert Count(v, p) > v[p].nlink;
  }
}
