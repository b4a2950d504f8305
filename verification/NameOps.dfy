/**
  What link, unlink, create and chdir do to the inodes, as functions of the table, the
  references and the paths, and when each of them keeps the link counts right.
 */
module NameOps {
  import opened Dirs
  import opened DirOps
  import opened Path

  datatype Outcome = Done | Failed | Panicked

  // ----- references -----

  const FREE := Node(Unused, 0, [])

  /** An entry of directory `d`; only "." and ".." may name the directory itself. */
  predicate EntrySane(size: nat, d: nat, e: Dirent) { e.inum < size && (e.inum == d ==> IsDots(e.name)) }

  /** An inode between two system calls: only one in use is referenced, and one without links is. */
  predicate NodeSane(size: nat, i: nat, n: Node, refs: nat) {
    && (n.kind == Unused ==> n == FREE && refs == 0)
    && (n.kind != Unused && n.nlink == 0 ==> refs > 0)
    && (n.kind == Dir ==> forall k :: 0 <= k < |n.entries| ==> EntrySane(size, i, n.entries[k]))
  }

  /** What every system call keeps, whatever the link counts are. */
  predicate Sane(t: Table, refs: seq<nat>) {
    && |refs| == |t| > ROOTINO && t[0].kind == Unused
    && forall i :: 0 <= i < |t| ==> NodeSane(|t|, i, t[i], refs[i])
  }

  /** One more reference to inode `i`. */
  function Plus(refs: seq<nat>, i: nat): seq<nat> {
    if i < |refs| then refs[i := refs[i] + 1] else refs
  }

  /** The reference is dropped again. */
  lemma PlusBack(refs: seq<nat>, i: nat)
    requires i < |refs|
    ensures |Plus(refs, i)| == |refs| && Plus(refs, i)[i] == refs[i] + 1 && Plus(refs, i)[i := refs[i]] == refs
  {
  }

  lemma PlusSwap(refs: seq<nat>, i: nat, j: nat)
    ensures Plus(Plus(refs, i), j) == Plus(Plus(refs, j), i)
  {
  }

  /** The table when one of `refs` references to an inode is dropped: the last one frees an inode without links. */
  function Dropped(t: Table, refs: nat, i: nat): (u: Table)
    requires i < |t|
    ensures |u| == |t|
  {
    if refs == 1 && t[i].nlink == 0 then t[i := FREE] else t
  }

  /** A reference to an inode that has a link, that others refer to, or that is free, is dropped without effect. */
  predicate Steady(n: Node, refs: nat) { n.nlink == 0 ==> refs > 0 || n == FREE }

  predicate NoOrphans(t: Table, refs: seq<nat>) {
    |refs| == |t| && forall i :: 0 <= i < |t| ==> Steady(t[i], refs[i])
  }

  lemma SaneSteady(t: Table, refs: seq<nat>)
    requires Sane(t, refs)
    ensures NoOrphans(t, refs)
  {
    assert forall i :: 0 <= i < |t| ==> NodeSane(|t|, i, t[i], refs[i]);
  }

  lemma PutBack(t: Table, refs: seq<nat>, i: nat)
    requires NoOrphans(t, refs) && i < |t|
    ensures Dropped(t, refs[i] + 1, i) == t && NoOrphans(t, Plus(refs, i))
  {
    assert Steady(t[i], refs[i]);
  }

  /** A system call that ends with one node changed. */
  lemma SaneStore(t: Table, refs: seq<nat>, i: nat, n: Node, r: nat)
    requires Sane(t, refs) && 0 < i < |t| && NodeSane(|t|, i, n, r)
    ensures Sane(t[i := n], refs[i := r])
  {
  }

  lemma EntriesOf(t: Table, refs: seq<nat>, d: nat, name: string)
    requires Sane(t, refs) && d < |t| && t[d].kind == Dir
    ensures EntriesIn(t, t[d].entries) && d != 0
    ensures !IsDots(name) && Lookup(t[d].entries, name) != 0 ==> Lookup(t[d].entries, name) != d
  {
    assert NodeSane(|t|, d, t[d], refs[d]);
  }

  predicate EntriesIn(t: Table, es: seq<Dirent>) { forall k :: 0 <= k < |es| ==> es[k].inum < |t| }

  /** Dropping a reference keeps the counts, whether or not it frees the inode. */
  lemma DroppedKeeps(t: Table, refs: nat, i: nat)
    requires Inv(t) && i < |t|
    ensures Inv(Dropped(t, refs, i))
  {
    assert NodeOk(t, i, t[i]);
    if i == 0 {
      assert t[i := FREE] == t;
    } else if t[i].nlink == 0 {
      FreshNode(t, i, FREE);
    }
  }

  // ----- link -----

  /** When dirlink succeeds: the name is not taken, and there is a free slot or room for one more. */
  predicate CanLink(es: seq<Dirent>, name: string, room: bool) {
    Lookup(es, name) == 0 && (FreeSlot(es) < |es| || room)
  }

  /** What sys_link comes to, when the old path leads to `i` and the new one to a name in `d`. */
  function LinkOutcome(t: Table, i: Found, d: Found, name: string, room: bool): Outcome {
    match i
    case Broken => Panicked
    case Nothing => Failed
    case Found(ip) =>
      if !Used(t, ip) then Panicked
      else if t[ip].kind == Dir then Failed
      else match d
           case Broken => Panicked
           case Nothing => Failed
           case Found(dp) => if dp < |t| && CanLink(t[dp].entries, name, room) then Done else Failed
  }

  /** A new entry for inode `i`, whose count goes up by one. */
  function Linked(t: Table, d: nat, name: string, i: nat): (u: Table)
    requires d < |t| && i < |t|
    ensures |u| == |t|
  {
    WithEntry(WithLinks(t, i, Inc(t[i].nlink)), d, FreeSlot(t[d].entries), Dirent(i, name))
  }

  lemma EntryStays(t: Table, refs: seq<nat>, d: nat, name: string, i: nat)
    requires Sane(t, refs) && 0 < d < |t| && t[d].kind == Dir && i < |t| && i != d
    ensures Sane(WithEntry(t, d, FreeSlot(t[d].entries), Dirent(i, name)), refs)
  {
    assert NodeSane(|t|, d, t[d], refs[d]);
    var n := t[d].(entries := PutEntry(t[d].entries, FreeSlot(t[d].entries), Dirent(i, name)));
    assert NodeSane(|t|, d, n, refs[d]);
    SaneStore(t, refs, d, n, refs[d]);
    assert refs[d := refs[d]] == refs;
  }

  /** A count changed under a reference. */
  lemma LinksStay(t: Table, refs: seq<nat>, i: nat, nlink: Short)
    requires Sane(t, refs) && Used(t, i) && (refs[i] > 0 || nlink != 0)
    ensures Sane(WithLinks(t, i, nlink), refs)
  {
    assert NodeSane(|t|, i, t[i], refs[i]);
    SaneStore(t, refs, i, t[i].(nlink := nlink), refs[i]);
    assert refs[i := refs[i]] == refs;
  }

  /** One reference less, and with it the inode if it was the last. */
  lemma PutStays(t: Table, refs: seq<nat>, i: nat)
    requires Sane(t, Plus(refs, i)) && 0 < i < |t| == |refs|
    ensures Sane(Dropped(t, refs[i] + 1, i), refs)
  {
    assert NodeSane(|t|, i, t[i], refs[i] + 1);
    var n := Dropped(t, refs[i] + 1, i)[i];
    SaneStore(t, Plus(refs, i), i, n, refs[i]);
    assert Plus(refs, i)[i := refs[i]] == refs && t[i := t[i]] == t;
  }

  lemma HoldStays(t: Table, refs: seq<nat>, i: nat)
    requires Sane(t, refs) && Used(t, i)
    ensures Sane(t, Plus(refs, i))
  {
    assert NodeSane(|t|, i, t[i], refs[i]);
    SaneStore(t, refs, i, t[i], refs[i] + 1);
    assert t[i := t[i]] == t;
  }

  /**
    The counts are right after a link if and only if the directory has not been removed and the
    count does not wrap around.
   */
  lemma LinkedCounts(t: Table, refs: nat, d: nat, name: string, i: nat, room: bool)
    requires Inv(t) && d < |t| && t[d].kind == Dir && 0 < i < |t| && IsFile(t[i]) && CanLink(t[d].entries, name, room)
    ensures Inv(Dropped(Linked(t, d, name, i), refs, i)) <==> Live(t[d]) && t[i].nlink < 32767
  {
    assert NodeOk(t, i, t[i]) && NodeOk(t, d, t[d]);
    NotDots(t, d, name);
    LinkNeedsLive(t, d, FreeSlot(t[d].entries), name, i);
    if Live(t[d]) && t[i].nlink < 32767 {
      LinkKeeps(t, d, FreeSlot(t[d].entries), name, i);
    }
  }

  // ----- unlink -----

  /** What sys_unlink comes to for a name in directory `d`. */
  function UnlinkOutcome(t: Table, d: nat, name: string): Outcome
    requires d < |t|
  {
    var i := Lookup(t[d].entries, name);
    if IsDots(name) || i == 0 then Failed
    else if !Used(t, i) || t[i].nlink < 1 then Panicked
    else if t[i].kind == Dir && !IsEmpty(t[i].entries) then Failed
    else Done
  }

  lemma EntryFound(t: Table, d: nat, name: string)
    requires d < |t| && UnlinkOutcome(t, d, name).Done?
    ensures Find(t[d].entries, name) < |t[d].entries| && Lookup(t[d].entries, name) < |t|
  {
    hide IsEmpty;
  }

  /** The entry is cleared, and the parent of a directory has a link less. */
  function Cleared(t: Table, d: nat, name: string): (u: Table)
    requires d < |t| && UnlinkOutcome(t, d, name).Done?
    ensures |u| == |t|
  {
    var i, k := Lookup(t[d].entries, name), Find(t[d].entries, name);
    var u := WithEntry(t, d, k, Dirent(0, ""));
    if t[i].kind == Dir then WithLinks(u, d, Dec(t[d].nlink)) else u
  }

  /** The table after a successful unlink, with `refs` references to each inode. */
  function Unlinked(t: Table, refs: seq<nat>, d: nat, name: string): (u: Table)
    requires d < |t| == |refs| && UnlinkOutcome(t, d, name).Done?
    ensures |u| == |t|
  {
    var i := Lookup(t[d].entries, name);
    var u := Dropped(Cleared(t, d, name), refs[d] + 1, d);
    Dropped(WithLinks(u, i, Dec(u[i].nlink)), refs[i] + 1, i)
  }

  lemma ClearedStays(t: Table, refs: seq<nat>, d: nat, name: string)
    requires Sane(t, refs) && 0 < d < |t| && t[d].kind == Dir && refs[d] > 0 && UnlinkOutcome(t, d, name).Done?
    ensures Sane(Cleared(t, d, name), refs)
  {
    var u := Cleared(t, d, name);
    assert NodeSane(|t|, d, t[d], refs[d]);
    assert NodeSane(|t|, d, u[d], refs[d]);
    SaneStore(t, refs, d, u[d], refs[d]);
    assert t[d := u[d]] == u && refs[d := refs[d]] == refs;
  }

  /** Entries with names other than "." and ".." are only in directories that have not been removed. */
  lemma FoundEntry(t: Table, d: nat, name: string)
    requires Inv(t) && d < |t| && t[d].kind == Dir && !IsDots(name) && Lookup(t[d].entries, name) != 0
    ensures var i, k := Lookup(t[d].entries, name), Find(t[d].entries, name);
      && Live(t[d]) && 2 <= k < |t[d].entries| && t[d].entries[k] == Dirent(i, name)
      && 0 < i < |t| && t[i].nlink >= 1 && t[i].kind != Unused
      && (t[i].kind == Dir ==> Child(t, d, k, i))
  {
    var i, k := Lookup(t[d].entries, name), Find(t[d].entries, name);
    assert NodeOk(t, d, t[d]);
    assert k >= 2;
    assert t[d].nlink != 0;
    Counts(t, d, k);
    assert NodeOk(t, i, t[i]);
  }

  /** The panic of unlink is never reached while the counts are right. */
  lemma UnlinkNeverPanics(t: Table, d: nat, name: string)
    requires Inv(t) && d < |t| && t[d].kind == Dir
    ensures !UnlinkOutcome(t, d, name).Panicked?
  {
    if !IsDots(name) && Lookup(t[d].entries, name) != 0 {
      FoundEntry(t, d, name);
    }
  }

  /** The table after unlink, when the directory stays linked. */
  lemma UnlinkedIs(t: Table, refs: seq<nat>, d: nat, name: string)
    requires d < |t| == |refs| && UnlinkOutcome(t, d, name).Done?
    requires var i := Lookup(t[d].entries, name); i != d && t[d].nlink >= if t[i].kind == Dir then 2 else 1
    ensures var i, k := Lookup(t[d].entries, name), Find(t[d].entries, name);
      && i < |t| && k < |t[d].entries| && t[i].nlink >= 1
      && Unlinked(t, refs, d, name) ==
         Dropped(if t[i].kind == Dir then RemovedDir(t, d, k, i)
                 else WithLinks(WithEntry(t, d, k, Dirent(0, "")), i, t[i].nlink - 1), refs[i] + 1, i)
  {
    hide IsEmpty;
  }

  lemma UnlinkedKeeps(t: Table, refs: seq<nat>, d: nat, name: string)
    requires Inv(t) && d < |t| == |refs| && t[d].kind == Dir && UnlinkOutcome(t, d, name).Done?
    ensures Inv(Unlinked(t, refs, d, name))
  {
    hide Inv, Unlinked, RemovedDir, WithEntry, WithLinks, Lookup, Find, Dropped;
    var i, k := Lookup(t[d].entries, name), Find(t[d].entries, name);
    FoundEntry(t, d, name);
    if t[i].kind == Dir {
      OneName(t, d, k, i);
      StillLinked(t, d, k, i);
      RemoveDirKeeps(t, d, k, i);
      UnlinkedIs(t, refs, d, name);
      DroppedKeeps(RemovedDir(t, d, k, i), refs[i] + 1, i);
    } else {
      UnlinkKeeps(t, d, k, i);
      UnlinkedIs(t, refs, d, name);
      DroppedKeeps(WithLinks(WithEntry(t, d, k, Dirent(0, "")), i, t[i].nlink - 1), refs[i] + 1, i);
    }
  }

  /** What unlink does to the inodes, while the counts are right. */
  lemma UnlinkedNodes(t: Table, refs: seq<nat>, d: nat, name: string)
    requires Inv(t) && d < |t| == |refs| && t[d].kind == Dir && UnlinkOutcome(t, d, name).Done?
    ensures var i, u := Lookup(t[d].entries, name), Unlinked(t, refs, d, name);
      && i < |t| && i != d && Live(t[d]) && Live(u[d])
      && u[i] == (if t[i].nlink == 1 && refs[i] == 0 then FREE else t[i].(nlink := t[i].nlink - 1))
      && (t[i].kind == Dir ==> |t[i].entries| >= 2 && t[i].entries[1].inum == d)
      && forall e :: 0 <= e < |t| && e != d && e != i ==> u[e] == t[e]
  {
    var i, k := Lookup(t[d].entries, name), Find(t[d].entries, name);
    FoundEntry(t, d, name);
    hide Inv;
    if t[i].kind == Dir {
      OneName(t, d, k, i);
      StillLinked(t, d, k, i);
    }
  }

  /** Unlink leaves a removed directory with a free inode above it if and only if it frees the inode above one. */
  lemma UnlinkBreaks(t: Table, refs: seq<nat>, d: nat, name: string)
    requires Inv(t) && UpSound(t) && d < |t| == |refs| && t[d].kind == Dir && UnlinkOutcome(t, d, name).Done?
    ensures var i := Lookup(t[d].entries, name);
      UpSound(Unlinked(t, refs, d, name)) <==>
      !(t[i].nlink == 1 && refs[i] == 0 && exists e :: Removed(t, e) && Up(t, e) == i)
  {
    var i, u := Lookup(t[d].entries, name), Unlinked(t, refs, d, name);
    UnlinkedNodes(t, refs, d, name);
    assert Used(t, i);
    hide Inv, Unlinked, UnlinkOutcome, Lookup;
    forall e
      ensures Removed(u, e) <==> Removed(t, e) || (e == i && t[i].kind == Dir && t[i].nlink == 1 && refs[i] > 0)
      ensures Removed(t, e) ==> Removed(u, e) && Up(u, e) == Up(t, e)
      ensures Removed(u, e) && !Removed(t, e) ==> Up(u, e) == d
    {
    }
    forall j
      ensures Used(u, j) <==> Used(t, j) && !(j == i && t[i].nlink == 1 && refs[i] == 0)
    {
    }
  }

  // ----- create -----

  function FirstUnused(t: Table, i: nat): (r: nat)
    ensures r != 0 ==> i <= r < |t| && t[r].kind == Unused
    decreases |t| - i
  {
    if i >= |t| then 0 else if t[i].kind == Unused then i else FirstUnused(t, i + 1)
  }

  /** Whether the disk has room for a new slot for ".", for ".." and for the entry. */
  datatype Room = Room(dot: bool, dots: bool, entry: bool)

  /** What create comes to for a name in directory `d`. */
  function CreateOutcome(t: Table, d: nat, name: string, kind: Kind, room: Room): Found
    requires d < |t|
  {
    var n, i := Lookup(t[d].entries, name), FirstUnused(t, 1);
    if n != 0 then
      if !Used(t, n) then Broken
      else if kind == File && IsFile(t[n]) then Found(n) else Nothing
    else if i == 0 || (kind == Dir && !(room.dot && room.dots)) || !CanLink(t[d].entries, name, room.entry) then Nothing
    else Found(i)
  }

  /** The table after a successful create. */
  function Created(t: Table, d: nat, name: string, i: nat, kind: Kind): (u: Table)
    requires d < |t| && i < |t| && i != d
    ensures |u| == |t|
  {
    if kind == Dir then MadeDir(t, d, FreeSlot(t[d].entries), name, i)
    else WithEntry(t[i := Node(kind, 1, [])], d, FreeSlot(t[d].entries), Dirent(i, name))
  }

  lemma CreatedStays(t: Table, refs: seq<nat>, d: nat, name: string, i: nat, kind: Kind)
    requires Sane(t, refs) && d < |t| && t[d].kind == Dir && refs[d] > 0 && 0 < i < |t| && t[i].kind == Unused
    requires kind != Unused && i != d
    ensures Sane(Created(t, d, name, i, kind), Plus(refs, i))
  {
    assert NodeSane(|t|, i, t[i], refs[i]);
    var n := if kind == Dir then NewDir(i, d) else Node(kind, 1, []);
    assert NodeSane(|t|, i, n, 1);
    SaneStore(t, refs, i, n, 1);
    var u := t[i := n];
    EntryStays(u, Plus(refs, i), d, name, i);
    if kind == Dir {
      LinksStay(WithEntry(u, d, FreeSlot(u[d].entries), Dirent(i, name)), Plus(refs, i), d, Inc(t[d].nlink));
    }
  }

  /**
    The counts are right after a create if and only if the directory has not been removed and,
    for a new directory, the parent's count does not wrap around.
   */
  lemma CreatedCounts(t: Table, refs: nat, d: nat, name: string, i: nat, kind: Kind, room: bool)
    requires Inv(t) && d < |t| && t[d].kind == Dir && CanLink(t[d].entries, name, room)
    requires 0 < i < |t| && t[i].kind == Unused && kind != Unused
    ensures i != d
    ensures Inv(Dropped(Created(t, d, name, i, kind), refs, d)) <==> Live(t[d]) && (kind == Dir ==> t[d].nlink < 32767)
  {
    NotDots(t, d, name);
    var k := FreeSlot(t[d].entries);
    assert NodeOk(t, d, t[d]);
    if kind == Dir {
      DirNeedsLive(t, d, k, name, i);
      if Live(t[d]) && t[d].nlink < 32767 {
        MakeDirKeeps(t, d, k, name, i);
      }
    } else {
      FileNeedsLive(t, d, k, name, i, kind);
      if Live(t[d]) {
        MakeFileKeeps(t, d, k, name, i, kind);
      } else {
        FileUncounted(t, refs, d, name, i, kind);
      }
    }
  }

  /** A file made in a removed directory has a link that no directory counts, even when the directory goes. */
  lemma FileUncounted(t: Table, refs: nat, d: nat, name: string, i: nat, kind: Kind)
    requires Inv(t) && d < |t| && t[d].kind == Dir && !Live(t[d]) && !IsDots(name)
    requires 0 < i < |t| && t[i].kind == Unused && (kind == File || kind == Device)
    ensures !Counted(Dropped(Created(t, d, name, i, kind), refs, d))
  {
    assert NodeOk(t, i, t[i]) && NodeOk(t, d, t[d]);
    var k := FreeSlot(t[d].entries);
    var u := t[i := Node(kind, 1, [])];
    CountStore(t, i, u[i], i);
    CountEntry(u, d, k, name, i, i);
    var w := WithEntry(u, d, k, Dirent(i, name));
    CountStore(w, d, FREE, i);
    assert Dropped(w, refs, d)[i].nlink == 1;
  }

  // ----- paths -----

  function Start(path: string, cwd: nat): nat { if |path| > 0 && path[0] == '/' then ROOTINO else cwd }

  /** What namex finds for a path. */
  function Namei(t: Table, path: string, cwd: nat, parent: bool): Found {
    Walk(t, Start(path, cwd), Components(path, 0), parent)
  }

  function LastName(path: string): string {
    var cs := Components(path, 0);
    if cs == [] then "" else cs[|cs| - 1]
  }

  /** The directory that nameiparent finds is one. */
  lemma ParentIsDir(t: Table, path: string, cwd: nat)
    requires Namei(t, path, cwd, true).Found?
    ensures var d := Namei(t, path, cwd, true).ip; Used(t, d) && t[d].kind == Dir
  {
    NameiViaParent(t, Start(path, cwd), Components(path, 0));
  }
}
