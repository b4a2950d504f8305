/**
  When link, unlink and create succeed, said of the entries alone, and what they do to names:
  which directory gives which name to which inode before and after, and where paths lead.
 */
module NameLaws {
  import opened Dirs
  import opened DirOps
  import opened Path
  import opened PathMeaning
  import opened NameOps

  // ----- when the calls succeed -----

  /** No entry in use has the name. */
  predicate Lacks(es: seq<Dirent>, name: string) { forall k :: 0 <= k < |es| ==> es[k].inum == 0 || es[k].name != name }

  lemma SlotIs(es: seq<Dirent>)
    ensures FreeSlot(es) < |es| <==> exists k :: 0 <= k < |es| && es[k].inum == 0
  {
    hide FreeSlot;
    if FreeSlot(es) < |es| {
      assert es[FreeSlot(es)].inum == 0;
    }
  }

  /**
    unlink of a name in `d` succeeds if and only if it is neither "." nor "..", the first entry
    in use with the name is an inode with a type and a link, and that is no directory with an
    entry in use after its first two.
   */
  lemma UnlinkDecides(t: Table, d: nat, name: string)
    requires d < |t|
    ensures UnlinkOutcome(t, d, name).Done? <==>
      && name != "." && name != ".."
      && exists k: nat :: FirstNamed(t[d].entries, name, k) &&
           var i := t[d].entries[k].inum;
           && i < |t| && t[i].kind != Unused && t[i].nlink >= 1
           && (t[i].kind == Dir ==> forall j :: 2 <= j < |t[i].entries| ==> t[i].entries[j].inum == 0)
    ensures UnlinkOutcome(t, d, name).Panicked? <==>
      && name != "." && name != ".."
      && exists k: nat :: FirstNamed(t[d].entries, name, k) &&
           var i := t[d].entries[k].inum;
           i >= |t| || t[i].kind == Unused || t[i].nlink < 1
  {
    var es := t[d].entries;
    LookupIs(es, name, 0);
    forall k: nat | FirstNamed(es, name, k)
      ensures Lookup(es, name) == es[k].inum
    {
      LookupIs(es, name, k);
    }
    hide Lookup, Find;
  }

  /**
    link succeeds if and only if the old path leads to an inode that is no directory, the new
    one to a directory that lacks the name, and that has a free slot or room for one more.
   */
  lemma LinkDecides(t: Table, i: Found, d: Found, name: string, room: bool)
    ensures LinkOutcome(t, i, d, name, room).Done? <==>
      && i.Found? && i.ip < |t| && t[i.ip].kind != Unused && t[i.ip].kind != Dir
      && d.Found? && d.ip < |t| && Lacks(t[d.ip].entries, name)
      && (room || exists k :: 0 <= k < |t[d.ip].entries| && t[d.ip].entries[k].inum == 0)
    ensures LinkOutcome(t, i, d, name, room).Panicked? <==>
      || i.Broken? || (i.Found? && (i.ip >= |t| || t[i.ip].kind == Unused))
      || (i.Found? && i.ip < |t| && t[i.ip].kind != Dir && d.Broken?)
  {
    if d.Found? && d.ip < |t| {
      LookupIs(t[d.ip].entries, name, 0);
      SlotIs(t[d.ip].entries);
    }
    hide Lookup, FreeSlot;
  }

  /** Inode `i` is the first that is not in use. */
  predicate FirstFree(t: Table, i: nat) {
    1 <= i < |t| && t[i].kind == Unused && forall j :: 1 <= j < i ==> t[j].kind != Unused
  }

  lemma {:induction false} UnusedIs(t: Table, i: nat)
    requires i >= 1 && forall j :: 1 <= j < i && j < |t| ==> t[j].kind != Unused
    ensures FirstUnused(t, i) != 0 ==> FirstFree(t, FirstUnused(t, i))
    ensures FirstUnused(t, i) == 0 ==> forall j :: 1 <= j < |t| ==> t[j].kind != Unused
    decreases |t| - i
  {
    if i < |t| && t[i].kind != Unused {
      UnusedIs(t, i + 1);
    }
  }

  /**
    create makes an inode if and only if the directory lacks the name and has a free slot or
    room for one more, some inode is free, and a new directory has room for its two entries; it
    is the first free inode. A name that is there serves only for a file, if it is one.
   */
  lemma CreateDecides(t: Table, d: nat, name: string, kind: Kind, room: Room, i: nat)
    requires d < |t|
    ensures Lacks(t[d].entries, name) ==>
      (CreateOutcome(t, d, name, kind, room) == Found(i) <==>
        && FirstFree(t, i) && (kind == Dir ==> room.dot && room.dots)
        && (room.entry || exists k :: 0 <= k < |t[d].entries| && t[d].entries[k].inum == 0))
    ensures !Lacks(t[d].entries, name) ==>
      (CreateOutcome(t, d, name, kind, room) == Found(i) <==>
        && i < |t| && kind == File && (t[i].kind == File || t[i].kind == Device)
        && exists k: nat :: FirstNamed(t[d].entries, name, k) && t[d].entries[k].inum == i)
    ensures CreateOutcome(t, d, name, kind, room).Broken? <==>
      exists k: nat :: FirstNamed(t[d].entries, name, k) && !Used(t, t[d].entries[k].inum)
  {
    var es := t[d].entries;
    LookupIs(es, name, 0);
    forall k: nat | FirstNamed(es, name, k)
      ensures Lookup(es, name) == es[k].inum
    {
      LookupIs(es, name, k);
    }
    SlotIs(es);
    UnusedIs(t, 1);
    hide Lookup, Find, FreeSlot, FirstUnused;
    assert forall j :: FirstFree(t, i) && FirstFree(t, j) ==> i == j;
  }

  // ----- what the calls do to names -----

  /** A link gives one more name, and changes no other. */
  lemma LinkedGives(t: Table, refs: nat, d: nat, name: string, i: nat, e: nat, n: string, x: nat)
    requires d < |t| && t[d].kind == Dir && Lacks(t[d].entries, name) && 0 < i < |t| && t[i].kind != Dir
    ensures Gives(Dropped(Linked(t, d, name, i), refs, i), e, n, x) <==>
      Gives(t, e, n, x) || (e == d && n == name && x == i)
  {
    var u := Dropped(Linked(t, d, name, i), refs, i);
    LookupIs(t[d].entries, name, 0);
    hide Lookup, Find, FreeSlot, Gives;
    GivesIs(t, e, n, x);
    GivesIs(u, e, n, x);
    if e == d {
      LinkSetsOne(t[d].entries, name, i, n);
    }
  }

  /** Unlink takes one name away, and those of a directory that it frees. */
  lemma UnlinkedGives(t: Table, refs: seq<nat>, d: nat, name: string, e: nat, n: string, x: nat)
    requires Inv(t) && d < |t| == |refs| && t[d].kind == Dir && UnlinkOutcome(t, d, name).Done?
    ensures var i := Lookup(t[d].entries, name);
      && i < |t|
      && (Gives(Unlinked(t, refs, d, name), e, n, x) <==>
           Gives(t, e, n, x) && !(e == d && n == name) && !(e == i && t[i].nlink == 1 && refs[i] == 0))
  {
    var i, u := Lookup(t[d].entries, name), Unlinked(t, refs, d, name);
    UnlinkedNodes(t, refs, d, name);
    UnlinkedEntries(t, refs, d, name);
    FoundEntry(t, d, name);
    assert Unique(t[d].entries) by { assert NodeOk(t, d, t[d]); }
    hide Lookup, Find, Gives, Unlinked, UnlinkOutcome, Inv;
    GivesIs(t, e, n, x);
    GivesIs(u, e, n, x);
    if e == d {
      ClearTakesOne(t[d].entries, Find(t[d].entries, name), n);
    }
  }

  lemma UnlinkedEntries(t: Table, refs: seq<nat>, d: nat, name: string)
    requires Inv(t) && d < |t| == |refs| && t[d].kind == Dir && UnlinkOutcome(t, d, name).Done?
    ensures var k, u := Find(t[d].entries, name), Unlinked(t, refs, d, name);
      k < |t[d].entries| && u[d].kind == Dir && u[d].entries == t[d].entries[k := Dirent(0, "")]
  {
    var i, k := Lookup(t[d].entries, name), Find(t[d].entries, name);
    FoundEntry(t, d, name);
    UnlinkedNodes(t, refs, d, name);
    hide Inv, IsEmpty;
    if t[i].kind == Dir {
      assert Live(t[d]);
    }
  }

  /** Create gives the new inode its name and, if it is a directory, its "." and "..". */
  lemma CreatedGives(t: Table, refs: nat, d: nat, name: string, i: nat, kind: Kind, e: nat, n: string, x: nat)
    requires Inv(t) && d < |t| && Live(t[d]) && Lacks(t[d].entries, name) && 0 < i < |t| && t[i].kind == Unused
    requires kind != Unused
    ensures i != d
    ensures var u := Dropped(Created(t, d, name, i, kind), refs, d);
      && u[i].kind == kind && u[i].nlink == 1
      && (Gives(u, e, n, x) <==>
           || Gives(t, e, n, x) || (e == d && n == name && x == i)
           || (kind == Dir && e == i && ((n == "." && x == i) || (n == ".." && x == d))))
  {
    assert NodeOk(t, i, t[i]) && NodeOk(t, d, t[d]);
    assert t[0].kind == Unused;
    hide Inv;
    var u := Dropped(Created(t, d, name, i, kind), refs, d);
    assert u == Created(t, d, name, i, kind);
    LookupIs(t[d].entries, name, 0);
    NewDirGives(i, d, n);
    hide Lookup, Find, FreeSlot, Gives;
    GivesIs(t, e, n, x);
    GivesIs(u, e, n, x);
    if e == d {
      LinkSetsOne(t[d].entries, name, i, n);
    }
  }

  lemma NewDirGives(i: nat, d: nat, n: string)
    requires i != 0 && d != 0
    ensures Lookup(NewDir(i, d).entries, n) == if n == "." then i else if n == ".." then d else 0
  {
    var es := NewDir(i, d).entries;
    hide Find, Lookup;
    if n == "." {
      LookupIs(es, n, 0);
    } else {
      LookupIs(es, n, 1);
    }
  }

  // ----- where paths lead -----

  /** What a path means: its parts are looked up from the root or the current directory. */
  lemma PathMeans(t: Table, path: string, cwd: nat, j: nat) returns (parts: seq<Part>, cs: seq<string>)
    ensures IsSplit(path, 0, parts) && Reads(path, parts, cs)
    ensures var i := if path != "" && path[0] == '/' then 1 else cwd;
      && (Namei(t, path, cwd, false) == Found(j) <==> Leads(t, i, cs, j))
      && (Namei(t, path, cwd, true) == Found(j) <==>
           cs != [] && Leads(t, i, cs[..|cs| - 1], j) && j < |t| && t[j].kind == Dir)
      && (Namei(t, path, cwd, false).Broken? <==> Strays(t, i, cs))
      && (Namei(t, path, cwd, true).Broken? <==> Strays(t, i, cs))
    ensures cs != [] ==> LastName(path) == cs[|cs| - 1]
  {
    cs := Components(path, 0);
    parts := ComponentsRead(path, 0);
    hide Walk, Leads, IsSplit, Reads, Components, Strays;
    WalkFinds(t, Start(path, cwd), cs, j);
    WalkFindsParent(t, Start(path, cwd), cs, j);
    WalkPanics(t, Start(path, cwd), cs, false);
    WalkPanics(t, Start(path, cwd), cs, true);
  }

  /** More names lead at least as far. */
  lemma LeadsMore(t: Table, u: Table, i: nat, cs: seq<string>, j: nat)
    requires forall e, n, x :: Gives(t, e, n, x) ==> Gives(u, e, n, x)
    requires Leads(t, i, cs, j)
    ensures Leads(u, i, cs, j)
  {
    hide Gives;
    var ns :| Chain(t, ns, cs) && ns[0] == i && ns[|cs|] == j;
    assert Chain(u, ns, cs);
  }

  lemma LeadsLast(t: Table, i: nat, cs: seq<string>, d: nat, j: nat)
    requires cs != [] && Walk(t, i, cs, true) == Found(d)
    ensures Walk(t, i, cs, false) == Found(j) <==> Gives(t, d, cs[|cs| - 1], j)
  {
    NameiViaParent(t, i, cs);
    GivesIs(t, d, cs[|cs| - 1], j);
  }

  /** What a path found before more names were given, it still finds. */
  lemma StillFound(t: Table, u: Table, path: string, cwd: nat, j: nat)
    requires forall e, n, x :: Gives(t, e, n, x) ==> Gives(u, e, n, x)
    requires Namei(t, path, cwd, false) == Found(j)
    ensures Namei(u, path, cwd, false) == Found(j)
  {
    hide Walk, Leads, Gives, Components;
    var i, cs := Start(path, cwd), Components(path, 0);
    WalkFinds(t, i, cs, j);
    LeadsMore(t, u, i, cs, j);
    WalkFinds(u, i, cs, j);
  }

  lemma ParentFound(t: Table, u: Table, path: string, cwd: nat, d: nat)
    requires forall e, n, x :: Gives(t, e, n, x) ==> Gives(u, e, n, x)
    requires Namei(t, path, cwd, true) == Found(d) && d < |u| && u[d].kind == Dir
    ensures Namei(u, path, cwd, true) == Found(d) && Components(path, 0) != []
  {
    hide Walk, Leads, Gives, Components;
    var i, cs := Start(path, cwd), Components(path, 0);
    WalkFindsParent(t, i, cs, d);
    LeadsMore(t, u, i, cs[..|cs| - 1], d);
    WalkFindsParent(u, i, cs, d);
  }

  /** After a link, the new path leads to the inode, and every path leads where it did. */
  lemma LinkedPaths(t: Table, refs: nat, to: string, cwd: nat, d: nat, i: nat, other: string, cwd2: nat, j: nat)
    requires Namei(t, to, cwd, true) == Found(d) && d < |t| && t[d].kind == Dir && Lacks(t[d].entries, LastName(to))
    requires 0 < i < |t| && t[i].kind != Dir
    ensures var u := Dropped(Linked(t, d, LastName(to), i), refs, i);
      && Namei(u, to, cwd, false) == Found(i)
      && (Namei(t, other, cwd2, false) == Found(j) ==> Namei(u, other, cwd2, false) == Found(j))
  {
    var u := Dropped(Linked(t, d, LastName(to), i), refs, i);
    hide Walk, Components, Gives, Namei, FreeSlot;
    forall e, n, x
      ensures Gives(u, e, n, x) <==> Gives(t, e, n, x) || (e == d && n == LastName(to) && x == i)
    {
      LinkedGives(t, refs, d, LastName(to), i, e, n, x);
    }
    ParentFound(t, u, to, cwd, d);
    NameLast(u, to, cwd, d, i);
    if Namei(t, other, cwd2, false) == Found(j) {
      StillFound(t, u, other, cwd2, j);
    }
  }

  lemma NameLast(t: Table, path: string, cwd: nat, d: nat, j: nat)
    requires Components(path, 0) != [] && Namei(t, path, cwd, true) == Found(d)
    ensures Namei(t, path, cwd, false) == Found(j) <==> Gives(t, d, LastName(path), j)
  {
    LeadsLast(t, Start(path, cwd), Components(path, 0), d, j);
  }

  /** After a create, the path leads to the new inode, and every path leads where it did. */
  lemma CreatedPaths(t: Table, refs: nat, path: string, cwd: nat, d: nat, i: nat, kind: Kind,
                     other: string, cwd2: nat, j: nat)
    requires Inv(t) && Namei(t, path, cwd, true) == Found(d) && d < |t| && Live(t[d])
    requires Lacks(t[d].entries, LastName(path)) && 0 < i < |t| && t[i].kind == Unused && kind != Unused
    ensures i != d
    ensures var u := Dropped(Created(t, d, LastName(path), i, kind), refs, d);
      && Namei(u, path, cwd, false) == Found(i) && u[i].kind == kind && u[i].nlink == 1
      && (Namei(t, other, cwd2, false) == Found(j) ==> Namei(u, other, cwd2, false) == Found(j))
  {
    hide Walk, Components, Gives, Namei, Created, Inv;
    CreatedGives(t, refs, d, LastName(path), i, kind, d, "", 0);
    var u := Dropped(Created(t, d, LastName(path), i, kind), refs, d);
    forall e, n, x
      ensures Gives(t, e, n, x) ==> Gives(u, e, n, x)
      ensures Gives(u, d, LastName(path), i)
    {
      CreatedGives(t, refs, d, LastName(path), i, kind, e, n, x);
      CreatedGives(t, refs, d, LastName(path), i, kind, d, LastName(path), i);
    }
    assert u[d].kind == Dir by { StaysDir(t, refs, d, LastName(path), i, kind); }
    ParentFound(t, u, path, cwd, d);
    NameLast(u, path, cwd, d, i);
    if Namei(t, other, cwd2, false) == Found(j) {
      StillFound(t, u, other, cwd2, j);
    }
  }

  lemma StaysDir(t: Table, refs: nat, d: nat, name: string, i: nat, kind: Kind)
    requires d < |t| && i < |t| && i != d && Live(t[d])
    ensures Dropped(Created(t, d, name, i, kind), refs, d)[d].kind == Dir
  {
    hide FreeSlot;
  }

  /** After an unlink, the path leads nowhere, and no path leads where it did not. */
  lemma UnlinkedPaths(t: Table, refs: seq<nat>, path: string, cwd: nat, d: nat, other: string, cwd2: nat, j: nat)
    requires Inv(t) && Namei(t, path, cwd, true) == Found(d) && d < |t| == |refs| && t[d].kind == Dir
    requires UnlinkOutcome(t, d, LastName(path)).Done?
    ensures var u := Unlinked(t, refs, d, LastName(path));
      && !Namei(u, path, cwd, false).Found?
      && (Namei(u, other, cwd2, false) == Found(j) ==> Namei(t, other, cwd2, false) == Found(j))
  {
    var u := Unlinked(t, refs, d, LastName(path));
    hide Walk, Components, Gives, Namei, Unlinked, UnlinkOutcome, Inv, Lookup;
    forall e, n, x
      ensures Gives(u, e, n, x) ==> Gives(t, e, n, x) && !(e == d && n == LastName(path))
    {
      UnlinkedGives(t, refs, d, LastName(path), e, n, x);
    }
    if Namei(u, other, cwd2, false) == Found(j) {
      StillFound(u, t, other, cwd2, j);
    }
    if Namei(u, path, cwd, false).Found? {
      FoundViaParent(t, u, path, cwd, d);
      NameLast(u, path, cwd, d, Namei(u, path, cwd, false).ip);
      assert false;
    }
  }

  /** A path that is still found has the same parent as before. */
  lemma FoundViaParent(t: Table, u: Table, path: string, cwd: nat, d: nat)
    requires forall e, n, x :: Gives(u, e, n, x) ==> Gives(t, e, n, x)
    requires Namei(t, path, cwd, true) == Found(d) && Namei(u, path, cwd, false).Found?
    ensures Components(path, 0) != [] && Namei(u, path, cwd, true) == Found(d)
  {
    var i, cs := Start(path, cwd), Components(path, 0);
    hide Gives, Components, Leads;
    WalkFindsParent(t, i, cs, d);
    NameiViaParent(u, i, cs);
    var p := Walk(u, i, cs, true).ip;
    hide Walk;
    WalkFindsParent(u, i, cs, p);
    var front := cs[..|cs| - 1];
    LeadsMore(u, t, i, front, p);
    WalkFinds(t, i, front, p);
    WalkFinds(t, i, front, d);
  }
}
