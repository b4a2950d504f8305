/**
  Directory search, path lookup and the link, unlink, create and chdir system calls:
  kernel/fs.c and kernel/sysfile.c. The calls work in any state that calls can leave behind,
  with the current directory removed or the link counts wrong; what they do when the counts
  are right is stated beside what they do.
 */
module Namespace {
  import opened Dirs
  import opened DirOps
  import opened Path
  import opened NameOps

  // ----- the rounds of namex -----

  /** Between two rounds of namex: `rest` is what is left of the components `cs`, and starts with `name`. */
  ghost predicate Pending(path: string, i: nat, found: bool, name: string, rest: seq<string>, cs: seq<string>) {
    && i <= |path| && (found <==> rest != [])
    && (found ==>
         && rest == [name] + Components(path, i) && (i == |path| <==> Components(path, i) == [])
         && cs != [] && cs[|cs| - 1] == rest[|rest| - 1])
  }

  lemma PendingFacts(path: string, i: nat, found: bool, name: string, rest: seq<string>, cs: seq<string>)
    requires Pending(path, i, found, name, rest, cs) && found
    ensures i <= |path| && rest != [] && rest[0] == name && (i == |path| <==> |rest| == 1)
    ensures cs != [] && cs[|cs| - 1] == rest[|rest| - 1]
  {
  }

  lemma PendingNext(path: string, i0: nat, name0: string, i: nat, found: bool, name: string, rest: seq<string>,
                    cs: seq<string>)
    requires Pending(path, i0, true, name0, rest, cs) && i <= |path|
    requires found <==> Components(path, i0) != []
    requires found ==> [name] + Components(path, i) == Components(path, i0)
    requires found ==> (i == |path| <==> Components(path, i) == [])
    ensures Pending(path, i, found, name, rest[1..], cs)
  {
  }

  lemma PendingStart(path: string, i: nat, found: bool, name: string)
    requires i <= |path| && (found <==> Components(path, 0) != [])
    requires found ==> [name] + Components(path, i) == Components(path, 0)
    requires found ==> (i == |path| <==> Components(path, i) == [])
    ensures Pending(path, i, found, name, Components(path, 0), Components(path, 0))
  {
  }

  lemma PendingEnd(path: string, i: nat, found: bool, name: string, rest: seq<string>, cs: seq<string>)
    requires Pending(path, i, found, name, rest, cs) && !found
    ensures rest == []
  {
  }

  lemma WalkBreaks(t: Table, i: nat, cs: seq<string>, parent: bool)
    ensures Inv(t) ==> (Walk(t, i, cs, parent).Broken? <==> Falls(t, i, cs))
  {
    if Inv(t) {
      BreaksIff(t, i, cs, parent);
    }
  }

  lemma WalkStep(t: Table, i: nat, cs: seq<string>, parent: bool)
    requires cs != [] && i < |t|
    ensures Walk(t, i, cs, parent) ==
      if t[i].kind == Unused then Broken
      else if t[i].kind != Dir then Nothing
      else if parent && |cs| == 1 then Found(i)
      else
        var n := Lookup(t[i].entries, cs[0]);
        if n == 0 then Nothing else Walk(t, n, cs[1..], parent)
  {
  }

  lemma WalkEnd(t: Table, i: nat, parent: bool)
    ensures Walk(t, i, [], parent) == if parent then Nothing else Found(i)
  {
  }

  /** The references when a lookup ends. */
  function Kept(refs: seq<nat>, r: Found): seq<nat> {
    match r case Found(ip) => Plus(refs, ip) case _ => refs
  }

  // ----- what the calls come to -----

  lemma UsedFacts(t: Table, refs: seq<nat>, i: nat)
    requires Sane(t, refs) && Used(t, i)
    ensures 0 < i < |t| == |refs|
  {
  }

  /** A successful link: the state it leaves, and when its counts are right. */
  lemma LinkedDone(t: Table, refs: seq<nat>, d: nat, name: string, i: nat, room: bool)
    requires Sane(t, refs) && Used(t, i) && t[i].kind != Dir && d < |t| && t[d].kind == Dir
    requires CanLink(t[d].entries, name, room)
    ensures Sane(Dropped(Linked(t, d, name, i), refs[i] + 1, i), refs)
    ensures Inv(t) ==>
      (Inv(Dropped(Linked(t, d, name, i), refs[i] + 1, i)) <==> Live(t[d]) && t[i].nlink < 32767)
  {
    UsedFacts(t, refs, i);
    UsedFacts(t, refs, d);
    HoldStays(t, refs, i);
    LinksStay(t, Plus(refs, i), i, Inc(t[i].nlink));
    EntryStays(WithLinks(t, i, Inc(t[i].nlink)), Plus(refs, i), d, name, i);
    PutStays(Linked(t, d, name, i), refs, i);
    if Inv(t) {
      LinkedCounts(t, refs[i] + 1, d, name, i, room);
    }
  }

  lemma UnlinkedStays(t: Table, refs: seq<nat>, d: nat, name: string)
    requires Sane(t, refs) && 0 < d < |t| && t[d].kind == Dir && UnlinkOutcome(t, d, name).Done?
    ensures Sane(Unlinked(t, refs, d, name), refs)
  {
    var i := Lookup(t[d].entries, name);
    EntriesOf(t, refs, d, name);
    HoldStays(t, refs, i);
    HoldStays(t, Plus(refs, i), d);
    ClearedStays(t, Plus(Plus(refs, i), d), d, name);
    PutStays(Cleared(t, d, name), Plus(refs, i), d);
    var u := Dropped(Cleared(t, d, name), refs[d] + 1, d);
    LinksStay(u, Plus(refs, i), i, Dec(u[i].nlink));
    PutStays(WithLinks(u, i, Dec(u[i].nlink)), refs, i);
  }

  lemma UnlinkKeepsCounts(t: Table, d: nat, name: string, refs: seq<nat>)
    requires d < |t| == |refs| && t[d].kind == Dir
    ensures Inv(t) ==> !UnlinkOutcome(t, d, name).Panicked?
    ensures Inv(t) && UnlinkOutcome(t, d, name).Done? ==> Inv(Unlinked(t, refs, d, name))
  {
    if Inv(t) {
      UnlinkNeverPanics(t, d, name);
      if UnlinkOutcome(t, d, name).Done? {
        UnlinkedKeeps(t, refs, d, name);
      }
    }
  }

  lemma UnusedFacts(t: Table, refs: seq<nat>, i: nat)
    requires Sane(t, refs) && i < |t| && t[i].kind == Unused
    ensures t[i] == FREE && refs[i] == 0 && |refs| == |t|
  {
    assert NodeSane(|t|, i, t[i], refs[i]);
  }

  lemma DotsFit(i: nat, d: nat, room: Room)
    requires i != 0
    ensures CanLink([], ".", room.dot) == room.dot && PutEntry([], FreeSlot([]), Dirent(i, ".")) == [Dirent(i, ".")]
    ensures var es := [Dirent(i, ".")];
      CanLink(es, "..", room.dots) == room.dots && PutEntry(es, FreeSlot(es), Dirent(d, "..")) == NewDir(i, d).entries
  {
    assert [Dirent(i, ".")][1..] == [];
  }

  lemma OneNode(t: Table, refs: seq<nat>, i: nat, n: Node)
    requires NoOrphans(t, refs) && i < |t| && n.nlink == 1
    ensures NoOrphans(t[i := n], refs)
  {
  }

  /** A new inode with a link, and a reference to its parent. */
  lemma NewSteady(t: Table, refs: seq<nat>, d: nat, i: nat, n: Node)
    requires Sane(t, refs) && i < |t| && n.nlink == 1
    ensures NoOrphans(t[i := n], Plus(Plus(refs, d), i))
  {
    SaneSteady(t, refs);
  }

  /** A successful create: the state it leaves, and when its counts are right. */
  lemma CreatedDone(t: Table, refs: seq<nat>, d: nat, name: string, i: nat, kind: Kind, room: bool)
    requires Sane(t, refs) && d < |t| && t[d].kind == Dir && CanLink(t[d].entries, name, room)
    requires 0 < i < |t| && t[i].kind == Unused && kind != Unused
    ensures i != d && Sane(Dropped(Created(t, d, name, i, kind), refs[d] + 1, d), Plus(refs, i))
    ensures Inv(t) ==>
      (Inv(Dropped(Created(t, d, name, i, kind), refs[d] + 1, d)) <==>
        Live(t[d]) && (kind == Dir ==> t[d].nlink < 32767))
  {
    UsedFacts(t, refs, d);
    HoldStays(t, refs, d);
    CreatedStays(t, Plus(refs, d), d, name, i, kind);
    assert Plus(Plus(refs, d), i) == Plus(Plus(refs, i), d);
    PutStays(Created(t, d, name, i, kind), Plus(refs, i), d);
    if Inv(t) {
      CreatedCounts(t, refs[d] + 1, d, name, i, kind, room);
    }
  }

  lemma PutDone(t: Table, refs: seq<nat>, i: nat)
    requires Sane(t, refs) && i < |t| && refs[i] > 0
    ensures Sane(Dropped(t, refs[i], i), refs[i := refs[i] - 1])
    ensures Inv(t) ==> Inv(Dropped(t, refs[i], i))
  {
    CwdUsed(t, refs, i);
    assert Plus(refs[i := refs[i] - 1], i) == refs;
    PutStays(t, refs[i := refs[i] - 1], i);
    if Inv(t) {
      DroppedKeeps(t, refs[i], i);
    }
  }

  lemma CwdUsed(t: Table, refs: seq<nat>, cwd: nat)
    requires Sane(t, refs) && cwd < |t| && refs[cwd] > 0
    ensures cwd > 0
  {
    assert NodeSane(|t|, cwd, t[cwd], refs[cwd]);
  }

  lemma ChdirDone(t: Table, refs: seq<nat>, dir: nat, cwd: nat)
    requires Sane(t, refs) && Used(t, dir) && 0 < cwd < |t| && refs[cwd] > 0
    ensures var more := Plus(refs, dir);
      Sane(Dropped(t, more[cwd], cwd), more[cwd := more[cwd] - 1])
    ensures Inv(t) ==> Inv(Dropped(t, Plus(refs, dir)[cwd], cwd))
  {
    var more := Plus(refs, dir);
    var less := more[cwd := more[cwd] - 1];
    HoldStays(t, refs, dir);
    assert Plus(less, cwd) == more;
    PutStays(t, less, cwd);
    if Inv(t) {
      DroppedKeeps(t, more[cwd], cwd);
    }
  }

  lemma RootInv(t: Table)
    requires |t| > ROOTINO && t[ROOTINO] == NewDir(ROOTINO, ROOTINO)
    requires forall i :: 0 <= i < |t| && i != ROOTINO ==> t[i] == Node(Unused, 0, [])
    ensures Inv(t)
  {
    forall i | 0 < i < |t|
      ensures t[i].nlink == Count(t, i)
    {
      CountOne(t, ROOTINO, i);
      NewDirWeight(ROOTINO, ROOTINO, i);
    }
    assert forall d, k, c :: !Child(t, d, k, c);
  }

  class Namespace {
    var t: Table
    var refs: seq<nat>

    ghost predicate Valid()
      reads this
    {
      Sane(t, refs)
    }

    // ----- references -----

    method Iget(inum: nat) returns (ip: nat)
      requires inum < |refs|
      modifies this`refs
      ensures ip == inum && refs == Plus(old(refs), inum)
    {
      refs := refs[inum := refs[inum] + 1];
      ip := inum;
    }

    /** Drops a reference; the last one to an inode without links frees it. */
    method Iput(ip: nat)
      requires ip < |t| == |refs| && refs[ip] > 0
      modifies this`t, this`refs
      ensures refs == old(refs)[ip := old(refs)[ip] - 1]
      ensures t == Dropped(old(t), old(refs)[ip], ip)
    {
      if refs[ip] == 1 && t[ip].nlink == 0 {
        t := t[ip := Node(Unused, 0, [])];
      }
      refs := refs[ip := refs[ip] - 1];
    }

    /** idup, as fork does with the current directory. */
    method Dup(ip: nat)
      requires Valid() && Used(t, ip)
      modifies this`refs
      ensures Valid() && refs == Plus(old(refs), ip)
    {
      HoldStays(t, refs, ip);
      var _ := Iget(ip);
    }

    /** iput at the end of a call, as close and exit do. The counts stay right. */
    method Put(ip: nat)
      requires Valid() && ip < |t| && refs[ip] > 0
      modifies this`t, this`refs
      ensures Valid() && refs == old(refs)[ip := old(refs)[ip] - 1]
      ensures t == Dropped(old(t), old(refs)[ip], ip)
      ensures Inv(old(t)) ==> Inv(t)
    {
      PutDone(t, refs, ip);
      hide Sane, Inv;
      Iput(ip);
    }

    /** Gives a reference back that was taken in the same call. */
    method GiveBack(ip: nat, ghost refs0: seq<nat>)
      requires ip < |t| == |refs0| && NoOrphans(t, refs0) && refs == Plus(refs0, ip)
      modifies this`t, this`refs
      ensures t == old(t) && refs == refs0
    {
      PutBack(t, refs0, ip);
      Iput(ip);
      assert refs == refs0;
    }

    // ----- directories -----

    /** dirlookup: the first entry in use with the name. */
    method DirLookup(dp: nat, name: string) returns (ip: nat, off: nat)
      requires dp < |t| == |refs| && t[dp].kind == Dir
      requires EntriesIn(t, t[dp].entries)
      modifies this`refs
      ensures ip == Lookup(t[dp].entries, name) && off == Find(t[dp].entries, name) && ip < |t|
      ensures refs == if ip == 0 then old(refs) else Plus(old(refs), ip)
    {
      var es := t[dp].entries;
      off := 0;
      while off < |es|
        invariant 0 <= off <= |es|
        invariant forall j :: 0 <= j < off ==> es[j].inum == 0 || es[j].name != name
        invariant refs == old(refs)
      {
        if es[off].inum != 0 && es[off].name == name {
          ip := Iget(es[off].inum);
          return;
        }
        off := off + 1;
      }
      ip := 0;
    }

    /** dirlink: fails when the name is taken, or when a new slot is needed and the disk is full. */
    method DirLink(dp: nat, name: string, inum: nat, room: bool) returns (ok: bool)
      requires dp < |t| == |refs| && t[dp].kind == Dir
      requires NoOrphans(t, refs) && EntriesIn(t, t[dp].entries)
      modifies this`t, this`refs
      ensures refs == old(refs)
      ensures ok <==> CanLink(old(t)[dp].entries, name, room)
      ensures !ok ==> t == old(t)
      ensures ok ==> t == WithEntry(old(t), dp, FreeSlot(old(t)[dp].entries), Dirent(inum, name))
    {
      hide NoOrphans, Find, FreeSlot;
      var ip, _ := DirLookup(dp, name);
      if ip != 0 {
        GiveBack(ip, old(refs));
        return false;
      }
      var es := t[dp].entries;
      var off := 0;
      while off < |es| && es[off].inum != 0
        invariant 0 <= off <= |es| && forall j :: 0 <= j < off ==> es[j].inum != 0
      {
        off := off + 1;
      }
      if off == |es| && !room {
        return false;
      }
      t := t[dp := t[dp].(entries := PutEntry(es, off, Dirent(inum, name)))];
      ok := true;
    }

    method IsDirEmpty(dp: nat) returns (r: bool)
      requires dp < |t|
      ensures r <==> IsEmpty(t[dp].entries)
    {
      var off := 2;
      while off < |t[dp].entries|
        invariant 2 <= off && forall k :: 2 <= k < off && k < |t[dp].entries| ==> t[dp].entries[k].inum == 0
      {
        if t[dp].entries[off].inum != 0 {
          return false;
        }
        off := off + 1;
      }
      r := true;
    }

    method SetLinks(i: nat, nlink: Short)
      requires i < |t|
      modifies this`t
      ensures t == WithLinks(old(t), i, nlink)
    {
      t := t[i := t[i].(nlink := nlink)];
    }

    // ----- path lookup -----

    /**
      namex: what the components lead to from the root or the current directory, and only the
      result gains a reference. While the counts are right, ilock panics on the way if and
      only if dots at the start of the path lead out of removed directories into a free inode.
     */
    method Namex(path: string, parent: bool, cwd: nat) returns (r: Found, name: string)
      requires Valid() && cwd < |t|
      modifies this`t, this`refs
      ensures t == old(t) && r == Namei(t, path, cwd, parent)
      ensures r.Found? ==> r.ip < |t| && (parent ==> name == LastName(path) && t[r.ip].kind == Dir)
      ensures !r.Broken? ==> refs == Kept(old(refs), r)
      ensures Inv(t) ==> (r.Broken? <==> Falls(t, Start(path, cwd), Components(path, 0)))
    {
      SaneSteady(t, refs);
      if parent && Namei(t, path, cwd, true).Found? {
        ParentIsDir(t, path, cwd);
      }
      hide Sane, NoOrphans, Inv, Lookup, Find, Components, Walk, Pending, Plus, Falls;
      ghost var cs := Components(path, 0);
      WalkBreaks(t, Start(path, cwd), cs, parent);
      var ip: nat := Iget(if |path| > 0 && path[0] == '/' then ROOTINO else cwd);
      ghost var rest := cs;
      var found, i;
      found, i, name := SkipElem(path, 0);
      PendingStart(path, i, found, name);
      while found
        invariant Pending(path, i, found, name, rest, cs)
        invariant parent && rest == [] ==> cs == []
        invariant Walk(t, ip, rest, parent) == Walk(t, Start(path, cwd), cs, parent)
        invariant t == old(t) && ip < |t| && refs == Plus(old(refs), ip)
        decreases |rest|
      {
        PendingFacts(path, i, found, name, rest, cs);
        WalkStep(t, ip, rest, parent);
        if t[ip].kind == Unused {
          return Broken, name;
        }
        if t[ip].kind != Dir {
          GiveBack(ip, old(refs));
          return Nothing, name;
        }
        if parent && i == |path| {
          return Found(ip), name;
        }
        var next := Follow(ip, name, old(refs));
        if next == 0 {
          return Nothing, name;
        }
        ip := next;
        ghost var i0, name0 := i, name;
        found, i, name := SkipElem(path, i);
        PendingNext(path, i0, name0, i, found, name, rest, cs);
        rest := rest[1..];
      }
      PendingEnd(path, i, found, name, rest, cs);
      WalkEnd(t, ip, parent);
      if parent {
        GiveBack(ip, old(refs));
        return Nothing, name;
      }
      r := Found(ip);
    }

    /** One component: the reference moves on from the directory to what it names. */
    method Follow(ip: nat, name: string, ghost refs0: seq<nat>) returns (next: nat)
      requires Sane(t, refs0) && ip < |t| && t[ip].kind == Dir && refs == Plus(refs0, ip)
      modifies this`t, this`refs
      ensures t == old(t) && next == Lookup(t[ip].entries, name) && next < |t|
      ensures refs == if next == 0 then refs0 else Plus(refs0, next)
    {
      SaneSteady(t, refs0);
      EntriesOf(t, refs0, ip, name);
      hide Sane, NoOrphans, Lookup, Find;
      var off;
      next, off := DirLookup(ip, name);
      ghost var more := if next == 0 then refs0 else Plus(refs0, next);
      if next != 0 {
        PutBack(t, refs0, next);
      }
      assert refs == Plus(more, ip);
      GiveBack(ip, more);
    }

    // ----- system calls -----

    /**
      sys_link: the count goes up first, and is taken back if there is no entry. A successful
      call keeps the counts right if and only if the directory has not been removed and the
      count does not wrap around.
     */
    method Link(from: string, to: string, cwd: nat, room: bool) returns (r: Outcome)
      requires Valid() && cwd < |t|
      modifies this`t, this`refs
      ensures r == LinkOutcome(old(t), Namei(old(t), from, cwd, false), Namei(old(t), to, cwd, true),
        LastName(to), room)
      ensures !r.Panicked? ==> Valid() && refs == old(refs)
      ensures r.Failed? ==> t == old(t)
      ensures r.Done? ==>
        var i, d := Namei(old(t), from, cwd, false).ip, Namei(old(t), to, cwd, true).ip;
        && t == Dropped(Linked(old(t), d, LastName(to), i), old(refs)[i] + 1, i)
        && (Inv(old(t)) ==> (Inv(t) <==> Live(old(t)[d]) && old(t)[i].nlink < 32767))
    {
      SaneSteady(t, refs);
      hide Sane, NoOrphans, Inv, Walk, CanLink, LastName;
      var i, _ := Namex(from, false, cwd);
      if i.Broken? || (i.Found? && t[i.ip].kind == Unused) {
        return Panicked;
      }
      if i.Nothing? {
        return Failed;
      }
      if t[i.ip].kind == Dir {
        GiveBack(i.ip, old(refs));
        return Failed;
      }
      r := LinkTo(i.ip, to, cwd, room, old(refs));
    }

    /** sys_link once the old path has led to a file. */
    method LinkTo(ip: nat, to: string, cwd: nat, room: bool, ghost refs0: seq<nat>) returns (r: Outcome)
      requires Sane(t, refs0) && refs == Plus(refs0, ip) && Used(t, ip) && t[ip].kind != Dir && cwd < |t|
      modifies this`t, this`refs
      ensures r == LinkOutcome(old(t), Found(ip), Namei(old(t), to, cwd, true), LastName(to), room)
      ensures !r.Panicked? ==> Valid() && refs == refs0
      ensures r.Failed? ==> t == old(t)
      ensures r.Done? ==>
        var d := Namei(old(t), to, cwd, true).ip;
        && t == Dropped(Linked(old(t), d, LastName(to), ip), refs0[ip] + 1, ip)
        && (Inv(old(t)) ==> (Inv(t) <==> Live(old(t)[d]) && old(t)[ip].nlink < 32767))
    {
      ghost var t0 := t;
      hide Sane, Inv, Walk, CanLink, LastName, FreeSlot, Plus;
      HoldStays(t, refs0, ip);
      UsedFacts(t, refs0, ip);
      PlusBack(refs0, ip);
      LinksStay(t, refs, ip, Inc(t[ip].nlink));
      SetLinks(ip, Inc(t[ip].nlink));
      ghost var t1 := t;
      WalkSame(t0, t1, Start(to, cwd), Components(to, 0), true);
      var d, name := Namex(to, true, cwd);
      if d.Broken? {
        return Panicked;
      }
      var ok := false;
      if d.Found? {
        ok := LinkIn(d.ip, name, ip, room, Plus(refs0, ip));
      }
      if ok {
        LinkedDone(t0, refs0, d.ip, name, ip, room);
        Iput(ip);
        assert refs == refs0;
        return Done;
      }
      SetLinks(ip, Dec(t[ip].nlink));
      assert t == t0;
      SaneSteady(t0, refs0);
      GiveBack(ip, refs0);
      return Failed;
    }

    /** dirlink in a directory that a path led to, whose reference is then dropped. */
    method LinkIn(dp: nat, name: string, inum: nat, room: bool, ghost refs0: seq<nat>) returns (ok: bool)
      requires Sane(t, refs0) && dp < |t| && t[dp].kind == Dir && inum < |t| && inum != dp && refs == Plus(refs0, dp)
      modifies this`t, this`refs
      ensures refs == refs0 && Valid()
      ensures ok <==> CanLink(old(t)[dp].entries, name, room)
      ensures !ok ==> t == old(t)
      ensures ok ==> t == WithEntry(old(t), dp, FreeSlot(old(t)[dp].entries), Dirent(inum, name))
    {
      SaneSteady(t, refs0);
      PutBack(t, refs0, dp);
      EntriesOf(t, refs0, dp, name);
      EntryStays(t, refs0, dp, name, inum);
      hide Sane, NoOrphans, CanLink, FreeSlot, WithEntry, Plus;
      ok := DirLink(dp, name, inum, room);
      SaneSteady(t, refs0);
      GiveBack(dp, refs0);
    }

    /**
      sys_unlink. Its panic on a count below one is never reached while the counts are right,
      and it keeps them right.
     */
    method Unlink(path: string, cwd: nat) returns (r: Outcome)
      requires Valid() && cwd < |t|
      modifies this`t, this`refs
      ensures var d := Namei(old(t), path, cwd, true);
        r == if d.Broken? then Panicked else if d.Nothing? || d.ip >= |old(t)| then Failed
             else UnlinkOutcome(old(t), d.ip, LastName(path))
      ensures !r.Panicked? ==> Valid() && refs == old(refs)
      ensures r.Failed? ==> t == old(t)
      ensures r.Done? ==> t == Unlinked(old(t), old(refs), Namei(old(t), path, cwd, true).ip, LastName(path))
      ensures Inv(old(t)) ==> (r.Panicked? <==> Namei(old(t), path, cwd, true).Broken?) && (!r.Panicked? ==> Inv(t))
    {
      SaneSteady(t, refs);
      hide Sane, Inv, Walk, LastName, UnlinkOutcome, Unlinked;
      var d, name := Namex(path, true, cwd);
      if d.Broken? {
        return Panicked;
      }
      if d.Nothing? {
        return Failed;
      }
      UnlinkKeepsCounts(t, d.ip, name, old(refs));
      r := UnlinkIn(d.ip, name, old(refs));
    }

    /** sys_unlink once the path has led to a directory. */
    method UnlinkIn(dp: nat, name: string, ghost refs0: seq<nat>) returns (r: Outcome)
      requires Sane(t, refs0) && dp < |t| && t[dp].kind == Dir && refs == Plus(refs0, dp)
      modifies this`t, this`refs
      ensures r == UnlinkOutcome(old(t), dp, name)
      ensures !r.Panicked? ==> Valid() && refs == refs0
      ensures r.Failed? ==> t == old(t)
      ensures r.Done? ==> t == Unlinked(old(t), refs0, dp, name)
    {
      SaneSteady(t, refs0);
      PutBack(t, refs0, dp);
      EntriesOf(t, refs0, dp, name);
      hide Sane, NoOrphans, Lookup, Find, IsEmpty, Unlinked, Plus;
      if name == "." || name == ".." {
        GiveBack(dp, refs0);
        return Failed;
      }
      var ip, off := DirLookup(dp, name);
      if ip == 0 {
        GiveBack(dp, refs0);
        return Failed;
      }
      if t[ip].kind == Unused || t[ip].nlink < 1 {
        return Panicked;
      }
      var empty := IsDirEmpty(ip);
      if t[ip].kind == Dir && !empty {
        GiveBack(ip, Plus(refs0, dp));
        GiveBack(dp, refs0);
        return Failed;
      }
      RemoveEntry(dp, name, ip, off, refs0);
      return Done;
    }

    /** The entry is cleared, and the counts follow. */
    method RemoveEntry(dp: nat, ghost name: string, ip: nat, off: nat, ghost refs0: seq<nat>)
      requires Sane(t, refs0) && 0 < dp < |t| && t[dp].kind == Dir && UnlinkOutcome(t, dp, name).Done?
      requires ip == Lookup(t[dp].entries, name) && off == Find(t[dp].entries, name) && ip != dp
      requires refs == Plus(Plus(refs0, dp), ip)
      modifies this`t, this`refs
      ensures Valid() && refs == refs0 && t == Unlinked(old(t), refs0, dp, name)
    {
      hide Sane, Lookup, Find, UnlinkOutcome, Plus;
      ghost var refs1 := Plus(refs0, ip);
      EntryFound(t, dp, name);
      UnlinkedStays(t, refs0, dp, name);
      UsedFacts(t, refs0, dp);
      PlusSwap(refs0, dp, ip);
      PlusBack(refs0, ip);
      PlusBack(refs1, dp);
      t := t[dp := t[dp].(entries := t[dp].entries[off := Dirent(0, "")])];
      if t[ip].kind == Dir {
        t := t[dp := t[dp].(nlink := Dec(t[dp].nlink))];
      }
      assert t == Cleared(old(t), dp, name);
      Iput(dp);
      assert refs == refs1;
      t := t[ip := t[ip].(nlink := Dec(t[ip].nlink))];
      Iput(ip);
      assert refs == refs0;
    }

    /** ialloc: the first inode that is not in use, or 0. */
    method Ialloc(kind: Kind) returns (ip: nat)
      requires |refs| == |t|
      modifies this`t, this`refs
      ensures ip == FirstUnused(old(t), 1)
      ensures ip == 0 ==> t == old(t) && refs == old(refs)
      ensures ip != 0 ==> t == old(t)[ip := Node(kind, 0, [])] && refs == Plus(old(refs), ip)
    {
      var inum := 1;
      while inum < |t|
        invariant 1 <= inum
        invariant FirstUnused(t, inum) == FirstUnused(t, 1)
        invariant t == old(t) && refs == old(refs)
      {
        if t[inum].kind == Unused {
          t := t[inum := Node(kind, 0, [])];
          ip := Iget(inum);
          return;
        }
        inum := inum + 1;
      }
      ip := 0;
    }

    /** The "." and ".." of a new directory. */
    method AddDots(ip: nat, dp: nat, room: Room) returns (ok: bool)
      requires 0 < ip < |t| && t[ip] == Node(Dir, 1, []) && dp < |t| && NoOrphans(t, refs)
      modifies this`t, this`refs
      ensures refs == old(refs) && ok == (room.dot && room.dots)
      ensures ok ==> t == old(t)[ip := NewDir(ip, dp)]
      ensures !ok ==> |t| == |old(t)| && forall j :: 0 <= j < |t| && j != ip ==> t[j] == old(t)[j]
    {
      DotsFit(ip, dp, room);
      OneNode(t, refs, ip, Node(Dir, 1, [Dirent(ip, ".")]));
      hide CanLink, FreeSlot, PutEntry, NoOrphans;
      ok := DirLink(ip, ".", ip, room.dot);
      if ok {
        assert t == old(t)[ip := Node(Dir, 1, [Dirent(ip, ".")])];
        ok := DirLink(ip, "..", dp, room.dots);
      }
    }

    /**
      create: an existing file serves for a new one. A call that makes an inode keeps the
      counts right if and only if the directory has not been removed and, for a new directory,
      the count of its parent does not wrap around.
     */
    method Create(path: string, cwd: nat, kind: Kind, room: Room) returns (r: Found)
      requires Valid() && cwd < |t| && kind != Unused
      modifies this`t, this`refs
      ensures var d := Namei(old(t), path, cwd, true);
        r == if d.Broken? then Broken else if d.Nothing? || d.ip >= |old(t)| then Nothing
             else CreateOutcome(old(t), d.ip, LastName(path), kind, room)
      ensures !r.Broken? ==> Valid() && refs == Kept(old(refs), r)
      ensures r.Nothing? ==> t == old(t)
      ensures r.Found? ==>
        var d := Namei(old(t), path, cwd, true).ip;
        && r.ip < |t|
        && if Lookup(old(t)[d].entries, LastName(path)) != 0 then t == old(t)
           else
             && r.ip != d && t == Dropped(Created(old(t), d, LastName(path), r.ip, kind), old(refs)[d] + 1, d)
             && (Inv(old(t)) ==> (Inv(t) <==> Live(old(t)[d]) && (kind == Dir ==> old(t)[d].nlink < 32767)))
    {
      SaneSteady(t, refs);
      hide Sane, NoOrphans, Inv, Walk, LastName, CreateOutcome, Created, Plus;
      var d, name := Namex(path, true, cwd);
      if !d.Found? {
        return d;
      }
      r := CreateIn(d.ip, name, kind, room, old(refs));
    }

    /** create once the path has led to a directory. */
    method CreateIn(dp: nat, name: string, kind: Kind, room: Room, ghost refs0: seq<nat>) returns (r: Found)
      requires Sane(t, refs0) && dp < |t| && t[dp].kind == Dir && refs == Plus(refs0, dp) && kind != Unused
      modifies this`t, this`refs
      ensures r == CreateOutcome(old(t), dp, name, kind, room)
      ensures !r.Broken? ==> Valid() && refs == Kept(refs0, r)
      ensures r.Nothing? ==> t == old(t)
      ensures r.Found? ==>
        && r.ip < |t|
        && if Lookup(old(t)[dp].entries, name) != 0 then t == old(t)
           else
             && r.ip != dp && t == Dropped(Created(old(t), dp, name, r.ip, kind), refs0[dp] + 1, dp)
             && (Inv(old(t)) ==> (Inv(t) <==> Live(old(t)[dp]) && (kind == Dir ==> old(t)[dp].nlink < 32767)))
    {
      SaneSteady(t, refs0);
      PutBack(t, refs0, dp);
      EntriesOf(t, refs0, dp, name);
      hide Sane, NoOrphans, Inv, Lookup, Find, Created, FirstUnused, CanLink, Plus;
      var ip, _ := DirLookup(dp, name);
      if ip != 0 {
        r := CreateOld(dp, ip, kind, refs0);
        return;
      }
      ghost var t0 := t;
      ip := Ialloc(kind);
      if ip == 0 {
        GiveBack(dp, refs0);
        return Nothing;
      }
      var ok := FinishNew(ip, dp, name, kind, room, t0, refs0);
      if ok {
        CreatedDone(t0, refs0, dp, name, ip, kind, room.entry);
        r := Found(ip);
      } else {
        r := Nothing;
      }
    }

    /** create when the name exists: an existing file serves, anything else is a failure. */
    method CreateOld(dp: nat, ip: nat, kind: Kind, ghost refs0: seq<nat>) returns (r: Found)
      requires Sane(t, refs0) && dp < |t| && ip < |t| && refs == Plus(Plus(refs0, dp), ip)
      modifies this`t, this`refs
      ensures t == old(t)
      ensures r == if t[ip].kind == Unused then Broken else if kind == File && IsFile(t[ip]) then Found(ip) else Nothing
      ensures !r.Broken? ==> Valid() && refs == Kept(refs0, r)
    {
      SaneSteady(t, refs0);
      PutBack(t, refs0, ip);
      if t[ip].kind != Unused {
        HoldStays(t, refs0, ip);
      }
      hide Sane, NoOrphans;
      assert refs == Plus(Plus(refs0, ip), dp);
      GiveBack(dp, Plus(refs0, ip));
      if t[ip].kind == Unused {
        return Broken;
      }
      if kind == File && (t[ip].kind == File || t[ip].kind == Device) {
        return Found(ip);
      }
      GiveBack(ip, refs0);
      r := Nothing;
    }

    /** create with the new inode at hand: it is linked, or freed again, and the parent is put back. */
    method FinishNew(ip: nat, dp: nat, name: string, kind: Kind, room: Room, ghost t0: Table, ghost refs0: seq<nat>)
      returns (ok: bool)
      requires Sane(t0, refs0) && dp < |t0| && t0[dp].kind == Dir && 0 < ip < |t0| && t0[ip].kind == Unused
      requires kind != Unused && t == t0[ip := Node(kind, 0, [])] && refs == Plus(Plus(refs0, dp), ip)
      modifies this`t, this`refs
      ensures ok <==> (kind == Dir ==> room.dot && room.dots) && CanLink(t0[dp].entries, name, room.entry)
      ensures t == if ok then Dropped(Created(t0, dp, name, ip, kind), refs0[dp] + 1, dp) else t0
      ensures refs == if ok then Plus(refs0, ip) else refs0
    {
      UnusedFacts(t0, refs0, ip);
      hide CanLink, Created, Sane;
      ok := FillNew(ip, dp, name, kind, room, t0, refs0);
      if !ok {
        SetLinks(ip, 0);
        Iput(ip);
        assert t == t0 && refs == Plus(refs0, dp);
        SaneSteady(t0, refs0);
        GiveBack(dp, refs0);
      } else {
        Iput(dp);
        assert refs == Plus(refs0, ip);
      }
    }

    /** From a fresh inode to one with a link and an entry, or to a failure in between. */
    method FillNew(ip: nat, dp: nat, name: string, kind: Kind, room: Room, ghost t0: Table, ghost refs0: seq<nat>)
      returns (ok: bool)
      requires Sane(t0, refs0) && dp < |t0| && t0[dp].kind == Dir && 0 < ip < |t0| && t0[ip].kind == Unused
      requires kind != Unused && t == t0[ip := Node(kind, 0, [])] && refs == Plus(Plus(refs0, dp), ip)
      modifies this`t, this`refs
      ensures refs == old(refs) && |t| == |t0|
      ensures ok <==> (kind == Dir ==> room.dot && room.dots) && CanLink(t0[dp].entries, name, room.entry)
      ensures ok ==> t == Created(t0, dp, name, ip, kind)
      ensures !ok ==> forall j :: 0 <= j < |t| && j != ip ==> t[j] == t0[j]
    {
      EntriesOf(t0, refs0, dp, name);
      NewSteady(t0, refs0, dp, ip, Node(kind, 1, []));
      NewSteady(t0, refs0, dp, ip, NewDir(ip, dp));
      hide Sane, NoOrphans, CanLink, FreeSlot, PutEntry, Plus;
      SetLinks(ip, 1);
      assert t == t0[ip := Node(kind, 1, [])];
      if kind == Dir {
        var dots := AddDots(ip, dp, room);
        if !dots {
          return false;
        }
      }
      assert t == t0[ip := if kind == Dir then NewDir(ip, dp) else Node(kind, 1, [])];
      ok := DirLink(dp, name, ip, room.entry);
      if ok && kind == Dir {
        SetLinks(dp, Inc(t[dp].nlink));
      }
    }

    /**
      sys_chdir: the reference to the old directory is dropped, which frees it if it has been
      removed and nobody else refers to it. The counts stay right.
     */
    method Chdir(path: string, cwd: nat) returns (r: Outcome, dir: nat)
      requires Valid() && cwd < |t| && refs[cwd] > 0
      modifies this`t, this`refs
      ensures var i := Namei(old(t), path, cwd, false);
        r == if i.Broken? || (i.Found? && !Used(old(t), i.ip)) then Panicked
             else if i.Found? && old(t)[i.ip].kind == Dir then Done else Failed
      ensures !r.Panicked? ==> Valid()
      ensures r.Failed? ==> t == old(t) && refs == old(refs) && dir == cwd
      ensures r.Done? ==> dir == Namei(old(t), path, cwd, false).ip
      ensures r.Done? ==>
        var more := Plus(old(refs), dir);
        refs == more[cwd := more[cwd] - 1] && t == Dropped(old(t), more[cwd], cwd)
      ensures Inv(old(t)) && !r.Panicked? ==> Inv(t)
    {
      SaneSteady(t, refs);
      CwdUsed(t, refs, cwd);
      hide Sane, NoOrphans, Inv, Walk;
      dir := cwd;
      var i, _ := Namex(path, false, cwd);
      if i.Broken? || (i.Found? && t[i.ip].kind == Unused) {
        return Panicked, dir;
      }
      if i.Nothing? {
        return Failed, dir;
      }
      if t[i.ip].kind != Dir {
        GiveBack(i.ip, old(refs));
        return Failed, dir;
      }
      dir := i.ip;
      ChdirDone(t, old(refs), dir, cwd);
      Iput(cwd);
      r := Done;
    }

    /** The root directory as mkfs makes it, free inodes, and the first process in the root. */
    constructor (ninodes: nat)
      requires ROOTINO < ninodes <= 65536   // dirent.inum has 16 bits
      ensures Valid() && Inv(t) && UpSound(t) && |t| == |refs| == ninodes
      ensures forall i :: 0 <= i < |t| ==> refs[i] == if i == ROOTINO then 1 else 0
      ensures forall i :: 0 <= i < |t| ==> t[i] == if i == ROOTINO then NewDir(ROOTINO, ROOTINO) else FREE
    {
      t := seq(ninodes, i => if i == ROOTINO then NewDir(ROOTINO, ROOTINO) else Node(Unused, 0, []));
      refs := seq(ninodes, i => if i == ROOTINO then 1 else 0);
      new;
      RootInv(t);
    }
  }
}
