/** Path names: their components, and what they lead to in a table of directories. */
module Path {
  import opened Dirs

  /** The first '/' from `i` on, or the end. */
  function ElemEnd(path: string, i: nat): (j: nat)
    requires i <= |path|
    ensures i <= j <= |path| && (j < |path| ==> path[j] == '/')
    ensures forall k :: i <= k < j ==> path[k] != '/'
    decreases |path| - i
  {
    if i == |path| || path[i] == '/' then i else ElemEnd(path, i + 1)
  }

  function Cut(s: string): string { if |s| > DIRSIZ then s[..DIRSIZ] else s }

  /** The non-empty parts between slashes, from position `i` on, each cut to DIRSIZ characters. */
  function Components(path: string, i: nat): seq<string>
    requires i <= |path|
    decreases |path| - i
  {
    if i == |path| then []
    else if path[i] == '/' then Components(path, i + 1)
    else [Cut(path[i..ElemEnd(path, i)])] + Components(path, ElemEnd(path, i))
  }

  /** skipelem: the first component and the position after it and the slashes that follow. */
  method SkipElem(path: string, i: nat) returns (found: bool, j: nat, name: string)
    requires i <= |path|
    ensures i <= j <= |path|
    ensures found <==> Components(path, i) != []
    ensures found ==> [name] + Components(path, j) == Components(path, i) && i < j
    ensures found ==> (j == |path| <==> Components(path, j) == [])
  {
    j := i;
    while j < |path| && path[j] == '/'
      invariant i <= j <= |path| && Components(path, j) == Components(path, i)
    {
      j := j + 1;
    }
    if j == |path| {
      return false, j, "";
    }
    var s := j;
    while j < |path| && path[j] != '/'
      invariant s <= j <= |path| && ElemEnd(path, j) == ElemEnd(path, s)
    {
      j := j + 1;
    }
    var len := j - s;
    name := if len >= DIRSIZ then path[s..s + DIRSIZ] else path[s..s + len];
    assert name == Cut(path[s..j]);
    ghost var e := j;
    while j < |path| && path[j] == '/'
      invariant e <= j <= |path| && Components(path, j) == Components(path, e)
    {
      j := j + 1;
    }
    found := true;
  }

  // ----- what a path leads to -----

  /** What a lookup comes to: an inode, none, or the panic of ilock on an inode without a type. */
  datatype Found = Found(ip: nat) | Nothing | Broken

  predicate Used(t: Table, i: nat) { i < |t| && t[i].kind != Unused }

  /** namex from inode `i`: with `parent`, the directory of the last component, else the inode itself. */
  function Walk(t: Table, i: nat, cs: seq<string>, parent: bool): Found
    decreases cs
  {
    if cs == [] then (if parent then Nothing else Found(i))
    else if !Used(t, i) then Broken
    else if t[i].kind != Dir then Nothing
    else if parent && |cs| == 1 then Found(i)
    else
      var n := Lookup(t[i].entries, cs[0]);
      if n == 0 then Nothing else Walk(t, n, cs[1..], parent)
  }

  /** namei is nameiparent followed by dirlookup, on every path with a component. */
  lemma {:induction false} NameiViaParent(t: Table, i: nat, cs: seq<string>)
    requires cs != []
    ensures Walk(t, i, cs, true).Found? ==> Used(t, Walk(t, i, cs, true).ip) && t[Walk(t, i, cs, true).ip].kind == Dir
    ensures Walk(t, i, cs, false) ==
      match Walk(t, i, cs, true)
      case Found(p) =>
        var n := Lookup(t[p].entries, cs[|cs| - 1]);
        if n == 0 then Nothing else Found(n)
      case r => r
    decreases cs
  {
    if |cs| > 1 && Used(t, i) && t[i].kind == Dir && Lookup(t[i].entries, cs[0]) != 0 {
      NameiViaParent(t, Lookup(t[i].entries, cs[0]), cs[1..]);
    }
  }

  /** A lookup reads kinds and entries, and no link counts. */
  lemma {:induction false} WalkSame(t: Table, u: Table, i: nat, cs: seq<string>, parent: bool)
    requires |u| == |t| && forall j :: 0 <= j < |t| ==> u[j].kind == t[j].kind && u[j].entries == t[j].entries
    ensures Walk(u, i, cs, parent) == Walk(t, i, cs, parent)
    decreases cs
  {
    if cs != [] && Used(t, i) && t[i].kind == Dir && Lookup(t[i].entries, cs[0]) != 0 {
      WalkSame(t, u, Lookup(t[i].entries, cs[0]), cs[1..], parent);
    }
  }

  // ----- when a lookup breaks -----

  /** A directory without links; it still has its ".." while it is referenced. */
  predicate Removed(t: Table, i: nat) { i < |t| && t[i].kind == Dir && t[i].nlink == 0 && |t[i].entries| >= 2 }

  function Up(t: Table, i: nat): nat
    requires Removed(t, i)
  {
    t[i].entries[1].inum
  }

  /**
    The first components are "." and ".." and lead through removed directories to a free inode,
    with a component left.
   */
  predicate Falls(t: Table, i: nat, cs: seq<string>)
    decreases cs
  {
    cs != [] && (!Used(t, i) ||
      (Removed(t, i) && ((cs[0] == "." && Falls(t, i, cs[1..])) || (cs[0] == ".." && Falls(t, Up(t, i), cs[1..])))))
  }

  /** What a directory that is not removed names has a link. */
  lemma NamedLinked(t: Table, d: nat, name: string)
    requires Inv(t) && d < |t| && Live(t[d]) && Lookup(t[d].entries, name) != 0
    ensures var n := Lookup(t[d].entries, name); Used(t, n) && t[n].nlink > 0
  {
    var k := Find(t[d].entries, name);
    assert NodeOk(t, d, t[d]);
    if k > 0 {
      Counts(t, d, k);
    }
    assert NodeOk(t, t[d].entries[k].inum, t[t[d].entries[k].inum]);
  }

  /** A removed directory names itself and what is above it. */
  lemma RemovedNames(t: Table, d: nat, name: string)
    requires Inv(t) && d < |t| && t[d].kind == Dir && t[d].nlink == 0
    ensures Removed(t, d) && d != 0 && Up(t, d) != 0
    ensures Lookup(t[d].entries, name) == if name == "." then d else if name == ".." then Up(t, d) else 0
  {
    assert NodeOk(t, d, t[d]);
    hide Find;
    var es := t[d].entries;
    assert Find(es, name) == if name == "." then 0 else if name == ".." then 1 else |es|;
  }

  lemma {:induction false} LinkedNeverBreaks(t: Table, i: nat, cs: seq<string>, parent: bool)
    requires Inv(t) && Used(t, i) && t[i].nlink > 0
    ensures !Walk(t, i, cs, parent).Broken?
    decreases cs
  {
    if cs != [] && t[i].kind == Dir && Lookup(t[i].entries, cs[0]) != 0 {
      NamedLinked(t, i, cs[0]);
      LinkedNeverBreaks(t, Lookup(t[i].entries, cs[0]), cs[1..], parent);
    }
  }

  /** A lookup breaks if and only if it starts with dots that lead out of removed directories into a free inode. */
  lemma {:induction false} BreaksIff(t: Table, i: nat, cs: seq<string>, parent: bool)
    requires Inv(t)
    ensures Walk(t, i, cs, parent).Broken? <==> Falls(t, i, cs)
    decreases cs
  {
    if cs != [] && Used(t, i) {
      assert NodeOk(t, i, t[i]);
      if t[i].nlink > 0 {
        LinkedNeverBreaks(t, i, cs, parent);
      } else if t[i].kind == Dir {
        RemovedNames(t, i, cs[0]);
        BreaksIff(t, i, cs[1..], parent);
        BreaksIff(t, Up(t, i), cs[1..], parent);
      }
    }
  }

  /** No removed directory has a free inode above it. */
  ghost predicate UpSound(t: Table) { forall d :: Removed(t, d) ==> Used(t, Up(t, d)) }

  lemma {:induction false} SoundNeverFalls(t: Table, i: nat, cs: seq<string>)
    requires UpSound(t) && Used(t, i)
    ensures !Falls(t, i, cs)
    decreases cs
  {
    if cs != [] && Removed(t, i) {
      SoundNeverFalls(t, i, cs[1..]);
      SoundNeverFalls(t, Up(t, i), cs[1..]);
    }
  }

  /** Some lookup from an inode in use breaks if and only if a removed directory has a free inode above it. */
  lemma SomeLookupBreaks(t: Table)
    requires Inv(t)
    ensures (exists i, cs, parent :: Used(t, i) && Walk(t, i, cs, parent).Broken?) <==> !UpSound(t)
  {
    if UpSound(t) {
      forall i, cs, parent | Used(t, i)
        ensures !Walk(t, i, cs, parent).Broken?
      {
        SoundNeverFalls(t, i, cs);
        BreaksIff(t, i, cs, parent);
      }
    } else {
      var d :| Removed(t, d) && !Used(t, Up(t, d));
      var cs := ["..", "."];
      assert cs[1..] == ["."];
      BreaksIff(t, d, cs, false);
      assert Used(t, d) && Walk(t, d, cs, false).Broken?;
    }
  }

  /** Freeing an inode is safe for lookups if and only if it is not above another removed directory. */
  lemma FreeingBreaks(t: Table, c: nat)
    requires UpSound(t) && Used(t, c)
    ensures UpSound(t[c := Node(Unused, 0, [])]) <==> forall d :: Removed(t, d) && d != c ==> Up(t, d) != c
  {
    var u := t[c := Node(Unused, 0, [])];
    assert forall d :: Removed(u, d) <==> Removed(t, d) && d != c;
    if UpSound(u) {
      forall d | Removed(t, d) && d != c
        ensures Up(t, d) != c
      {
        assert Removed(u, d);
      }
    }
  }
}
