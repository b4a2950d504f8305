/** What the components of a path are, and what a lookup finds, said without the functions that compute them. */
module PathMeaning {
  import opened Dirs
  import opened Path

  // ----- components -----

  /** A part of a path between slashes, from `lo` up to `hi`. */
  datatype Part = Part(lo: nat, hi: nat)

  /** A longest stretch without a slash. */
  predicate IsPart(path: string, a: Part) {
    && a.lo < a.hi <= |path|
    && (forall k :: a.lo <= k < a.hi ==> path[k] != '/')
    && (a.lo > 0 ==> path[a.lo - 1] == '/') && (a.hi < |path| ==> path[a.hi] == '/')
  }

  predicate InPart(parts: seq<Part>, k: nat) { exists j :: 0 <= j < |parts| && parts[j].lo <= k < parts[j].hi }

  /** The parts of a path from `i` on, in order: every character but the slashes is in one. */
  ghost predicate IsSplit(path: string, i: nat, parts: seq<Part>) {
    && (forall j :: 0 <= j < |parts| ==> i <= parts[j].lo && IsPart(path, parts[j]))
    && (forall j, k :: 0 <= j < k < |parts| ==> parts[j].hi < parts[k].lo)
    && (forall k :: i <= k < |path| && path[k] != '/' ==> InPart(parts, k))
  }

  /** A name that namex looks up: the first 14 characters of a part. */
  predicate Begins(path: string, a: Part, name: string) {
    && a.lo <= a.hi <= |path| && |name| == (if a.hi - a.lo > 14 then 14 else a.hi - a.lo)
    && forall k :: 0 <= k < |name| ==> name[k] == path[a.lo + k]
  }

  predicate Reads(path: string, parts: seq<Part>, cs: seq<string>) {
    |cs| == |parts| && forall j :: 0 <= j < |parts| ==> Begins(path, parts[j], cs[j])
  }

  /** One more part in front. */
  lemma SplitCons(path: string, i: nat, e: nat, rest: seq<Part>)
    requires IsPart(path, Part(i, e)) && IsSplit(path, e, rest)
    ensures IsSplit(path, i, [Part(i, e)] + rest)
  {
    var parts := [Part(i, e)] + rest;
    assert i < e && (e < |path| ==> path[e] == '/');
    hide IsPart;
    forall j | 0 <= j < |rest|
      ensures e < rest[j].lo
    {
      PartAfter(path, e, rest[j]);
    }
    forall k | i <= k < |path| && path[k] != '/'
      ensures InPart(parts, k)
    {
      if k < e {
        assert parts[0].lo <= k < parts[0].hi;
      } else {
        assert InPart(rest, k);
        var j :| 0 <= j < |rest| && rest[j].lo <= k < rest[j].hi;
        assert parts[j + 1] == rest[j];
      }
    }
  }

  /** No part starts at the slash that ends another. */
  lemma PartAfter(path: string, e: nat, a: Part)
    requires IsPart(path, a) && e <= a.lo && (e < |path| ==> path[e] == '/')
    ensures e < a.lo
  {
  }

  /** The components of a path are its parts, cut to 14 characters. */
  lemma {:induction false} ComponentsRead(path: string, i: nat) returns (parts: seq<Part>)
    requires i <= |path| && (0 < i < |path| && path[i] != '/' ==> path[i - 1] == '/')
    ensures IsSplit(path, i, parts) && Reads(path, parts, Components(path, i))
    decreases |path| - i
  {
    hide IsSplit;
    if i == |path| {
      parts := [];
      assert IsSplit(path, i, parts) by { NoParts(path, i); }
    } else if path[i] == '/' {
      parts := ComponentsRead(path, i + 1);
      assert IsSplit(path, i, parts) by { SplitSlash(path, i, parts); }
    } else {
      var e := ElemEnd(path, i);
      var rest := ComponentsRead(path, e);
      parts := [Part(i, e)] + rest;
      assert IsPart(path, Part(i, e));
      SplitCons(path, i, e, rest);
      ReadsCons(path, i, e, rest);
    }
  }

  lemma NoParts(path: string, i: nat)
    requires i == |path|
    ensures IsSplit(path, i, [])
  {
  }

  lemma SplitSlash(path: string, i: nat, parts: seq<Part>)
    requires i < |path| && path[i] == '/' && IsSplit(path, i + 1, parts)
    ensures IsSplit(path, i, parts)
  {
    hide IsPart, InPart;
  }

  lemma ReadsCons(path: string, i: nat, e: nat, rest: seq<Part>)
    requires i < |path| && path[i] != '/' && e == ElemEnd(path, i) && Reads(path, rest, Components(path, e))
    ensures Reads(path, [Part(i, e)] + rest, Components(path, i))
  {
    hide ElemEnd;
    var name := Cut(path[i..e]);
    assert Begins(path, Part(i, e), name);
    hide Begins;
    assert Components(path, i) == [name] + Components(path, e);
  }

  // ----- lookups -----

  /** Slot `k` is the first in use with the name. */
  predicate FirstNamed(es: seq<Dirent>, name: string, k: nat) {
    && k < |es| && es[k].inum != 0 && es[k].name == name
    && forall j :: 0 <= j < k ==> es[j].inum == 0 || es[j].name != name
  }

  lemma LookupIs(es: seq<Dirent>, name: string, k: nat)
    ensures FirstNamed(es, name, k) ==> Find(es, name) == k && Lookup(es, name) == es[k].inum
    ensures Lookup(es, name) == 0 <==> forall j :: 0 <= j < |es| ==> es[j].inum == 0 || es[j].name != name
    ensures Lookup(es, name) != 0 ==> FirstNamed(es, name, Find(es, name))
  {
    hide Find;
  }

  /** Directory `d` has the name, and its first entry for it is inode `i`. */
  ghost predicate Gives(t: Table, d: nat, name: string, i: nat) {
    d < |t| && t[d].kind == Dir && exists k: nat :: FirstNamed(t[d].entries, name, k) && t[d].entries[k].inum == i
  }

  lemma GivesIs(t: Table, d: nat, name: string, i: nat)
    ensures Gives(t, d, name, i) <==> d < |t| && t[d].kind == Dir && i != 0 && Lookup(t[d].entries, name) == i
  {
    if d < |t| && t[d].kind == Dir {
      LookupIs(t[d].entries, name, 0);
      forall k: nat | FirstNamed(t[d].entries, name, k)
        ensures Lookup(t[d].entries, name) == t[d].entries[k].inum
      {
        LookupIs(t[d].entries, name, k);
      }
    }
  }

  /** The inodes on the way: each is a directory that gives the next name to the next. */
  ghost predicate Chain(t: Table, ns: seq<nat>, cs: seq<string>) {
    |ns| == |cs| + 1 && forall k :: 0 <= k < |cs| ==> Gives(t, ns[k], cs[k], ns[k + 1])
  }

  ghost predicate Leads(t: Table, i: nat, cs: seq<string>, j: nat) {
    exists ns :: Chain(t, ns, cs) && ns[0] == i && ns[|cs|] == j
  }

  lemma LeadsStep(t: Table, i: nat, cs: seq<string>, j: nat)
    requires cs != []
    ensures Leads(t, i, cs, j) <==> exists n :: Gives(t, i, cs[0], n) && Leads(t, n, cs[1..], j)
  {
    hide Gives;
    if Leads(t, i, cs, j) {
      var ns :| Chain(t, ns, cs) && ns[0] == i && ns[|cs|] == j;
      assert Gives(t, ns[0], cs[0], ns[1]);
      forall k | 0 <= k < |cs[1..]|
        ensures Gives(t, ns[1..][k], cs[1..][k], ns[1..][k + 1])
      {
        assert Gives(t, ns[k + 1], cs[k + 1], ns[k + 1 + 1]);
      }
      assert Chain(t, ns[1..], cs[1..]);
      assert Leads(t, ns[1], cs[1..], j);
    }
    if n :| Gives(t, i, cs[0], n) && Leads(t, n, cs[1..], j) {
      var ms :| Chain(t, ms, cs[1..]) && ms[0] == n && ms[|cs[1..]|] == j;
      var ns := [i] + ms;
      forall k | 0 <= k < |cs|
        ensures Gives(t, ns[k], cs[k], ns[k + 1])
      {
        if k > 0 {
          assert Gives(t, ms[k - 1], cs[1..][k - 1], ms[k - 1 + 1]);
        }
      }
      assert Chain(t, ns, cs) && ns[0] == i && ns[|cs|] == j;
    }
  }

  lemma LeadsNowhere(t: Table, i: nat, j: nat)
    ensures Leads(t, i, [], j) <==> i == j
  {
    assert Chain(t, [i], []);
  }

  /** namei finds an inode if and only if the components lead to it, name by name. */
  lemma {:induction false} WalkFinds(t: Table, i: nat, cs: seq<string>, j: nat)
    ensures Walk(t, i, cs, false) == Found(j) <==> Leads(t, i, cs, j)
    decreases cs
  {
    if cs == [] {
      LeadsNowhere(t, i, j);
    } else {
      LeadsStep(t, i, cs, j);
      hide Gives, Leads, Lookup;
      forall n
        ensures Gives(t, i, cs[0], n) <==> i < |t| && t[i].kind == Dir && n != 0 && Lookup(t[i].entries, cs[0]) == n
      {
        GivesIs(t, i, cs[0], n);
      }
      if i < |t| && t[i].kind == Dir && Lookup(t[i].entries, cs[0]) != 0 {
        WalkFinds(t, Lookup(t[i].entries, cs[0]), cs[1..], j);
      }
    }
  }

  /** nameiparent finds a directory if and only if the components before the last one lead to it. */
  lemma {:induction false} WalkFindsParent(t: Table, i: nat, cs: seq<string>, d: nat)
    ensures Walk(t, i, cs, true) == Found(d) <==>
      cs != [] && Leads(t, i, cs[..|cs| - 1], d) && d < |t| && t[d].kind == Dir
    decreases cs
  {
    if |cs| == 1 {
      assert cs[..0] == [];
      LeadsNowhere(t, i, d);
    } else if |cs| > 1 {
      var front := cs[..|cs| - 1];
      assert front[1..] == cs[1..][..|cs[1..]| - 1] && front[0] == cs[0];
      LeadsStep(t, i, front, d);
      hide Gives, Leads, Lookup;
      forall n
        ensures Gives(t, i, cs[0], n) <==> i < |t| && t[i].kind == Dir && n != 0 && Lookup(t[i].entries, cs[0]) == n
      {
        GivesIs(t, i, cs[0], n);
      }
      if i < |t| && t[i].kind == Dir && Lookup(t[i].entries, cs[0]) != 0 {
        WalkFindsParent(t, Lookup(t[i].entries, cs[0]), cs[1..], d);
      }
    }
  }

  /** Some components lead to an inode without a type, with another one left. */
  ghost predicate Strays(t: Table, i: nat, cs: seq<string>) {
    exists k, j :: 0 <= k < |cs| && Leads(t, i, cs[..k], j) && !Used(t, j)
  }

  lemma StraysStep(t: Table, i: nat, cs: seq<string>)
    requires cs != []
    ensures Strays(t, i, cs) <==> !Used(t, i) || exists n :: Gives(t, i, cs[0], n) && Strays(t, n, cs[1..])
  {
    hide Gives, Leads, Used;
    assert cs[..0] == [];
    if Strays(t, i, cs) {
      var k, j :| 0 <= k < |cs| && Leads(t, i, cs[..k], j) && !Used(t, j);
      if k == 0 {
        LeadsNowhere(t, i, j);
      } else {
        LeadsStep(t, i, cs[..k], j);
        var n :| Gives(t, i, cs[0], n) && Leads(t, n, cs[..k][1..], j);
        assert cs[..k][1..] == cs[1..][..k - 1];
        assert Strays(t, n, cs[1..]);
      }
    }
    if !Used(t, i) {
      LeadsNowhere(t, i, i);
      assert 0 <= 0 < |cs| && Leads(t, i, cs[..0], i);
    }
    if n :| Gives(t, i, cs[0], n) && Strays(t, n, cs[1..]) {
      var k, j :| 0 <= k < |cs[1..]| && Leads(t, n, cs[1..][..k], j) && !Used(t, j);
      assert cs[..k + 1][1..] == cs[1..][..k];
      LeadsStep(t, i, cs[..k + 1], j);
      assert Leads(t, i, cs[..k + 1], j);
    }
  }

  /** ilock panics if and only if some components lead to an inode without a type and another one is left. */
  lemma {:induction false} WalkPanics(t: Table, i: nat, cs: seq<string>, parent: bool)
    ensures Walk(t, i, cs, parent).Broken? <==> Strays(t, i, cs)
    decreases cs
  {
    if cs != [] {
      StraysStep(t, i, cs);
      hide Gives, Leads, Lookup;
      forall n
        ensures Gives(t, i, cs[0], n) <==> i < |t| && t[i].kind == Dir && n != 0 && Lookup(t[i].entries, cs[0]) == n
      {
        GivesIs(t, i, cs[0], n);
      }
      if i < |t| && t[i].kind == Dir && Lookup(t[i].entries, cs[0]) != 0 {
        if |cs| > 1 {
          WalkPanics(t, Lookup(t[i].entries, cs[0]), cs[1..], parent);
        }
      }
    }
  }
}
