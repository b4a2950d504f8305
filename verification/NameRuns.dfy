/**
  Two runs of the namespace calls that end badly: a lookup through ".." of a removed directory
  whose parent is gone, and a link count that wraps around.
 */
module NameRuns {
  import opened Dirs
  import opened DirOps
  import opened Path
  import opened NameOps
  import opened Namespace

  // ----- a removed directory whose parent is gone -----

  const ROOM := Room(true, true, true)

  /** A table of the root and inodes 2 and 3. */
  function Three(root: Node, a: Node, b: Node): Table { [FREE, root, a, b] }

  function RootDir(nlink: Short, more: seq<Dirent>): Node {
    Node(Dir, nlink, [Dirent(1, "."), Dirent(1, "..")] + more)
  }

  function SubDir(nlink: Short, more: seq<Dirent>): Node {
    Node(Dir, nlink, [Dirent(2, "."), Dirent(1, "..")] + more)
  }

  const START := Three(RootDir(1, []), FREE, FREE)
  const MADE_A := Three(RootDir(2, [Dirent(2, "a")]), SubDir(1, []), FREE)
  const MADE_B := Three(RootDir(2, [Dirent(2, "a")]), SubDir(2, [Dirent(3, "b")]), NewDir(3, 2))
  const GONE_B := Three(RootDir(2, [Dirent(2, "a")]), SubDir(1, [Dirent(0, "")]), NewDir(3, 2).(nlink := 0))
  const GONE_A := Three(RootDir(1, [Dirent(0, "")]), FREE, NewDir(3, 2).(nlink := 0))

  lemma PathA()
    ensures Components("/a", 0) == ["a"] && LastName("/a") == "a"
  {
    assert ElemEnd("/a", 1) == 2 && "/a"[1..2] == "a" && Components("/a", 2) == [];
    assert Components("/a", 1) == ["a"] + [];
  }

  lemma PathB()
    ensures Components("/a/b", 0) == ["a", "b"] && LastName("/a/b") == "b"
  {
    var p := "/a/b";
    assert ElemEnd(p, 3) == 4 && p[3..4] == "b" && Components(p, 4) == [];
    assert Components(p, 3) == ["b"] && Components(p, 2) == ["b"];
    assert ElemEnd(p, 1) == 2 && p[1..2] == "a";
    assert Components(p, 1) == ["a"] + ["b"];
  }

  lemma PathUp()
    ensures Components("..", 0) == [".."]
  {
    assert ElemEnd("..", 0) == 2 && ".."[0..2] == ".." && Components("..", 2) == [];
  }

  lemma LookupAt(es: seq<Dirent>, k: nat, name: string)
    requires k < |es| && es[k].inum != 0 && es[k].name == name
    requires forall j :: 0 <= j < k ==> es[j].inum == 0 || es[j].name != name
    ensures Find(es, name) == k && Lookup(es, name) == es[k].inum
  {
    hide Find;
  }

  lemma LookupNone(es: seq<Dirent>, name: string)
    requires forall j :: 0 <= j < |es| ==> es[j].inum == 0 || es[j].name != name
    ensures Lookup(es, name) == 0
  {
    hide Find;
  }

  lemma SlotAtEnd(es: seq<Dirent>)
    requires forall j :: 0 <= j < |es| ==> es[j].inum != 0
    ensures FreeSlot(es) == |es|
  {
    hide FreeSlot;
  }

  /** mkdir /a */
  lemma MakeA(refs: nat)
    ensures Namei(START, "/a", 1, true) == Found(1) && LastName("/a") == "a"
    ensures CreateOutcome(START, 1, "a", Dir, ROOM) == Found(2) && Lookup(START[1].entries, "a") == 0
    ensures Dropped(Created(START, 1, "a", 2, Dir), refs, 1) == MADE_A
  {
    PathA();
    LookupNone(START[1].entries, "a");
    SlotAtEnd(START[1].entries);
    assert FirstUnused(START, 1) == FirstUnused(START, 2) == 2;
    hide Find, FreeSlot, Lookup, FirstUnused;
    var u := Created(START, 1, "a", 2, Dir);
    assert u[1].entries == MADE_A[1].entries && u[2].entries == MADE_A[2].entries;
    assert u == MADE_A;
  }

  /** mkdir /a/b */
  lemma MakeB(refs: nat)
    ensures Namei(MADE_A, "/a/b", 1, true) == Found(2) && LastName("/a/b") == "b"
    ensures CreateOutcome(MADE_A, 2, "b", Dir, ROOM) == Found(3) && Lookup(MADE_A[2].entries, "b") == 0
    ensures Dropped(Created(MADE_A, 2, "b", 3, Dir), refs, 2) == MADE_B
  {
    PathB();
    LookupAt(MADE_A[1].entries, 2, "a");
    LookupNone(MADE_A[2].entries, "b");
    SlotAtEnd(MADE_A[2].entries);
    assert FirstUnused(MADE_A, 3) == 3 && FirstUnused(MADE_A, 2) == 3 && FirstUnused(MADE_A, 1) == 3;
    hide Find, FreeSlot, Lookup, FirstUnused;
    assert ["a", "b"][1..] == ["b"];
    var u := Created(MADE_A, 2, "b", 3, Dir);
    assert u[2].entries == MADE_B[2].entries && u == MADE_B;
  }

  /** chdir /a/b */
  lemma EnterB()
    ensures Namei(MADE_B, "/a/b", 1, true) == Found(2) && Namei(MADE_B, "/a/b", 1, false) == Found(3)
  {
    PathB();
    LookupAt(MADE_B[1].entries, 2, "a");
    LookupAt(MADE_B[2].entries, 2, "b");
    hide Find, Lookup;
    assert ["a", "b"][1..] == ["b"] && ["b"][1..] == [];
  }

  /** unlink /a/b, while it is referenced */
  lemma RemoveB(refs: seq<nat>)
    requires |refs| == 4 && refs[3] > 0
    ensures UnlinkOutcome(MADE_B, 2, "b") == Done && Unlinked(MADE_B, refs, 2, "b") == GONE_B
  {
    LookupAt(MADE_B[2].entries, 2, "b");
    hide Find, Lookup;
    var u := Cleared(MADE_B, 2, "b");
    assert u[2].entries == GONE_B[2].entries && u == GONE_B[3 := NewDir(3, 2)];
  }

  /** unlink /a, when nobody refers to it */
  lemma RemoveA(refs: seq<nat>)
    requires |refs| == 4 && refs[2] == 0
    ensures Namei(GONE_B, "/a", 1, true) == Found(1)
    ensures UnlinkOutcome(GONE_B, 1, "a") == Done && Unlinked(GONE_B, refs, 1, "a") == GONE_A
  {
    PathA();
    LookupAt(GONE_B[1].entries, 2, "a");
    hide Find, Lookup;
    var u := Cleared(GONE_B, 1, "a");
    assert u[1].entries == GONE_A[1].entries && u == GONE_B[1 := GONE_A[1]];
  }

  /** chdir .. from what was /a/b: it leads to an inode that is free. */
  lemma LeaveB()
    ensures Namei(GONE_A, "..", 3, false) == Found(2) && !Used(GONE_A, 2)
  {
    PathUp();
    LookupAt(GONE_A[3].entries, 1, "..");
    hide Find, Lookup;
    assert [".."][1..] == [];
  }

  /** Two processes in the root; one makes /a and /a/b. */
  method MakeDirectories() returns (fs: Namespace)
    ensures fresh(fs) && fs.Valid() && fs.t == MADE_B && fs.refs == [0, 2, 0, 0]
  {
    hide Namei, CreateOutcome, Created, LastName, Lookup, Find, Sane, Inv;
    fs := new Namespace(4);
    assert NewDir(1, 1).entries == RootDir(1, []).entries;
    assert fs.t == START && fs.refs == [0, 1, 0, 0];
    fs.Dup(ROOTINO);
    MakeA(fs.refs[1] + 1);
    var a := fs.Create("/a", ROOTINO, Dir, ROOM);
    assert fs.refs == [0, 2, 1, 0];
    fs.Put(2);
    assert fs.t == MADE_A;
    MakeB(fs.refs[2] + 1);
    var b := fs.Create("/a/b", ROOTINO, Dir, ROOM);
    assert fs.refs == [0, 2, 0, 1];
    fs.Put(3);
  }

  /**
    A process enters a directory, another removes it and then its parent, which is freed; the
    ".." of the first one now names a free inode, and ilock panics on it.
   */
  method RemovedParent() returns (r: Outcome)
    ensures r.Panicked?
  {
    hide Namei, UnlinkOutcome, Unlinked, LastName, Sane, Inv;
    var fs := MakeDirectories();
    EnterB();
    PathB();
    var cwd;
    r, cwd := fs.Chdir("/a/b", ROOTINO);
    assert fs.t == MADE_B && cwd == 3 && fs.refs == [0, 1, 0, 1];
    RemoveB(fs.refs);
    r := fs.Unlink("/a/b", ROOTINO);
    PathA();
    RemoveA(fs.refs);
    r := fs.Unlink("/a", ROOTINO);
    LeaveB();
    r, cwd := fs.Chdir("..", cwd);
  }

  // ----- a link count that wraps around -----

  /** The link that makes the count wrap: the counts are wrong, and unlink panics on every name of the inode. */
  lemma LinkWraps(t: Table, d: nat, name: string, i: nat, room: bool)
    requires Inv(t) && d < |t| && t[d].kind == Dir && 0 < i < |t| && IsFile(t[i]) && CanLink(t[d].entries, name, room)
    requires t[i].nlink == 32767
    ensures Linked(t, d, name, i)[i].nlink == -32768 && !Inv(Linked(t, d, name, i))
    ensures forall e, n :: 0 <= e < |t| && !IsDots(n) && Lookup(Linked(t, d, name, i)[e].entries, n) == i ==>
      UnlinkOutcome(Linked(t, d, name, i), e, n) == Panicked
  {
    LinkedCounts(t, 0, d, name, i, room);
    hide Lookup;
  }

  /** As many entries as the blocks of a directory hold. */
  const MAX_ENTRIES: nat := 268 * 64

  /** Names of two characters, none of them '.' or '/'. */
  function Name(k: nat): string
    requires k < 40000
  {
    [(50 + k / 200) as char, (50 + k % 200) as char]
  }

  lemma NamesDiffer(j: nat, k: nat)
    requires j < k < 40000
    ensures Name(j) != Name(k)
  {
    assert j == 200 * (j / 200) + j % 200 && k == 200 * (k / 200) + k % 200;
    assert Name(j)[0] != Name(k)[0] || Name(j)[1] != Name(k)[1];
  }

  /** Entries for inode `i` under the first `n` names. */
  function Links(i: nat, n: nat): (es: seq<Dirent>)
    requires n < 40000
    ensures |es| == n && forall k :: 0 <= k < n ==> es[k] == Dirent(i, Name(k))
  {
    if n == 0 then [] else Links(i, n - 1) + [Dirent(i, Name(n - 1))]
  }

  function WithMany(t: Table, d: nat, i: nat, n: nat): (u: Table)
    requires d < |t| && i < |t| && n < 40000 && -32768 <= t[i].nlink + n < 32768
    ensures |u| == |t|
  {
    WithLinks(t[d := t[d].(entries := t[d].entries + Links(i, n))], i, t[i].nlink + n)
  }

  /** An entry in use whose name is none of these. */
  predicate Other(e: Dirent) { e.inum != 0 && (|e.name| != 2 || e.name[0] == '.') }

  /** After `n` of the names, the next one is new and goes to the end. */
  lemma NextName(es: seq<Dirent>, i: nat, n: nat)
    requires (forall j :: 0 <= j < |es| ==> Other(es[j])) && n + 1 < 40000 && i != 0
    ensures var fs := es + Links(i, n);
      IsNew(fs, Name(n)) && FreeSlot(fs) == |fs| && es + Links(i, n + 1) == fs + [Dirent(i, Name(n))]
  {
    var fs := es + Links(i, n);
    forall j | 0 <= j < |fs|
      ensures fs[j].inum != 0 && fs[j].name != Name(n)
    {
      if j < |es| {
        assert Other(es[j]) && Name(n)[0] != '.';
      } else {
        NamesDiffer(j - |es|, n);
      }
    }
    hide Name;
    SlotAtEnd(fs);
    assert Find(fs, Name(n)) == |fs|;
    NotDotted(n);
  }

  lemma NotDotted(n: nat)
    requires n < 40000
    ensures !IsDots(Name(n))
  {
    assert Name(n)[0] != '.';
  }

  /** That many links of one file in one directory. */
  lemma {:induction false} ManyLinks(t: Table, d: nat, i: nat, n: nat)
    requires Inv(t) && d < |t| && Live(t[d]) && 0 < i < |t| && IsFile(t[i])
    requires 0 <= t[i].nlink && t[i].nlink + n < 32768 && n < 40000
    requires forall j :: 0 <= j < |t[d].entries| ==> Other(t[d].entries[j])
    ensures Inv(WithMany(t, d, i, n))
  {
    hide Inv, Links, Name, Other, FreeSlot;
    if n == 0 {
      assert t[d].entries + Links(i, 0) == t[d].entries && WithMany(t, d, i, 0) == t;
    } else {
      ManyLinks(t, d, i, n - 1);
      var u := WithMany(t, d, i, n - 1);
      var es := u[d].entries;
      NextName(t[d].entries, i, n - 1);
      LinkKeeps(u, d, |es|, Name(n - 1), i);
      assert WithMany(t, d, i, n) == WithEntry(WithLinks(u, i, u[i].nlink + 1), d, |es|, Dirent(i, Name(n - 1)));
    }
  }

  const FILE := Three(RootDir(2, [Dirent(2, "a"), Dirent(3, "f")]), SubDir(1, []), Node(File, 1, []))

  /** The root, a directory in it and a file. */
  lemma FileInv()
    ensures Inv(FILE)
  {
    RootInv(START);
    SlotAtEnd(START[1].entries);
    MakeA(2);
    MakeDirKeeps(START, 1, 2, "a", 2);
    assert MADE_A == MadeDir(START, 1, 2, "a", 2);
    SlotAtEnd(MADE_A[1].entries);
    MakeFileKeeps(MADE_A, 1, 3, "f", 3, File);
    var u := WithEntry(MADE_A[3 := Node(File, 1, [])], 1, 3, Dirent(3, "f"));
    assert u[1].entries == FILE[1].entries && u == FILE;
  }

  lemma HalfCount()
    ensures Inv(WithMany(FILE, 1, 3, 16000))
  {
    FileInv();
    hide Inv, Links;
    ManyLinks(FILE, 1, 3, 16000);
  }

  /**
    A file can have the greatest count there is, with names in two directories, and then another
    link is still possible.
   */
  lemma FullCount() returns (t: Table)
    ensures Inv(t) && |t| == 4 && IsFile(t[3]) && t[3].nlink == 32767 && Live(t[2]) && CanLink(t[2].entries, "x", true)
    ensures |t[1].entries| < MAX_ENTRIES && |t[2].entries| < MAX_ENTRIES
  {
    HalfCount();
    hide Inv, Find, FreeSlot, Links;
    var u := WithMany(FILE, 1, 3, 16000);
    assert u[2] == SubDir(1, []) && u[3] == Node(File, 16001, []) && |u[1].entries| == 16004;
    t := WithMany(u, 2, 3, 16766);
    ManyLinks(u, 2, 3, 16766);
    LookupNone(t[2].entries, "x");
  }
}
