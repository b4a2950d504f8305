/**
  How the tree of a command line of user/sh.c lies over its tokens: operators stand between the
  commands that they join, in the order of the line, and each operator is in the tree once.
 */
module ShellShape {
  import opened ShellGrammar
  import opened Wrappers

  /** The tokens lie one behind the other. */
  predicate Ordered(ts: seq<Token>) {
    && (forall k :: 0 <= k < |ts| ==> ts[k].lo < ts[k].hi)
    && forall j, k :: 0 <= j < k < |ts| ==> ts[j].hi <= ts[k].lo
  }

  predicate Before(c: Cmd, p: nat) { forall t :: t in TreeWords(c) ==> t.hi <= p }

  predicate After(c: Cmd, p: nat) { forall t :: t in TreeWords(c) ==> p <= t.lo }

  /** The operator and the file name side by side, for the mode and the descriptor. */
  predicate RedirAt(ts: seq<Token>, k: nat, r: Redirect) {
    && k + 1 < |ts| && ts[k + 1] == r.file
    && ((ts[k].kind == '<' && r.mode == 0 && r.fd == 0)
        || (ts[k].kind == '>' && r.mode == 0x601 && r.fd == 1)
        || (ts[k].kind == '+' && r.mode == 0x201 && r.fd == 1))
  }

  ghost predicate HasRedir(ts: seq<Token>, r: Redirect) { exists k :: RedirAt(ts, k, r) }

  predicate Between(ts: seq<Token>, k: nat, kind: char, l: Cmd, r: Cmd) {
    k < |ts| && ts[k].kind == kind && Before(l, ts[k].lo) && After(r, ts[k].hi)
  }

  predicate Behind(ts: seq<Token>, k: nat, c: Cmd) { k < |ts| && ts[k].kind == '&' && Before(c, ts[k].lo) }

  /** The tree lies over the tokens in the order of the line. */
  ghost predicate Placed(ts: seq<Token>, c: Cmd)
    decreases c
  {
    match c
    case Exec(argv) => forall i, j :: 0 <= i < j < |argv| ==> argv[i].hi <= argv[j].lo
    case Redir(c', r) =>
      && Placed(ts, c') && HasRedir(ts, r)
      && (c'.Redir? ==> c'.redirect.file.hi <= r.file.lo)
    case Pipe(l, r) => Placed(ts, l) && Placed(ts, r) && exists k :: Between(ts, k, '|', l, r)
    case List(l, r) => Placed(ts, l) && Placed(ts, r) && exists k :: Between(ts, k, ';', l, r)
    case Back(c') => Placed(ts, c') && exists k :: Behind(ts, k, c')
  }

  function RedirOp(r: Redirect): char { if r.fd == 0 then '<' else if r.mode == 0x601 then '>' else '+' }

  /** The operators of a tree, and of a line; parentheses only group. */
  function TreeOps(c: Cmd): multiset<char> {
    match c
    case Exec(_) => multiset{}
    case Redir(c', r) => TreeOps(c') + multiset{RedirOp(r)}
    case Pipe(l, r) => TreeOps(l) + TreeOps(r) + multiset{'|'}
    case List(l, r) => TreeOps(l) + TreeOps(r) + multiset{';'}
    case Back(c') => TreeOps(c') + multiset{'&'}
  }

  predicate Groups(k: char) { k == 'a' || k == '(' || k == ')' }

  function LineOps(ts: seq<Token>): multiset<char> {
    if ts == [] then multiset{}
    else (if Groups(ts[0].kind) then multiset{} else multiset{ts[0].kind}) + LineOps(ts[1..])
  }

  // ----- more tokens around a tree -----

  lemma RedirWider(pre: seq<Token>, ts: seq<Token>, post: seq<Token>, k: nat, r: Redirect)
    requires RedirAt(ts, k, r)
    ensures RedirAt(pre + ts + post, |pre| + k, r)
  {
  }

  lemma TokenWider(pre: seq<Token>, ts: seq<Token>, post: seq<Token>, k: nat)
    requires k < |ts|
    ensures (pre + ts + post)[|pre| + k] == ts[k]
  {
  }

  lemma {:induction false} Wider(pre: seq<Token>, ts: seq<Token>, post: seq<Token>, c: Cmd)
    requires Placed(ts, c)
    ensures Placed(pre + ts + post, c)
    decreases c
  {
    hide TreeWords, Before, After;
    match c
    case Exec(_) =>
    case Redir(c', r) =>
      Wider(pre, ts, post, c');
      var k :| RedirAt(ts, k, r);
      RedirWider(pre, ts, post, k, r);
    case Pipe(l, r) =>
      Wider(pre, ts, post, l);
      Wider(pre, ts, post, r);
      var k :| Between(ts, k, '|', l, r);
      TokenWider(pre, ts, post, k);
      assert Between(pre + ts + post, |pre| + k, '|', l, r);
    case List(l, r) =>
      Wider(pre, ts, post, l);
      Wider(pre, ts, post, r);
      var k :| Between(ts, k, ';', l, r);
      TokenWider(pre, ts, post, k);
      assert Between(pre + ts + post, |pre| + k, ';', l, r);
    case Back(c') =>
      Wider(pre, ts, post, c');
      var k :| Behind(ts, k, c');
      TokenWider(pre, ts, post, k);
      assert Behind(pre + ts + post, |pre| + k, c');
  }

  lemma {:induction false} OpsPlus(ts: seq<Token>, us: seq<Token>)
    ensures LineOps(ts + us) == LineOps(ts) + LineOps(us)
  {
    if ts == [] {
      assert ts + us == us;
    } else {
      assert (ts + us)[0] == ts[0] && (ts + us)[1..] == ts[1..] + us;
      OpsPlus(ts[1..], us);
    }
  }

  lemma OpsOne(t: Token)
    ensures LineOps([t]) == if Groups(t.kind) then multiset{} else multiset{t.kind}
  {
  }

  /** Words of the first part lie before those of the second. */
  lemma Sides(ts: seq<Token>, t: Token, us: seq<Token>, l: Cmd, r: Cmd)
    requires Ordered(ts + [t] + us) && TreeWords(l) <= WordsIn(ts) && TreeWords(r) <= WordsIn(us)
    ensures Before(l, t.lo) && After(r, t.hi) && Ordered(ts) && Ordered(us)
  {
    var all := ts + [t] + us;
    assert all[|ts|] == t;
    forall w | w in TreeWords(l) ensures w.hi <= t.lo {
      var i :| 0 <= i < |ts| && ts[i] == w;
      assert all[i] == w;
    }
    forall w | w in TreeWords(r) ensures t.hi <= w.lo {
      var i :| 0 <= i < |us| && us[i] == w;
      assert all[|ts| + 1 + i] == w;
    }
    assert forall i :: 0 <= i < |ts| ==> all[i] == ts[i];
    assert forall i :: 0 <= i < |us| ==> all[|ts| + 1 + i] == us[i];
  }

  lemma OrderedParts(ts: seq<Token>, us: seq<Token>)
    requires Ordered(ts + us)
    ensures Ordered(ts) && Ordered(us)
    ensures forall i, j :: 0 <= i < |ts| && 0 <= j < |us| ==> ts[i].hi <= us[j].lo
  {
    var all := ts + us;
    assert forall i :: 0 <= i < |ts| ==> all[i] == ts[i];
    assert forall i :: 0 <= i < |us| ==> all[|ts| + i] == us[i];
  }

  // ----- words and redirections -----

  /** Each redirection has its operator among the tokens, and they are in order. */
  ghost predicate RedirsAt(ts: seq<Token>, rs: seq<Redirect>) {
    rs != [] ==>
      && HasRedir(ts, rs[0]) && RedirsAt(ts, rs[1..])
      && (|rs| > 1 ==> rs[0].file.hi <= rs[1].file.lo)
  }

  function RedirOps(rs: seq<Redirect>): multiset<char> {
    if rs == [] then multiset{}
    else multiset{RedirOp(rs[0])} + RedirOps(rs[1..])
  }

  lemma {:induction false} WrapPlaced(ts: seq<Token>, c: Cmd, rs: seq<Redirect>)
    requires Placed(ts, c) && RedirsAt(ts, rs)
    requires c.Redir? && rs != [] ==> c.redirect.file.hi <= rs[0].file.lo
    ensures Placed(ts, Wrap(c, rs)) && TreeOps(Wrap(c, rs)) == TreeOps(c) + RedirOps(rs)
    decreases rs
  {
    hide RedirOp, HasRedir;
    if rs != [] {
      WrapPlaced(ts, Redir(c, rs[0]), rs[1..]);
      assert TreeOps(c) + multiset{RedirOp(rs[0])} + RedirOps(rs[1..])
          == TreeOps(c) + (multiset{RedirOp(rs[0])} + RedirOps(rs[1..]));
    }
  }

  lemma {:induction false} RedirsWider(pre: seq<Token>, ts: seq<Token>, rs: seq<Redirect>)
    requires RedirsAt(ts, rs)
    ensures RedirsAt(pre + ts, rs)
    decreases rs
  {
    if rs != [] {
      var k :| RedirAt(ts, k, rs[0]);
      RedirWider(pre, ts, [], k, rs[0]);
      assert pre + ts + [] == pre + ts;
      RedirsWider(pre, ts, rs[1..]);
    }
  }

  /** Words and files are tokens of the line. */
  lemma {:induction false} ItemsIn(items: seq<Item>)
    ensures forall t :: t in Words(items) ==> t in ItemsYield(items)
    ensures forall r :: r in Redirs(items) ==> r.file in ItemsYield(items)
    decreases items
  {
    if items != [] { ItemsIn(items[1..]); }
  }

  lemma ItemsNext(items: seq<Item>)
    requires items != []
    ensures var i, tail := items[0], items[1..];
      && ItemsYield(items) == ItemYield(i) + ItemsYield(tail)
      && Words(items) == (if i.WordItem? then [i.word] + Words(tail) else Words(tail))
      && Redirs(items) == (if i.RedirItem? then [RedirTo(i.op.kind, i.file)] + Redirs(tail) else Redirs(tail))
  {
  }

  lemma NoneOps()
    ensures Redirs([]) == [] && ItemsYield([]) == [] && RedirOps([]) == LineOps([]) == multiset{}
  {
  }

  lemma RedirOpsCons(k: char, file: Token, rs: seq<Redirect>)
    requires IsRedir(k)
    ensures RedirOps([RedirTo(k, file)] + rs) == multiset{k} + RedirOps(rs) && !Groups(k)
  {
    assert ([RedirTo(k, file)] + rs)[1..] == rs;
  }

  lemma {:induction false} ItemsOps(items: seq<Item>)
    requires ItemsOk(items)
    ensures RedirOps(Redirs(items)) == LineOps(ItemsYield(items))
    decreases items
  {
    hide ItemsYield, Redirs, Words, LineOps, RedirOps, RedirOp;
    if items == [] {
      assert RedirOps(Redirs(items)) == LineOps(ItemsYield(items)) by { NoneOps(); }
    } else {
      var i, us, rs := items[0], ItemsYield(items[1..]), Redirs(items[1..]);
      ItemsNext(items);
      ItemsOps(items[1..]);
      if i.WordItem? {
        OpsPlus([i.word], us);
        OpsOne(i.word);
      } else {
        RedirOpsCons(i.op.kind, i.file, rs);
        assert [i.op, i.file] + us == [i.op] + ([i.file] + us);
        OpsPlus([i.op], [i.file] + us);
        OpsPlus([i.file], us);
        OpsOne(i.op);
        OpsOne(i.file);
      }
    }
  }

  lemma {:induction false} ItemsArgv(items: seq<Item>)
    requires Ordered(ItemsYield(items))
    ensures Placed([], Exec(Words(items)))
    decreases items
  {
    hide ItemsYield, Redirs, Words, Ordered;
    if items == [] {
      assert Words(items) == [] by { NoWords(items); }
    } else {
      var us := ItemsYield(items[1..]);
      ItemsNext(items);
      ItemsIn(items[1..]);
      OrderedParts(ItemYield(items[0]), us);
      ItemsArgv(items[1..]);
      if items[0].WordItem? {
        ArgvFirst(items[0].word, Words(items[1..]), us);
      }
    }
  }

  lemma ArgvFirst(w: Token, ws: seq<Token>, us: seq<Token>)
    requires Placed([], Exec(ws)) && (forall j :: 0 <= j < |us| ==> w.hi <= us[j].lo)
    requires forall t :: t in ws ==> t in us
    ensures Placed([], Exec([w] + ws))
  {
    var argv := [w] + ws;
    forall i, j | 0 <= i < j < |argv| ensures argv[i].hi <= argv[j].lo {
      assert argv[j] == ws[j - 1] && argv[j] in us;
      if i > 0 { assert argv[i] == ws[i - 1]; }
    }
  }

  lemma {:induction false} ItemsRedirs(items: seq<Item>)
    requires ItemsOk(items) && Ordered(ItemsYield(items))
    ensures RedirsAt(ItemsYield(items), Redirs(items))
    decreases items
  {
    hide ItemsYield, Redirs, Words, Ordered;
    if items == [] {
      assert Redirs(items) == [] by { NoRedirs(); }
    } else {
      var head, us, rs := ItemYield(items[0]), ItemsYield(items[1..]), Redirs(items[1..]);
      ItemsNext(items);
      ItemsIn(items[1..]);
      OrderedParts(head, us);
      ItemsRedirs(items[1..]);
      RedirsWider(head, us, rs);
      if items[0].RedirItem? {
        var r := RedirTo(items[0].op.kind, items[0].file);
        assert RedirAt(head + us, 0, r);
        assert ([r] + rs)[1..] == rs;
        if rs != [] { assert rs[0] in rs && rs[0].file in us && head[1] == r.file; }
      }
    }
  }

  lemma NoRedirs()
    ensures Redirs([]) == []
  {
  }

  lemma ArgvAnywhere(ts: seq<Token>, argv: seq<Token>)
    requires Placed([], Exec(argv))
    ensures Placed(ts, Exec(argv)) && TreeOps(Exec(argv)) == multiset{}
  {
  }

  // ----- derivations -----

  lemma {:induction false} BacksPlaced(ts: seq<Token>, c: Cmd, n: nat, k: nat)
    requires Placed(ts, c) && (n > 0 ==> Behind(ts, k, c))
    ensures Placed(ts, Backs(c, n)) && TreeOps(Backs(c, n)) == TreeOps(c) + multiset{}['&' := n]
    decreases n
  {
    if n > 0 {
      assert TreeWords(Back(c)) == TreeWords(c);
      assert Behind(ts, k, Back(c));
      BacksPlaced(ts, Back(c), n - 1, k);
      assert multiset{'&'} + multiset{}['&' := n - 1] == multiset{}['&' := n];
    }
  }

  lemma {:induction false} AmpOps(amps: seq<Token>)
    requires AmpsOk(amps)
    ensures LineOps(amps) == multiset{}['&' := |amps|]
  {
    if amps != [] {
      AmpOps(amps[1..]);
      assert multiset{'&'} + multiset{}['&' := |amps| - 1] == multiset{}['&' := |amps|];
    }
  }

  lemma SimplePlaced(items: seq<Item>)
    requires ItemsOk(items) && Ordered(ItemsYield(items))
    ensures var c := Wrap(Exec(Words(items)), Redirs(items));
      Placed(ItemsYield(items), c) && TreeOps(c) == LineOps(ItemsYield(items))
  {
    hide Placed, RedirsAt, Words, Redirs, ItemsYield, Wrap, TreeOps, LineOps, Ordered, RedirOps;
    ItemsArgv(items);
    ItemsRedirs(items);
    ItemsOps(items);
    ArgvAnywhere(ItemsYield(items), Words(items));
    WrapPlaced(ItemsYield(items), Exec(Words(items)), Redirs(items));
  }

  /** The tree `c` of the tokens `ts`. */
  ghost predicate Shapes(ts: seq<Token>, c: Cmd) {
    Placed(ts, c) && TreeOps(c) == LineOps(ts) && TreeWords(c) == WordsIn(ts)
  }

  lemma BlockPlaced(open: Token, ls: seq<Token>, close: Token, c: Cmd, redirs: seq<Item>)
    requires open.kind == '(' && close.kind == ')' && RedirsOk(redirs) && Shapes(ls, c)
    requires Ordered([open] + ls + [close] + ItemsYield(redirs))
    ensures var ts := [open] + ls + [close] + ItemsYield(redirs);
      Placed(ts, Wrap(c, Redirs(redirs))) && TreeOps(Wrap(c, Redirs(redirs))) == LineOps(ts)
  {
    hide Placed, RedirsAt, Words, Redirs, ItemsYield, Wrap, TreeOps, LineOps, Ordered, TreeWords, WordsIn, RedirOps;
    var rs, pre := ItemsYield(redirs), [open] + ls + [close];
    var ts := pre + rs;
    assert ts == [open] + ls + ([close] + rs);
    OrderedParts(pre, rs);
    OrderedParts([open] + ls, [close] + rs);
    ItemsRedirs(redirs);
    ItemsOps(redirs);
    Wider([open], ls, [close] + rs, c);
    RedirsWider(pre, rs, Redirs(redirs));
    OpsPlus(pre, rs);
    OpsPlus([open] + ls, [close]);
    OpsPlus([open], ls);
    OpsOne(open);
    OpsOne(close);
    LastFile([open] + ls, [close] + rs, c, redirs);
    WrapPlaced(ts, c, Redirs(redirs));
  }

  lemma LastFile(ls: seq<Token>, us: seq<Token>, c: Cmd, redirs: seq<Item>)
    requires ls != [] && TreeWords(c) <= WordsIn(ls[1..]) && us != [] && us[1..] == ItemsYield(redirs)
    requires forall i, j :: 0 <= i < |ls| && 0 <= j < |us| ==> ls[i].hi <= us[j].lo
    ensures c.Redir? && Redirs(redirs) != [] ==> c.redirect.file.hi <= Redirs(redirs)[0].file.lo
  {
    ItemsIn(redirs);
    if c.Redir? && Redirs(redirs) != [] {
      assert c.redirect.file in TreeWords(c);
      var i :| 0 <= i < |ls[1..]| && ls[1..][i] == c.redirect.file;
      assert ls[i + 1] == c.redirect.file && Redirs(redirs)[0] in Redirs(redirs);
      var j :| 0 <= j < |us[1..]| && us[1..][j] == Redirs(redirs)[0].file;
      assert us[j + 1] == Redirs(redirs)[0].file;
    }
  }

  /** Two commands and the operator that joins them. */
  lemma Joined(ls: seq<Token>, t: Token, rs: seq<Token>, l: Cmd, r: Cmd)
    requires Ordered(ls + [t] + rs) && Shapes(ls, l) && Shapes(rs, r) && !Groups(t.kind)
    ensures var ts := ls + [t] + rs;
      && Placed(ts, l) && Placed(ts, r) && Between(ts, |ls|, t.kind, l, r)
      && LineOps(ts) == TreeOps(l) + TreeOps(r) + multiset{t.kind}
  {
    hide Placed, LineOps, TreeOps, Ordered, TreeWords, WordsIn, Before, After;
    var ts := ls + [t] + rs;
    Sides(ls, t, rs, l, r);
    assert [] + ls + ([t] + rs) == ts && ls + [t] + rs + [] == ts;
    Wider([], ls, [t] + rs, l);
    Wider(ls + [t], rs, [], r);
    OpsPlus(ls + [t], rs);
    OpsPlus(ls, [t]);
    OpsOne(t);
    assert ts[|ls|] == t;
  }

  lemma {:induction false} ExecPlaced(d: ExecD)
    requires ExecOk(d) && Ordered(ExecYield(d))
    ensures Shapes(ExecYield(d), ExecTree(d))
    decreases d, 1
  {
    hide Placed, Words, Redirs, ItemsYield, Wrap, TreeOps, LineOps, LineYield, LineTree, Ordered, TreeWords, WordsIn;
    ExecWords(d);
    match d
    case Simple(items) => SimplePlaced(items);
    case Block(open, line, close, redirs) =>
      var ls, rs := LineYield(line), ItemsYield(redirs);
      assert ExecYield(d) == [open] + (ls + ([close] + rs));
      OrderedParts([open], ls + ([close] + rs));
      OrderedParts(ls, [close] + rs);
      LinePlaced(line);
      BlockPlaced(open, ls, close, LineTree(line), redirs);
  }

  lemma {:induction false} PipePlaced(d: PipeD)
    requires PipeOk(d) && Ordered(PipeYield(d))
    ensures Shapes(PipeYield(d), PipeTree(d))
    decreases d, 2
  {
    hide LineOps, ExecYield, ExecTree, Ordered, TreeWords, WordsIn, Before, After, Groups;
    match d
    case OnePipe(e) => ExecPlaced(e);
    case MorePipe(e, bar, rest) =>
      var es, rs := ExecYield(e), PipeYield(rest);
      assert es + [bar] + rs == es + ([bar] + rs);
      OrderedParts(es, [bar] + rs);
      OrderedParts([bar], rs);
      ExecPlaced(e);
      PipePlaced(rest);
      NotGroups(bar.kind);
      Joined(es, bar, rs, ExecTree(e), PipeTree(rest));
      PipeWords(d);
  }

  lemma NotGroups(k: char)
    requires k == '|' || k == ';' || k == '&'
    ensures !Groups(k)
  {
  }

  /** A pipe in the background, as often as there are ampersands. */
  lemma {:induction false} AmpsPlaced(p: PipeD, amps: seq<Token>)
    requires PipeOk(p) && AmpsOk(amps) && Ordered(PipeYield(p) + amps)
    ensures Shapes(PipeYield(p) + amps, Backs(PipeTree(p), |amps|))
    decreases p, 3
  {
    hide Placed, LineOps, PipeYield, PipeTree, TreeWords, WordsIn, Backs, TreeOps, Before, Ordered;
    var ps := PipeYield(p);
    OrderedParts(ps, amps);
    PipePlaced(p);
    Wider([], ps, amps, PipeTree(p));
    assert [] + ps + amps == ps + amps;
    OpsPlus(ps, amps);
    AmpOps(amps);
    if amps != [] {
      EndsBefore(ps, amps, PipeTree(p));
      assert (ps + amps)[|ps|] == amps[0];
    }
    BacksPlaced(ps + amps, PipeTree(p), |amps|, |ps|);
    BacksWords(PipeTree(p), |amps|);
    AmpWords(ps, amps);
  }

  lemma AmpWords(ts: seq<Token>, amps: seq<Token>)
    requires AmpsOk(amps)
    ensures WordsIn(ts + amps) == WordsIn(ts)
  {
  }

  lemma EndsBefore(ts: seq<Token>, us: seq<Token>, c: Cmd)
    requires TreeWords(c) <= WordsIn(ts) && us != []
    requires forall i, j :: 0 <= i < |ts| && 0 <= j < |us| ==> ts[i].hi <= us[j].lo
    ensures Before(c, us[0].lo)
  {
    forall w | w in TreeWords(c) ensures w.hi <= us[0].lo { var i :| 0 <= i < |ts| && ts[i] == w; }
  }

  lemma {:induction false} LinePlaced(d: LineD)
    requires LineOk(d) && Ordered(LineYield(d))
    ensures Shapes(LineYield(d), LineTree(d))
    decreases d, 4
  {
    hide LineOps, PipeYield, PipeTree, Ordered, TreeWords, WordsIn, Backs, Before, After, Groups;
    match d
    case OneLine(p, amps) => AmpsPlaced(p, amps);
    case MoreLine(p, amps, semi, rest) =>
      var ps, rs := PipeYield(p) + amps, LineYield(rest);
      assert ps + [semi] + rs == ps + ([semi] + rs);
      OrderedParts(ps, [semi] + rs);
      OrderedParts([semi], rs);
      AmpsPlaced(p, amps);
      LinePlaced(rest);
      NotGroups(semi.kind);
      Joined(ps, semi, rs, Backs(PipeTree(p), |amps|), LineTree(rest));
      LineWords(d);
  }

  /** Every sentence: its tree lies over it in order, with its words and operators and no others. */
  lemma SentencePlaced(ts: seq<Token>, c: Cmd)
    requires Sentence(ts, c) && Ordered(ts)
    ensures Placed(ts, c) && TreeOps(c) == LineOps(ts) && TreeWords(c) == WordsIn(ts)
  {
    var d :| LineOk(d) && LineYield(d) == ts && LineTree(d) == c;
    LinePlaced(d);
  }

  // ----- every tree has a line -----

  /** Trees that a line can have: words are words, and the shell's limit on arguments is kept. */
  predicate Proper(c: Cmd) {
    match c
    case Exec(argv) => |argv| < 10 && forall k :: 0 <= k < |argv| ==> argv[k].kind == 'a'
    case Redir(c', r) => Proper(c') && r.file.kind == 'a' && (r.mode, r.fd) in {(0, 0), (0x601, 1), (0x201, 1)}
    case Pipe(l, r) => Proper(l) && Proper(r)
    case List(l, r) => Proper(l) && Proper(r)
    case Back(c') => Proper(c')
  }

  function Op(k: char): seq<Token> { [Token(k, 0, 0)] }

  /** The tree written out, with parentheses around everything. */
  function Show(c: Cmd): seq<Token> {
    match c
    case Exec(argv) => argv
    case Redir(c', r) => Op('(') + Show(c') + Op(')') + Op(RedirOp(r)) + [r.file]
    case Pipe(l, r) => Op('(') + Show(l) + Op(')') + Op('|') + Op('(') + Show(r) + Op(')')
    case List(l, r) => Op('(') + Show(l) + Op(')') + Op(';') + Op('(') + Show(r) + Op(')')
    case Back(c') => Op('(') + Show(c') + Op(')') + Op('&')
  }

  /** The derivation of what Show writes. */
  ghost function Derive(c: Cmd): LineD {
    match c
    case Exec(argv) => OneLine(OnePipe(Simple(AllWords(argv))), [])
    case Redir(c', r) => OneLine(OnePipe(Parens(Derive(c'), [RedirItem(Op(RedirOp(r))[0], r.file)])), [])
    case Pipe(l, r) =>
      OneLine(MorePipe(Parens(Derive(l), []), Op('|')[0], OnePipe(Parens(Derive(r), []))), [])
    case List(l, r) =>
      MoreLine(OnePipe(Parens(Derive(l), [])), [], Op(';')[0], OneLine(OnePipe(Parens(Derive(r), [])), []))
    case Back(c') => OneLine(OnePipe(Parens(Derive(c'), [])), Op('&'))
  }

  ghost function Parens(d: LineD, redirs: seq<Item>): ExecD { Block(Op('(')[0], d, Op(')')[0], redirs) }

  ghost function AllWords(argv: seq<Token>): seq<Item> { seq(|argv|, k requires 0 <= k < |argv| => WordItem(argv[k])) }

  lemma {:induction false} AllWordsYield(argv: seq<Token>)
    ensures ItemsYield(AllWords(argv)) == argv && Words(AllWords(argv)) == argv && Redirs(AllWords(argv)) == []
    decreases argv
  {
    if argv != [] {
      assert AllWords(argv)[1..] == AllWords(argv[1..]);
      AllWordsYield(argv[1..]);
      ItemsNext(AllWords(argv));
      assert argv == [argv[0]] + argv[1..];
    }
  }

  lemma NoItemsYield(c: Cmd)
    ensures ItemsYield([]) == [] && Redirs([]) == [] && Wrap(c, []) == c && Backs(c, 0) == c && Backs(c, 1) == Back(c)
  {
  }

  lemma OneRedir(r: Redirect, c: Cmd)
    requires (r.mode, r.fd) in {(0, 0), (0x601, 1), (0x201, 1)}
    ensures var i := RedirItem(Op(RedirOp(r))[0], r.file);
      && IsRedir(RedirOp(r)) && ItemsYield([i]) == Op(RedirOp(r)) + [r.file] && Redirs([i]) == [r]
      && Wrap(c, [r]) == Redir(c, r)
  {
  }

  /** The shell reads every tree back from its line. */
  lemma {:induction false} ShowParses(c: Cmd)
    requires Proper(c)
    ensures PCmd(Show(c)) == Some(c)
  {
    ShowDerives(c);
    LineComplete(Derive(c), []);
    assert Show(c) + [] == Show(c);
  }

  /** Derivation `d` has the tokens `ts` and the tree `c`. */
  ghost predicate Derives(d: LineD, ts: seq<Token>, c: Cmd) { LineOk(d) && LineYield(d) == ts && LineTree(d) == c }

  lemma ParensDerive(d: LineD, ts: seq<Token>, c: Cmd)
    requires Derives(d, ts, c)
    ensures var e := Parens(d, []);
      ExecOk(e) && ExecYield(e) == Op('(') + ts + Op(')') && ExecTree(e) == c
  {
    hide ItemsYield, Redirs, Wrap;
    NoItemsYield(c);
  }

  lemma RedirDerives(d: LineD, ts: seq<Token>, c: Cmd, r: Redirect)
    requires Derives(d, ts, c) && Proper(Redir(c, r))
    ensures var e := Parens(d, [RedirItem(Op(RedirOp(r))[0], r.file)]);
      && ExecOk(e) && ExecYield(e) == Op('(') + ts + Op(')') + Op(RedirOp(r)) + [r.file]
      && ExecTree(e) == Redir(c, r)
  {
    hide ItemsYield, Redirs, Wrap, RedirOp;
    OneRedir(r, c);
    assert ItemOk(RedirItem(Op(RedirOp(r))[0], r.file));
  }

  lemma ExecDerives(e: ExecD, amps: seq<Token>)
    requires ExecOk(e) && AmpsOk(amps)
    ensures Derives(OneLine(OnePipe(e), amps), ExecYield(e) + amps, Backs(ExecTree(e), |amps|))
  {
  }

  lemma PipeDerives(e: ExecD, t: Token, f: ExecD)
    requires ExecOk(e) && ExecOk(f) && t.kind == '|'
    ensures Derives(OneLine(MorePipe(e, t, OnePipe(f)), []), ExecYield(e) + [t] + ExecYield(f),
                    Pipe(ExecTree(e), ExecTree(f)))
  {
    hide ExecOk, ExecYield, ExecTree;
    var p := MorePipe(e, t, OnePipe(f));
    assert PipeOk(OnePipe(f)) && PipeYield(OnePipe(f)) == ExecYield(f) && PipeTree(OnePipe(f)) == ExecTree(f);
    assert PipeOk(p) && PipeTree(p) == Pipe(ExecTree(e), ExecTree(f));
    assert PipeYield(p) == ExecYield(e) + [t] + ExecYield(f);
    NoItemsYield(PipeTree(p));
  }

  lemma ListDerives(e: ExecD, t: Token, f: ExecD)
    requires ExecOk(e) && ExecOk(f) && t.kind == ';'
    ensures Derives(MoreLine(OnePipe(e), [], t, OneLine(OnePipe(f), [])), ExecYield(e) + [t] + ExecYield(f),
                    List(ExecTree(e), ExecTree(f)))
  {
    hide ExecOk, ExecYield, ExecTree;
    var l := OneLine(OnePipe(f), []);
    assert PipeOk(OnePipe(e)) && PipeYield(OnePipe(e)) == ExecYield(e) && PipeTree(OnePipe(e)) == ExecTree(e);
    assert PipeOk(OnePipe(f)) && PipeYield(OnePipe(f)) == ExecYield(f) && PipeTree(OnePipe(f)) == ExecTree(f);
    NoItemsYield(ExecTree(e));
    NoItemsYield(ExecTree(f));
    assert LineOk(l) && LineYield(l) == ExecYield(f) && LineTree(l) == ExecTree(f);
  }

  lemma WordsDerive(argv: seq<Token>)
    requires Proper(Exec(argv))
    ensures var e := Simple(AllWords(argv)); ExecOk(e) && ExecYield(e) == argv && ExecTree(e) == Exec(argv)
  {
    AllWordsYield(argv);
    NoItemsYield(Exec(argv));
  }

  lemma JoinPipe(l: Cmd, r: Cmd)
    requires Derives(Derive(l), Show(l), l) && Derives(Derive(r), Show(r), r)
    ensures Derives(Derive(Pipe(l, r)), Show(Pipe(l, r)), Pipe(l, r))
  {
    hide Derives, ExecOk, ExecYield, ExecTree, Parens;
    ParensDerive(Derive(l), Show(l), l);
    ParensDerive(Derive(r), Show(r), r);
    PipeDerives(Parens(Derive(l), []), Op('|')[0], Parens(Derive(r), []));
    assert Show(Pipe(l, r)) == (Op('(') + Show(l) + Op(')')) + Op('|') + (Op('(') + Show(r) + Op(')'));
  }

  lemma JoinList(l: Cmd, r: Cmd)
    requires Derives(Derive(l), Show(l), l) && Derives(Derive(r), Show(r), r)
    ensures Derives(Derive(List(l, r)), Show(List(l, r)), List(l, r))
  {
    hide Derives, ExecOk, ExecYield, ExecTree, Parens;
    ParensDerive(Derive(l), Show(l), l);
    ParensDerive(Derive(r), Show(r), r);
    ListDerives(Parens(Derive(l), []), Op(';')[0], Parens(Derive(r), []));
    assert Show(List(l, r)) == (Op('(') + Show(l) + Op(')')) + Op(';') + (Op('(') + Show(r) + Op(')'));
  }

  lemma {:induction false} ShowDerives(c: Cmd)
    requires Proper(c)
    ensures Derives(Derive(c), Show(c), c)
    decreases c
  {
    hide Derives, ExecOk, ExecYield, ExecTree, Backs, RedirOp, Parens, AllWords;
    NoItemsYield(c);
    match c
    case Exec(argv) =>
      WordsDerive(argv);
      ExecDerives(Simple(AllWords(argv)), []);
      assert argv + [] == argv;
    case Redir(c', r) =>
      ShowDerives(c');
      RedirDerives(Derive(c'), Show(c'), c', r);
      ExecDerives(Parens(Derive(c'), [RedirItem(Op(RedirOp(r))[0], r.file)]), []);
      assert Show(c) + [] == Show(c);
    case Pipe(l, r) =>
      ShowDerives(l);
      ShowDerives(r);
      JoinPipe(l, r);
    case List(l, r) =>
      ShowDerives(l);
      ShowDerives(r);
      JoinList(l, r);
    case Back(c') =>
      ShowDerives(c');
      ParensDerive(Derive(c'), Show(c'), c');
      ExecDerives(Parens(Derive(c'), []), Op('&'));
      NoItemsYield(c');
  }
}
