/**
  The command language of user/sh.c at the level of tokens: a grammar given by derivations,
  and the recursive descent of the shell as a function on token sequences. The two agree.
 */
module ShellGrammar {
  import opened Wrappers

  /** `kind` is what gettoken returns; the text is at positions lo .. hi of the line. */
  datatype Token = Token(kind: char, lo: nat, hi: nat)

  /** A redirection: the file's name, the mode to open it with, and the descriptor. */
  datatype Redirect = Redirect(file: Token, mode: nat, fd: nat)

  const O_RDONLY: nat := 0x000
  const O_WRONLY: nat := 0x001
  const O_CREATE: nat := 0x200
  const O_TRUNC: nat := 0x400

  /** The tree that the shell builds. */
  datatype Cmd =
    | Exec(argv: seq<Token>)
    | Redir(cmd: Cmd, redirect: Redirect)
    | Pipe(left: Cmd, right: Cmd)
    | List(left: Cmd, right: Cmd)
    | Back(cmd: Cmd)

  const MAXARGS: nat := 10

  predicate IsRedir(k: char) { k == '<' || k == '>' || k == '+' }

  predicate Starts(ts: seq<Token>, k: char) { |ts| > 0 && ts[0].kind == k }

  /** The redirection that an operator stands for. */
  function RedirTo(kind: char, file: Token): Redirect {
    if kind == '<' then Redirect(file, O_RDONLY, 0)
    else if kind == '>' then Redirect(file, O_WRONLY + O_CREATE + O_TRUNC, 1)
    else Redirect(file, O_WRONLY + O_CREATE, 1)
  }

  function Wrap(c: Cmd, rs: seq<Redirect>): Cmd
    decreases rs
  {
    if rs == [] then c else Wrap(Redir(c, rs[0]), rs[1..])
  }

  function Backs(c: Cmd, n: nat): Cmd
    decreases n
  {
    if n == 0 then c else Backs(Back(c), n - 1)
  }

  // ----- the grammar -----

  /** A word, or an operator and a file name. */
  datatype Item = WordItem(word: Token) | RedirItem(op: Token, file: Token)

  datatype ExecD = Simple(items: seq<Item>) | Block(open: Token, line: LineD, close: Token, redirs: seq<Item>)
  datatype PipeD = OnePipe(exec: ExecD) | MorePipe(exec: ExecD, bar: Token, rest: PipeD)
  datatype LineD = OneLine(pipe: PipeD, amps: seq<Token>)
    | MoreLine(pipe: PipeD, amps: seq<Token>, semi: Token, rest: LineD)

  predicate ItemOk(i: Item) {
    match i
    case WordItem(w) => w.kind == 'a'
    case RedirItem(op, f) => IsRedir(op.kind) && f.kind == 'a'
  }

  predicate ItemsOk(items: seq<Item>) { forall k :: 0 <= k < |items| ==> ItemOk(items[k]) }

  predicate RedirsOk(items: seq<Item>) { forall k :: 0 <= k < |items| ==> items[k].RedirItem? && ItemOk(items[k]) }

  predicate AmpsOk(ts: seq<Token>) { forall k :: 0 <= k < |ts| ==> ts[k].kind == '&' }

  predicate ExecOk(d: ExecD)
    decreases d
  {
    match d
    case Simple(items) => ItemsOk(items) && |Words(items)| < MAXARGS
    case Block(open, line, close, redirs) => open.kind == '(' && LineOk(line) && close.kind == ')' && RedirsOk(redirs)
  }

  predicate PipeOk(d: PipeD)
    decreases d
  {
    match d
    case OnePipe(e) => ExecOk(e)
    case MorePipe(e, bar, rest) => ExecOk(e) && bar.kind == '|' && PipeOk(rest)
  }

  predicate LineOk(d: LineD)
    decreases d
  {
    match d
    case OneLine(p, amps) => PipeOk(p) && AmpsOk(amps)
    case MoreLine(p, amps, semi, rest) => PipeOk(p) && AmpsOk(amps) && semi.kind == ';' && LineOk(rest)
  }

  // the tokens of a derivation

  function ItemYield(i: Item): seq<Token> {
    match i
    case WordItem(w) => [w]
    case RedirItem(op, f) => [op, f]
  }

  function ItemsYield(items: seq<Item>): seq<Token> {
    if items == [] then [] else ItemYield(items[0]) + ItemsYield(items[1..])
  }

  function ExecYield(d: ExecD): seq<Token>
    decreases d
  {
    match d
    case Simple(items) => ItemsYield(items)
    case Block(open, line, close, redirs) => [open] + LineYield(line) + [close] + ItemsYield(redirs)
  }

  function PipeYield(d: PipeD): seq<Token>
    decreases d
  {
    match d
    case OnePipe(e) => ExecYield(e)
    case MorePipe(e, bar, rest) => ExecYield(e) + [bar] + PipeYield(rest)
  }

  function LineYield(d: LineD): seq<Token>
    decreases d
  {
    match d
    case OneLine(p, amps) => PipeYield(p) + amps
    case MoreLine(p, amps, semi, rest) => PipeYield(p) + amps + [semi] + LineYield(rest)
  }

  // the tree of a derivation

  function Words(items: seq<Item>): seq<Token> {
    if items == [] then []
    else (if items[0].WordItem? then [items[0].word] else []) + Words(items[1..])
  }

  function Redirs(items: seq<Item>): seq<Redirect> {
    if items == [] then []
    else (if items[0].RedirItem? then [RedirTo(items[0].op.kind, items[0].file)] else []) + Redirs(items[1..])
  }

  function ExecTree(d: ExecD): Cmd
    decreases d
  {
    match d
    case Simple(items) => Wrap(Exec(Words(items)), Redirs(items))
    case Block(_, line, _, redirs) => Wrap(LineTree(line), Redirs(redirs))
  }

  function PipeTree(d: PipeD): Cmd
    decreases d
  {
    match d
    case OnePipe(e) => ExecTree(e)
    case MorePipe(e, _, rest) => Pipe(ExecTree(e), PipeTree(rest))
  }

  function LineTree(d: LineD): Cmd
    decreases d
  {
    match d
    case OneLine(p, amps) => Backs(PipeTree(p), |amps|)
    case MoreLine(p, amps, _, rest) => List(Backs(PipeTree(p), |amps|), LineTree(rest))
  }

  /** The tokens are a sentence, and `c` is its tree. */
  ghost predicate Sentence(ts: seq<Token>, c: Cmd) {
    exists d :: LineOk(d) && LineYield(d) == ts && LineTree(d) == c
  }

  // ----- the shell's recursive descent -----

  /** A result and the tokens left; None when the shell gives up. */
  type Parsed<T> = Option<(T, seq<Token>)>

  function PRedirs(ts: seq<Token>): (r: Parsed<seq<Redirect>>)
    ensures r.Some? ==> |r.value.1| <= |ts|
    ensures r.Some? ==> |r.value.1| == 0 || !IsRedir(r.value.1[0].kind)
    decreases |ts|
  {
    if |ts| == 0 || !IsRedir(ts[0].kind) then Some(([], ts))
    else if |ts| == 1 || ts[1].kind != 'a' then None
    else
      var r := PRedirs(ts[2..]);
      if r.None? then None else Some(([RedirTo(ts[0].kind, ts[1])] + r.value.0, r.value.1))
  }

  predicate Stops(ts: seq<Token>) {
    |ts| == 0 || ts[0].kind == '|' || ts[0].kind == ')' || ts[0].kind == '&' || ts[0].kind == ';'
  }

  /** The loop of parseexec, after `argc` words. */
  function PWords(ts: seq<Token>, argc: nat): (r: Parsed<(seq<Token>, seq<Redirect>)>)
    ensures r.Some? ==> |r.value.1| <= |ts|
    decreases |ts|
  {
    if Stops(ts) then Some((([], []), ts))
    else if ts[0].kind != 'a' || argc + 1 >= MAXARGS then None
    else
      var r := PRedirs(ts[1..]);
      if r.None? then None
      else
        var s := PWords(r.value.1, argc + 1);
        if s.None? then None
        else Some((([ts[0]] + s.value.0.0, r.value.0 + s.value.0.1), s.value.1))
  }

  function PExec(ts: seq<Token>): (r: Parsed<Cmd>)
    ensures r.Some? ==> |r.value.1| <= |ts|
    decreases |ts|, 0
  {
    if Starts(ts, '(') then
      var l := PLine(ts[1..]);
      if l.None? || !Starts(l.value.1, ')') then None
      else
        var r := PRedirs(l.value.1[1..]);
        if r.None? then None else Some((Wrap(l.value.0, r.value.0), r.value.1))
    else
      var r := PRedirs(ts);
      if r.None? then None
      else
        var s := PWords(r.value.1, 0);
        if s.None? then None
        else Some((Wrap(Exec(s.value.0.0), r.value.0 + s.value.0.1), s.value.1))
  }

  function PPipe(ts: seq<Token>): (r: Parsed<Cmd>)
    ensures r.Some? ==> |r.value.1| <= |ts|
    decreases |ts|, 1
  {
    var e := PExec(ts);
    if e.None? || !Starts(e.value.1, '|') then e
    else
      var p := PPipe(e.value.1[1..]);
      if p.None? then None else Some((Pipe(e.value.0, p.value.0), p.value.1))
  }

  function PAmps(c: Cmd, ts: seq<Token>): (r: (Cmd, seq<Token>))
    ensures |r.1| <= |ts| && !Starts(r.1, '&')
    decreases |ts|
  {
    if Starts(ts, '&') then PAmps(Back(c), ts[1..]) else (c, ts)
  }

  function PLine(ts: seq<Token>): (r: Parsed<Cmd>)
    ensures r.Some? ==> |r.value.1| <= |ts|
    decreases |ts|, 2
  {
    var p := PPipe(ts);
    if p.None? then None
    else
      var a := PAmps(p.value.0, p.value.1);
      if !Starts(a.1, ';') then Some(a)
      else
        var l := PLine(a.1[1..]);
        if l.None? then None else Some((List(a.0, l.value.0), l.value.1))
  }

  /** parsecmd: the whole line must be used. */
  function PCmd(ts: seq<Token>): Option<Cmd> {
    var l := PLine(ts);
    if l.None? || l.value.1 != [] then None else Some(l.value.0)
  }

  // ----- items -----

  /** The redirections at the front. */
  function Lead(items: seq<Item>): (n: nat)
    ensures n <= |items|
    ensures forall k :: 0 <= k < n ==> items[k].RedirItem?
    ensures n < |items| ==> items[n].WordItem?
  {
    if items == [] || items[0].WordItem? then 0 else 1 + Lead(items[1..])
  }

  lemma {:induction false} YieldSplit(a: seq<Item>, b: seq<Item>)
    ensures ItemsYield(a + b) == ItemsYield(a) + ItemsYield(b)
  {
    if a == [] {
      assert a + b == b;
    } else {
      assert (a + b)[0] == a[0] && (a + b)[1..] == a[1..] + b;
      YieldSplit(a[1..], b);
    }
  }

  lemma {:induction false} WordsSplit(a: seq<Item>, b: seq<Item>)
    ensures Words(a + b) == Words(a) + Words(b)
  {
    if a == [] {
      assert a + b == b;
    } else {
      assert (a + b)[0] == a[0] && (a + b)[1..] == a[1..] + b;
      WordsSplit(a[1..], b);
    }
  }

  lemma {:induction false} RedirsSplit(a: seq<Item>, b: seq<Item>)
    ensures Redirs(a + b) == Redirs(a) + Redirs(b)
  {
    if a == [] {
      assert a + b == b;
    } else {
      assert (a + b)[0] == a[0] && (a + b)[1..] == a[1..] + b;
      RedirsSplit(a[1..], b);
    }
  }

  lemma ItemsSplit(a: seq<Item>, b: seq<Item>)
    ensures ItemsYield(a + b) == ItemsYield(a) + ItemsYield(b)
    ensures Words(a + b) == Words(a) + Words(b) && Redirs(a + b) == Redirs(a) + Redirs(b)
  {
    YieldSplit(a, b);
    WordsSplit(a, b);
    RedirsSplit(a, b);
  }

  lemma {:induction false} NoWords(items: seq<Item>)
    requires forall k :: 0 <= k < |items| ==> items[k].RedirItem?
    ensures Words(items) == []
  {
    if items != [] {
      NoWords(items[1..]);
    }
  }

  lemma ItemsHead(items: seq<Item>)
    requires items != []
    ensures ItemsYield(items) == ItemYield(items[0]) + ItemsYield(items[1..])
    ensures items[0].WordItem? ==>
      Words(items) == [items[0].word] + Words(items[1..]) && Redirs(items) == Redirs(items[1..])
  {
  }

  lemma PWordsStep(ts: seq<Token>, argc: nat, rs: seq<Redirect>, after: seq<Token>,
                   ws: seq<Token>, rs': seq<Redirect>, rest: seq<Token>)
    requires !Stops(ts) && ts[0].kind == 'a' && argc + 1 < MAXARGS
    requires PRedirs(ts[1..]) == Some((rs, after)) && PWords(after, argc + 1) == Some(((ws, rs'), rest))
    ensures PWords(ts, argc) == Some((([ts[0]] + ws, rs + rs'), rest))
  {
  }

  lemma PWordsInv(ts: seq<Token>, argc: nat)
    requires PWords(ts, argc).Some? && !Stops(ts)
    ensures ts[0].kind == 'a' && argc + 1 < MAXARGS
    ensures PRedirs(ts[1..]).Some? && PWords(PRedirs(ts[1..]).value.1, argc + 1).Some?
  {
  }

  lemma PSimpleStep(ts: seq<Token>, rs: seq<Redirect>, after: seq<Token>,
                    ws: seq<Token>, rs': seq<Redirect>, rest: seq<Token>)
    requires !Starts(ts, '(')
    requires PRedirs(ts) == Some((rs, after)) && PWords(after, 0) == Some(((ws, rs'), rest))
    ensures PExec(ts) == Some((Wrap(Exec(ws), rs + rs'), rest))
  {
  }

  lemma SplitLead(items: seq<Item>)
    requires ItemsOk(items)
    ensures var a, b := items[..Lead(items)], items[Lead(items)..];
      && RedirsOk(a) && ItemsOk(b) && (b == [] || b[0].WordItem?)
      && ItemsYield(items) == ItemsYield(a) + ItemsYield(b)
      && Words(items) == Words(b) && Redirs(items) == Redirs(a) + Redirs(b)
  {
    var a, b := items[..Lead(items)], items[Lead(items)..];
    assert items == a + b;
    ItemsSplit(a, b);
    NoWords(a);
  }

  /** What follows the leading redirections is not another one. */
  lemma NextIsWord(b: seq<Item>, rest: seq<Token>)
    requires ItemsOk(b) && (b == [] || b[0].WordItem?) && Stops(rest)
    ensures var ts := ItemsYield(b) + rest; ts == [] || (!IsRedir(ts[0].kind) && ts[0].kind != '(')
  {
  }

  // ----- every sentence is parsed, to its tree -----

  lemma {:induction false} RedirsComplete(items: seq<Item>, rest: seq<Token>)
    requires RedirsOk(items) && (rest == [] || !IsRedir(rest[0].kind))
    ensures PRedirs(ItemsYield(items) + rest) == Some((Redirs(items), rest))
  {
    if items == [] {
      assert ItemsYield(items) + rest == rest;
    } else {
      var tail := ItemsYield(items[1..]) + rest;
      var ts := [items[0].op, items[0].file] + tail;
      assert ItemsYield(items) + rest == ts by {
        assert ItemsYield(items) == [items[0].op, items[0].file] + ItemsYield(items[1..]);
      }
      assert ts[2..] == tail && ts[0] == items[0].op && ts[1] == items[0].file;
      RedirsComplete(items[1..], rest);
      hide ItemsYield;
      assert PRedirs(ts) == Some(([RedirTo(ts[0].kind, ts[1])] + Redirs(items[1..]), rest));
    }
  }

  lemma WordsNone(argc: nat, rest: seq<Token>)
    requires Stops(rest)
    ensures ItemsYield([]) + rest == rest && Words([]) == [] && Redirs([]) == []
    ensures PWords(rest, argc) == Some((([], []), rest))
  {
  }

  lemma {:induction false} WordsComplete(items: seq<Item>, argc: nat, rest: seq<Token>)
    requires ItemsOk(items) && (items == [] || items[0].WordItem?) && Stops(rest)
    requires argc + |Words(items)| < MAXARGS
    ensures PWords(ItemsYield(items) + rest, argc) == Some(((Words(items), Redirs(items)), rest))
    decreases |items|
  {
    hide Words, Redirs, ItemsYield, PRedirs, PWords, Lead;
    if items == [] {
      WordsNone(argc, rest);
    } else {
      ItemsHead(items);
      var ts := ItemsYield(items) + rest;
      var tail := items[1..];
      SplitLead(tail);
      var a, b := tail[..Lead(tail)], tail[Lead(tail)..];
      var after := ItemsYield(b) + rest;
      assert ts == [items[0].word] + (ItemsYield(a) + after);
      assert ts[1..] == ItemsYield(a) + after;
      NextIsWord(b, rest);
      RedirsComplete(a, after);
      WordsComplete(b, argc + 1, rest);
      PWordsStep(ts, argc, Redirs(a), after, Words(b), Redirs(b), rest);
    }
  }

  lemma SimpleComplete(items: seq<Item>, rest: seq<Token>)
    requires ItemsOk(items) && |Words(items)| < MAXARGS && Stops(rest)
    ensures PExec(ItemsYield(items) + rest) == Some((Wrap(Exec(Words(items)), Redirs(items)), rest))
  {
    hide Words, Redirs, ItemsYield, PRedirs, PWords, PExec, Lead, Wrap;
    SplitLead(items);
    var a, b := items[..Lead(items)], items[Lead(items)..];
    var after := ItemsYield(b) + rest;
    var ts := ItemsYield(items) + rest;
    assert ts == ItemsYield(a) + after;
    NextIsWord(b, rest);
    RedirsComplete(a, after);
    WordsComplete(b, 0, rest);
    StartsItem(a, after);
    PSimpleStep(ts, Redirs(a), after, Words(b), Redirs(b), rest);
  }

  lemma StartsItem(a: seq<Item>, after: seq<Token>)
    requires RedirsOk(a) && !Starts(after, '(')
    ensures !Starts(ItemsYield(a) + after, '(')
  {
  }

  predicate Follows(rest: seq<Token>, ks: string) { rest == [] || rest[0].kind in ks }

  lemma {:induction false} ExecComplete(d: ExecD, rest: seq<Token>)
    requires ExecOk(d) && Follows(rest, ")&;|")
    ensures PExec(ExecYield(d) + rest) == Some((ExecTree(d), rest))
    decreases d
  {
    hide Words, Redirs, ItemsYield, PRedirs, PWords, Wrap, PLine, LineYield, LineTree;
    match d
    case Simple(items) => SimpleComplete(items, rest);
    case Block(open, line, close, redirs) =>
      var after := [close] + ItemsYield(redirs) + rest;
      var ts := ExecYield(d) + rest;
      assert ts == [open] + (LineYield(line) + after);
      assert ts[1..] == LineYield(line) + after;
      LineComplete(line, after);
      assert after[1..] == ItemsYield(redirs) + rest;
      RedirsComplete(redirs, rest);
  }

  lemma {:induction false} PipeComplete(d: PipeD, rest: seq<Token>)
    requires PipeOk(d) && Follows(rest, ")&;")
    ensures PPipe(PipeYield(d) + rest) == Some((PipeTree(d), rest))
    decreases d
  {
    hide PExec, ExecYield, ExecTree;
    match d
    case OnePipe(e) => ExecComplete(e, rest);
    case MorePipe(e, bar, more) =>
      var after := [bar] + PipeYield(more) + rest;
      assert PipeYield(d) + rest == ExecYield(e) + after;
      ExecComplete(e, after);
      assert after[1..] == PipeYield(more) + rest;
      PipeComplete(more, rest);
  }

  lemma {:induction false} AmpsComplete(c: Cmd, amps: seq<Token>, rest: seq<Token>)
    requires AmpsOk(amps) && !Starts(rest, '&')
    ensures PAmps(c, amps + rest) == (Backs(c, |amps|), rest)
    decreases amps
  {
    if amps == [] {
      assert amps + rest == rest;
    } else {
      assert (amps + rest)[1..] == amps[1..] + rest;
      AmpsComplete(Back(c), amps[1..], rest);
    }
  }

  lemma {:induction false} LineComplete(d: LineD, rest: seq<Token>)
    requires LineOk(d) && Follows(rest, ")")
    ensures PLine(LineYield(d) + rest) == Some((LineTree(d), rest))
    decreases d
  {
    hide PPipe, PAmps, PipeYield, PipeTree, PipeOk, Backs;
    match d
    case OneLine(p, amps) =>
      assert LineYield(d) + rest == PipeYield(p) + (amps + rest);
      PipeComplete(p, amps + rest);
      AmpsComplete(PipeTree(p), amps, rest);
    case MoreLine(p, amps, semi, more) =>
      var after := [semi] + LineYield(more) + rest;
      assert LineYield(d) + rest == PipeYield(p) + (amps + after);
      PipeComplete(p, amps + after);
      AmpsComplete(PipeTree(p), amps, after);
      assert after[1..] == LineYield(more) + rest;
      LineComplete(more, rest);
  }

  // ----- what is parsed is a sentence -----

  lemma {:induction false} RedirsSound(ts: seq<Token>) returns (items: seq<Item>)
    requires PRedirs(ts).Some?
    ensures RedirsOk(items) && ItemsYield(items) + PRedirs(ts).value.1 == ts
    ensures Redirs(items) == PRedirs(ts).value.0
    decreases |ts|
  {
    if |ts| == 0 || !IsRedir(ts[0].kind) {
      items := [];
    } else {
      var tail := RedirsSound(ts[2..]);
      items := [RedirItem(ts[0], ts[1])] + tail;
      assert items[1..] == tail;
    }
  }

  lemma {:induction false} WordsSound(ts: seq<Token>, argc: nat) returns (items: seq<Item>)
    requires PWords(ts, argc).Some?
    ensures ItemsOk(items) && ItemsYield(items) + PWords(ts, argc).value.1 == ts
    ensures Words(items) == PWords(ts, argc).value.0.0 && Redirs(items) == PWords(ts, argc).value.0.1
    ensures argc < MAXARGS ==> argc + |Words(items)| < MAXARGS
    decreases |ts|
  {
    hide Words, Redirs, ItemsYield, PRedirs, PWords, ItemsOk, RedirsOk;
    if Stops(ts) {
      items := [];
      WordsNone(argc, ts);
      NoItems();
    } else {
      PWordsInv(ts, argc);
      var r := PRedirs(ts[1..]);
      var s := PWords(r.value.1, argc + 1);
      var a := RedirsSound(ts[1..]);
      var b := WordsSound(r.value.1, argc + 1);
      PWordsStep(ts, argc, r.value.0, r.value.1, s.value.0.0, s.value.0.1, s.value.1);
      items := [WordItem(ts[0])] + (a + b);
      WordsGlue(ts, a, b, r.value.1, s.value.1);
    }
  }

  lemma NoItems()
    ensures ItemsOk([])
  {
  }

  lemma WordsGlue(ts: seq<Token>, a: seq<Item>, b: seq<Item>, after: seq<Token>, rest: seq<Token>)
    requires ts != [] && ts[0].kind == 'a' && RedirsOk(a) && ItemsOk(b)
    requires ItemsYield(a) + after == ts[1..] && ItemsYield(b) + rest == after
    ensures var items := [WordItem(ts[0])] + (a + b);
      && ItemsOk(items) && ItemsYield(items) + rest == ts
      && Words(items) == [ts[0]] + Words(b) && Redirs(items) == Redirs(a) + Redirs(b)
  {
    hide Words, Redirs, ItemsYield;
    var items := [WordItem(ts[0])] + (a + b);
    assert items[1..] == a + b && items[0] == WordItem(ts[0]);
    ItemsHead(items);
    ItemsSplit(a, b);
    NoWords(a);
    assert ts == [ts[0]] + ts[1..];
  }

  lemma SimpleGlue(ts: seq<Token>, a: seq<Item>, b: seq<Item>, after: seq<Token>, rest: seq<Token>)
    requires RedirsOk(a) && ItemsOk(b)
    requires ItemsYield(a) + after == ts && ItemsYield(b) + rest == after
    ensures ItemsOk(a + b) && ItemsYield(a + b) + rest == ts
    ensures Words(a + b) == Words(b) && Redirs(a + b) == Redirs(a) + Redirs(b)
  {
    hide Words, Redirs, ItemsYield;
    ItemsSplit(a, b);
    NoWords(a);
  }

  lemma PSimpleInv(ts: seq<Token>)
    requires PExec(ts).Some? && !Starts(ts, '(')
    ensures PRedirs(ts).Some? && PWords(PRedirs(ts).value.1, 0).Some?
  {
  }

  lemma SimpleSound(ts: seq<Token>) returns (d: ExecD)
    requires PExec(ts).Some? && !Starts(ts, '(')
    ensures ExecOk(d) && ExecYield(d) + PExec(ts).value.1 == ts && ExecTree(d) == PExec(ts).value.0
  {
    hide Words, Redirs, ItemsYield, PRedirs, PWords, PExec, Wrap, ItemsOk, RedirsOk;
    PSimpleInv(ts);
    var r := PRedirs(ts);
    var s := PWords(r.value.1, 0);
    var a := RedirsSound(ts);
    var b := WordsSound(r.value.1, 0);
    PSimpleStep(ts, r.value.0, r.value.1, s.value.0.0, s.value.0.1, s.value.1);
    SimpleGlue(ts, a, b, r.value.1, s.value.1);
    d := Simple(a + b);
  }

  lemma {:induction false} ExecSound(ts: seq<Token>) returns (d: ExecD)
    requires PExec(ts).Some?
    ensures ExecOk(d) && ExecYield(d) + PExec(ts).value.1 == ts && ExecTree(d) == PExec(ts).value.0
    decreases |ts|, 0
  {
    if Starts(ts, '(') {
      var l := PLine(ts[1..]);
      var line := LineSound(ts[1..]);
      var redirs := RedirsSound(l.value.1[1..]);
      d := Block(ts[0], line, l.value.1[0], redirs);
    } else {
      d := SimpleSound(ts);
    }
  }

  lemma {:induction false} PipeSound(ts: seq<Token>) returns (d: PipeD)
    requires PPipe(ts).Some?
    ensures PipeOk(d) && PipeYield(d) + PPipe(ts).value.1 == ts && PipeTree(d) == PPipe(ts).value.0
    decreases |ts|, 1
  {
    hide PExec, ExecYield, ExecTree, ExecOk;
    var e := ExecSound(ts);
    var r := PExec(ts).value.1;
    if Starts(r, '|') {
      var p := PipeSound(r[1..]);
      d := MorePipe(e, r[0], p);
    } else {
      d := OnePipe(e);
    }
  }

  lemma {:induction false} AmpsSound(c: Cmd, ts: seq<Token>) returns (amps: seq<Token>)
    ensures AmpsOk(amps) && amps + PAmps(c, ts).1 == ts && PAmps(c, ts).0 == Backs(c, |amps|)
    decreases |ts|
  {
    if Starts(ts, '&') {
      var tail := AmpsSound(Back(c), ts[1..]);
      amps := [ts[0]] + tail;
    } else {
      amps := [];
    }
  }

  lemma {:induction false} LineSound(ts: seq<Token>) returns (d: LineD)
    requires PLine(ts).Some?
    ensures LineOk(d) && LineYield(d) + PLine(ts).value.1 == ts && LineTree(d) == PLine(ts).value.0
    decreases |ts|, 2
  {
    hide PPipe, PAmps, PipeYield, PipeTree, PipeOk, Backs;
    var p := PipeSound(ts);
    var r := PPipe(ts).value;
    var amps := AmpsSound(r.0, r.1);
    var a := PAmps(r.0, r.1);
    if Starts(a.1, ';') {
      var more := LineSound(a.1[1..]);
      d := MoreLine(p, amps, a.1[0], more);
      assert LineYield(d) + PLine(ts).value.1 == PipeYield(p) + amps + [a.1[0]] + (LineYield(more) + PLine(ts).value.1);
    } else {
      d := OneLine(p, amps);
    }
  }

  /** The shell accepts exactly the sentences of the grammar, with the tree the grammar gives them. */
  lemma ParsesSentences(ts: seq<Token>, c: Cmd)
    ensures PCmd(ts) == Some(c) <==> Sentence(ts, c)
  {
    if PCmd(ts) == Some(c) {
      var d := LineSound(ts);
      assert LineYield(d) == ts;
    }
    if Sentence(ts, c) {
      var d :| LineOk(d) && LineYield(d) == ts && LineTree(d) == c;
      LineComplete(d, []);
      assert ts + [] == ts;
    }
  }

  /** No line has two trees. */
  lemma Unambiguous(d: LineD, e: LineD)
    requires LineOk(d) && LineOk(e) && LineYield(d) == LineYield(e)
    ensures LineTree(d) == LineTree(e)
  {
    LineComplete(d, []);
    LineComplete(e, []);
  }

  // ----- the words of a tree -----

  /** The tokens that argv and file pointers of a tree point at. */
  function TreeWords(c: Cmd): set<Token> {
    match c
    case Exec(argv) => set t | t in argv
    case Redir(c', r) => TreeWords(c') + {r.file}
    case Pipe(l, r) => TreeWords(l) + TreeWords(r)
    case List(l, r) => TreeWords(l) + TreeWords(r)
    case Back(c') => TreeWords(c')
  }

  function WordsIn(ts: seq<Token>): set<Token> { set t | t in ts && t.kind == 'a' }

  function Files(rs: seq<Redirect>): set<Token> {
    if rs == [] then {} else {rs[0].file} + Files(rs[1..])
  }

  lemma {:induction false} WrapWords(c: Cmd, rs: seq<Redirect>)
    ensures TreeWords(Wrap(c, rs)) == TreeWords(c) + Files(rs)
    decreases rs
  {
    if rs != [] {
      WrapWords(Redir(c, rs[0]), rs[1..]);
    }
  }

  lemma {:induction false} BacksWords(c: Cmd, n: nat)
    ensures TreeWords(Backs(c, n)) == TreeWords(c)
    decreases n
  {
    if n > 0 {
      BacksWords(Back(c), n - 1);
    }
  }

  lemma {:induction false} ItemsWords(items: seq<Item>)
    requires ItemsOk(items)
    ensures (set t | t in Words(items)) + Files(Redirs(items)) == WordsIn(ItemsYield(items))
    decreases items
  {
    if items != [] {
      var tail := items[1..];
      ItemsWords(tail);
      assert WordsIn(ItemsYield(items)) == WordsIn(ItemYield(items[0])) + WordsIn(ItemsYield(tail));
      if items[0].WordItem? {
        assert [] + Redirs(tail) == Redirs(tail);
        assert Words(items) == [items[0].word] + Words(tail);
        assert WordsIn(ItemYield(items[0])) == {items[0].word};
      } else {
        var r := RedirTo(items[0].op.kind, items[0].file);
        assert [] + Words(tail) == Words(tail);
        assert Redirs(items) == [r] + Redirs(tail);
        assert ([r] + Redirs(tail))[1..] == Redirs(tail);
        assert WordsIn(ItemYield(items[0])) == {items[0].file};
      }
    }
  }

  lemma {:induction false} ExecWords(d: ExecD)
    requires ExecOk(d)
    ensures TreeWords(ExecTree(d)) == WordsIn(ExecYield(d))
    decreases d
  {
    match d
    case Simple(items) =>
      WrapWords(Exec(Words(items)), Redirs(items));
      ItemsWords(items);
    case Block(open, line, close, redirs) =>
      WrapWords(LineTree(line), Redirs(redirs));
      ItemsWords(redirs);
      NoWords(redirs);
      LineWords(line);
      assert WordsIn(ExecYield(d)) == WordsIn(LineYield(line)) + WordsIn(ItemsYield(redirs));
  }

  lemma {:induction false} PipeWords(d: PipeD)
    requires PipeOk(d)
    ensures TreeWords(PipeTree(d)) == WordsIn(PipeYield(d))
    decreases d
  {
    match d
    case OnePipe(e) => ExecWords(e);
    case MorePipe(e, bar, rest) =>
      ExecWords(e);
      PipeWords(rest);
      assert WordsIn(PipeYield(d)) == WordsIn(ExecYield(e)) + WordsIn(PipeYield(rest));
  }

  /** A tree points at every word of its line, and at nothing else. */
  lemma {:induction false} LineWords(d: LineD)
    requires LineOk(d)
    ensures TreeWords(LineTree(d)) == WordsIn(LineYield(d))
    decreases d
  {
    match d
    case OneLine(p, amps) =>
      PipeWords(p);
      BacksWords(PipeTree(p), |amps|);
      assert WordsIn(LineYield(d)) == WordsIn(PipeYield(p));
    case MoreLine(p, amps, semi, rest) =>
      PipeWords(p);
      BacksWords(PipeTree(p), |amps|);
      LineWords(rest);
      assert WordsIn(LineYield(d)) == WordsIn(PipeYield(p)) + WordsIn(LineYield(rest));
  }
}
