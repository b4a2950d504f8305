/**
  The parser of user/sh.c on its buffer: a line of `es` characters followed by a NUL. A panic
  of the shell is the result None. The methods are proved against the recursive descent on
  tokens.
 */
module Shell {
  import opened Wrappers
  import opened ShellGrammar
  import opened ShellShape
  import opened ShellText

  // ----- the buffer -----

  predicate Line(buf: array<char>, es: nat)
    reads buf
  {
    es < buf.Length && buf[es] == 0 as char && forall k :: 0 <= k < es ==> buf[k] != 0 as char
  }

  method GetToken(buf: array<char>, ps: nat, es: nat) returns (ret: char, q: nat, eq: nat, ps': nat)
    requires Line(buf, es) && ps <= es
    ensures ps <= ps' <= es
    ensures var ts := Tokens(buf[..es], ps);
      if ts == [] then ret == 0 as char
      else ret == ts[0].kind && q == ts[0].lo && eq == ts[0].hi && Tokens(buf[..es], ps') == ts[1..] && ps < ps'
  {
    ghost var b := buf[..es];
    var s := SkipSpace(buf, ps, es);
    q := s;
    ret, s := TokenEnd(buf, s, es);
    eq := s;
    ps' := SkipSpace(buf, s, es);
  }

  /** The switch of gettoken. */
  method TokenEnd(buf: array<char>, q: nat, es: nat) returns (ret: char, s: nat)
    requires Line(buf, es) && q <= es && (q < es ==> !IsSpace(buf[q]))
    ensures q == es ==> ret == 0 as char && s == q
    ensures q < es ==> s <= es && Token(ret, q, s) == TokenAt(buf[..es], q)
  {
    ghost var b := buf[..es];
    s := q;
    ret := buf[s];
    if buf[s] == 0 as char {
    } else if buf[s] in "|();&<" {
      s := s + 1;
    } else if buf[s] == '>' {
      s := s + 1;
      if buf[s] == '>' {
        ret := '+';
        s := s + 1;
      }
    } else {
      ret := 'a';
      while s < es && !IsSpace(buf[s]) && !IsSymbol(buf[s])
        invariant q <= s <= es && WordEnd(b, s) == WordEnd(b, q)
      {
        s := s + 1;
      }
    }
  }

  method SkipSpace(buf: array<char>, ps: nat, es: nat) returns (s: nat)
    requires Line(buf, es) && ps <= es
    ensures s == Skip(buf[..es], ps) && Tokens(buf[..es], s) == Tokens(buf[..es], ps)
  {
    s := ps;
    while s < es && IsSpace(buf[s])
      invariant ps <= s <= es && Skip(buf[..es], s) == Skip(buf[..es], ps)
    {
      s := s + 1;
    }
    SkipTwice(buf[..es], ps);
  }

  /** The kinds of token that start with one of the symbols `toks`. */
  predicate KindIn(k: char, toks: string) { k != 'a' && (if k == '+' then '>' else k) in toks }

  method Peek(buf: array<char>, ps: nat, es: nat, toks: string) returns (r: bool, ps': nat)
    requires Line(buf, es) && ps <= es && forall c :: c in toks ==> IsSymbol(c)
    ensures ps <= ps' <= es && Tokens(buf[..es], ps') == Tokens(buf[..es], ps)
    ensures var ts := Tokens(buf[..es], ps); r <==> ts != [] && KindIn(ts[0].kind, toks)
    ensures Tokens(buf[..es], ps) == [] <==> ps' == es
  {
    var s := SkipSpace(buf, ps, es);
    ps' := s;
    r := buf[s] != 0 as char && buf[s] in toks;
    ghost var b := buf[..es];
    SkipTwice(b, ps);
    if s < es {
      assert Tokens(b, ps) == [TokenAt(b, s)] + Tokens(b, TokenAt(b, s).hi);
    }
  }

  // ----- the parser -----

  /** The tokens from position `ps` on. */
  ghost function Ahead(buf: array<char>, es: nat, ps: nat): seq<Token>
    requires ps <= es <= buf.Length
    reads buf
  {
    Tokens(buf[..es], ps)
  }

  /** A method's result and position agree with the descent on tokens. */
  ghost predicate Agrees<T(!new)>(r: Option<T>, rest: seq<Token>, p: Parsed<T>) {
    if p.None? then r.None? else r == Some(p.value.0) && rest == p.value.1
  }

  function Join(rs: seq<Redirect>, p: Parsed<seq<Redirect>>): Parsed<seq<Redirect>> {
    if p.None? then None else Some((rs + p.value.0, p.value.1))
  }

  method ParseRedirs(buf: array<char>, ps: nat, es: nat) returns (r: Option<seq<Redirect>>, ps': nat)
    requires Line(buf, es) && ps <= es
    ensures ps <= ps' <= es && Agrees(r, Ahead(buf, es, ps'), PRedirs(Ahead(buf, es, ps)))
  {
    hide Tokens;
    var rs: seq<Redirect> := [];
    ghost var ts0 := Ahead(buf, es, ps);
    var more;
    more, ps' := Peek(buf, ps, es, "<>");
    JoinNone(PRedirs(ts0));
    while more
      invariant ps <= ps' <= es
      invariant PRedirs(ts0) == Join(rs, PRedirs(Ahead(buf, es, ps')))
      invariant more <==> Ahead(buf, es, ps') != [] && IsRedir(Ahead(buf, es, ps')[0].kind)
      decreases es - ps'
    {
      ghost var ts := Ahead(buf, es, ps');
      var tok, _, _, p1 := GetToken(buf, ps', es);
      var kind, q, eq, p2 := GetToken(buf, p1, es);
      if kind != 'a' {
        return None, p2;
      }
      RedirStep(rs, ts);
      var file := Token('a', q, eq);
      var redir;
      if tok == '<' {
        redir := Redirect(file, O_RDONLY, 0);
      } else if tok == '>' {
        redir := Redirect(file, O_WRONLY + O_CREATE + O_TRUNC, 1);
      } else {
        redir := Redirect(file, O_WRONLY + O_CREATE, 1);
      }
      rs := rs + [redir];
      more, ps' := Peek(buf, p2, es, "<>");
    }
    r := Some(rs);
    assert PRedirs(Ahead(buf, es, ps')) == Some(([], Ahead(buf, es, ps')));
    assert rs + [] == rs;
  }

  lemma JoinNone(p: Parsed<seq<Redirect>>)
    ensures Join([], p) == p
  {
    if p.Some? {
      assert [] + p.value.0 == p.value.0;
    }
  }

  lemma RedirStep(rs: seq<Redirect>, ts: seq<Token>)
    requires |ts| >= 2 && IsRedir(ts[0].kind) && ts[1].kind == 'a'
    ensures Join(rs, PRedirs(ts)) == Join(rs + [RedirTo(ts[0].kind, ts[1])], PRedirs(ts[2..]))
  {
    var p := PRedirs(ts[2..]);
    if p.Some? {
      assert rs + ([RedirTo(ts[0].kind, ts[1])] + p.value.0) == rs + [RedirTo(ts[0].kind, ts[1])] + p.value.0;
    }
  }

  type Simple = (seq<Token>, seq<Redirect>)

  function JoinWords(ws: seq<Token>, rs: seq<Redirect>, p: Parsed<Simple>): Parsed<Simple> {
    if p.None? then None else Some(((ws + p.value.0.0, rs + p.value.0.1), p.value.1))
  }

  lemma JoinWordsNone(p: Parsed<Simple>)
    ensures JoinWords([], [], p) == p
  {
    if p.Some? {
      assert [] + p.value.0.0 == p.value.0.0 && [] + p.value.0.1 == p.value.0.1;
    }
  }

  lemma WordsStop(ws: seq<Token>, rs: seq<Redirect>, ts: seq<Token>, argc: nat)
    requires Stops(ts)
    ensures JoinWords(ws, rs, PWords(ts, argc)) == Some(((ws, rs), ts))
  {
    assert ws + [] == ws && rs + [] == rs;
  }

  lemma WordsFail(ws: seq<Token>, rs: seq<Redirect>, ts: seq<Token>, argc: nat)
    requires !Stops(ts) && (ts[0].kind != 'a' || argc + 1 >= MAXARGS)
    ensures JoinWords(ws, rs, PWords(ts, argc)) == None
  {
  }

  lemma WordStep(ws: seq<Token>, rs: seq<Redirect>, ts: seq<Token>, argc: nat)
    requires !Stops(ts) && ts[0].kind == 'a' && argc + 1 < MAXARGS
    ensures var r := PRedirs(ts[1..]);
      JoinWords(ws, rs, PWords(ts, argc)) ==
        if r.None? then None else JoinWords(ws + [ts[0]], rs + r.value.0, PWords(r.value.1, argc + 1))
  {
    var r := PRedirs(ts[1..]);
    if r.Some? {
      var p := PWords(r.value.1, argc + 1);
      if p.Some? {
        assert ws + ([ts[0]] + p.value.0.0) == ws + [ts[0]] + p.value.0.0;
        assert rs + (r.value.0 + p.value.0.1) == rs + r.value.0 + p.value.0.1;
      }
    }
  }

  /** The rest of parseexec, once the leading redirections are read. */
  method ParseWords(buf: array<char>, ps: nat, es: nat) returns (r: Option<Simple>, ps': nat)
    requires Line(buf, es) && ps <= es
    ensures ps <= ps' <= es && Agrees(r, Ahead(buf, es, ps'), PWords(Ahead(buf, es, ps), 0))
    ensures r.Some? ==> |r.value.0| < MAXARGS
  {
    hide Tokens, PRedirs, PWords, JoinWords;
    var ws: seq<Token>, rs: seq<Redirect>, argc := [], [], 0;
    ghost var ts0 := Ahead(buf, es, ps);
    JoinWordsNone(PWords(ts0, 0));
    var stop;
    stop, ps' := Peek(buf, ps, es, "|)&;");
    while !stop
      invariant ps <= ps' <= es && argc == |ws| < MAXARGS
      invariant PWords(ts0, 0) == JoinWords(ws, rs, PWords(Ahead(buf, es, ps'), argc))
      invariant stop ==> Stops(Ahead(buf, es, ps'))
      invariant !stop && Ahead(buf, es, ps') != [] ==> !Stops(Ahead(buf, es, ps'))
      decreases es - ps', !stop
    {
      ghost var ts := Ahead(buf, es, ps');
      var tok, q, eq, p1 := GetToken(buf, ps', es);
      if tok == 0 as char {
        KindsNotNul(buf[..es], ps');
        break;
      }
      KindsNotNul(buf[..es], ps');
      if tok != 'a' {
        WordsFail(ws, rs, ts, argc);
        return None, p1;
      }
      argc := argc + 1;
      if argc >= MAXARGS {
        WordsFail(ws, rs, ts, argc - 1);
        return None, p1;
      }
      WordStep(ws, rs, ts, argc - 1);
      ws := ws + [Token('a', q, eq)];
      var more;
      more, ps' := ParseRedirs(buf, p1, es);
      if more.None? {
        return None, ps';
      }
      rs := rs + more.value;
      stop, ps' := Peek(buf, ps', es, "|)&;");
    }
    r := Some((ws, rs));
    WordsStop(ws, rs, Ahead(buf, es, ps'), argc);
  }

  lemma KindsNotNul(b: seq<char>, i: nat)
    requires i <= |b| && forall k :: 0 <= k < |b| ==> b[k] != 0 as char
    ensures Tokens(b, i) != [] ==> Tokens(b, i)[0].kind != 0 as char
  {
  }

  method ParseExec(buf: array<char>, ps: nat, es: nat) returns (r: Option<Cmd>, ps': nat)
    requires Line(buf, es) && ps <= es
    ensures ps <= ps' <= es && Agrees(r, Ahead(buf, es, ps'), PExec(Ahead(buf, es, ps)))
    decreases es - ps, 1
  {
    hide Tokens, PRedirs, PWords, PLine;
    var block;
    block, ps' := Peek(buf, ps, es, "(");
    if block {
      r, ps' := ParseBlock(buf, ps', es);
      return;
    }
    var rs;
    rs, ps' := ParseRedirs(buf, ps', es);
    if rs.None? {
      return None, ps';
    }
    var words;
    words, ps' := ParseWords(buf, ps', es);
    if words.None? {
      return None, ps';
    }
    r := Some(Wrap(Exec(words.value.0), rs.value + words.value.1));
  }

  method ParseBlock(buf: array<char>, ps: nat, es: nat) returns (r: Option<Cmd>, ps': nat)
    requires Line(buf, es) && ps <= es
    ensures ps <= ps' <= es
    ensures Starts(Ahead(buf, es, ps), '(') ==> Agrees(r, Ahead(buf, es, ps'), PExec(Ahead(buf, es, ps)))
    ensures !Starts(Ahead(buf, es, ps), '(') ==> r.None?
    decreases es - ps, 0
  {
    hide Tokens, PRedirs, PWords, PLine;
    var open;
    open, ps' := Peek(buf, ps, es, "(");
    if !open {
      return None, ps';
    }
    var _, _, _, p1 := GetToken(buf, ps', es);
    r, ps' := ParseLine(buf, p1, es);
    if r.None? {
      return;
    }
    var close;
    close, ps' := Peek(buf, ps', es, ")");
    if !close {
      return None, ps';
    }
    var _, _, _, p2 := GetToken(buf, ps', es);
    var rs;
    rs, ps' := ParseRedirs(buf, p2, es);
    if rs.None? {
      return None, ps';
    }
    r := Some(Wrap(r.value, rs.value));
  }

  method ParsePipe(buf: array<char>, ps: nat, es: nat) returns (r: Option<Cmd>, ps': nat)
    requires Line(buf, es) && ps <= es
    ensures ps <= ps' <= es && Agrees(r, Ahead(buf, es, ps'), PPipe(Ahead(buf, es, ps)))
    decreases es - ps, 2
  {
    hide Tokens, PExec;
    r, ps' := ParseExec(buf, ps, es);
    if r.None? {
      return;
    }
    var bar;
    bar, ps' := Peek(buf, ps', es, "|");
    if bar {
      var _, _, _, p1 := GetToken(buf, ps', es);
      var right;
      right, ps' := ParsePipe(buf, p1, es);
      r := if right.None? then None else Some(Pipe(r.value, right.value));
    }
  }

  method ParseLine(buf: array<char>, ps: nat, es: nat) returns (r: Option<Cmd>, ps': nat)
    requires Line(buf, es) && ps <= es
    ensures ps <= ps' <= es && Agrees(r, Ahead(buf, es, ps'), PLine(Ahead(buf, es, ps)))
    decreases es - ps, 3
  {
    hide Tokens, PPipe;
    r, ps' := ParsePipe(buf, ps, es);
    if r.None? {
      return;
    }
    var cmd := r.value;
    ghost var ts1 := Ahead(buf, es, ps');
    var amp;
    amp, ps' := Peek(buf, ps', es, "&");
    while amp
      invariant ps <= ps' <= es
      invariant PAmps(cmd, Ahead(buf, es, ps')) == PAmps(r.value, ts1)
      invariant amp <==> Starts(Ahead(buf, es, ps'), '&')
      decreases es - ps'
    {
      var _, _, _, p1 := GetToken(buf, ps', es);
      cmd := Back(cmd);
      amp, ps' := Peek(buf, p1, es, "&");
    }
    var semi;
    semi, ps' := Peek(buf, ps', es, ";");
    if semi {
      var _, _, _, p1 := GetToken(buf, ps', es);
      var rest;
      rest, ps' := ParseLine(buf, p1, es);
      r := if rest.None? then None else Some(List(cmd, rest.value));
    } else {
      r := Some(cmd);
    }
  }

  // ----- terminating the words -----

  predicate EndsWord(c: Cmd, k: int) { exists t :: t in TreeWords(c) && t.hi == k }

  method NulTerminate(buf: array<char>, c: Cmd)
    requires forall t :: t in TreeWords(c) ==> t.hi < buf.Length
    modifies buf
    ensures forall k :: 0 <= k < buf.Length ==> buf[k] == if EndsWord(c, k) then 0 as char else old(buf[k])
    decreases c
  {
    match c
    case Exec(argv) =>
      var i := 0;
      while i < |argv|
        invariant 0 <= i <= |argv|
        invariant forall k :: 0 <= k < buf.Length ==>
          buf[k] == if EndsWord(Exec(argv[..i]), k) then 0 as char else old(buf[k])
      {
        assert argv[i] in TreeWords(c);
        OneMore(argv, i);
        buf[argv[i].hi] := 0 as char;
        i := i + 1;
      }
      assert argv[..i] == argv;
    case Redir(c', r) =>
      assert TreeWords(c) == TreeWords(c') + {r.file};
      NulTerminate(buf, c');
      assert forall k :: EndsWord(c, k) <==> EndsWord(c', k) || k == r.file.hi;
      buf[r.file.hi] := 0 as char;
    case Pipe(l, r) =>
      NulTerminate(buf, l);
      NulTerminate(buf, r);
      assert forall k :: EndsWord(c, k) <==> EndsWord(l, k) || EndsWord(r, k);
    case List(l, r) =>
      NulTerminate(buf, l);
      NulTerminate(buf, r);
      assert forall k :: EndsWord(c, k) <==> EndsWord(l, k) || EndsWord(r, k);
    case Back(c') =>
      NulTerminate(buf, c');
      assert forall k :: EndsWord(c, k) <==> EndsWord(c', k);
  }

  lemma OneMore(argv: seq<Token>, i: nat)
    requires i < |argv|
    ensures forall k :: EndsWord(Exec(argv[..i + 1]), k) <==> EndsWord(Exec(argv[..i]), k) || k == argv[i].hi
  {
  }

  /** The C string that starts at `i`. */
  function CString(b: seq<char>, i: nat): seq<char>
    decreases |b| - i
  {
    if i >= |b| || b[i] == 0 as char then [] else [b[i]] + CString(b, i + 1)
  }

  lemma {:induction false} CStringIs(b: seq<char>, lo: nat, hi: nat)
    requires lo <= hi < |b| && b[hi] == 0 as char && forall k :: lo <= k < hi ==> b[k] != 0 as char
    ensures CString(b, lo) == b[lo..hi]
    decreases hi - lo
  {
    if lo < hi {
      CStringIs(b, lo + 1, hi);
      assert b[lo..hi] == [b[lo]] + b[lo + 1..hi];
    }
  }

  lemma NotInside(b: seq<char>, t: Token, u: Token)
    requires IsWord(b, t) && IsWord(b, u)
    ensures !(t.lo <= u.hi < t.hi)
  {
  }

  /** Ends of words fall on no character of a word, so terminating all of them spoils none. */
  lemma WordsSurvive(b: seq<char>, es: nat, after: seq<char>, c: Cmd, t: Token)
    requires es < |b| == |after| && forall k :: 0 <= k < es ==> b[k] != 0 as char
    requires forall u :: u in TreeWords(c) ==> IsWord(b[..es], u)
    requires forall k :: 0 <= k < |b| ==> after[k] == if EndsWord(c, k) then 0 as char else b[k]
    requires t in TreeWords(c)
    ensures t.lo < t.hi <= |b| && CString(after, t.lo) == b[t.lo..t.hi]
  {
    assert EndsWord(c, t.hi);
    forall u | u in TreeWords(c)
      ensures !(t.lo <= u.hi < t.hi)
    {
      NotInside(b[..es], t, u);
    }
    CStringIs(after, t.lo, t.hi);
    assert after[t.lo..t.hi] == b[t.lo..t.hi];
  }

  /** What parsecmd leaves in the buffer: every word of the tree is a C string with its own text. */
  ghost predicate Terminated(b: seq<char>, after: seq<char>, c: Cmd) {
    && |after| == |b|
    && forall t :: t in TreeWords(c) ==> t.lo < t.hi <= |b| && CString(after, t.lo) == b[t.lo..t.hi]
  }

  /**
    A tree for exactly the lines whose tokens are a sentence of the grammar. It has the operators
    of the line, between the commands that they join; its pointers read as the words of the line.
   */
  method ParseCmd(buf: array<char>, es: nat) returns (r: Option<Cmd>)
    requires Line(buf, es)
    modifies buf
    ensures var ts := Tokens(old(buf[..es]), 0);
      && Spells(old(buf[..es]), 0, ts)
      && (forall c :: r == Some(c) <==> Sentence(ts, c))
      && (r.Some? ==> Placed(ts, r.value) && TreeOps(r.value) == LineOps(ts) && TreeWords(r.value) == WordsIn(ts))
    ensures r.None? ==> buf[..] == old(buf[..])
    ensures r.Some? ==> Terminated(old(buf[..]), buf[..], r.value)
  {
    hide Tokens, PLine, Sentence, IsWord, Placed, TreeOps, LineOps, Spells;
    ghost var line, ts := buf[..es], Tokens(buf[..es], 0);
    ghost var before := buf[..];
    TokensSpell(line, 0);
    SpellsOrdered(line, 0, ts);
    var ps;
    r, ps := ParseLine(buf, 0, es);
    forall c
      ensures PCmd(ts) == Some(c) <==> Sentence(ts, c)
    {
      ParsesSentences(ts, c);
    }
    if r.None? {
      return;
    }
    var _, ps' := Peek(buf, ps, es, "");
    if ps' != es {
      return None;
    }
    SentencePlaced(ts, r.value);
    forall t | t in TreeWords(r.value)
      ensures IsWord(line, t) && t.lo < t.hi <= es
    {
      WordsOfLine(line, 0, t);
      assert IsWord(line, t);
      WordRange(line, t);
    }
    NulTerminate(buf, r.value);
    ghost var after := buf[..];
    assert before[..es] == line;
    forall t | t in TreeWords(r.value)
      ensures CString(after, t.lo) == before[t.lo..t.hi]
    {
      WordsSurvive(before, es, after, r.value, t);
    }
  }

  lemma SpellsOrdered(b: seq<char>, i: nat, ts: seq<Token>)
    requires Spells(b, i, ts)
    ensures Ordered(ts)
  {
  }

  lemma WordRange(b: seq<char>, t: Token)
    requires IsWord(b, t)
    ensures t.lo < t.hi <= |b|
  {
  }
}
