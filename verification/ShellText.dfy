/**
  The tokens of a command line of user/sh.c: the scanner as a function, and what its tokens are
  in terms of the text alone.
 */
module ShellText {
  import opened ShellGrammar

  predicate IsSpace(c: char) { c == ' ' || c == '\t' || c == '\r' || c == '\n' || c == 11 as char }

  predicate IsSymbol(c: char) { c in "<|>&;()" }

  predicate IsWordChar(c: char) { !IsSpace(c) && !IsSymbol(c) }

  /** The first position from `i` on that is not white space. */
  function Skip(b: seq<char>, i: nat): (j: nat)
    requires i <= |b|
    ensures i <= j <= |b| && (j < |b| ==> !IsSpace(b[j]))
    decreases |b| - i
  {
    if i < |b| && IsSpace(b[i]) then Skip(b, i + 1) else i
  }

  /** The end of the word that starts before `i`. */
  function WordEnd(b: seq<char>, i: nat): (j: nat)
    requires i <= |b|
    ensures i <= j <= |b| && (j < |b| ==> !IsWordChar(b[j]))
    ensures forall k :: i <= k < j ==> IsWordChar(b[k])
    decreases |b| - i
  {
    if i < |b| && IsWordChar(b[i]) then WordEnd(b, i + 1) else i
  }

  function TokenAt(b: seq<char>, i: nat): (t: Token)
    requires i < |b| && !IsSpace(b[i])
    ensures i == t.lo < t.hi <= |b|
  {
    if b[i] == '>' then (if i + 1 < |b| && b[i + 1] == '>' then Token('+', i, i + 2) else Token('>', i, i + 1))
    else if IsSymbol(b[i]) then Token(b[i], i, i + 1)
    else Token('a', i, WordEnd(b, i))
  }

  function Tokens(b: seq<char>, i: nat): seq<Token>
    requires i <= |b|
    decreases |b| - i
  {
    var j := Skip(b, i);
    if j == |b| then [] else [TokenAt(b, j)] + Tokens(b, TokenAt(b, j).hi)
  }

  lemma {:induction false} SkipTwice(b: seq<char>, i: nat)
    requires i <= |b|
    ensures Skip(b, Skip(b, i)) == Skip(b, i) && Tokens(b, Skip(b, i)) == Tokens(b, i)
    decreases |b| - i
  {
  }

  /** A word is a longest run of word characters. */
  predicate IsWord(b: seq<char>, t: Token) {
    && t.lo < t.hi <= |b|
    && (forall k :: t.lo <= k < t.hi ==> IsWordChar(b[k]))
    && (t.hi < |b| ==> !IsWordChar(b[t.hi]))
  }

  lemma {:induction false} WordsOfLine(b: seq<char>, i: nat, t: Token)
    requires i <= |b| && t in Tokens(b, i) && t.kind == 'a'
    ensures IsWord(b, t)
    decreases |b| - i
  {
    var j := Skip(b, i);
    var u := TokenAt(b, j);
    if t != u {
      WordsOfLine(b, u.hi, t);
    }
  }

  // ----- what tokens are -----

  /** White space, and the characters that are tokens by themselves. */
  predicate White(c: char) { c in " \t\r\n" || c == 11 as char }

  predicate Operator(c: char) { c in "<|>&;()" }

  /** What the text of a token is, for each kind; a word is a longest run of other characters. */
  ghost predicate Spelled(b: seq<char>, t: Token) {
    && t.lo < t.hi <= |b|
    && if t.kind == '<' then b[t.lo..t.hi] == "<"
       else if t.kind == '>' then b[t.lo..t.hi] == ">" && (t.hi < |b| ==> b[t.hi] != '>')
       else if t.kind == '+' then b[t.lo..t.hi] == ">>"
       else if t.kind == 'a' then
         && (forall k :: t.lo <= k < t.hi ==> !White(b[k]) && !Operator(b[k]))
         && (t.hi < |b| ==> White(b[t.hi]) || Operator(b[t.hi]))
       else t.kind in "|&;()" && b[t.lo..t.hi] == [t.kind]
  }

  predicate InToken(ts: seq<Token>, p: int) { exists k :: 0 <= k < |ts| && ts[k].lo <= p < ts[k].hi }

  /** The tokens lie one behind the other from `i` on, and only white space is outside of them. */
  ghost predicate Spells(b: seq<char>, i: nat, ts: seq<Token>) {
    && i <= |b|
    && (forall k :: 0 <= k < |ts| ==> i <= ts[k].lo && Spelled(b, ts[k]))
    && (forall j, k :: 0 <= j < k < |ts| ==> ts[j].hi <= ts[k].lo)
    && (forall p :: i <= p < |b| && !InToken(ts, p) ==> White(b[p]))
  }

  lemma {:induction false} SkipWhite(b: seq<char>, i: nat)
    requires i <= |b|
    ensures forall p :: i <= p < Skip(b, i) ==> White(b[p])
    ensures Skip(b, i) < |b| ==> !White(b[Skip(b, i)])
    decreases |b| - i
  {
    if i < |b| && IsSpace(b[i]) { SkipWhite(b, i + 1); }
  }

  lemma TokenSpelled(b: seq<char>, i: nat)
    requires i < |b| && !IsSpace(b[i])
    ensures Spelled(b, TokenAt(b, i))
  {
    var t := TokenAt(b, i);
    assert b[i..i + 1] == [b[i]];
    if t.kind == '+' { assert b[i..i + 2] == [b[i], b[i + 1]]; }
  }

  /** At most one token starts at a place. */
  lemma OneToken(b: seq<char>, t: Token, u: Token)
    requires Spelled(b, t) && Spelled(b, u) && t.lo == u.lo
    ensures t == u
  {
    assert b[t.lo..t.hi][0] == b[t.lo] && b[u.lo..u.hi][0] == b[u.lo];
    if t.kind == '+' { assert b[t.lo..t.hi][1] == b[t.lo + 1]; }
    if u.kind == '+' { assert b[u.lo..u.hi][1] == b[u.lo + 1]; }
  }

  lemma InFirst(t: Token, us: seq<Token>, p: int)
    ensures InToken([t] + us, p) <==> t.lo <= p < t.hi || InToken(us, p)
  {
    var ts := [t] + us;
    if InToken(us, p) {
      var k :| 0 <= k < |us| && us[k].lo <= p < us[k].hi;
      assert ts[k + 1] == us[k];
    }
    if t.lo <= p < t.hi { assert ts[0] == t; }
  }

  /** The tokens of the scanner are such tokens, */
  lemma {:induction false} TokensSpell(b: seq<char>, i: nat)
    requires i <= |b|
    ensures Spells(b, i, Tokens(b, i))
    decreases |b| - i
  {
    hide Spelled, TokenAt, Skip, White;
    var j, ts := Skip(b, i), Tokens(b, i);
    SkipWhite(b, i);
    if j < |b| {
      var t := TokenAt(b, j);
      TokenSpelled(b, j);
      TokensSpell(b, t.hi);
      var us := Tokens(b, t.hi);
      assert ts == [t] + us;
      forall p | i <= p < |b| && !InToken(ts, p)
        ensures White(b[p])
      {
        InFirst(t, us, p);
      }
    }
  }

  /** and no others are. */
  lemma {:induction false} SpellsOnly(b: seq<char>, i: nat, ts: seq<Token>)
    requires Spells(b, i, ts)
    ensures ts == Tokens(b, i)
    decreases |ts|
  {
    hide Spelled, TokenAt, Skip, White;
    var j := Skip(b, i);
    SkipWhite(b, i);
    if ts == [] {
      assert forall p :: i <= p < |b| ==> !InToken(ts, p);
    } else {
      var t := ts[0];
      FirstChar(b, t);
      forall p | i <= p < t.lo
        ensures White(b[p])
      {
        assert !InToken(ts, p);
      }
      assert j == t.lo;
      TokenSpelled(b, j);
      OneToken(b, t, TokenAt(b, j));
      var us := ts[1..];
      assert ts == [t] + us;
      forall p | t.hi <= p < |b| && !InToken(us, p)
        ensures White(b[p])
      {
        InFirst(t, us, p);
      }
      SpellsOnly(b, t.hi, us);
    }
  }

  lemma FirstChar(b: seq<char>, t: Token)
    requires Spelled(b, t)
    ensures t.lo < t.hi <= |b| && !White(b[t.lo]) && !IsSpace(b[t.lo])
  {
    assert b[t.lo..t.hi][0] == b[t.lo];
  }
}
