/** Characters and tokens of sh.c, and that a command survives being written and parsed. */
module ShellLex {
  import opened ShellGrammar

  /** A word in the input: from q up to eq. */
  datatype Span = Span(lo: nat, hi: nat)

  predicate IsSpace(c: char) { c == ' ' || c == '\t' || c == '\r' || c == '\n' || c == '\U{000B}' }

  predicate IsSymbol(c: char) { c == '<' || c == '|' || c == '>' || c == '&' || c == ';' || c == '(' || c == ')' }

  predicate IsWordChar(c: char) { !IsSpace(c) && !IsSymbol(c) && c != '\0' }

  /** The first position from p on that is no white space. */
  function Skip(s: string, p: nat): (q: nat)
    requires p <= |s|
    ensures p <= q <= |s| && (q < |s| ==> !IsSpace(s[q])) && forall i :: p <= i < q ==> IsSpace(s[i])
    decreases |s| - p
  {
    if p < |s| && IsSpace(s[p]) then Skip(s, p + 1) else p
  }

  function WordEnd(s: string, p: nat): (q: nat)
    requires p <= |s|
    ensures p <= q <= |s| && (q < |s| ==> IsSpace(s[q]) || IsSymbol(s[q]))
    ensures forall i :: p <= i < q ==> !IsSpace(s[i]) && !IsSymbol(s[i])
    decreases |s| - p
  {
    if p < |s| && !IsSpace(s[p]) && !IsSymbol(s[p]) then WordEnd(s, p + 1) else p
  }

  /** The token that starts at p, and where it ends. */
  function LexOne(s: string, p: nat): (r: (Tok<Span>, nat))
    requires p < |s| && !IsSpace(s[p])
    ensures p < r.1 <= |s|
    ensures r.0.Sym? <==> IsSymbol(s[p])
    ensures r.0.Word? ==> r.0.w == Span(p, r.1) && r.1 == WordEnd(s, p)
  {
    if s[p] == '>' then if p + 1 < |s| && s[p + 1] == '>' then (Sym('+'), p + 2) else (Sym('>'), p + 1)
    else if IsSymbol(s[p]) then (Sym(s[p]), p + 1)
    else (Word(Span(p, WordEnd(s, p))), WordEnd(s, p))
  }

  /** All tokens from p on. */
  function LexAll(s: string, p: nat): seq<Tok<Span>>
    requires p <= |s|
    decreases |s| - p
  {
    var q := Skip(s, p);
    if q == |s| then [] else [LexOne(s, q).0] + LexAll(s, LexOne(s, q).1)
  }

  lemma SkipTwice(s: string, p: nat)
    requires p <= |s|
    ensures Skip(s, Skip(s, p)) == Skip(s, p) && LexAll(s, Skip(s, p)) == LexAll(s, p)
  {
  }

  /** What peek() sees is the first token. */
  lemma FirstToken(s: string, p: nat)
    requires p <= |s|
    ensures var q, ts := Skip(s, p), LexAll(s, p);
      (ts == [] <==> q == |s|) &&
      (ts != [] ==> ts[0] == LexOne(s, q).0 && ts[1..] == LexAll(s, LexOne(s, q).1))
  {
  }

  // ---------- what the tokens are ----------

  ghost predicate Covers(w: Span, j: nat) { w.lo <= j < w.hi }

  /** What token the text of a span is: a longest word, >> or a single symbol. */
  ghost predicate TokIs(s: string, w: Span, t: Tok<Span>) {
    w.lo < w.hi <= |s| && (forall j :: w.lo <= j < w.hi ==> !IsSpace(s[j])) &&
    match t
    case Word(v) => v == w && WordAt(s, w)
    case Sym(c) =>
      if c == '+' then s[w.lo..w.hi] == ">>"
      else s[w.lo..w.hi] == [c] && IsSymbol(c) && (c == '>' && w.hi < |s| ==> s[w.hi] != '>')
  }

  /** A character is in a span if and only if it is no white space. */
  ghost predicate SplitAt(s: string, ws: seq<Span>, j: nat)
    requires j < |s|
  {
    !IsSpace(s[j]) <==> exists i :: 0 <= i < |ws| && Covers(ws[i], j)
  }

  ghost predicate Splits(s: string, p: nat, ws: seq<Span>) {
    (forall i :: 0 <= i < |ws| ==> p <= ws[i].lo < ws[i].hi <= |s|) &&
    (forall i, j :: 0 <= i < j < |ws| ==> ws[i].hi <= ws[j].lo) &&
    forall j: nat {:trigger SplitAt(s, ws, j)} :: p <= j < |s| ==> SplitAt(s, ws, j)
  }

  lemma SplitMore(s: string, p: nat, q: nat, e: nat, rest: seq<Span>, j: nat)
    requires p <= q < e <= |s| && Splits(s, e, rest) && p <= j < |s|
    requires (forall i :: p <= i < q ==> IsSpace(s[i])) && forall i :: q <= i < e ==> !IsSpace(s[i])
    ensures SplitAt(s, [Span(q, e)] + rest, j)
  {
    var ws := [Span(q, e)] + rest;
    if j < e {
      assert Covers(ws[0], j) <==> q <= j;
      assert forall i :: 0 < i < |ws| ==> ws[i] == rest[i - 1] && !Covers(ws[i], j);
    } else {
      assert SplitAt(s, rest, j) && !Covers(ws[0], j);
      if !IsSpace(s[j]) {
        var i :| 0 <= i < |rest| && Covers(rest[i], j);
        assert Covers(ws[i + 1], j);
      }
      assert forall i :: 0 < i < |ws| ==> ws[i] == rest[i - 1];
    }
  }

  lemma SplitsMore(s: string, p: nat, q: nat, e: nat, rest: seq<Span>)
    requires p <= q < e <= |s| && Splits(s, e, rest)
    requires (forall i :: p <= i < q ==> IsSpace(s[i])) && forall i :: q <= i < e ==> !IsSpace(s[i])
    ensures Splits(s, p, [Span(q, e)] + rest)
  {
    var ws := [Span(q, e)] + rest;
    forall j: nat | p <= j < |s| ensures SplitAt(s, ws, j) { SplitMore(s, p, q, e, rest, j); }
  }

  lemma LexOneIs(s: string, p: nat)
    requires p < |s| && !IsSpace(s[p])
    ensures var (t, e) := LexOne(s, p); p < e <= |s| && TokIs(s, Span(p, e), t)
  {
    var (t, e) := LexOne(s, p);
    if t.Sym? && t.c == '+' { assert s[p..e] == [s[p], s[p + 1]]; } else if t.Sym? { assert s[p..e] == [s[p]]; }
  }

  /** The tokens are all of the input but its white space, in order, and each is as long as can be. */
  lemma {:induction false} LexIs(s: string, p: nat) returns (ws: seq<Span>)
    requires p <= |s|
    ensures Splits(s, p, ws) && |ws| == |LexAll(s, p)|
    ensures forall i :: 0 <= i < |ws| ==> TokIs(s, ws[i], LexAll(s, p)[i])
    decreases |s| - p
  {
    var q := Skip(s, p);
    if q == |s| { return []; }
    LexOneIs(s, q);
    var e := LexOne(s, q).1;
    var rest := LexIs(s, e);
    SplitsMore(s, p, q, e, rest);
    ws := [Span(q, e)] + rest;
  }

  // ---------- words of the input ----------

  /** A span of word characters that no word character follows. */
  ghost predicate WordAt(s: string, w: Span) {
    w.lo < w.hi <= |s| && (w.hi < |s| ==> IsSpace(s[w.hi]) || IsSymbol(s[w.hi])) &&
    forall i :: w.lo <= i < w.hi ==> !IsSpace(s[i]) && !IsSymbol(s[i])
  }

  ghost predicate WordsAt(s: string, ts: seq<Tok<Span>>) {
    forall i :: 0 <= i < |ts| && ts[i].Word? ==> WordAt(s, ts[i].w)
  }

  lemma {:induction false} LexWords(s: string, p: nat)
    requires p <= |s|
    ensures WordsAt(s, LexAll(s, p))
    decreases |s| - p
  {
    var q := Skip(s, p);
    if q < |s| { LexWords(s, LexOne(s, q).1); }
  }

  /** The end of a word is in no word. */
  lemma EndsOutside(s: string, w: Span, v: Span)
    requires WordAt(s, w) && WordAt(s, v)
    ensures !(v.lo <= w.hi < v.hi)
  {
  }

  // ---------- writing and lexing ----------

  predicate NameOk(w: string) { w != [] && forall i :: 0 <= i < |w| ==> IsWordChar(w[i]) }

  type Name = w: string | NameOk(w) witness "a"

  function TokText(t: Tok<Name>): string { match t case Word(w) => w case Sym(c) => if c == '+' then ">>" else [c] }

  /** Tokens written with a space after each. */
  function Render(ts: seq<Tok<Name>>): string { if ts == [] then [] else TokText(ts[0]) + " " + Render(ts[1..]) }

  /** The text of a span; a span that is no word of s has no text of its own. */
  function Text(s: string, w: Span): Name {
    if w.lo <= w.hi <= |s| && NameOk(s[w.lo..w.hi]) then s[w.lo..w.hi] else "a"
  }

  function TextTok(s: string, t: Tok<Span>): Tok<Name> {
    match t
    case Word(w) => Word(Text(s, w))
    case Sym(c) => Sym(c)
  }

  function Texts(s: string, ts: seq<Tok<Span>>): seq<Tok<Name>> { MapToks((w: Span) => Text(s, w), ts) }

  lemma {:induction false} WordEndIs(s: string, p: nat, e: nat)
    requires p <= e < |s| && (IsSpace(s[e]) || IsSymbol(s[e]))
    requires forall i :: p <= i < e ==> !IsSpace(s[i]) && !IsSymbol(s[i])
    ensures WordEnd(s, p) == e
    decreases e - p
  {
    if p < e { WordEndIs(s, p + 1, e); }
  }

  /** One written token is lexed back. */
  lemma LexToken(s: string, p: nat, t: Tok<Name>)
    requires p + |TokText(t)| < |s| && s[p..p + |TokText(t)|] == TokText(t) && s[p + |TokText(t)|] == ' '
    ensures !IsSpace(s[p]) && LexOne(s, p).1 == p + |TokText(t)| && TextTok(s, LexOne(s, p).0) == t
  {
    var e := p + |TokText(t)|;
    assert forall i :: p <= i < e ==> s[i] == TokText(t)[i - p];
    if t.Word? { WordEndIs(s, p, e); }
  }

  lemma RenderHead(s: string, p: nat, ts: seq<Tok<Name>>)
    requires p <= |s| && s[p..] == Render(ts) && ts != []
    ensures var n := |TokText(ts[0])|;
      p + n < |s| && s[p..p + n] == TokText(ts[0]) && s[p + n] == ' ' && s[p + n + 1..] == Render(ts[1..])
  {
    var n, r, text := |TokText(ts[0])|, s[p..], TokText(ts[0]) + " ";
    assert r == text + Render(ts[1..]);
    assert r[..n] == TokText(ts[0]) && r[n] == ' ' && r[n + 1..] == Render(ts[1..]);
  }

  lemma LexPast(s: string, p: nat, e: nat)
    requires p < e < |s| && !IsSpace(s[p]) && LexOne(s, p).1 == e && s[e] == ' '
    ensures LexAll(s, p) == [LexOne(s, p).0] + LexAll(s, e + 1)
  {
    assert Skip(s, p) == p && Skip(s, e) == Skip(s, e + 1);
  }

  lemma TextsCons(s: string, t: Tok<Span>, ts: seq<Tok<Span>>)
    ensures Texts(s, [t] + ts) == [TextTok(s, t)] + Texts(s, ts)
  {
  }

  /** From position p on, the text is these tokens, each followed by a space. */
  ghost predicate WrittenAt(s: string, p: nat, ts: seq<Tok<Name>>)
    decreases |ts|
  {
    if ts == [] then p == |s|
    else TokenAt(s, p, ts[0]) && WrittenAt(s, p + |TokText(ts[0])| + 1, ts[1..])
  }

  ghost predicate TokenAt(s: string, p: nat, t: Tok<Name>) {
    p + |TokText(t)| < |s| && s[p..p + |TokText(t)|] == TokText(t) && s[p + |TokText(t)|] == ' '
  }

  lemma {:induction false} RenderWrites(s: string, p: nat, ts: seq<Tok<Name>>)
    requires p <= |s| && s[p..] == Render(ts)
    ensures WrittenAt(s, p, ts)
    decreases |ts|
  {
    if ts != [] {
      RenderHead(s, p, ts);
      RenderWrites(s, p + |TokText(ts[0])| + 1, ts[1..]);
    }
  }

  lemma LexHead(s: string, p: nat, t: Tok<Name>)
    requires TokenAt(s, p, t)
    ensures Texts(s, LexAll(s, p)) == [t] + Texts(s, LexAll(s, p + |TokText(t)| + 1))
  {
    var e := p + |TokText(t)|;
    LexToken(s, p, t);
    LexPast(s, p, e);
    TextsCons(s, LexOne(s, p).0, LexAll(s, e + 1));
  }

  /** From the position where tokens are written, these tokens are lexed. */
  lemma {:induction false} LexWritten(s: string, p: nat, ts: seq<Tok<Name>>)
    requires WrittenAt(s, p, ts) && p <= |s|
    ensures Texts(s, LexAll(s, p)) == ts
    decreases |ts|
  {
    if ts == [] {
      LexEnd(s);
    } else {
      var q := p + |TokText(ts[0])| + 1;
      LexWritten(s, q, ts[1..]);
      LexOneMore(s, p, q, ts[0], ts[1..], ts);
    }
  }

  lemma LexEnd(s: string)
    ensures Texts(s, LexAll(s, |s|)) == []
  {
    assert LexAll(s, |s|) == [];
  }

  lemma LexOneMore(s: string, p: nat, q: nat, t: Tok<Name>, ts: seq<Tok<Name>>, all: seq<Tok<Name>>)
    requires TokenAt(s, p, t) && q == p + |TokText(t)| + 1 && Texts(s, LexAll(s, q)) == ts && all == [t] + ts
    ensures Texts(s, LexAll(s, p)) == all
  {
    LexHead(s, p, t);
  }

  /** The command of a text, with words for spans. */
  function CommandOf(s: string): Res<Name> { MapRes((w: Span) => Text(s, w), PCmd(LexAll(s, 0))) }

  /** Writing a command and parsing the text returns the command. */
  lemma RoundTrip(c: Cmd<Name>)
    requires CmdOk(c)
    ensures CommandOf(Render(LineToks(AsLine(c), []))) == Good(c, [])
  {
    var ts := LineToks(AsLine(c), []);
    var s := Render(ts);
    assert s[0..] == s;
    RenderWrites(s, 0, ts);
    LexWritten(s, 0, ts);
    ParsesRendering(c);
    var f := (w: Span) => Text(s, w);
    MapPLine(f, LexAll(s, 0));
    assert MapToks(f, PLine(LexAll(s, 0)).rest) == [] ==> PLine(LexAll(s, 0)).rest == [];
  }
}
