/** The regular-expression matcher of grep.c against the meaning of patterns. */
module Grep {

  /** A pattern element: a character ('.' is any), zero or more of one, or the end of the text. */
  datatype Elem = One(c: char) | Star(c: char) | End

  /** How a pattern reads: x* is a star whatever x is, and $ is special only at the very end. */
  function Elems(re: string): seq<Elem> {
    if re == [] then []
    else if |re| >= 2 && re[1] == '*' then [Star(re[0])] + Elems(re[2..])
    else if re == "$" then [End]
    else [One(re[0])] + Elems(re[1..])
  }

  predicate Fits(c: char, x: char) { c == '.' || x == c }

  /** A part of the text is an instance of an element. */
  predicate Instance(e: Elem, part: string) {
    match e
    case One(c) => |part| == 1 && Fits(c, part[0])
    case Star(c) => forall i :: 0 <= i < |part| ==> Fits(c, part[i])
    case End => part == []
  }

  function Flat(parts: seq<string>): string { if parts == [] then [] else parts[0] + Flat(parts[1..]) }

  predicate EndsWithEnd(es: seq<Elem>) { es != [] && es[|es| - 1] == End }

  /** The text begins with instances of the elements, one after the other, and a pattern with an
      end mark takes all of it. */
  ghost predicate Splits(es: seq<Elem>, parts: seq<string>, text: string) {
    |parts| == |es| && Flat(parts) <= text && (EndsWithEnd(es) ==> Flat(parts) == text) &&
    forall i :: 0 <= i < |es| ==> Instance(es[i], parts[i])
  }

  ghost predicate Accepts(es: seq<Elem>, text: string) { exists parts :: Splits(es, parts, text) }

  /** The meaning of a pattern: at the start of the text if it begins with ^, else anywhere. */
  ghost predicate Means(re: string, text: string) {
    if re != [] && re[0] == '^' then Accepts(Elems(re[1..]), text)
    else exists k :: 0 <= k <= |text| && AcceptsFrom(Elems(re), text, k)
  }

  ghost predicate AcceptsFrom(es: seq<Elem>, text: string, k: int) { 0 <= k <= |text| && Accepts(es, text[k..]) }

  // ---------- one element at a time ----------

  lemma AcceptsNothing(text: string)
    ensures Accepts([], text)
  {
    assert Splits([], [], text);
  }

  lemma AcceptsEnd(text: string)
    ensures Accepts([End], text) <==> text == []
  {
    if text == [] { assert Flat([[]]) == []; assert Splits([End], [[]], text); }
    if parts :| Splits([End], parts, text) { assert parts == [[]]; assert Flat(parts) == []; }
  }

  lemma SplitsFirst(e: Elem, es: seq<Elem>, parts: seq<string>, text: string)
    requires Splits([e] + es, parts, text)
    ensures parts != [] && Instance(e, parts[0]) && |parts[0]| <= |text| && parts[0] == text[..|parts[0]|]
    ensures (e == End ==> es != []) ==> Splits(es, parts[1..], text[|parts[0]|..])
  {
    assert Flat(parts) == parts[0] + Flat(parts[1..]);
    assert ([e] + es)[0] == e;
    forall i | 0 <= i < |es| ensures Instance(es[i], parts[1..][i]) { assert ([e] + es)[i + 1] == es[i]; }
  }

  lemma SplitsCons(e: Elem, es: seq<Elem>, part: string, rest: seq<string>, text: string)
    requires |part| <= |text| && part == text[..|part|] && Instance(e, part) && e != End &&
      Splits(es, rest, text[|part|..])
    ensures Accepts([e] + es, text)
  {
    var parts := [part] + rest;
    assert parts[1..] == rest && text == part + text[|part|..];
    assert Flat(parts) == part + Flat(rest);
    assert Splits([e] + es, parts, text);
  }

  lemma AcceptsOne(c: char, es: seq<Elem>, text: string)
    ensures Accepts([One(c)] + es, text) <==> text != [] && Fits(c, text[0]) && Accepts(es, text[1..])
  {
    if parts :| Splits([One(c)] + es, parts, text) { SplitsFirst(One(c), es, parts, text); }
    if text != [] && Fits(c, text[0]) && Accepts(es, text[1..]) {
      var rest :| Splits(es, rest, text[1..]);
      SplitsCons(One(c), es, text[..1], rest, text);
    }
  }

  /** The first k characters are all instances of c. */
  predicate Repeats(c: char, text: string, k: int) { 0 <= k <= |text| && forall i :: 0 <= i < k ==> Fits(c, text[i]) }

  lemma AcceptsStar(c: char, es: seq<Elem>, text: string)
    ensures Accepts([Star(c)] + es, text) <==> exists k :: Repeats(c, text, k) && AcceptsFrom(es, text, k)
  {
    if parts :| Splits([Star(c)] + es, parts, text) {
      SplitsFirst(Star(c), es, parts, text);
      assert Repeats(c, text, |parts[0]|) && AcceptsFrom(es, text, |parts[0]|);
    }
    if k :| Repeats(c, text, k) && AcceptsFrom(es, text, k) {
      var rest :| Splits(es, rest, text[k..]);
      SplitsCons(Star(c), es, text[..k], rest, text);
    }
  }

  // ---------- the matcher ----------

  method MatchHere(re: string, text: string) returns (r: bool)
    ensures r <==> Accepts(Elems(re), text)
    decreases |re|, 0
  {
    if |re| == 0 {
      AcceptsNothing(text);
      return true;
    }
    if |re| >= 2 && re[1] == '*' {
      r := MatchStar(re[0], re[2..], text);
      return;
    }
    if re[0] == '$' && |re| == 1 {
      AcceptsEnd(text);
      return |text| == 0;
    }
    AcceptsOne(re[0], Elems(re[1..]), text);
    if |text| != 0 && (re[0] == '.' || re[0] == text[0]) {
      r := MatchHere(re[1..], text[1..]);
      return;
    }
    return false;
  }

  method MatchStar(c: char, re: string, text: string) returns (r: bool)
    ensures r <==> Accepts([Star(c)] + Elems(re), text)
    decreases |re|, 1
  {
    AcceptsStar(c, Elems(re), text);
    var k := 0;
    while true
      invariant Repeats(c, text, k) && forall j :: 0 <= j < k ==> !AcceptsFrom(Elems(re), text, j)
      decreases |text| - k
    {
      var here := MatchHere(re, text[k..]);
      if here {
        assert AcceptsFrom(Elems(re), text, k);
        return true;
      }
      if !(k < |text| && (text[k] == c || c == '.')) {
        return false;
      }
      k := k + 1;
    }
  }

  /** match(): whether the text has a match of the pattern. */
  method Match(re: string, text: string) returns (r: bool)
    ensures r <==> Means(re, text)
  {
    if |re| > 0 && re[0] == '^' {
      r := MatchHere(re[1..], text);
      return;
    }
    var k := 0;
    while true
      invariant 0 <= k <= |text| && forall j :: 0 <= j < k ==> !AcceptsFrom(Elems(re), text, j)
      decreases |text| - k
    {
      var here := MatchHere(re, text[k..]);
      if here {
        assert AcceptsFrom(Elems(re), text, k);
        return true;
      }
      if k == |text| {
        return false;
      }
      k := k + 1;
    }
  }
}
