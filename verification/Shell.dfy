/** The parser of sh.c on its input buffer: a cursor that gettoken() and peek() advance, recursive
    descent, and the NULs that nulterminate() writes. */
module Shell {
  import opened ShellGrammar
  import opened ShellLex

  /** A parse that ran into panic(), or a command. */
  datatype Out = Panicked(m: Message) | Tree(cmd: Cmd<Span>)

  /** The outcome is what the grammar says about the tokens, and the cursor is after them. */
  ghost predicate Agrees(r: Res<Span>, out: Out, toks: seq<Tok<Span>>) {
    match r
    case Bad(m) => out == Panicked(m)
    case Good(c, rest) => out == Tree(c) && toks == rest
  }

  class Parser {
    const s: string
    var ps: nat

    ghost predicate Valid()
      reads this
    {
      ps <= |s| && forall i :: 0 <= i < |s| ==> s[i] != '\0'
    }

    ghost function Toks(): seq<Tok<Span>>
      reads this
      requires Valid()
    {
      LexAll(s, ps)
    }

    constructor (s: string)
      requires forall i :: 0 <= i < |s| ==> s[i] != '\0'
      ensures Valid() && this.s == s && ps == 0
    {
      this.s, ps := s, 0;
    }

    method SkipSpace()
      requires Valid()
      modifies this
      ensures Valid() && ps == Skip(s, old(ps)) && Toks() == old(Toks())
    {
      SkipTwice(s, ps);
      while ps < |s| && IsSpace(s[ps])
        invariant Valid() && old(ps) <= ps <= |s| && Skip(s, ps) == Skip(s, old(ps))
        decreases |s| - ps
      {
        ps := ps + 1;
      }
    }

    /** peek() */
    method Peek(toks: string) returns (found: bool)
      requires Valid()
      modifies this
      ensures Valid() && ps == Skip(s, old(ps)) && Toks() == old(Toks())
      ensures found <==> ps < |s| && s[ps] in toks
      ensures Toks() == [] <==> ps == |s|
      ensures Toks() != [] ==> Toks()[0] == LexOne(s, ps).0
    {
      SkipSpace();
      SkipTwice(s, old(ps));
      FirstToken(s, ps);
      found := ps < |s| && s[ps] in toks;
    }

    /** gettoken(): the character that stands for the token ('\0' at the end), and the word. */
    method GetToken() returns (ret: char, w: Span)
      requires Valid()
      modifies this
      ensures Valid() && ps >= old(ps)
      ensures old(Toks()) == [] ==> ret == '\0' && Toks() == []
      ensures old(Toks()) != [] ==> Toks() == old(Toks())[1..] && ps > old(ps)
      ensures old(Toks()) != [] ==>
        match old(Toks())[0] { case Word(v) => ret == 'a' && w == v case Sym(c) => ret == c }
    {
      FirstToken(s, ps);
      SkipSpace();
      SkipTwice(s, old(ps));
      var q := ps;
      if ps == |s| {
        return '\0', Span(q, q);
      }
      ret := s[ps];
      if ret == '>' {
        ps := ps + 1;
        if ps < |s| && s[ps] == '>' {
          ret := '+';
          ps := ps + 1;
        }
      } else if IsSymbol(ret) {
        ps := ps + 1;
      } else {
        ret := 'a';
        while ps < |s| && !IsSpace(s[ps]) && !IsSymbol(s[ps])
          invariant Valid() && q <= ps <= |s| && WordEnd(s, ps) == WordEnd(s, q)
          decreases |s| - ps
        {
          ps := ps + 1;
        }
      }
      w := Span(q, ps);
      assert LexOne(s, q).1 == ps;
      SkipSpace();
    }

    /** parseredirs(): the redirections found, in order. */
    method ParseRedirs() returns (ok: bool, rs: seq<Redirect<Span>>)
      requires Valid()
      modifies this
      ensures Valid() && ps >= old(ps)
      ensures ok <==> PRedirs(old(Toks())).GoodR?
      ensures ok ==> PRedirs(old(Toks())) == GoodR(rs, Toks())
    {
      rs := [];
      ghost var ts := Toks();
      var more := AtRedir();
      while more
        invariant Valid() && ps >= old(ps) && more == StartsRedir(Toks())
        invariant PRedirs(ts) == Prepend(rs, PRedirs(Toks()))
        decreases |s| - ps
      {
        ghost var before := Toks();
        var tok, _ := GetToken();
        var t, w := GetToken();
        if t != 'a' {
          return false, [];
        }
        PrependOne(rs, before);
        rs := rs + [Redirect(tok, w)];
        more := AtRedir();
      }
      ok := true;
    }

    /** Whether a control symbol is next. */
    method AtStop() returns (stop: bool)
      requires Valid()
      modifies this
      ensures Valid() && ps >= old(ps) && Toks() == old(Toks()) && stop == (Toks() != [] && Stops(Toks()))
    {
      stop := Peek("|)&;");
    }

    /** Whether a redirection is next. */
    method AtRedir() returns (more: bool)
      requires Valid()
      modifies this
      ensures Valid() && ps >= old(ps) && Toks() == old(Toks()) && more == StartsRedir(Toks())
    {
      more := Peek("<>");
    }

    /** The loop of parseexec(): args and rs are what it has found so far. */
    method ParseArgs(rs0: seq<Redirect<Span>>) returns (out: Out)
      requires Valid()
      modifies this
      ensures Valid() && ps >= old(ps) && Agrees(PArgs([], rs0, old(Toks())), out, Toks())
    {
      var args, rs := [], rs0;
      ghost var ts := Toks();
      var stop := AtStop();
      while !stop
        invariant Valid() && ps >= old(ps) && stop == (Toks() != [] && Stops(Toks()))
        invariant PArgs([], rs0, ts) == PArgs(args, rs, Toks())
        decreases |s| - ps
      {
        var tok, w := GetToken();
        if tok == '\0' {
          break;
        }
        if tok != 'a' {
          return Panicked(Syntax);
        }
        if |args| + 1 >= MAXARGS {
          return Panicked(TooManyArgs);
        }
        var ok, more := ParseRedirs();
        if !ok {
          return Panicked(MissingFile);
        }
        args, rs := args + [w], rs + more;
        stop := AtStop();
      }
      out := Tree(Wrap(Exec(args), rs));
    }

    /** parseblock(), called at an opening parenthesis. */
    method ParseBlock() returns (out: Out)
      requires Valid() && Starts(Toks(), '(')
      modifies this
      ensures Valid() && ps >= old(ps) && Agrees(PExec(old(Toks())), out, Toks())
      decreases |s| - ps, -1
    {
      var _, _ := GetToken();
      out := ParseLine();
      if out.Panicked? {
        return;
      }
      var close := Peek(")");
      if !close {
        return Panicked(MissingParen);
      }
      var _, _ := GetToken();
      var ok, rs := ParseRedirs();
      if !ok {
        return Panicked(MissingFile);
      }
      out := Tree(Wrap(out.cmd, rs));
    }

    method ParseExec() returns (out: Out)
      requires Valid()
      modifies this
      ensures Valid() && ps >= old(ps) && Agrees(PExec(old(Toks())), out, Toks())
      decreases |s| - ps, 0
    {
      var block := Peek("(");
      if block {
        out := ParseBlock();
        return;
      }
      var ok, rs := ParseRedirs();
      if !ok {
        return Panicked(MissingFile);
      }
      out := ParseArgs(rs);
    }

    method ParsePipe() returns (out: Out)
      requires Valid()
      modifies this
      ensures Valid() && ps >= old(ps) && Agrees(PPipe(old(Toks())), out, Toks())
      decreases |s| - ps, 1
    {
      out := ParseExec();
      if out.Panicked? {
        return;
      }
      var bar := Peek("|");
      if bar {
        var _, _ := GetToken();
        var right := ParsePipe();
        out := if right.Panicked? then right else Tree(Pipe(out.cmd, right.cmd));
      }
    }

    method ParseLine() returns (out: Out)
      requires Valid()
      modifies this
      ensures Valid() && ps >= old(ps) && Agrees(PLine(old(Toks())), out, Toks())
      decreases |s| - ps, 2
    {
      out := ParsePipe();
      if out.Panicked? {
        return;
      }
      out := ParseBacks(out.cmd);
      var semi := Peek(";");
      if semi {
        var _, _ := GetToken();
        var right := ParseLine();
        out := if right.Panicked? then right else Tree(List(out.cmd, right.cmd));
      }
    }

    /** The loop of parseline(). */
    method ParseBacks(cmd: Cmd<Span>) returns (out: Out)
      requires Valid()
      modifies this
      ensures Valid() && ps >= old(ps) && Agrees(PBacks(cmd, old(Toks())), out, Toks()) && out.Tree?
    {
      var c := cmd;
      ghost var ts := Toks();
      var amp := Peek("&");
      while amp
        invariant Valid() && ps >= old(ps) && amp == Starts(Toks(), '&') && PBacks(cmd, ts) == PBacks(c, Toks())
        decreases |s| - ps
      {
        var _, _ := GetToken();
        c := Back(c);
        amp := Peek("&");
      }
      out := Tree(c);
    }

    /** parsecmd() up to nulterminate(): panics exactly when the tokens are no command line. */
    method ParseCmd() returns (out: Out)
      requires Valid() && ps == 0
      modifies this
      ensures match PCmd(LexAll(s, 0)) { case Bad(m) => out == Panicked(m) case Good(c, _) => out == Tree(c) }
    {
      out := ParseLine();
      if out.Panicked? {
        return;
      }
      var _ := Peek("");
      if ps != |s| {
        out := Panicked(Syntax);
      }
    }
  }

  ghost function Prepend(rs: seq<Redirect<Span>>, r: RedirRes<Span>): RedirRes<Span> {
    match r case BadR => BadR case GoodR(more, rest) => GoodR(rs + more, rest)
  }

  lemma PrependOne(rs: seq<Redirect<Span>>, ts: seq<Tok<Span>>)
    requires StartsRedir(ts) && |ts| >= 2 && ts[1].Word?
    ensures Prepend(rs, PRedirs(ts)) == Prepend(rs + [Redirect(ts[0].c, ts[1].w)], PRedirs(ts[2..]))
  {
    var r := PRedirs(ts[2..]);
    if r.GoodR? { assert rs + ([Redirect(ts[0].c, ts[1].w)] + r.rs) == rs + [Redirect(ts[0].c, ts[1].w)] + r.rs; }
  }

  // ---------- the words of a command ----------

  predicate WordIn(w: Span, c: Cmd<Span>) {
    match c
    case Exec(args) => w in args
    case Redir(d, r) => w == r.file || WordIn(w, d)
    case Pipe(l, r) => WordIn(w, l) || WordIn(w, r)
    case List(l, r) => WordIn(w, l) || WordIn(w, r)
    case Back(d) => WordIn(w, d)
  }

  ghost predicate CmdWords(s: string, c: Cmd<Span>) { forall w :: WordIn(w, c) ==> WordAt(s, w) }

  ghost predicate RedirWords(s: string, rs: seq<Redirect<Span>>) { forall i :: 0 <= i < |rs| ==> WordAt(s, rs[i].file) }

  lemma {:induction false} WrapWords(s: string, c: Cmd<Span>, rs: seq<Redirect<Span>>)
    requires CmdWords(s, c) && RedirWords(s, rs)
    ensures CmdWords(s, Wrap(c, rs))
    decreases |rs|
  {
    if rs != [] { WrapWords(s, c, rs[..|rs| - 1]); }
  }

  lemma {:induction false} RedirsWords(s: string, ts: seq<Tok<Span>>)
    requires WordsAt(s, ts)
    ensures var r := PRedirs(ts); r.GoodR? ==> RedirWords(s, r.rs) && WordsAt(s, r.rest)
    decreases |ts|
  {
    if StartsRedir(ts) && |ts| >= 2 { RedirsWords(s, ts[2..]); }
  }

  lemma {:induction false} ArgsWords(s: string, args: seq<Span>, rs: seq<Redirect<Span>>, ts: seq<Tok<Span>>)
    requires WordsAt(s, ts) && RedirWords(s, rs) && forall i :: 0 <= i < |args| ==> WordAt(s, args[i])
    ensures var r := PArgs(args, rs, ts); r.Good? ==> CmdWords(s, r.cmd) && WordsAt(s, r.rest)
    decreases |ts|
  {
    if Stops(ts) {
      WrapWords(s, Exec(args), rs);
    } else if ts[0].Word? {
      RedirsWords(s, ts[1..]);
      var r := PRedirs(ts[1..]);
      if r.GoodR? { ArgsWords(s, args + [ts[0].w], rs + r.rs, r.rest); }
    }
  }

  lemma {:induction false} ExecWords(s: string, ts: seq<Tok<Span>>)
    requires WordsAt(s, ts)
    ensures var r := PExec(ts); r.Good? ==> CmdWords(s, r.cmd) && WordsAt(s, r.rest)
    decreases |ts|, 0
  {
    if Starts(ts, '(') {
      LineWords(s, ts[1..]);
      var r := PLine(ts[1..]);
      if r.Good? && Starts(r.rest, ')') {
        RedirsWords(s, r.rest[1..]);
        var q := PRedirs(r.rest[1..]);
        if q.GoodR? { WrapWords(s, r.cmd, q.rs); }
      }
    } else {
      RedirsWords(s, ts);
      var r := PRedirs(ts);
      if r.GoodR? { ArgsWords(s, [], r.rs, r.rest); }
    }
  }

  lemma {:induction false} PipeWords(s: string, ts: seq<Tok<Span>>)
    requires WordsAt(s, ts)
    ensures var r := PPipe(ts); r.Good? ==> CmdWords(s, r.cmd) && WordsAt(s, r.rest)
    decreases |ts|, 1
  {
    ExecWords(s, ts);
    var r := PExec(ts);
    if r.Good? && Starts(r.rest, '|') { PipeWords(s, r.rest[1..]); }
  }

  lemma {:induction false} BacksWords(s: string, c: Cmd<Span>, ts: seq<Tok<Span>>)
    requires WordsAt(s, ts) && CmdWords(s, c)
    ensures var r := PBacks(c, ts); CmdWords(s, r.cmd) && WordsAt(s, r.rest)
    decreases |ts|
  {
    if Starts(ts, '&') { BacksWords(s, Back(c), ts[1..]); }
  }

  /** Every word of a parsed command is a word of the input. */
  lemma {:induction false} LineWords(s: string, ts: seq<Tok<Span>>)
    requires WordsAt(s, ts)
    ensures var r := PLine(ts); r.Good? ==> CmdWords(s, r.cmd) && WordsAt(s, r.rest)
    decreases |ts|, 2
  {
    PipeWords(s, ts);
    var r := PPipe(ts);
    if r.Good? {
      BacksWords(s, r.cmd, r.rest);
      var b := PBacks(r.cmd, r.rest);
      if Starts(b.rest, ';') { LineWords(s, b.rest[1..]); }
    }
  }

  // ---------- nulterminate ----------

  /** Where nulterminate() writes. */
  function Ends(c: Cmd<Span>): set<nat> {
    match c
    case Exec(args) => set w | w in args :: w.hi
    case Redir(d, r) => Ends(d) + {r.file.hi}
    case Pipe(l, r) => Ends(l) + Ends(r)
    case List(l, r) => Ends(l) + Ends(r)
    case Back(d) => Ends(d)
  }

  lemma {:induction false} EndOfWord(c: Cmd<Span>, i: nat)
    requires i in Ends(c)
    ensures exists w :: WordIn(w, c) && w.hi == i
    decreases c, 1
  {
    match c
    case Exec(args) => var w :| w in args && w.hi == i; assert WordIn(w, c);
    case Redir(d, r) =>
      if i in Ends(d) {
        EndOfWord(d, i);
        var w :| WordIn(w, d) && w.hi == i;
        assert WordIn(w, c);
      } else {
        assert WordIn(r.file, c);
      }
    case Pipe(l, r) => EndOfEither(c, l, r, i);
    case List(l, r) => EndOfEither(c, l, r, i);
    case Back(d) => EndOfWord(d, i); var w :| WordIn(w, d) && w.hi == i; assert WordIn(w, c);
  }

  lemma {:induction false} EndOfEither(c: Cmd<Span>, l: Cmd<Span>, r: Cmd<Span>, i: nat)
    requires (c == Pipe(l, r) || c == List(l, r)) && i in Ends(c)
    ensures exists w :: WordIn(w, c) && w.hi == i
    decreases c, 0
  {
    if i in Ends(l) {
      EndOfWord(l, i);
      var w :| WordIn(w, l) && w.hi == i;
      assert WordIn(w, c);
    } else {
      EndOfWord(r, i);
      var w :| WordIn(w, r) && w.hi == i;
      assert WordIn(w, c);
    }
  }

  /** buf differs from was by NULs at these places. */
  ghost predicate Zeroed(was: seq<char>, buf: seq<char>, ends: set<nat>) {
    |buf| == |was| && forall i: nat :: i < |was| ==> buf[i] == if i in ends then '\0' else was[i]
  }

  lemma ZeroedTwice(a: seq<char>, b: seq<char>, c: seq<char>, x: set<nat>, y: set<nat>)
    requires Zeroed(a, b, x) && Zeroed(b, c, y)
    ensures Zeroed(a, c, x + y)
  {
  }

  ghost predicate Fits(c: Cmd<Span>, n: nat) { forall i :: i in Ends(c) ==> i < n }

  lemma PartsFit(c: Cmd<Span>, n: nat)
    requires Fits(c, n)
    ensures match c {
      case Exec(args) => forall i :: 0 <= i < |args| ==> args[i].hi < n
      case Redir(d, r) => Fits(d, n) && r.file.hi < n
      case Pipe(l, r) => Fits(l, n) && Fits(r, n)
      case List(l, r) => Fits(l, n) && Fits(r, n)
      case Back(d) => Fits(d, n) }
  {
    match c
    case Exec(args) => forall i | 0 <= i < |args| ensures args[i].hi in Ends(c) { }
    case Redir(d, r) => assert r.file.hi in Ends(c) && forall i :: i in Ends(d) ==> i in Ends(c);
    case Pipe(l, r) => assert forall i :: i in Ends(l) || i in Ends(r) ==> i in Ends(c);
    case List(l, r) => assert forall i :: i in Ends(l) || i in Ends(r) ==> i in Ends(c);
    case Back(d) => assert Ends(d) == Ends(c);
  }

  method Nulterminate(c: Cmd<Span>, buf: array<char>)
    requires Fits(c, buf.Length)
    modifies buf
    ensures Zeroed(old(buf[..]), buf[..], Ends(c))
    decreases c
  {
    PartsFit(c, buf.Length);
    match c
    case Exec(args) =>
      var i := 0;
      while i < |args|
        invariant 0 <= i <= |args| && Zeroed(old(buf[..]), buf[..], set w | w in args[..i] :: w.hi)
      {
        buf[args[i].hi] := '\0';
        assert args[..i + 1] == args[..i] + [args[i]];
        i := i + 1;
      }
      assert args[..|args|] == args;
    case Redir(d, r) =>
      Nulterminate(d, buf);
      buf[r.file.hi] := '\0';
    case Pipe(l, r) =>
      Nulterminate(l, buf);
      ghost var mid := buf[..];
      Nulterminate(r, buf);
      ZeroedTwice(old(buf[..]), mid, buf[..], Ends(l), Ends(r));
    case List(l, r) =>
      Nulterminate(l, buf);
      ghost var mid := buf[..];
      Nulterminate(r, buf);
      ZeroedTwice(old(buf[..]), mid, buf[..], Ends(l), Ends(r));
    case Back(d) => Nulterminate(d, buf);
  }

  /** After nulterminate(), every argument and file name is a C string equal to its token. */
  lemma WordsSurvive(s: string, buf: seq<char>, c: Cmd<Span>, w: Span)
    requires forall i :: 0 <= i < |s| ==> s[i] != '\0'
    requires PCmd(LexAll(s, 0)) == Good(c, []) && Zeroed(s + ['\0'], buf, Ends(c)) && WordIn(w, c)
    ensures w.lo < w.hi <= |s| < |buf| && buf[w.lo..w.hi] == s[w.lo..w.hi] && buf[w.hi] == '\0'
    ensures forall i :: w.lo <= i < w.hi ==> buf[i] != '\0'
  {
    LexWords(s, 0);
    LineWords(s, LexAll(s, 0));
    forall i: nat | i in Ends(c) ensures !(w.lo <= i < w.hi) { EndOutside(s, c, w, i); }
    WordEnds(w, c);
  }

  /** nulterminate() writes into no word. */
  lemma EndOutside(s: string, c: Cmd<Span>, w: Span, i: nat)
    requires CmdWords(s, c) && WordAt(s, w) && i in Ends(c)
    ensures !(w.lo <= i < w.hi)
  {
    EndOfWord(c, i);
    var v :| WordIn(v, c) && v.hi == i;
    EndsOutside(s, v, w);
  }

  lemma {:induction false} WordEnds(w: Span, c: Cmd<Span>)
    requires WordIn(w, c)
    ensures w.hi in Ends(c)
  {
    match c
    case Exec(args) =>
    case Redir(d, r) => if w != r.file { WordEnds(w, d); }
    case Pipe(l, r) => if WordIn(w, l) { WordEnds(w, l); } else { WordEnds(w, r); }
    case List(l, r) => if WordIn(w, l) { WordEnds(w, l); } else { WordEnds(w, r); }
    case Back(d) => WordEnds(w, d);
  }
}
