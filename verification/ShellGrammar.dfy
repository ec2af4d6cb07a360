/** The command language of sh.c on tokens: the recursive-descent parser, the grammar, and that
    the one accepts exactly the other. */
module ShellGrammar {
  import opened Common

  const MAXARGS: nat := 10

  predicate IsSymbolToken(c: char) {
    c == '|' || c == '(' || c == ')' || c == ';' || c == '&' || c == '<' || c == '>' || c == '+'
  }

  /** What gettoken() returns for a symbol, '+' standing for >>. */
  type SymChar = c: char | IsSymbolToken(c) witness '|'

  datatype Tok<W> = Word(w: W) | Sym(c: SymChar)

  datatype Redirect<W> = Redirect(op: SymChar, file: W)

  datatype Cmd<W> =
    | Exec(args: seq<W>)
    | Redir(cmd: Cmd<W>, r: Redirect<W>)
    | Pipe(left: Cmd<W>, right: Cmd<W>)
    | List(left: Cmd<W>, right: Cmd<W>)
    | Back(cmd: Cmd<W>)

  datatype Message = MissingFile | MissingParen | Syntax | TooManyArgs

  datatype Res<W> = Bad(m: Message) | Good(cmd: Cmd<W>, rest: seq<Tok<W>>)

  datatype RedirRes<W> = BadR | GoodR(rs: seq<Redirect<W>>, rest: seq<Tok<W>>)

  predicate Starts<W>(ts: seq<Tok<W>>, c: char) { ts != [] && ts[0].Sym? && ts[0].c == c }

  predicate IsRedir(c: char) { c == '<' || c == '>' || c == '+' }

  predicate StartsRedir<W>(ts: seq<Tok<W>>) { ts != [] && ts[0].Sym? && IsRedir(ts[0].c) }

  /** A control symbol or the end of the input is next. */
  predicate Stops<W>(ts: seq<Tok<W>>) {
    ts == [] || Starts(ts, '|') || Starts(ts, ')') || Starts(ts, '&') || Starts(ts, ';')
  }

  /** Redirections wrap the command, the first one innermost. */
  function Wrap<W>(c: Cmd<W>, rs: seq<Redirect<W>>): Cmd<W> {
    if rs == [] then c else Redir(Wrap(c, rs[..|rs| - 1]), rs[|rs| - 1])
  }

  function Backs<W>(c: Cmd<W>, n: nat): Cmd<W> { if n == 0 then c else Back(Backs(c, n - 1)) }

  // ---------- the parser ----------

  function PRedirs<W>(ts: seq<Tok<W>>): (r: RedirRes<W>)
    ensures r.GoodR? ==> |r.rest| <= |ts|
  {
    if !StartsRedir(ts) then GoodR([], ts)
    else if |ts| < 2 || !ts[1].Word? then BadR
    else
      match PRedirs(ts[2..])
      case BadR => BadR
      case GoodR(rs, rest) => GoodR([Redirect(ts[0].c, ts[1].w)] + rs, rest)
  }

  /** The loop of parseexec(). */
  function PArgs<W>(args: seq<W>, rs: seq<Redirect<W>>, ts: seq<Tok<W>>): (r: Res<W>)
    ensures r.Good? ==> |r.rest| <= |ts|
    decreases |ts|
  {
    if Stops(ts) then Good(Wrap(Exec(args), rs), ts)
    else if !ts[0].Word? then Bad(Syntax)
    else if |args| + 1 >= MAXARGS then Bad(TooManyArgs)
    else
      match PRedirs(ts[1..])
      case BadR => Bad(MissingFile)
      case GoodR(more, rest) => PArgs(args + [ts[0].w], rs + more, rest)
  }

  function PExec<W>(ts: seq<Tok<W>>): (r: Res<W>)
    ensures r.Good? ==> |r.rest| <= |ts|
    decreases |ts|, 0
  {
    if Starts(ts, '(') then
      match PLine(ts[1..])
      case Bad(m) => Bad(m)
      case Good(c, rest) =>
        if !Starts(rest, ')') then Bad(MissingParen)
        else match PRedirs(rest[1..])
          case BadR => Bad(MissingFile)
          case GoodR(rs, rest') => Good(Wrap(c, rs), rest')
    else
      match PRedirs(ts)
      case BadR => Bad(MissingFile)
      case GoodR(rs, rest) => PArgs([], rs, rest)
  }

  function PPipe<W>(ts: seq<Tok<W>>): (r: Res<W>)
    ensures r.Good? ==> |r.rest| <= |ts|
    decreases |ts|, 1
  {
    match PExec(ts)
    case Bad(m) => Bad(m)
    case Good(c, rest) =>
      if !Starts(rest, '|') then Good(c, rest)
      else match PPipe(rest[1..])
        case Bad(m) => Bad(m)
        case Good(d, rest') => Good(Pipe(c, d), rest')
  }

  /** The loop of parseline(). */
  function PBacks<W>(c: Cmd<W>, ts: seq<Tok<W>>): (r: Res<W>)
    ensures r.Good? && |r.rest| <= |ts| && !Starts(r.rest, '&')
    decreases |ts|
  {
    if Starts(ts, '&') then PBacks(Back(c), ts[1..]) else Good(c, ts)
  }

  function PLine<W>(ts: seq<Tok<W>>): (r: Res<W>)
    ensures r.Good? ==> |r.rest| <= |ts|
    decreases |ts|, 2
  {
    match PPipe(ts)
    case Bad(m) => Bad(m)
    case Good(p, rest0) =>
      var b := PBacks(p, rest0);
      if !Starts(b.rest, ';') then b
      else match PLine(b.rest[1..])
        case Bad(m) => Bad(m)
        case Good(d, rest') => Good(List(b.cmd, d), rest')
  }

  /** parsecmd(): the whole input is one line. */
  function PCmd<W>(ts: seq<Tok<W>>): Res<W> {
    var r := PLine(ts);
    if r.Good? && r.rest != [] then Bad(Syntax) else r
  }

  // ---------- the grammar ----------

  /** line: pipe &* [; line]    pipe: exec [| pipe]
      exec: redirs (word redirs)*  or  ( line ) redirs */
  datatype LineS<W> = LineS(pipe: PipeS<W>, backs: nat, more: Option<LineS<W>>)

  datatype PipeS<W> = PipeS(exec: ExecS<W>, more: Option<PipeS<W>>)

  datatype ExecS<W> = Simple(rs: seq<Redirect<W>>, items: seq<Item<W>>) | Block(line: LineS<W>, rs: seq<Redirect<W>>)

  datatype Item<W> = Item(w: W, rs: seq<Redirect<W>>)

  /** The tokens that a derivation derives, followed by rest. */
  function LineToks<W>(l: LineS<W>, rest: seq<Tok<W>>): seq<Tok<W>> {
    PipeToks(l.pipe, Amps(l.backs, if l.more.None? then rest else [Sym(';')] + LineToks(l.more.value, rest)))
  }

  function PipeToks<W>(p: PipeS<W>, rest: seq<Tok<W>>): seq<Tok<W>> {
    ExecToks(p.exec, if p.more.None? then rest else [Sym('|')] + PipeToks(p.more.value, rest))
  }

  function ExecToks<W>(e: ExecS<W>, rest: seq<Tok<W>>): seq<Tok<W>> {
    match e
    case Simple(rs, items) => RedirToks(rs, ItemToks(items, rest))
    case Block(line, rs) => [Sym('(')] + LineToks(line, [Sym(')')] + RedirToks(rs, rest))
  }

  function ItemToks<W>(items: seq<Item<W>>, rest: seq<Tok<W>>): seq<Tok<W>> {
    if items == [] then rest else [Word(items[0].w)] + RedirToks(items[0].rs, ItemToks(items[1..], rest))
  }

  function RedirToks<W>(rs: seq<Redirect<W>>, rest: seq<Tok<W>>): seq<Tok<W>> {
    if rs == [] then rest else [Sym(rs[0].op), Word(rs[0].file)] + RedirToks(rs[1..], rest)
  }

  function Amps<W>(n: nat, rest: seq<Tok<W>>): seq<Tok<W>> {
    if n == 0 then rest else [Sym('&')] + Amps(n - 1, rest)
  }

  /** The command that a derivation stands for. */
  function LineTree<W>(l: LineS<W>): Cmd<W> {
    var c := Backs(PipeTree(l.pipe), l.backs);
    if l.more.None? then c else List(c, LineTree(l.more.value))
  }

  function PipeTree<W>(p: PipeS<W>): Cmd<W> {
    if p.more.None? then ExecTree(p.exec) else Pipe(ExecTree(p.exec), PipeTree(p.more.value))
  }

  function ExecTree<W>(e: ExecS<W>): Cmd<W> {
    match e
    case Simple(rs, items) => ItemsTree([], rs, items)
    case Block(line, rs) => Wrap(LineTree(line), rs)
  }

  /** The words become the arguments and the redirections wrap the command, both in order. */
  function ItemsTree<W>(args: seq<W>, rs: seq<Redirect<W>>, items: seq<Item<W>>): Cmd<W>
    decreases |items|
  {
    if items == [] then Wrap(Exec(args), rs) else ItemsTree(args + [items[0].w], rs + items[0].rs, items[1..])
  }

  /** Redirection operators are right and no command has too many words. */
  predicate RedirsOk<W>(rs: seq<Redirect<W>>) { forall i :: 0 <= i < |rs| ==> IsRedir(rs[i].op) }

  predicate ExecOk<W>(e: ExecS<W>) {
    match e
    case Simple(rs, items) =>
      RedirsOk(rs) && |items| < MAXARGS && forall i :: 0 <= i < |items| ==> RedirsOk(items[i].rs)
    case Block(line, rs) => LineOk(line) && RedirsOk(rs)
  }

  predicate PipeOk<W>(p: PipeS<W>) { ExecOk(p.exec) && (p.more.None? || PipeOk(p.more.value)) }

  predicate LineOk<W>(l: LineS<W>) { PipeOk(l.pipe) && (l.more.None? || LineOk(l.more.value)) }

  // ---------- the parser derives ----------

  lemma {:induction false} SoundRedirs<W>(ts: seq<Tok<W>>)
    requires PRedirs(ts).GoodR?
    ensures var r := PRedirs(ts); ts == RedirToks(r.rs, r.rest) && RedirsOk(r.rs) && !StartsRedir(r.rest)
  {
    if StartsRedir(ts) {
      SoundRedirs(ts[2..]);
      var r := PRedirs(ts[2..]);
      assert ([Redirect(ts[0].c, ts[1].w)] + r.rs)[1..] == r.rs;
    }
  }

  ghost predicate ItemsOk<W>(items: seq<Item<W>>) { forall i :: 0 <= i < |items| ==> RedirsOk(items[i].rs) }

  lemma {:induction false} SoundArgs<W>(args: seq<W>, rs: seq<Redirect<W>>, ts: seq<Tok<W>>)
    returns (items: seq<Item<W>>)
    requires PArgs(args, rs, ts).Good? && |args| < MAXARGS
    ensures var r := PArgs(args, rs, ts); ts == ItemToks(items, r.rest) && r.cmd == ItemsTree(args, rs, items)
    ensures |args| + |items| < MAXARGS && ItemsOk(items)
    decreases |ts|
  {
    if Stops(ts) {
      items := [];
    } else {
      SoundRedirs(ts[1..]);
      var r := PRedirs(ts[1..]);
      var rest := SoundArgs(args + [ts[0].w], rs + r.rs, r.rest);
      items := [Item(ts[0].w, r.rs)] + rest;
      assert items[1..] == rest;
    }
  }

  lemma {:induction false} SoundExec<W>(ts: seq<Tok<W>>) returns (e: ExecS<W>)
    requires PExec(ts).Good?
    ensures var r := PExec(ts); ts == ExecToks(e, r.rest) && r.cmd == ExecTree(e) && ExecOk(e)
    decreases |ts|, 0
  {
    if Starts(ts, '(') {
      var l := SoundLine(ts[1..]);
      var r := PLine(ts[1..]);
      SoundRedirs(r.rest[1..]);
      e := Block(l, PRedirs(r.rest[1..]).rs);
      assert r.rest == [Sym(')')] + r.rest[1..];
    } else {
      SoundRedirs(ts);
      var r := PRedirs(ts);
      var items := SoundArgs([], r.rs, r.rest);
      e := Simple(r.rs, items);
    }
  }

  lemma {:induction false} SoundPipe<W>(ts: seq<Tok<W>>) returns (p: PipeS<W>)
    requires PPipe(ts).Good?
    ensures var r := PPipe(ts); ts == PipeToks(p, r.rest) && r.cmd == PipeTree(p) && PipeOk(p)
    decreases |ts|, 1
  {
    var e := SoundExec(ts);
    var rest := PExec(ts).rest;
    if Starts(rest, '|') {
      var q := SoundPipe(rest[1..]);
      p := PipeS(e, Some(q));
      assert rest == [Sym('|')] + rest[1..];
    } else {
      p := PipeS(e, None);
    }
  }

  lemma {:induction false} BacksFlat<W>(c: Cmd<W>, n: nat)
    ensures Backs(Back(c), n) == Backs(c, n + 1)
  {
    if n > 0 { BacksFlat(c, n - 1); }
  }

  lemma {:induction false} SoundBacks<W>(c: Cmd<W>, ts: seq<Tok<W>>) returns (n: nat)
    ensures var r := PBacks(c, ts); ts == Amps(n, r.rest) && r.cmd == Backs(c, n)
    decreases |ts|
  {
    if Starts(ts, '&') {
      var m := SoundBacks(Back(c), ts[1..]);
      BacksFlat(c, m);
      n := m + 1;
      assert ts == [Sym('&')] + ts[1..];
    } else {
      n := 0;
    }
  }

  lemma {:induction false} SoundLine<W>(ts: seq<Tok<W>>) returns (l: LineS<W>)
    requires PLine(ts).Good?
    ensures var r := PLine(ts); ts == LineToks(l, r.rest) && r.cmd == LineTree(l) && LineOk(l)
    decreases |ts|, 2
  {
    var p := SoundPipe(ts);
    var r := PPipe(ts);
    var n := SoundBacks(r.cmd, r.rest);
    var b := PBacks(r.cmd, r.rest);
    if Starts(b.rest, ';') {
      var m := SoundLine(b.rest[1..]);
      l := LineS(p, n, Some(m));
      assert b.rest == [Sym(';')] + b.rest[1..];
    } else {
      l := LineS(p, n, None);
    }
  }

  // ---------- the parser finds every derivation ----------

  lemma {:induction false} CompleteRedirs<W>(rs: seq<Redirect<W>>, rest: seq<Tok<W>>)
    requires RedirsOk(rs) && !StartsRedir(rest)
    ensures PRedirs(RedirToks(rs, rest)) == GoodR(rs, rest)
  {
    if rs != [] {
      CompleteRedirs(rs[1..], rest);
      assert RedirToks(rs, rest)[2..] == RedirToks(rs[1..], rest);
      assert [rs[0]] + rs[1..] == rs;
    }
  }

  lemma {:induction false} CompleteArgs<W>(args: seq<W>, rs: seq<Redirect<W>>, items: seq<Item<W>>, rest: seq<Tok<W>>)
    requires |args| + |items| < MAXARGS && Stops(rest) && ItemsOk(items)
    ensures PArgs(args, rs, ItemToks(items, rest)) == Good(ItemsTree(args, rs, items), rest)
    decreases |items|
  {
    if items != [] {
      var tail := ItemToks(items[1..], rest);
      assert ItemToks(items, rest)[1..] == RedirToks(items[0].rs, tail);
      CompleteRedirs(items[0].rs, tail);
      CompleteArgs(args + [items[0].w], rs + items[0].rs, items[1..], rest);
    }
  }

  lemma {:induction false} CompleteExec<W>(e: ExecS<W>, rest: seq<Tok<W>>)
    requires ExecOk(e) && Stops(rest)
    ensures PExec(ExecToks(e, rest)) == Good(ExecTree(e), rest)
  {
    match e
    case Simple(rs, items) =>
      CompleteRedirs(rs, ItemToks(items, rest));
      CompleteArgs([], rs, items, rest);
    case Block(line, rs) =>
      var tail := [Sym(')')] + RedirToks(rs, rest);
      assert ExecToks(e, rest)[1..] == LineToks(line, tail);
      CompleteLine(line, tail);
      assert tail[1..] == RedirToks(rs, rest);
      CompleteRedirs(rs, rest);
  }

  lemma {:induction false} CompletePipe<W>(p: PipeS<W>, rest: seq<Tok<W>>)
    requires PipeOk(p) && Stops(rest) && !Starts(rest, '|')
    ensures PPipe(PipeToks(p, rest)) == Good(PipeTree(p), rest)
  {
    if p.more.None? {
      CompleteExec(p.exec, rest);
    } else {
      var tail := [Sym('|')] + PipeToks(p.more.value, rest);
      CompleteExec(p.exec, tail);
      assert tail[1..] == PipeToks(p.more.value, rest);
      CompletePipe(p.more.value, rest);
    }
  }

  lemma {:induction false} CompleteBacks<W>(c: Cmd<W>, n: nat, rest: seq<Tok<W>>)
    requires !Starts(rest, '&')
    ensures PBacks(c, Amps(n, rest)) == Good(Backs(c, n), rest)
    decreases n
  {
    if n > 0 {
      assert Amps(n, rest)[1..] == Amps(n - 1, rest);
      CompleteBacks(Back(c), n - 1, rest);
      BacksFlat(c, n - 1);
    }
  }

  /** A line ends at the end of the input or at a closing parenthesis. */
  lemma {:induction false} CompleteLine<W>(l: LineS<W>, rest: seq<Tok<W>>)
    requires LineOk(l) && (rest == [] || Starts(rest, ')'))
    ensures PLine(LineToks(l, rest)) == Good(LineTree(l), rest)
  {
    var after := if l.more.None? then rest else [Sym(';')] + LineToks(l.more.value, rest);
    CompletePipe(l.pipe, Amps(l.backs, after));
    CompleteBacks(PipeTree(l.pipe), l.backs, after);
    if l.more.Some? {
      assert after[1..] == LineToks(l.more.value, rest);
      CompleteLine(l.more.value, rest);
    }
  }

  /** The parser accepts exactly the derivable token sequences, with the derived command. */
  lemma ParsesIff<W>(ts: seq<Tok<W>>, c: Cmd<W>)
    ensures PCmd(ts) == Good(c, []) <==> exists l: LineS<W> :: Derives(l, ts, c)
  {
    if PCmd(ts) == Good(c, []) {
      var l := SoundLine(ts);
      assert Derives(l, ts, c);
    }
    if l: LineS<W> :| Derives(l, ts, c) {
      CompleteLine(l, []);
    }
  }

  predicate Derives<W(==)>(l: LineS<W>, ts: seq<Tok<W>>, c: Cmd<W>) {
    LineOk(l) && LineToks(l, []) == ts && LineTree(l) == c
  }

  /** The grammar is unambiguous as to the command. */
  lemma Unambiguous<W>(l: LineS<W>, m: LineS<W>)
    requires LineOk(l) && LineOk(m) && LineToks(l, []) == LineToks(m, [])
    ensures LineTree(l) == LineTree(m)
  {
    CompleteLine(l, []);
    CompleteLine(m, []);
  }

  // ---------- every command can be written ----------

  /** Operators are right and no command has too many words. */
  predicate CmdOk<W>(c: Cmd<W>) {
    match c
    case Exec(args) => |args| < MAXARGS
    case Redir(d, r) => CmdOk(d) && IsRedir(r.op)
    case Pipe(l, r) => CmdOk(l) && CmdOk(r)
    case List(l, r) => CmdOk(l) && CmdOk(r)
    case Back(d) => CmdOk(d)
  }

  /** The level at which a command needs no parentheses: 0 line, 1 background, 2 pipe, 3 exec. */
  function Level<W>(c: Cmd<W>): nat { match c case List(_, _) => 0 case Back(_) => 1 case Pipe(_, _) => 2 case _ => 3 }

  function Steps<W>(f: nat, c: Cmd<W>): nat { (Level(c) + 4 - f) % 4 }

  /** A derivation of the command, with parentheses where the grammar needs them. */
  function AsLine<W>(c: Cmd<W>): LineS<W>
    decreases c, Steps(0, c)
  {
    if c.List? then var b := AsBacked(c.left); LineS(b.pipe, b.backs, Some(AsLine(c.right))) else AsBacked(c)
  }

  function AsBacked<W>(c: Cmd<W>): LineS<W>
    decreases c, Steps(1, c)
  {
    if c.Back? then var b := AsBacked(c.cmd); LineS(b.pipe, b.backs + 1, None) else LineS(AsPipe(c), 0, None)
  }

  function AsPipe<W>(c: Cmd<W>): PipeS<W>
    decreases c, Steps(2, c)
  {
    if c.Pipe? then PipeS(AsExec(c.left), Some(AsPipe(c.right))) else PipeS(AsExec(c), None)
  }

  function AsExec<W>(c: Cmd<W>): ExecS<W>
    decreases c, Steps(3, c)
  {
    match c
    case Exec(args) => Simple([], AsItems(args))
    case Redir(d, r) => AddRedir(AsExec(d), r)
    case _ => Block(AsLine(c), [])
  }

  function AsItems<W>(args: seq<W>): seq<Item<W>> {
    if args == [] then [] else [Item(args[0], [])] + AsItems(args[1..])
  }

  function AddRedir<W>(e: ExecS<W>, r: Redirect<W>): ExecS<W> {
    match e
    case Block(l, rs) => Block(l, rs + [r])
    case Simple(rs, items) => if items == [] then Simple(rs + [r], []) else Simple(rs, AddLast(items, r))
  }

  function AddLast<W>(items: seq<Item<W>>, r: Redirect<W>): seq<Item<W>>
    requires items != []
  {
    if |items| == 1 then [items[0].(rs := items[0].rs + [r])] else [items[0]] + AddLast(items[1..], r)
  }

  lemma {:induction false} AsItemsTree<W>(args: seq<W>, rs: seq<Redirect<W>>, more: seq<W>)
    ensures ItemsTree(args, rs, AsItems(more)) == Wrap(Exec(args + more), rs) && |AsItems(more)| == |more| &&
      ItemsOk(AsItems(more))
    decreases |more|
  {
    if more == [] {
      assert args + more == args;
    } else {
      AsItemsTree(args + [more[0]], rs + [], more[1..]);
      assert args + [more[0]] + more[1..] == args + more && rs + [] == rs;
      assert AsItems(more)[1..] == AsItems(more[1..]);
    }
  }

  lemma {:induction false} AddLastTree<W>(args: seq<W>, rs: seq<Redirect<W>>, items: seq<Item<W>>, r: Redirect<W>)
    requires items != [] && ItemsOk(items) && IsRedir(r.op)
    ensures ItemsTree(args, rs, AddLast(items, r)) == Redir(ItemsTree(args, rs, items), r)
    ensures |AddLast(items, r)| == |items| && ItemsOk(AddLast(items, r))
    decreases |items|
  {
    var added := AddLast(items, r);
    if |items| == 1 {
      var all := rs + items[0].rs;
      assert rs + (items[0].rs + [r]) == all + [r];
      assert (all + [r])[..|all + [r]| - 1] == all;
      assert items[1..] == [] && added[1..] == [];
    } else {
      AddLastTree(args + [items[0].w], rs + items[0].rs, items[1..], r);
      assert added[1..] == AddLast(items[1..], r);
    }
  }

  lemma AddRedirTree<W>(e: ExecS<W>, r: Redirect<W>)
    requires ExecOk(e) && IsRedir(r.op)
    ensures ExecTree(AddRedir(e, r)) == Redir(ExecTree(e), r) && ExecOk(AddRedir(e, r))
  {
    match e
    case Block(l, rs) => assert (rs + [r])[..|rs + [r]| - 1] == rs;
    case Simple(rs, items) =>
      if items == [] { assert (rs + [r])[..|rs + [r]| - 1] == rs; } else { AddLastTree([], rs, items, r); }
  }

  lemma {:induction false} AsLineTree<W>(c: Cmd<W>)
    requires CmdOk(c)
    ensures LineTree(AsLine(c)) == c && LineOk(AsLine(c))
    decreases c, Steps(0, c)
  {
    if c.List? { AsBackedTree(c.left); AsLineTree(c.right); } else { AsBackedTree(c); }
  }

  lemma {:induction false} AsBackedTree<W>(c: Cmd<W>)
    requires CmdOk(c)
    ensures LineTree(AsBacked(c)) == c && LineOk(AsBacked(c)) && AsBacked(c).more.None?
    decreases c, Steps(1, c)
  {
    if c.Back? { AsBackedTree(c.cmd); } else { AsPipeTree(c); }
  }

  lemma {:induction false} AsPipeTree<W>(c: Cmd<W>)
    requires CmdOk(c)
    ensures PipeTree(AsPipe(c)) == c && PipeOk(AsPipe(c))
    decreases c, Steps(2, c)
  {
    if c.Pipe? { AsExecTree(c.left); AsPipeTree(c.right); } else { AsExecTree(c); }
  }

  lemma {:induction false} AsExecTree<W>(c: Cmd<W>)
    requires CmdOk(c)
    ensures ExecTree(AsExec(c)) == c && ExecOk(AsExec(c))
    decreases c, Steps(3, c)
  {
    match c
    case Exec(args) => AsItemsTree([], [], args); assert [] + args == args;
    case Redir(d, r) => AsExecTree(d); AddRedirTree(AsExec(d), r);
    case _ => AsLineTree(c);
  }

  /** Parsing what any command is written as returns that command. */
  lemma ParsesRendering<W>(c: Cmd<W>)
    requires CmdOk(c)
    ensures PCmd(LineToks(AsLine(c), [])) == Good(c, [])
  {
    AsLineTree(c);
    CompleteLine(AsLine(c), []);
  }

  // ---------- words are only carried along ----------

  function MapTok<W, V>(f: W -> V, t: Tok<W>): Tok<V> { match t case Word(w) => Word(f(w)) case Sym(c) => Sym(c) }

  function MapToks<W, V>(f: W -> V, ts: seq<Tok<W>>): seq<Tok<V>> {
    seq(|ts|, i requires 0 <= i < |ts| => MapTok(f, ts[i]))
  }

  function MapRedir<W, V>(f: W -> V, r: Redirect<W>): Redirect<V> { Redirect(r.op, f(r.file)) }

  function MapRedirs<W, V>(f: W -> V, rs: seq<Redirect<W>>): seq<Redirect<V>> {
    seq(|rs|, i requires 0 <= i < |rs| => MapRedir(f, rs[i]))
  }

  function MapWords<W, V>(f: W -> V, ws: seq<W>): seq<V> { seq(|ws|, i requires 0 <= i < |ws| => f(ws[i])) }

  function MapCmd<W, V>(f: W -> V, c: Cmd<W>): Cmd<V> {
    match c
    case Exec(args) => Exec(MapWords(f, args))
    case Redir(d, r) => Redir(MapCmd(f, d), MapRedir(f, r))
    case Pipe(l, r) => Pipe(MapCmd(f, l), MapCmd(f, r))
    case List(l, r) => List(MapCmd(f, l), MapCmd(f, r))
    case Back(d) => Back(MapCmd(f, d))
  }

  function MapRes<W, V>(f: W -> V, r: Res<W>): Res<V> {
    match r case Bad(m) => Bad(m) case Good(c, rest) => Good(MapCmd(f, c), MapToks(f, rest))
  }

  lemma MapTail<W, V>(f: W -> V, ts: seq<Tok<W>>, k: nat)
    requires k <= |ts|
    ensures MapToks(f, ts[k..]) == MapToks(f, ts)[k..]
  {
  }

  lemma {:induction false} MapWrap<W, V>(f: W -> V, c: Cmd<W>, rs: seq<Redirect<W>>)
    ensures MapCmd(f, Wrap(c, rs)) == Wrap(MapCmd(f, c), MapRedirs(f, rs))
    decreases |rs|
  {
    if rs != [] {
      MapWrap(f, c, rs[..|rs| - 1]);
      assert MapRedirs(f, rs[..|rs| - 1]) == MapRedirs(f, rs)[..|rs| - 1];
    }
  }

  lemma {:induction false} MapPRedirs<W, V>(f: W -> V, ts: seq<Tok<W>>)
    ensures PRedirs(MapToks(f, ts)) ==
      match PRedirs(ts) { case BadR => BadR case GoodR(rs, rest) => GoodR(MapRedirs(f, rs), MapToks(f, rest)) }
    decreases |ts|
  {
    if StartsRedir(ts) && |ts| >= 2 && ts[1].Word? {
      MapTail(f, ts, 2);
      MapPRedirs(f, ts[2..]);
      var r := PRedirs(ts[2..]);
      if r.GoodR? {
        assert MapRedirs(f, [Redirect(ts[0].c, ts[1].w)] + r.rs) ==
          [Redirect(ts[0].c, f(ts[1].w))] + MapRedirs(f, r.rs);
      }
    } else if !StartsRedir(ts) {
      assert MapRedirs(f, PRedirs(ts).rs) == [];
    }
  }

  lemma {:induction false} MapPArgs<W, V>(f: W -> V, args: seq<W>, rs: seq<Redirect<W>>, ts: seq<Tok<W>>)
    ensures PArgs(MapWords(f, args), MapRedirs(f, rs), MapToks(f, ts)) == MapRes(f, PArgs(args, rs, ts))
    decreases |ts|
  {
    if Stops(ts) {
      MapWrap(f, Exec(args), rs);
    } else if ts[0].Word? && |args| + 1 < MAXARGS {
      MapTail(f, ts, 1);
      MapPRedirs(f, ts[1..]);
      var r := PRedirs(ts[1..]);
      if r.GoodR? {
        MapPArgs(f, args + [ts[0].w], rs + r.rs, r.rest);
        assert MapWords(f, args + [ts[0].w]) == MapWords(f, args) + [f(ts[0].w)];
        assert MapRedirs(f, rs + r.rs) == MapRedirs(f, rs) + MapRedirs(f, r.rs);
      }
    }
  }

  lemma {:induction false} MapPExec<W, V>(f: W -> V, ts: seq<Tok<W>>)
    ensures PExec(MapToks(f, ts)) == MapRes(f, PExec(ts))
    decreases |ts|, 0
  {
    if Starts(ts, '(') {
      MapTail(f, ts, 1);
      MapPLine(f, ts[1..]);
      var r := PLine(ts[1..]);
      if r.Good? && Starts(r.rest, ')') {
        MapTail(f, r.rest, 1);
        MapPRedirs(f, r.rest[1..]);
        var q := PRedirs(r.rest[1..]);
        if q.GoodR? { MapWrap(f, r.cmd, q.rs); }
      }
    } else {
      MapPRedirs(f, ts);
      var r := PRedirs(ts);
      if r.GoodR? {
        MapPArgs(f, [], r.rs, r.rest);
        assert MapWords(f, []) == [];
      }
    }
  }

  lemma {:induction false} MapPPipe<W, V>(f: W -> V, ts: seq<Tok<W>>)
    ensures PPipe(MapToks(f, ts)) == MapRes(f, PPipe(ts))
    decreases |ts|, 1
  {
    MapPExec(f, ts);
    var r := PExec(ts);
    if r.Good? && Starts(r.rest, '|') {
      MapTail(f, r.rest, 1);
      MapPPipe(f, r.rest[1..]);
    }
  }

  lemma {:induction false} MapPBacks<W, V>(f: W -> V, c: Cmd<W>, ts: seq<Tok<W>>)
    ensures PBacks(MapCmd(f, c), MapToks(f, ts)) == MapRes(f, PBacks(c, ts))
    decreases |ts|
  {
    if Starts(ts, '&') {
      MapTail(f, ts, 1);
      MapPBacks(f, Back(c), ts[1..]);
    }
  }

  /** Replacing the words throughout and parsing commute. */
  lemma {:induction false} MapPLine<W, V>(f: W -> V, ts: seq<Tok<W>>)
    ensures PLine(MapToks(f, ts)) == MapRes(f, PLine(ts))
    decreases |ts|, 2
  {
    MapPPipe(f, ts);
    var r := PPipe(ts);
    if r.Good? {
      MapPBacks(f, r.cmd, r.rest);
      var b := PBacks(r.cmd, r.rest);
      if Starts(b.rest, ';') {
        MapTail(f, b.rest, 1);
        MapPLine(f, b.rest[1..]);
      }
    }
  }
}
