/**
 * user/sh.c: the command parser.  Commands are parsed from tokens here; ShellCode.dfy does it with
 * a cursor in a buffer, as the shell does.  Words are of any type, so that they can be positions in
 * the buffer as well as text.
 */
module Shell {

  /** `<` reads, `>` truncates and `>>` does not; the last two write to descriptor 1. */
  datatype Mode = Read | Write | Append

  datatype Cmd<W> =
    | Exec(args: seq<W>)
    | Redir(cmd: Cmd<W>, file: W, mode: Mode)
    | Pipe(left: Cmd<W>, right: Cmd<W>)
    | List(left: Cmd<W>, right: Cmd<W>)
    | Back(cmd: Cmd<W>)

  /** What `gettoken` returns: a symbol, or a word ('a'); '+' stands for ">>". */
  datatype Tok<W> = Sym(c: char) | Word(w: W)

  datatype Error = Syntax | TooManyArgs | MissingFile | MissingParen

  datatype Parsed<W> = Ok(cmd: Cmd<W>, rest: seq<Tok<W>>) | Panic(error: Error)

  // ---- The grammar as the shell parses it ----

  predicate Starts<W>(ts: seq<Tok<W>>, cs: string) {
    ts != [] && ts[0].Sym? && ts[0].c in cs
  }

  function ModeOf(c: char): Mode { if c == '<' then Read else if c == '>' then Write else Append }

  datatype Redirected<W> = Redirected(rs: seq<(W, Mode)>, rest: seq<Tok<W>>) | NoFile

  /** `parseredirs`: the redirections at the front. */
  function Redirs<W>(rs: seq<(W, Mode)>, ts: seq<Tok<W>>): (r: Redirected<W>)
    ensures r.Redirected? ==> |r.rest| <= |ts|
    decreases |ts|
  {
    if !Starts(ts, "<>+") then Redirected(rs, ts)
    else if |ts| < 2 || !ts[1].Word? then NoFile
    else Redirs(rs + [(ts[1].w, ModeOf(ts[0].c))], ts[2..])
  }

  /** A command with redirections around it, the first innermost. */
  function Wrap<W>(c: Cmd<W>, rs: seq<(W, Mode)>): (w: Cmd<W>)
    ensures FewArgs(w) == FewArgs(c)
    decreases |rs|
  {
    if rs == [] then c else Redir(Wrap(c, rs[..|rs| - 1]), rs[|rs| - 1].0, rs[|rs| - 1].1)
  }

  /** The loop of `parseexec`: words and redirections in any order. */
  function Args<W>(args: seq<W>, rs: seq<(W, Mode)>, ts: seq<Tok<W>>): (r: Parsed<W>)
    requires |args| <= 9
    ensures r.Ok? ==> |r.rest| <= |ts| && FewArgs(r.cmd)
    decreases |ts|
  {
    if ts == [] || Starts(ts, "|)&;") then Ok(Wrap(Exec(args), rs), ts)
    else if !ts[0].Word? then Panic(Syntax)
    else if |args| + 1 >= 10 then Panic(TooManyArgs)
    else
      match Redirs(rs, ts[1..])
      case NoFile => Panic(MissingFile)
      case Redirected(more, rest) => Args(args + [ts[0].w], more, rest)
  }

  /** `parseexec` */
  function ParseExec<W>(ts: seq<Tok<W>>): (r: Parsed<W>)
    ensures r.Ok? ==> |r.rest| <= |ts| && FewArgs(r.cmd)
    decreases |ts|, 0
  {
    if Starts(ts, "(") then ParseBlock(ts)
    else
      match Redirs([], ts)
      case NoFile => Panic(MissingFile)
      case Redirected(rs, rest) => Args([], rs, rest)
  }

  /** `parseblock` */
  function ParseBlock<W>(ts: seq<Tok<W>>): (r: Parsed<W>)
    requires Starts(ts, "(")
    ensures r.Ok? ==> |r.rest| < |ts| && FewArgs(r.cmd)
    decreases |ts| - 1, 4
  {
    match ParseLine(ts[1..])
    case Panic(e) => Panic(e)
    case Ok(c, rest) =>
      if !Starts(rest, ")") then Panic(MissingParen)
      else
        match Redirs([], rest[1..])
        case NoFile => Panic(MissingFile)
        case Redirected(rs, rest') => Ok(Wrap(c, rs), rest')
  }

  /** `parsepipe` */
  function ParsePipe<W>(ts: seq<Tok<W>>): (r: Parsed<W>)
    ensures r.Ok? ==> |r.rest| <= |ts| && FewArgs(r.cmd)
    decreases |ts|, 1
  {
    match ParseExec(ts)
    case Panic(e) => Panic(e)
    case Ok(c, rest) =>
      if !Starts(rest, "|") then Ok(c, rest)
      else
        match ParsePipe(rest[1..])
        case Panic(e) => Panic(e)
        case Ok(d, rest') => Ok(Pipe(c, d), rest')
  }

  /** The loop of `parseline`. */
  function Backs<W>(c: Cmd<W>, ts: seq<Tok<W>>): (r: Parsed<W>)
    ensures r.Ok? && |r.rest| <= |ts| && !Starts(r.rest, "&") && FewArgs(r.cmd) == FewArgs(c)
    decreases |ts|
  {
    if Starts(ts, "&") then Backs(Back(c), ts[1..]) else Ok(c, ts)
  }

  /** `parseline` */
  function ParseLine<W>(ts: seq<Tok<W>>): (r: Parsed<W>)
    ensures r.Ok? ==> |r.rest| <= |ts| && FewArgs(r.cmd)
    decreases |ts|, 3
  {
    match ParsePipe(ts)
    case Panic(e) => Panic(e)
    case Ok(c, rest) =>
      var b := Backs(c, rest);
      if !Starts(b.rest, ";") then b
      else
        match ParseLine(b.rest[1..])
        case Panic(e) => Panic(e)
        case Ok(d, rest') => Ok(List(b.cmd, d), rest')
  }

  /** `parsecmd`: the whole input must be used. */
  function ParseAll<W>(ts: seq<Tok<W>>): (r: Parsed<W>)
    ensures r.Ok? ==> FewArgs(r.cmd)
  {
    match ParseLine(ts)
    case Panic(e) => Panic(e)
    case Ok(c, rest) => if rest != [] then Panic(Syntax) else Ok(c, [])
  }

  // ---- Printing ----

  /** How loosely a command binds. */
  function Level<W>(c: Cmd<W>): nat {
    match c
    case Exec(_) => 0
    case Redir(_, _, _) => 0
    case Pipe(_, _) => 1
    case Back(_) => 2
    case List(_, _) => 3
  }

  function Words<W>(args: seq<W>): seq<Tok<W>> {
    seq(|args|, i requires 0 <= i < |args| => Word(args[i]))
  }

  function SymOf(m: Mode): char { match m case Read => '<' case Write => '>' case Append => '+' }

  /** The tokens of a command, in parentheses where it binds more loosely than level `n`. */
  function Toks<W>(c: Cmd<W>, n: nat): seq<Tok<W>>
    decreases c, 1
  {
    if Level(c) <= n then Inner(c) else [Sym('(')] + Inner(c) + [Sym(')')]
  }

  function Inner<W>(c: Cmd<W>): seq<Tok<W>>
    decreases c, 0
  {
    match c
    case Exec(args) => Words(args)
    case Redir(d, file, m) => Toks(d, 0) + [Sym(SymOf(m)), Word(file)]
    case Pipe(l, r) => Toks(l, 0) + [Sym('|')] + Toks(r, 1)
    case Back(d) => Toks(d, 2) + [Sym('&')]
    case List(l, r) => Toks(l, 2) + [Sym(';')] + Toks(r, 3)
  }

  /** At most 9 arguments in every simple command. */
  predicate FewArgs<W>(c: Cmd<W>) {
    match c
    case Exec(args) => |args| <= 9
    case Redir(d, file, m) => FewArgs(d)
    case Pipe(l, r) => FewArgs(l) && FewArgs(r)
    case Back(d) => FewArgs(d)
    case List(l, r) => FewArgs(l) && FewArgs(r)
  }

  /** What may follow a command at each level. */
  predicate Follows<W>(rest: seq<Tok<W>>, cs: string) { rest == [] || Starts(rest, cs) }

  function RedirToks<W>(rs: seq<(W, Mode)>): seq<Tok<W>> {
    if rs == [] then [] else [Sym(SymOf(rs[0].1)), Word(rs[0].0)] + RedirToks(rs[1..])
  }

  /** A command without the redirections around it, and those redirections. */
  function Base<W>(c: Cmd<W>): (b: Cmd<W>)
    ensures !b.Redir? && (FewArgs(c) ==> FewArgs(b))
  {
    if c.Redir? then Base(c.cmd) else c
  }

  function Chain<W>(c: Cmd<W>): seq<(W, Mode)> {
    if c.Redir? then Chain(c.cmd) + [(c.file, c.mode)] else []
  }

  lemma {:induction false} RedirToksAppend<W>(rs: seq<(W, Mode)>, f: W, m: Mode)
    ensures RedirToks(rs + [(f, m)]) == RedirToks(rs) + [Sym(SymOf(m)), Word(f)]
  {
    if rs == [] {
      assert rs + [(f, m)] == [(f, m)] && RedirToks<W>([]) == [];
    } else {
      RedirToksAppend(rs[1..], f, m);
      assert (rs + [(f, m)])[1..] == rs[1..] + [(f, m)];
    }
  }

  lemma {:induction false} Unwrap<W>(c: Cmd<W>)
    ensures Wrap(Base(c), Chain(c)) == c && Toks(c, 0) == Toks(Base(c), 0) + RedirToks(Chain(c))
  {
    if c.Redir? {
      Unwrap(c.cmd);
      RedirToksAppend(Chain(c.cmd), c.file, c.mode);
      assert Chain(c)[..|Chain(c)| - 1] == Chain(c.cmd);
    } else {
      assert Toks(c, 0) + [] == Toks(c, 0);
    }
  }

  // ---- Parsing what was printed ----

  lemma {:induction false} RedirsParse<W>(rs0: seq<(W, Mode)>, rs: seq<(W, Mode)>, rest: seq<Tok<W>>)
    requires !Starts(rest, "<>+")
    ensures Redirs(rs0, RedirToks(rs) + rest) == Redirected(rs0 + rs, rest)
    decreases |rs|
  {
    var ts := RedirToks(rs) + rest;
    if rs == [] {
      assert ts == rest && rs0 + rs == rs0;
    } else {
      RedirsParse(rs0 + [rs[0]], rs[1..], rest);
      assert ts[2..] == RedirToks(rs[1..]) + rest;
      assert rs0 + [rs[0]] + rs[1..] == rs0 + rs;
      assert rs[0] == (ts[1].w, ModeOf(ts[0].c));
    }
  }

  /** The words of a simple command and the redirections after them. */
  lemma LastArgParses<W>(args: seq<W>, w: W, rs: seq<(W, Mode)>, rest: seq<Tok<W>>)
    requires |args| < 9 && Follows(rest, "|)&;")
    ensures Args(args, [], [Word(w)] + RedirToks(rs) + rest) == Ok(Wrap(Exec(args + [w]), rs), rest)
  {
    assert ([Word(w)] + RedirToks(rs) + rest)[1..] == RedirToks(rs) + rest;
    RedirsParse([], rs, rest);
    assert [] + rs == rs;
  }

  lemma {:induction false} ArgsParse<W>(args0: seq<W>, args: seq<W>, rs: seq<(W, Mode)>, rest: seq<Tok<W>>)
    requires |args0| + |args| <= 9 && args != [] && Follows(rest, "|)&;")
    ensures Args(args0, [], Words(args) + RedirToks(rs) + rest) == Ok(Wrap(Exec(args0 + args), rs), rest)
    decreases |args|
  {
    if |args| == 1 {
      LastArgParses(args0, args[0], rs, rest);
      assert Words(args) == [Word(args[0])] && args == [args[0]];
    } else {
      var ts := Words(args) + RedirToks(rs) + rest;
      assert ts[0] == Word(args[0]);
      var tail := Words(args[1..]) + RedirToks(rs) + rest;
      assert ts[1..] == tail && tail[0] == Word(args[1]);
      ArgsParse(args0 + [args[0]], args[1..], rs, rest);
      assert args0 + [args[0]] + args[1..] == args0 + args;
    }
  }

  lemma RedirFirst<W>(rs: seq<(W, Mode)>, rest: seq<Tok<W>>)
    requires Follows(rest, "|)&;")
    ensures !Starts(RedirToks(rs) + rest, "(")
  {
    if rs != [] {
      assert (RedirToks(rs) + rest)[0] == Sym(SymOf(rs[0].1));
    } else {
      assert RedirToks(rs) + rest == rest;
    }
  }

  lemma NoArgsParses<W>(rs: seq<(W, Mode)>, rest: seq<Tok<W>>)
    requires Follows(rest, "|)&;")
    ensures ParseExec(RedirToks(rs) + rest) == Ok(Wrap(Exec([]), rs), rest)
  {
    RedirFirst(rs, rest);
    RedirsParse([], rs, rest);
    assert [] + rs == rs;
    assert Args([], rs, rest) == Ok(Wrap(Exec([]), rs), rest);
  }

  lemma SomeArgsParse<W>(args: seq<W>, rs: seq<(W, Mode)>, rest: seq<Tok<W>>)
    requires 0 < |args| <= 9 && Follows(rest, "|)&;")
    ensures ParseExec(Words(args) + RedirToks(rs) + rest) == Ok(Wrap(Exec(args), rs), rest)
  {
    var ts := Words(args) + RedirToks(rs) + rest;
    assert ts[0] == Word(args[0]);
    ArgsParse([], args, rs, rest);
    assert [] + args == args;
  }

  lemma SimpleParses<W>(args: seq<W>, rs: seq<(W, Mode)>, rest: seq<Tok<W>>)
    requires |args| <= 9 && Follows(rest, "|)&;")
    ensures ParseExec(Words(args) + RedirToks(rs) + rest) == Ok(Wrap(Exec(args), rs), rest)
  {
    if args == [] {
      NoArgsParses(rs, rest);
      assert Words(args) + RedirToks(rs) + rest == RedirToks(rs) + rest;
    } else {
      SomeArgsParse(args, rs, rest);
    }
  }

  /** The redirections after a block. */
  lemma AfterBlock<W>(c: Cmd<W>, rs: seq<(W, Mode)>, rest: seq<Tok<W>>, ts: seq<Tok<W>>, after: seq<Tok<W>>)
    requires Follows(rest, "|)&;") && after == [Sym(')')] + (RedirToks(rs) + rest)
    requires Starts(ts, "(") && ParseLine(ts[1..]) == Ok(c, after)
    ensures ParseBlock(ts) == Ok(Wrap(c, rs), rest)
  {
    assert after[1..] == RedirToks(rs) + rest;
    RedirsParse([], rs, rest);
    assert [] + rs == rs;
  }

  /** Given that the line inside parses, so does the block with its redirections. */
  lemma BlockParses<W>(c: Cmd<W>, rs: seq<(W, Mode)>, rest: seq<Tok<W>>, after: seq<Tok<W>>)
    requires Follows(rest, "|)&;") && after == [Sym(')')] + (RedirToks(rs) + rest)
    requires ParseLine(Toks(c, 3) + after) == Ok(c, after)
    ensures ParseExec([Sym('(')] + (Toks(c, 3) + after)) == Ok(Wrap(c, rs), rest)
  {
    var ts := [Sym('(')] + (Toks(c, 3) + after);
    assert ts[1..] == Toks(c, 3) + after;
    AfterBlock(c, rs, rest, ts, after);
  }

  lemma BlockToks<W>(b: Cmd<W>, r: seq<Tok<W>>, rest: seq<Tok<W>>)
    requires Level(b) > 0
    ensures Toks(b, 0) + r + rest == [Sym('(')] + (Toks(b, 3) + ([Sym(')')] + (r + rest)))
  {
    assert Toks(b, 0) == [Sym('(')] + Toks(b, 3) + [Sym(')')];
  }

  lemma {:induction false} ExecParses<W>(c: Cmd<W>, rest: seq<Tok<W>>)
    requires FewArgs(c) && Follows(rest, "|)&;")
    ensures ParseExec(Toks(c, 0) + rest) == Ok(c, rest)
    decreases c, if Level(c) > 0 then 5 else 1
  {
    var b, rs := Base(c), Chain(c);
    Unwrap(c);
    if b.Exec? {
      SimpleParses(b.args, rs, rest);
    } else {
      BaseSmaller(c);
      var after := [Sym(')')] + (RedirToks(rs) + rest);
      LineParses(b, after);
      BlockParses(b, rs, rest, after);
      BlockToks(b, RedirToks(rs), rest);
    }
  }

  lemma {:induction false} BaseSmaller<W>(c: Cmd<W>)
    ensures Base(c) == c || Base(c) < c
  {
    if c.Redir? { BaseSmaller(c.cmd); }
  }

  lemma Regroup<T>(a: seq<T>, x: T, b: seq<T>, rest: seq<T>)
    ensures a + [x] + b + rest == a + ([x] + b + rest) && ([x] + b + rest)[1..] == b + rest
  {
  }

  lemma {:induction false} PipeParses<W>(c: Cmd<W>, rest: seq<Tok<W>>)
    requires FewArgs(c) && Follows(rest, ")&;")
    ensures ParsePipe(Toks(c, 1) + rest) == Ok(c, rest)
    decreases c, if Level(c) > 1 then 6 else 2
  {
    if c.Pipe? {
      Regroup(Toks(c.left, 0), Sym('|'), Toks(c.right, 1), rest);
      ExecParses(c.left, [Sym('|')] + Toks(c.right, 1) + rest);
      PipeParses(c.right, rest);
    } else {
      ExecParses(c, rest);
    }
  }

  lemma {:induction false} BackParses<W>(c: Cmd<W>, rest: seq<Tok<W>>)
    requires FewArgs(c) && Follows(rest, ")&;")
    ensures ParsePipe(Toks(c, 2) + rest).Ok?
    ensures var p := ParsePipe(Toks(c, 2) + rest); Backs(p.cmd, p.rest) == Backs(c, rest)
    decreases c, if Level(c) > 2 then 7 else 3
  {
    if c.Back? {
      var after := [Sym('&')] + rest;
      assert Toks(c, 2) + rest == Toks(c.cmd, 2) + after;
      BackParses(c.cmd, after);
      assert after[1..] == rest;
    } else {
      PipeParses(c, rest);
    }
  }

  lemma {:induction false} LineParses<W>(c: Cmd<W>, rest: seq<Tok<W>>)
    requires FewArgs(c) && Follows(rest, ")")
    ensures ParseLine(Toks(c, 3) + rest) == Ok(c, rest)
    decreases c, 4
  {
    if c.List? {
      Regroup(Toks(c.left, 2), Sym(';'), Toks(c.right, 3), rest);
      BackParses(c.left, [Sym(';')] + Toks(c.right, 3) + rest);
      LineParses(c.right, rest);
    } else {
      assert Toks(c, 3) == Toks(c, 2);
      BackParses(c, rest);
    }
  }

  /** A command is what its own tokens parse to exactly when it has at most 9 arguments everywhere. */
  lemma PrintThenParse<W>(c: Cmd<W>)
    ensures ParseAll(Toks(c, 3)) == Ok(c, []) <==> FewArgs(c)
  {
    if FewArgs(c) {
      LineParses(c, []);
      assert Toks(c, 3) + [] == Toks(c, 3);
    }
  }

  // ---- Parsing does not look into words ----

  function MapTok<W, V>(f: W -> V, t: Tok<W>): Tok<V> {
    match t case Sym(c) => Sym(c) case Word(w) => Word(f(w))
  }

  function MapToks<W, V>(f: W -> V, ts: seq<Tok<W>>): seq<Tok<V>> {
    seq(|ts|, i requires 0 <= i < |ts| => MapTok(f, ts[i]))
  }

  function MapSeq<W, V>(f: W -> V, ws: seq<W>): seq<V> {
    seq(|ws|, i requires 0 <= i < |ws| => f(ws[i]))
  }

  function MapRs<W, V>(f: W -> V, rs: seq<(W, Mode)>): seq<(V, Mode)> {
    seq(|rs|, i requires 0 <= i < |rs| => (f(rs[i].0), rs[i].1))
  }

  function MapCmd<W, V>(f: W -> V, c: Cmd<W>): Cmd<V> {
    match c
    case Exec(args) => Exec(MapSeq(f, args))
    case Redir(d, file, m) => Redir(MapCmd(f, d), f(file), m)
    case Pipe(l, r) => Pipe(MapCmd(f, l), MapCmd(f, r))
    case List(l, r) => List(MapCmd(f, l), MapCmd(f, r))
    case Back(d) => Back(MapCmd(f, d))
  }

  function MapParsed<W, V>(f: W -> V, p: Parsed<W>): Parsed<V> {
    match p case Ok(c, rest) => Ok(MapCmd(f, c), MapToks(f, rest)) case Panic(e) => Panic(e)
  }

  function MapRedirected<W, V>(f: W -> V, p: Redirected<W>): Redirected<V> {
    match p case Redirected(rs, rest) => Redirected(MapRs(f, rs), MapToks(f, rest)) case NoFile => NoFile
  }

  lemma {:induction false} RedirsMap<W, V>(f: W -> V, rs: seq<(W, Mode)>, ts: seq<Tok<W>>)
    ensures Redirs(MapRs(f, rs), MapToks(f, ts)) == MapRedirected(f, Redirs(rs, ts))
    decreases |ts|
  {
    if Starts(ts, "<>+") && |ts| >= 2 && ts[1].Word? {
      var r := (ts[1].w, ModeOf(ts[0].c));
      RedirsMap(f, rs + [r], ts[2..]);
      assert MapRs(f, rs + [r]) == MapRs(f, rs) + [(f(r.0), r.1)];
      assert MapToks(f, ts[2..]) == MapToks(f, ts)[2..];
    }
  }

  lemma {:induction false} WrapMap<W, V>(f: W -> V, c: Cmd<W>, rs: seq<(W, Mode)>)
    ensures Wrap(MapCmd(f, c), MapRs(f, rs)) == MapCmd(f, Wrap(c, rs))
    decreases |rs|
  {
    if rs != [] {
      WrapMap(f, c, rs[..|rs| - 1]);
      assert MapRs(f, rs)[..|rs| - 1] == MapRs(f, rs[..|rs| - 1]);
    }
  }

  lemma {:induction false} ArgsMap<W, V>(f: W -> V, args: seq<W>, rs: seq<(W, Mode)>, ts: seq<Tok<W>>)
    requires |args| <= 9
    ensures Args(MapSeq(f, args), MapRs(f, rs), MapToks(f, ts)) == MapParsed(f, Args(args, rs, ts))
    decreases |ts|
  {
    WrapMap(f, Exec(args), rs);
    if ts != [] && ts[0].Word? && |args| < 9 {
      assert MapToks(f, ts[1..]) == MapToks(f, ts)[1..];
      RedirsMap(f, rs, ts[1..]);
      var r := Redirs(rs, ts[1..]);
      if r.Redirected? {
        ArgsMap(f, args + [ts[0].w], r.rs, r.rest);
        assert MapSeq(f, args + [ts[0].w]) == MapSeq(f, args) + [f(ts[0].w)];
      }
    }
  }

  lemma {:induction false} ExecMap<W, V>(f: W -> V, ts: seq<Tok<W>>)
    ensures ParseExec(MapToks(f, ts)) == MapParsed(f, ParseExec(ts))
    decreases |ts|, 0
  {
    if Starts(ts, "(") {
      BlockMap(f, ts);
    } else {
      RedirsMap(f, [], ts);
      assert MapRs(f, []) == [] && MapSeq<W, V>(f, []) == [];
      var r := Redirs([], ts);
      if r.Redirected? {
        ArgsMap(f, [], r.rs, r.rest);
      }
    }
  }

  lemma {:induction false} BlockMap<W, V>(f: W -> V, ts: seq<Tok<W>>)
    requires Starts(ts, "(")
    ensures ParseBlock(MapToks(f, ts)) == MapParsed(f, ParseBlock(ts))
    decreases |ts| - 1, 4
  {
    assert MapToks(f, ts[1..]) == MapToks(f, ts)[1..];
    LineMap(f, ts[1..]);
    var p := ParseLine(ts[1..]);
    if p.Ok? && Starts(p.rest, ")") {
      assert MapToks(f, p.rest[1..]) == MapToks(f, p.rest)[1..];
      RedirsMap(f, [], p.rest[1..]);
      assert MapRs(f, []) == [];
      var r := Redirs([], p.rest[1..]);
      if r.Redirected? {
        WrapMap(f, p.cmd, r.rs);
      }
    }
  }

  lemma {:induction false} PipeMap<W, V>(f: W -> V, ts: seq<Tok<W>>)
    ensures ParsePipe(MapToks(f, ts)) == MapParsed(f, ParsePipe(ts))
    decreases |ts|, 1
  {
    ExecMap(f, ts);
    var p := ParseExec(ts);
    if p.Ok? && Starts(p.rest, "|") {
      assert MapToks(f, p.rest[1..]) == MapToks(f, p.rest)[1..];
      PipeMap(f, p.rest[1..]);
    }
  }

  lemma {:induction false} BacksMap<W, V>(f: W -> V, c: Cmd<W>, ts: seq<Tok<W>>)
    ensures Backs(MapCmd(f, c), MapToks(f, ts)) == MapParsed(f, Backs(c, ts))
    decreases |ts|
  {
    if Starts(ts, "&") {
      assert MapToks(f, ts[1..]) == MapToks(f, ts)[1..];
      BacksMap(f, Back(c), ts[1..]);
    }
  }

  lemma {:induction false} LineMap<W, V>(f: W -> V, ts: seq<Tok<W>>)
    ensures ParseLine(MapToks(f, ts)) == MapParsed(f, ParseLine(ts))
    decreases |ts|, 3
  {
    PipeMap(f, ts);
    var p := ParsePipe(ts);
    if p.Ok? {
      BacksMap(f, p.cmd, p.rest);
      var b := Backs(p.cmd, p.rest);
      if Starts(b.rest, ";") {
        assert MapToks(f, b.rest[1..]) == MapToks(f, b.rest)[1..];
        LineMap(f, b.rest[1..]);
      }
    }
  }
}
