/**
 * user/sh.c with its cursor: `gettoken` and `peek` on a buffer of characters, the recursive parser on
 * top of them, and `nulterminate`, which cuts the buffer up in place.
 */
module ShellCode {

  import opened Shell

  /** A word in the buffer: the pointers `q` and `eq` of `gettoken`. */
  datatype Span = Span(q: nat, eq: nat)

  predicate White(c: char) { c in " \t\r\n" || c == '\U{0B}' }

  predicate Symbol(c: char) { c in "<|>&;()" }

  // ---- Tokens ----

  /** The next position that is not white space. */
  function Skip(buf: string, i: nat): (j: nat)
    requires i <= |buf|
    ensures i <= j <= |buf| && (j < |buf| ==> !White(buf[j])) && (forall k :: i <= k < j ==> White(buf[k]))
    decreases |buf| - i
  {
    if i < |buf| && White(buf[i]) then Skip(buf, i + 1) else i
  }

  predicate Inside(buf: string, k: nat)
    requires k < |buf|
  {
    !White(buf[k]) && !Symbol(buf[k])
  }

  function WordEnd(buf: string, i: nat): (j: nat)
    requires i <= |buf|
    ensures i <= j <= |buf| && (j < |buf| ==> !Inside(buf, j)) && (forall k :: i <= k < j ==> Inside(buf, k))
    decreases |buf| - i
  {
    if i < |buf| && Inside(buf, i) then WordEnd(buf, i + 1) else i
  }

  /** Where the token at `i` ends. */
  function TokEnd(buf: string, i: nat): (j: nat)
    requires i < |buf| && !White(buf[i])
    ensures i < j <= |buf|
  {
    if buf[i] == '>' && i + 1 < |buf| && buf[i + 1] == '>' then i + 2
    else if Symbol(buf[i]) then i + 1
    else WordEnd(buf, i)
  }

  function TokAt(buf: string, i: nat): Tok<Span>
    requires i < |buf| && !White(buf[i])
  {
    if !Symbol(buf[i]) then Word(Span(i, TokEnd(buf, i)))
    else if TokEnd(buf, i) == i + 2 then Sym('+')
    else Sym(buf[i])
  }

  /** The tokens from `i` on. */
  function Lex(buf: string, i: nat): seq<Tok<Span>>
    requires i <= |buf|
    decreases |buf| - i
  {
    var j := Skip(buf, i);
    if j == |buf| then [] else [TokAt(buf, j)] + Lex(buf, TokEnd(buf, j))
  }

  lemma LexSkip(buf: string, i: nat)
    requires i <= |buf|
    ensures Lex(buf, Skip(buf, i)) == Lex(buf, i)
  {
    assert Skip(buf, Skip(buf, i)) == Skip(buf, i);
  }

  function Kind(t: Tok<Span>): char { match t case Sym(c) => c case Word(_) => 'a' }

  // ---- gettoken and peek ----

  ghost predicate Clean(buf: string) { forall k :: 0 <= k < |buf| ==> buf[k] != '\0' }

  method SkipWhite(buf: string, s: nat) returns (r: nat)
    requires s <= |buf|
    ensures r == Skip(buf, s)
  {
    r := s;
    while r < |buf| && White(buf[r])
      invariant s <= r <= |buf| && Skip(buf, r) == Skip(buf, s)
    {
      r := r + 1;
    }
  }

  /** The middle of `gettoken`: the token at `q`, which is not white space. */
  method ScanToken(buf: string, q: nat) returns (ret: char, s: nat)
    requires q < |buf| && !White(buf[q])
    ensures s == TokEnd(buf, q) && ret == Kind(TokAt(buf, q))
  {
    ret, s := buf[q], q;
    if buf[s] in "|();&<" {
      s := s + 1;
    } else if buf[s] == '>' {
      s := s + 1;
      if s < |buf| && buf[s] == '>' {
        ret := '+';
        s := s + 1;
      }
    } else {
      ret := 'a';
      while s < |buf| && !White(buf[s]) && !Symbol(buf[s])
        invariant q <= s <= |buf| && WordEnd(buf, s) == WordEnd(buf, q)
      {
        s := s + 1;
      }
    }
  }

  /** `gettoken`; 0 at the end of the buffer. */
  method Gettoken(buf: string, ps: nat) returns (ret: char, q: nat, eq: nat, next: nat)
    requires ps <= |buf| && Clean(buf)
    ensures ps <= next <= |buf|
    ensures ret == '\0' <==> Lex(buf, ps) == []
    ensures ret == '\0' ==> next == |buf|
    ensures ret != '\0' ==> ret == Kind(Lex(buf, ps)[0]) && Lex(buf, next) == Lex(buf, ps)[1..]
    ensures ret == 'a' ==> Lex(buf, ps)[0] == Word(Span(q, eq))
  {
    q := SkipWhite(buf, ps);
    ret, eq := '\0', q;
    if q < |buf| {
      ret, eq := ScanToken(buf, q);
    }
    LexSkip(buf, eq);
    next := SkipWhite(buf, eq);
  }

  /** `peek`: does the next token begin with one of these characters? */
  method Peek(buf: string, ps: nat, toks: string) returns (found: bool, next: nat)
    requires ps <= |buf|
    ensures ps <= next <= |buf| && Lex(buf, next) == Lex(buf, ps) && (next == |buf| <==> Lex(buf, ps) == [])
    ensures (forall c :: c in toks ==> c in "|)&;(") ==> found == Starts(Lex(buf, ps), toks)
    ensures toks == "<>" ==> found == Starts(Lex(buf, ps), "<>+")
  {
    next := SkipWhite(buf, ps);
    LexSkip(buf, ps);
    found := next < |buf| && buf[next] in toks;
  }

  // ---- The parser ----

  /** A command, or the panic that ends the shell. */
  datatype Outcome = Done(cmd: Cmd<Span>) | Died(error: Error)

  /** A parse with the cursor at `next` afterwards is the parse of the tokens. */
  ghost predicate Agrees(buf: string, out: Outcome, next: nat, p: Parsed<Span>) {
    && next <= |buf|
    && match out case Done(c) => p == Ok(c, Lex(buf, next)) case Died(e) => p == Panic(e)
  }

  /** `parseredirs`; `ok` is false where the shell panics. */
  method Parseredirs(buf: string, rs0: seq<(Span, Mode)>, ps: nat) returns (ok: bool, rs: seq<(Span, Mode)>, next: nat)
    requires ps <= |buf| && Clean(buf)
    ensures next <= |buf| && Redirs(rs0, Lex(buf, ps)) == if ok then Redirected(rs, Lex(buf, next)) else NoFile
  {
    rs, next := rs0, ps;
    var more;
    more, next := Peek(buf, next, "<>");
    while more
      invariant next <= |buf| && Redirs(rs0, Lex(buf, ps)) == Redirs(rs, Lex(buf, next))
                && more == Starts(Lex(buf, next), "<>+")
      decreases |Lex(buf, next)|
    {
      ghost var ts := Lex(buf, next);
      var tok, q, eq;
      tok, q, eq, next := Gettoken(buf, next);
      var word;
      word, q, eq, next := Gettoken(buf, next);
      if word != 'a' {
        return false, rs, next;
      }
      assert ts[1] == Word(Span(q, eq)) && ts[2..] == ts[1..][1..];
      rs := rs + [(Span(q, eq), ModeOf(tok))];
      more, next := Peek(buf, next, "<>");
    }
    ok := true;
  }

  /** `parseexec` */
  method Parseexec(buf: string, ps: nat) returns (out: Outcome, next: nat)
    requires ps <= |buf| && Clean(buf)
    ensures Agrees(buf, out, next, ParseExec(Lex(buf, ps)))
    decreases |Lex(buf, ps)|, 0
  {
    var block;
    block, next := Peek(buf, ps, "(");
    if block {
      out, next := Parseblock(buf, next);
      return;
    }
    var ok, rs;
    ok, rs, next := Parseredirs(buf, [], next);
    if !ok {
      return Died(MissingFile), next;
    }
    out, next := ParseArgs(buf, rs, next);
  }

  /** The loop of `parseexec`. */
  method ParseArgs(buf: string, rs0: seq<(Span, Mode)>, ps: nat) returns (out: Outcome, next: nat)
    requires ps <= |buf| && Clean(buf)
    ensures Agrees(buf, out, next, Args([], rs0, Lex(buf, ps)))
  {
    var argv: seq<Span>, rs := [], rs0;
    var stop;
    stop, next := Peek(buf, ps, "|)&;");
    while !stop
      invariant next <= |buf| && |argv| <= 9 && Args([], rs0, Lex(buf, ps)) == Args(argv, rs, Lex(buf, next))
      invariant stop == Starts(Lex(buf, next), "|)&;")
      decreases |Lex(buf, next)|
    {
      var tok, q, eq;
      tok, q, eq, next := Gettoken(buf, next);
      if tok == '\0' {
        break;
      }
      if tok != 'a' {
        return Died(Syntax), next;
      }
      argv := argv + [Span(q, eq)];
      if |argv| >= 10 {
        return Died(TooManyArgs), next;
      }
      var ok;
      ok, rs, next := Parseredirs(buf, rs, next);
      if !ok {
        return Died(MissingFile), next;
      }
      stop, next := Peek(buf, next, "|)&;");
    }
    out := Done(Wrap(Exec(argv), rs));
  }

  /** `parseblock` */
  method Parseblock(buf: string, ps: nat) returns (out: Outcome, next: nat)
    requires ps <= |buf| && Clean(buf) && Starts(Lex(buf, ps), "(")
    ensures Agrees(buf, out, next, ParseBlock(Lex(buf, ps)))
    decreases |Lex(buf, ps)| - 1, 4
  {
    var tok, q, eq;
    tok, q, eq, next := Gettoken(buf, ps);
    out, next := Parseline(buf, next);
    if out.Died? {
      return;
    }
    var close;
    close, next := Peek(buf, next, ")");
    if !close {
      return Died(MissingParen), next;
    }
    tok, q, eq, next := Gettoken(buf, next);
    var ok, rs;
    ok, rs, next := Parseredirs(buf, [], next);
    if !ok {
      return Died(MissingFile), next;
    }
    out := Done(Wrap(out.cmd, rs));
  }

  /** `parsepipe` */
  method Parsepipe(buf: string, ps: nat) returns (out: Outcome, next: nat)
    requires ps <= |buf| && Clean(buf)
    ensures Agrees(buf, out, next, ParsePipe(Lex(buf, ps)))
    decreases |Lex(buf, ps)|, 1
  {
    out, next := Parseexec(buf, ps);
    if out.Died? {
      return;
    }
    var bar;
    bar, next := Peek(buf, next, "|");
    if bar {
      var tok, q, eq, right;
      tok, q, eq, next := Gettoken(buf, next);
      right, next := Parsepipe(buf, next);
      out := if right.Died? then right else Done(Pipe(out.cmd, right.cmd));
    }
  }

  /** The loop of `parseline`. */
  method ParseBacks(buf: string, c: Cmd<Span>, ps: nat) returns (cmd: Cmd<Span>, next: nat)
    requires ps <= |buf| && Clean(buf)
    ensures next <= |buf| && Backs(c, Lex(buf, ps)) == Ok(cmd, Lex(buf, next))
  {
    cmd := c;
    var amp;
    amp, next := Peek(buf, ps, "&");
    while amp
      invariant next <= |buf| && Backs(c, Lex(buf, ps)) == Backs(cmd, Lex(buf, next))
                && amp == Starts(Lex(buf, next), "&")
      decreases |Lex(buf, next)|
    {
      var tok, q, eq;
      tok, q, eq, next := Gettoken(buf, next);
      cmd := Back(cmd);
      amp, next := Peek(buf, next, "&");
    }
  }

  /** `parseline` */
  method Parseline(buf: string, ps: nat) returns (out: Outcome, next: nat)
    requires ps <= |buf| && Clean(buf)
    ensures Agrees(buf, out, next, ParseLine(Lex(buf, ps)))
    decreases |Lex(buf, ps)|, 3
  {
    out, next := Parsepipe(buf, ps);
    if out.Died? {
      return;
    }
    var cmd;
    cmd, next := ParseBacks(buf, out.cmd, next);
    out := Done(cmd);
    var semi;
    semi, next := Peek(buf, next, ";");
    if semi {
      var tok, q, eq, right;
      tok, q, eq, next := Gettoken(buf, next);
      right, next := Parseline(buf, next);
      out := if right.Died? then right else Done(List(cmd, right.cmd));
    }
  }

  // ---- Cutting the buffer up ----

  /** A word in `buf`: characters of words, up to something that is not one. */
  ghost predicate IsWord(buf: string, w: Span) {
    && w.q <= w.eq <= |buf| && (w.eq < |buf| ==> !Inside(buf, w.eq))
    && forall k :: w.q <= k < w.eq ==> Inside(buf, k)
  }

  lemma {:induction false} LexWords(buf: string, i: nat)
    requires i <= |buf|
    ensures forall k :: 0 <= k < |Lex(buf, i)| && Lex(buf, i)[k].Word? ==> IsWord(buf, Lex(buf, i)[k].w)
    decreases |buf| - i
  {
    var j := Skip(buf, i);
    if j < |buf| {
      LexWords(buf, TokEnd(buf, j));
    }
  }

  /** The words of a command. */
  function WordsOf<W>(c: Cmd<W>): set<W> {
    match c
    case Exec(args) => set k | 0 <= k < |args| :: args[k]
    case Redir(d, file, m) => WordsOf(d) + {file}
    case Pipe(l, r) => WordsOf(l) + WordsOf(r)
    case List(l, r) => WordsOf(l) + WordsOf(r)
    case Back(d) => WordsOf(d)
  }

  /** Words that a map leaves alone. */
  lemma {:induction false} FixedWords<W>(f: W -> W, c: Cmd<W>, w: W)
    requires MapCmd(f, c) == c && w in WordsOf(c)
    ensures f(w) == w
  {
    match c {
      case Exec(args) =>
        var k :| 0 <= k < |args| && args[k] == w;
        assert MapSeq(f, args)[k] == args[k];
      case Redir(d, file, m) => if w in WordsOf(d) { FixedWords(f, d, w); }
      case Pipe(l, r) => if w in WordsOf(l) { FixedWords(f, l, w); } else { FixedWords(f, r, w); }
      case List(l, r) => if w in WordsOf(l) { FixedWords(f, l, w); } else { FixedWords(f, r, w); }
      case Back(d) => FixedWords(f, d, w);
    }
  }

  /** The words of a parsed command are words of the buffer: parsing does not look into words, so it
      would give the same command if other spans were replaced by an empty word. */
  lemma ParsedWords(buf: string, c: Cmd<Span>, w: Span)
    requires ParseLine(Lex(buf, 0)) == Ok(c, []) && w in WordsOf(c)
    ensures IsWord(buf, w)
  {
    ghost var f: Span -> Span := (v: Span) => if IsWord(buf, v) then v else Span(|buf|, |buf|);
    LexWords(buf, 0);
    assert MapToks(f, Lex(buf, 0)) == Lex(buf, 0);
    LineMap(f, Lex(buf, 0));
    FixedWords(f, c, w);
  }

  /** The positions `nulterminate` overwrites. */
  function Ends(c: Cmd<Span>): set<nat> { set w | w in WordsOf(c) :: w.eq }

  /** The C string at `q`. */
  function CString(s: string, q: nat): string
    decreases |s| - q
  {
    if q >= |s| || s[q] == '\0' then [] else [s[q]] + CString(s, q + 1)
  }

  function Text(buf: string, w: Span): string { if w.q <= w.eq <= |buf| then buf[w.q..w.eq] else [] }

  /** The command with its words read as C strings in `t`. */
  function Strings(t: string, c: Cmd<Span>): Cmd<string> { MapCmd((w: Span) => CString(t, w.q), c) }

  /** The command with its words as they stand in `buf`. */
  function Texts(buf: string, c: Cmd<Span>): Cmd<string> { MapCmd((w: Span) => Text(buf, w), c) }

  /** `s` with NUL at the positions in `cuts`. */
  ghost predicate Cut(s: string, cuts: set<nat>, t: string) {
    |t| == |s| && forall k :: 0 <= k < |s| ==> t[k] == if k in cuts then '\0' else s[k]
  }

  lemma CutTwice(s: string, a: set<nat>, t: string, b: set<nat>, u: string, c: set<nat>)
    requires Cut(s, a, t) && Cut(t, b, u) && c == a + b
    ensures Cut(s, c, u)
  {
  }

  /** `nulterminate` */
  method Nulterminate(a: array<char>, c: Cmd<Span>)
    requires forall w :: w in WordsOf(c) ==> w.eq < a.Length
    modifies a
    ensures Cut(old(a[..]), Ends(c), a[..])
  {
    ghost var s0 := a[..];
    match c {
      case Exec(args) => CutArgs(a, args);
      case Redir(d, file, m) =>
        assert file in WordsOf(c);
        Nulterminate(a, d);
        ghost var s1 := a[..];
        a[file.eq] := '\0';
        assert Ends(c) == Ends(d) + {file.eq};
        CutTwice(s0, Ends(d), s1, {file.eq}, a[..], Ends(c));
      case Pipe(l, r) =>
        Nulterminate(a, l);
        ghost var s1 := a[..];
        Nulterminate(a, r);
        assert Ends(c) == Ends(l) + Ends(r);
        CutTwice(s0, Ends(l), s1, Ends(r), a[..], Ends(c));
      case List(l, r) =>
        Nulterminate(a, l);
        ghost var s1 := a[..];
        Nulterminate(a, r);
        assert Ends(c) == Ends(l) + Ends(r);
        CutTwice(s0, Ends(l), s1, Ends(r), a[..], Ends(c));
      case Back(d) =>
        Nulterminate(a, d);
        assert Ends(c) == Ends(d);
    }
  }

  /** The loop of `nulterminate` over the arguments of a simple command. */
  method CutArgs(a: array<char>, args: seq<Span>)
    requires forall w :: w in WordsOf(Exec(args)) ==> w.eq < a.Length
    modifies a
    ensures Cut(old(a[..]), Ends(Exec(args)), a[..])
  {
    var i := 0;
    while i < |args|
      invariant 0 <= i <= |args|
      invariant Cut(old(a[..]), set k | 0 <= k < i :: args[k].eq, a[..])
    {
      assert args[i] in WordsOf(Exec(args));
      a[args[i].eq] := '\0';
      i := i + 1;
    }
    assert Ends(Exec(args)) == set k | 0 <= k < |args| :: args[k].eq by {
      forall k | 0 <= k < |args| ensures args[k] in WordsOf(Exec(args)) {
      }
    }
  }

  /** No word ends inside another, so cutting leaves each word whole and ends it. */
  lemma {:induction false} CutWord(buf: string, cuts: set<nat>, t: string, w: Span, q: nat)
    requires Clean(buf) && Cut(buf + ['\0'], cuts, t) && IsWord(buf, w) && w.eq in cuts && w.q <= q <= w.eq
    requires forall e :: e in cuts ==> e <= |buf| && (e < |buf| ==> !Inside(buf, e))
    ensures CString(t, q) == buf[q..w.eq]
    decreases w.eq - q
  {
    if q < w.eq {
      assert Inside(buf, q) && q !in cuts;
      CutWord(buf, cuts, t, w, q + 1);
      assert buf[q..w.eq] == [buf[q]] + buf[q + 1..w.eq];
    }
  }

  lemma {:induction false} SameText(t: string, buf: string, c: Cmd<Span>)
    requires forall w :: w in WordsOf(c) ==> CString(t, w.q) == Text(buf, w)
    ensures Strings(t, c) == Texts(buf, c)
  {
    match c {
      case Exec(args) =>
        forall k | 0 <= k < |args| ensures CString(t, args[k].q) == Text(buf, args[k]) {
          assert args[k] in WordsOf(c);
        }
      case Redir(d, file, m) =>
        assert file in WordsOf(c);
        SameText(t, buf, d);
      case Pipe(l, r) => SameText(t, buf, l); SameText(t, buf, r);
      case List(l, r) => SameText(t, buf, l); SameText(t, buf, r);
      case Back(d) => SameText(t, buf, d);
    }
  }

  /** `parsecmd` on a buffer that ends in its only NUL: the command the tokens parse to, every word of
      it a C string equal to its text; or the panic, with the buffer unchanged. */
  method Parsecmd(a: array<char>) returns (out: Outcome)
    requires a.Length >= 1 && a[a.Length - 1] == '\0' && Clean(a[..a.Length - 1])
    modifies a
    ensures var buf := old(a[..a.Length - 1]);
            match out
            case Died(e) => ParseAll(Lex(buf, 0)) == Panic(e) && a[..] == old(a[..])
            case Done(c) =>
              && ParseAll(Lex(buf, 0)) == Ok(c, [])
              && Strings(a[..], c) == Texts(buf, c)
  {
    var buf := a[..a.Length - 1];
    var s;
    out, s := Parseline(buf, 0);
    if out.Died? {
      return;
    }
    var found;
    found, s := Peek(buf, s, "");
    if s != |buf| {
      return Died(Syntax);
    }
    ghost var c := out.cmd;
    forall w | w in WordsOf(c) ensures IsWord(buf, w) {
      ParsedWords(buf, c, w);
    }
    assert a[..] == buf + ['\0'];
    Nulterminate(a, out.cmd);
    forall w | w in WordsOf(c) ensures CString(a[..], w.q) == Text(buf, w) {
      CutWord(buf, Ends(c), a[..], w, w.q);
    }
    SameText(a[..], buf, c);
  }

  // ---- Printing ----

  function TokText(t: Tok<string>): string {
    match t case Sym(c) => if c == '+' then ">>" else [c] case Word(w) => w
  }

  /** Tokens with a space after each. */
  function Render(ts: seq<Tok<string>>): string {
    if ts == [] then [] else TokText(ts[0]) + " " + Render(ts[1..])
  }

  /** Something `gettoken` can return: an operator, or a word without white space, symbols or NUL. */
  predicate GoodTok(t: Tok<string>) {
    match t
    case Sym(c) => c in "<|>&;()+"
    case Word(w) => w != [] && forall k :: 0 <= k < |w| ==> !White(w[k]) && !Symbol(w[k])
  }

  predicate GoodToks(ts: seq<Tok<string>>) { forall k :: 0 <= k < |ts| ==> GoodTok(ts[k]) }

  function TextTok(buf: string, t: Tok<Span>): Tok<string> { MapTok((w: Span) => Text(buf, w), t) }

  function TextToks(buf: string, ts: seq<Tok<Span>>): seq<Tok<string>> { MapToks((w: Span) => Text(buf, w), ts) }

  lemma LexWhite(buf: string, i: nat)
    requires i < |buf| && White(buf[i])
    ensures Lex(buf, i) == Lex(buf, i + 1)
  {
  }

  lemma WordEndIs(buf: string, i: nat, j: nat)
    requires i <= j < |buf| && (forall k :: i <= k < j ==> Inside(buf, k)) && !Inside(buf, j)
    ensures WordEnd(buf, i) == j
  {
  }

  /** A printed token is read back. */
  lemma LexOne(buf: string, i: nat, t: Tok<string>)
    requires GoodTok(t) && i + |TokText(t)| < |buf| && buf[i..i + |TokText(t)|] == TokText(t)
             && buf[i + |TokText(t)|] == ' '
    ensures Skip(buf, i) == i && !White(buf[i]) && TokEnd(buf, i) == i + |TokText(t)|
            && TextTok(buf, TokAt(buf, i)) == t
  {
    var x, n := TokText(t), |TokText(t)|;
    forall k | 0 <= k < n ensures buf[i + k] == x[k] {
      assert buf[i..i + n][k] == x[k];
    }
    assert buf[i] == x[0];
    if t.Word? {
      forall k | i <= k < i + n ensures Inside(buf, k) {
        assert buf[i + (k - i)] == x[k - i];
      }
      WordEndIs(buf, i, i + n);
    } else if t.c == '+' {
      assert buf[i + 1] == x[1];
    }
  }

  lemma RenderSplit(buf: string, i: nat, ts: seq<Tok<string>>)
    requires i <= |buf| && buf[i..] == Render(ts) && ts != []
    ensures var j := i + |TokText(ts[0])|;
            j < |buf| && buf[i..j] == TokText(ts[0]) && buf[j] == ' ' && buf[j + 1..] == Render(ts[1..])
  {
    var x := TokText(ts[0]);
    var j := i + |x|;
    var tail := buf[i..];
    assert tail == x + " " + Render(ts[1..]);
    assert buf[i..j] == tail[..|x|] == x;
    assert buf[j] == tail[|x|] == ' ';
    assert buf[j + 1..] == tail[|x| + 1..] == Render(ts[1..]);
  }

  lemma TextCons(buf: string, t: Tok<Span>, ts: seq<Tok<Span>>)
    ensures TextToks(buf, [t] + ts) == [TextTok(buf, t)] + TextToks(buf, ts)
  {
  }

  lemma LexFirst(buf: string, i: nat, t: Tok<string>)
    requires GoodTok(t) && i + |TokText(t)| < |buf| && buf[i..i + |TokText(t)|] == TokText(t)
             && buf[i + |TokText(t)|] == ' '
    ensures ReadBack(buf, i) == [t] + ReadBack(buf, i + |TokText(t)| + 1)
  {
    var j := i + |TokText(t)|;
    LexOne(buf, i, t);
    LexWhite(buf, j);
    TextCons(buf, TokAt(buf, i), Lex(buf, j));
  }

  lemma Cons<T>(a: seq<T>, t: T, b: seq<T>, ts: seq<T>)
    requires ts != [] && a == [t] + b && t == ts[0] && b == ts[1..]
    ensures a == ts
  {
  }

  lemma LexNothing(buf: string)
    ensures TextToks(buf, Lex(buf, |buf|)) == []
  {
  }

  function ReadBack(buf: string, i: nat): seq<Tok<string>>
    requires i <= |buf|
  {
    TextToks(buf, Lex(buf, i))
  }

  /** Printed tokens are read back. */
  lemma {:induction false} LexRender(buf: string, i: nat, ts: seq<Tok<string>>)
    requires i <= |buf| && buf[i..] == Render(ts) && GoodToks(ts)
    ensures ReadBack(buf, i) == ts
    decreases |ts|
  {
    if ts == [] {
      assert |buf[i..]| == 0;
      LexNothing(buf);
    } else {
      RenderSplit(buf, i, ts);
      LexRender(buf, i + |TokText(ts[0])| + 1, ts[1..]);
      LexMore(buf, i, ts);
    }
  }

  lemma LexMore(buf: string, i: nat, ts: seq<Tok<string>>)
    requires ts != [] && GoodTok(ts[0]) && i + |TokText(ts[0])| < |buf|
    requires buf[i..i + |TokText(ts[0])|] == TokText(ts[0]) && buf[i + |TokText(ts[0])|] == ' '
    requires ReadBack(buf, i + |TokText(ts[0])| + 1) == ts[1..]
    ensures ReadBack(buf, i) == ts
  {
    LexFirst(buf, i, ts[0]);
    Cons(ReadBack(buf, i), ts[0], ts[1..], ts);
  }

  function Print(c: Cmd<string>): string { Render(Toks(c, 3)) }

  predicate GoodCmd(c: Cmd<string>) { FewArgs(c) && forall w :: w in WordsOf(c) ==> GoodTok(Word(w)) }

  lemma {:induction false} GoodPrinted(c: Cmd<string>, n: nat)
    requires forall w :: w in WordsOf(c) ==> GoodTok(Word(w))
    ensures GoodToks(Toks(c, n))
    decreases c, 1
  {
    GoodInner(c);
  }

  lemma {:induction false} GoodInner(c: Cmd<string>)
    requires forall w :: w in WordsOf(c) ==> GoodTok(Word(w))
    ensures GoodToks(Inner(c))
    decreases c, 0
  {
    match c {
      case Exec(args) =>
        forall k | 0 <= k < |args| ensures GoodTok(Word(args[k])) {
          assert args[k] in WordsOf(c);
        }
      case Redir(d, file, m) =>
        assert file in WordsOf(c);
        GoodPrinted(d, 0);
      case Pipe(l, r) => GoodPrinted(l, 0); GoodPrinted(r, 1);
      case Back(d) => GoodPrinted(d, 2);
      case List(l, r) => GoodPrinted(l, 2); GoodPrinted(r, 3);
    }
  }

  /** Round trip: any command tree with proper words and at most 9 arguments per command, printed as
      text, parses to a tree whose words spell the same command. */
  lemma RoundTrip(c: Cmd<string>)
    requires GoodCmd(c)
    ensures var p := ParseAll(Lex(Print(c), 0));
            p.Ok? && Texts(Print(c), p.cmd) == c
  {
    var buf := Print(c);
    GoodPrinted(c, 3);
    assert buf[0..] == buf;
    LexRender(buf, 0, Toks(c, 3));
    assert TextToks(buf, Lex(buf, 0)) == Toks(c, 3);
    LineMap((w: Span) => Text(buf, w), Lex(buf, 0));
    PrintThenParse(c);
    var p := ParseLine(Lex(buf, 0));
    assert p.Ok? && TextToks(buf, p.rest) == [];
    assert |p.rest| == |TextToks(buf, p.rest)|;
  }
}
