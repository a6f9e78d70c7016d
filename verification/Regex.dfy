/**
 * user/grep.c: the regular-expression matcher, against a meaning of patterns that says nothing about
 * backtracking, and the line-buffering loop of `grep`.  Strings are the characters before the NUL.
 */
module Regex {

  /** A pattern element: one character, any number of them, or the end of the text.  '.' stands for
      any character. */
  datatype Item = One(c: char) | Many(c: char) | End

  /** A star belongs to the character before it; `$` is special only at the end. */
  function Compile(re: string): seq<Item> {
    if re == "" then []
    else if |re| >= 2 && re[1] == '*' then [Many(re[0])] + Compile(re[2..])
    else if re == "$" then [End]
    else [One(re[0])] + Compile(re[1..])
  }

  predicate Fits(c: char, x: char) { c == '.' || c == x }

  /** The element stands for the part of the text from `a` to `b`. */
  ghost predicate Covers(item: Item, text: string, a: nat, b: nat) {
    && a <= b <= |text|
    && match item
       case One(c) => b == a + 1 && Fits(c, text[a])
       case Many(c) => forall k :: a <= k < b ==> Fits(c, text[k])
       case End => a == b == |text|
  }

  /** The text from `i` on can be cut at these places so that each element covers one piece. */
  ghost predicate Cuts(items: seq<Item>, text: string, i: nat, cuts: seq<nat>) {
    && |cuts| == |items| + 1 && cuts[0] == i <= |text|
    && forall k :: 0 <= k < |items| ==> Covers(items[k], text, cuts[k], cuts[k + 1])
  }

  ghost predicate Splits(items: seq<Item>, text: string, i: nat) {
    exists cuts :: Cuts(items, text, i, cuts)
  }

  /** The pattern matches at `i`. */
  ghost predicate Here(re: string, text: string, i: nat) { Splits(Compile(re), text, i) }

  /** The pattern matches somewhere, or at the start if it begins with `^`. */
  ghost predicate Matches(re: string, text: string) {
    if re != "" && re[0] == '^' then Here(re[1..], text, 0) else exists i :: 0 <= i <= |text| && Here(re, text, i)
  }

  // ---- What the pattern's first element says ----

  lemma Prepend(item: Item, items: seq<Item>, text: string, i: nat, j: nat)
    requires Covers(item, text, i, j) && Splits(items, text, j)
    ensures Splits([item] + items, text, i)
  {
    var cuts :| Cuts(items, text, j, cuts);
    assert Cuts([item] + items, text, i, [i] + cuts);
  }

  lemma First(item: Item, items: seq<Item>, text: string, i: nat) returns (j: nat)
    requires Splits([item] + items, text, i)
    ensures Covers(item, text, i, j) && Splits(items, text, j)
  {
    var all := [item] + items;
    var cuts :| Cuts(all, text, i, cuts);
    j := cuts[1];
    assert Covers(all[0], text, cuts[0], cuts[1]);
    forall k | 0 <= k < |items| ensures Covers(items[k], text, cuts[1..][k], cuts[1..][k + 1]) {
      assert Covers(all[k + 1], text, cuts[k + 1], cuts[k + 2]);
    }
    assert Cuts(items, text, j, cuts[1..]);
  }

  lemma EmptyHere(text: string, i: nat)
    requires i <= |text|
    ensures Here("", text, i)
  {
    assert Compile("") == [] && Cuts([], text, i, [i]);
  }

  lemma EndHere(text: string, i: nat)
    requires i <= |text|
    ensures Here("$", text, i) <==> i == |text|
  {
    assert Compile("$") == [End] == [End] + [];
    if i == |text| {
      assert Cuts([], text, i, [i]);
      Prepend(End, [], text, i, i);
    }
    if Here("$", text, i) {
      var j := First(End, [], text, i);
    }
  }

  lemma OneHere(re: string, text: string, i: nat)
    requires re != "" && !(|re| >= 2 && re[1] == '*') && re != "$" && i <= |text|
    ensures Here(re, text, i) <==> i < |text| && Fits(re[0], text[i]) && Here(re[1..], text, i + 1)
  {
    if i < |text| && Fits(re[0], text[i]) && Here(re[1..], text, i + 1) {
      Prepend(One(re[0]), Compile(re[1..]), text, i, i + 1);
    }
    if Here(re, text, i) {
      var j := First(One(re[0]), Compile(re[1..]), text, i);
    }
  }

  /** `c*` followed by the rest of the pattern. */
  ghost predicate StarHere(c: char, re: string, text: string, i: nat) {
    exists j :: i <= j <= |text| && (forall k :: i <= k < j ==> Fits(c, text[k])) && Here(re, text, j)
  }

  lemma ManyHere(re: string, text: string, i: nat)
    requires |re| >= 2 && re[1] == '*' && i <= |text|
    ensures Here(re, text, i) <==> StarHere(re[0], re[2..], text, i)
  {
    if StarHere(re[0], re[2..], text, i) {
      var j :| i <= j <= |text| && (forall k :: i <= k < j ==> Fits(re[0], text[k])) && Here(re[2..], text, j);
      Prepend(Many(re[0]), Compile(re[2..]), text, i, j);
    }
    if Here(re, text, i) {
      var j := First(Many(re[0]), Compile(re[2..]), text, i);
      assert Here(re[2..], text, j);
    }
  }

  // ---- The code ----

  /** `matchhere`; the text is what comes after position `i`. */
  method MatchHere(re: string, text: string, i: nat) returns (found: bool)
    requires i <= |text|
    ensures found == Here(re, text, i)
    decreases |re|, 0
  {
    if re == "" {
      EmptyHere(text, i);
      return true;
    }
    if |re| >= 2 && re[1] == '*' {
      ManyHere(re, text, i);
      found := MatchStar(re[0], re[2..], text, i);
      return;
    }
    if re == "$" {
      EndHere(text, i);
      return i == |text|;
    }
    OneHere(re, text, i);
    if i < |text| && (re[0] == '.' || re[0] == text[i]) {
      found := MatchHere(re[1..], text, i + 1);
      return;
    }
    return false;
  }

  /** `matchstar` */
  method MatchStar(c: char, re: string, text: string, i: nat) returns (found: bool)
    requires i <= |text|
    ensures found == StarHere(c, re, text, i)
    decreases |re|, 1
  {
    var t, more := i, true;
    while more
      invariant i <= t <= |text| && (forall k :: i <= k < t ==> Fits(c, text[k]))
      invariant forall j :: i <= j < t ==> !Here(re, text, j)
      invariant !more ==> !Here(re, text, t) && (t == |text| || !Fits(c, text[t]))
      decreases more, |text| - t
    {
      var here := MatchHere(re, text, t);
      if here {
        return true;
      }
      more := t < |text| && (text[t] == c || c == '.');
      if more {
        t := t + 1;
      }
    }
    return false;
  }

  /** `match` */
  method Match(re: string, text: string) returns (found: bool)
    ensures found == Matches(re, text)
  {
    if re != "" && re[0] == '^' {
      found := MatchHere(re[1..], text, 0);
      return;
    }
    var t, more := 0, true;
    while more
      invariant 0 <= t <= |text| + 1 && (more <==> t <= |text|)
      invariant forall j :: 0 <= j < t && j <= |text| ==> !Here(re, text, j)
      decreases |text| + 1 - t
    {
      var here := MatchHere(re, text, t);
      if here {
        return true;
      }
      more := t < |text|;
      t := t + 1;
    }
    return false;
  }

  // ---- Lines ----

  /** The position of the first newline from `i` on, or the length. */
  function Newline(text: string, i: nat): (n: nat)
    requires i <= |text|
    ensures i <= n <= |text| && (n < |text| ==> text[n] == '\n') && (forall k :: i <= k < n ==> text[k] != '\n')
    decreases |text| - i
  {
    if i == |text| || text[i] == '\n' then i else Newline(text, i + 1)
  }

  lemma {:induction false} NewlineIs(text: string, i: nat, j: nat)
    requires i <= j <= |text| && (j < |text| ==> text[j] == '\n') && forall k :: i <= k < j ==> text[k] != '\n'
    ensures Newline(text, i) == j
    decreases j - i
  {
    if i < j { NewlineIs(text, i + 1, j); }
  }

  ghost function Printed(re: string, line: string): string {
    if Matches(re, line) then line + "\n" else ""
  }

  ghost function Printer(re: string): string -> string { (line: string) => Printed(re, line) }

  /** What `f` makes of the complete lines of the text from `i` on. */
  ghost function Grepped(f: string -> string, text: string, i: nat): string
    requires i <= |text|
    decreases |text| - i
  {
    var n := Newline(text, i);
    if n == |text| then "" else f(text[i..n]) + Grepped(f, text, n + 1)
  }

  /** A line starts at `i`. */
  predicate LineStart(text: string, i: nat) { i <= |text| && (i > 0 ==> text[i - 1] == '\n') }

  /** What it makes of the lines between two line starts. */
  ghost function Between(f: string -> string, text: string, i: nat, j: nat): string
    requires i <= j && LineStart(text, j)
    decreases j - i
  {
    if i == j then "" else f(text[i..Newline(text, i)]) + Between(f, text, Newline(text, i) + 1, j)
  }

  lemma {:induction false} OneMoreLine(f: string -> string, text: string, i: nat, j: nat)
    requires i <= j < |text| && LineStart(text, j) && Newline(text, j) < |text|
    ensures var n := Newline(text, j);
            Between(f, text, i, n + 1) == Between(f, text, i, j) + f(text[j..n])
    decreases j - i
  {
    var n := Newline(text, j);
    if i == j {
      assert Between(f, text, n + 1, n + 1) == "";
    } else {
      OneMoreLine(f, text, Newline(text, i) + 1, j);
    }
  }

  /** What comes after the last line that was looked at. */
  lemma {:induction false} Rest(f: string -> string, text: string, i: nat, j: nat)
    requires i <= j && LineStart(text, j)
    ensures Grepped(f, text, i) == Between(f, text, i, j) + Grepped(f, text, j)
    decreases j - i
  {
    if i < j {
      Rest(f, text, Newline(text, i) + 1, j);
    }
  }

  // ---- grep ----

  /** The first newline from `p` on in the C string there, or -1. */
  method Strchr(buf: array<char>, p: nat, m: nat) returns (q: int)
    requires p <= m < buf.Length && buf[m] == '\0'
    ensures FirstNewline(buf[..], p, m, q)
  {
    q := p;
    while buf[q] != '\0'
      invariant p <= q <= m && forall k :: p <= k < q ==> buf[k] != '\n' && buf[k] != '\0'
      decreases m - q
    {
      if buf[q] == '\n' {
        return;
      }
      q := q + 1;
    }
    assert Unended(buf[..], p, m, q);
    q := -1;
  }

  /** There is no newline from `lo` up to `z`, which is a NUL or the end. */
  predicate Unended(s: string, lo: nat, hi: nat, z: nat) {
    lo <= z <= hi <= |s| && (z < hi ==> s[z] == '\0') && forall x :: lo <= x < z ==> s[x] != '\n'
  }

  /** The buffer has the input from `k + p` on at `p`, up to `m`. */
  ghost predicate Buffered(b: string, p: nat, m: nat, input: string, k: nat) {
    && p <= m < |b| == 1024 && k + m <= |input| && b[m] == '\0'
    && forall x :: p <= x < m ==> b[x] == input[k + x]
  }

  /** A line that does not fit into the buffer. */
  ghost predicate TooLong(input: string, k: nat) {
    k + 1023 <= |input| && forall x :: k <= x < k + 1023 ==> input[x] != '\n'
  }

  /** A line with a NUL in it, where `strchr` stops looking for its end. */
  ghost predicate HasNul(input: string, k: nat) {
    k <= |input| && exists z :: k <= z < Newline(input, k) && input[z] == '\0'
  }

  /** Where `grep` gives up: at the first line that does not fit or has a NUL, or at the end of the complete lines. */
  ghost function Stop(input: string, i: nat): (s: nat)
    requires i <= |input|
    ensures i <= s <= |input| && (LineStart(input, i) ==> LineStart(input, s))
    decreases |input| - i
  {
    if TooLong(input, i) || HasNul(input, i) || Newline(input, i) == |input| then i
    else Stop(input, Newline(input, i) + 1)
  }

  lemma StopOnward(input: string, j: nat, n: nat)
    requires j <= n < |input| && Newline(input, j) == n && n - j < 1023 && forall x :: j <= x < n ==> input[x] != '\0'
    ensures Stop(input, j) == Stop(input, n + 1)
  {
    assert input[n] == '\n';
  }

  ghost predicate FirstNewline(b: string, p: nat, m: nat, q: int) {
    && p <= m <= |b|
    && if q == -1 then exists z: nat :: Unended(b, p, m, z)
       else p <= q < m && b[q] == '\n' && forall x :: p <= x < q ==> b[x] != '\n' && b[x] != '\0'
  }

  lemma LineEnds(b: string, p: nat, m: nat, q: nat, input: string, k: nat)
    requires Buffered(b, p, m, input, k) && FirstNewline(b, p, m, q)
    ensures Newline(input, k + p) == k + q && b[p..q] == input[k + p..k + q]
    ensures forall x :: k + p <= x < k + q ==> input[x] != '\0'
  {
    forall x | k + p <= x < k + q ensures input[x] != '\n' && input[x] != '\0' {
      assert b[x - k] == input[x];
    }
    assert b[q] == input[k + q];
    NewlineIs(input, k + p, k + q);
  }

  /** Prints the line from `p` to the newline at `q` if it matches, and leaves NUL there otherwise. */
  method PrintLine(re: string, buf: array<char>, p: nat, q: nat, out0: string) returns (out: string)
    requires p <= q < buf.Length && buf[q] == '\n'
    modifies buf
    ensures out == out0 + Printer(re)(old(buf[p..q]))
    ensures forall x :: 0 <= x < buf.Length && x != q ==> buf[x] == old(buf[x])
  {
    var line := buf[p..q];
    out := out0;
    buf[q] := '\0';
    var hit := Match(re, line);
    if hit {
      buf[q] := '\n';
      assert buf[p..q + 1] == line + "\n";
      out := out + buf[p..q + 1];
    }
  }

  /** `out` has the matching lines before byte `k + p` of the input, which is at `p` in the buffer. */
  ghost predicate UpTo(f: string -> string, input: string, k: nat, b: string, p: nat, m: nat, out: string) {
    && Buffered(b, p, m, input, k) && LineStart(input, k + p) && out == Between(f, input, 0, k + p)
    && Stop(input, 0) == Stop(input, k + p)
  }

  lemma Advance(f: string -> string, input: string, k: nat, b: string, b': string, p: nat, q: nat, m: nat, out: string,
                out': string)
    requires UpTo(f, input, k, b, p, m, out) && FirstNewline(b, p, m, q) && out' == out + f(b[p..q])
    requires |b'| == |b| && forall x :: 0 <= x < |b| && x != q ==> b'[x] == b[x]
    ensures UpTo(f, input, k, b', q + 1, m, out')
  {
    LineEnds(b, p, m, q, input, k);
    BufferMoves(b, b', p, q, m, input, k);
    LineDone(f, input, k + p, k + q, out, out');
  }

  lemma BufferMoves(b: string, b': string, p: nat, q: nat, m: nat, input: string, k: nat)
    requires Buffered(b, p, m, input, k) && p <= q < m
    requires |b'| == |b| && forall x :: 0 <= x < |b| && x != q ==> b'[x] == b[x]
    ensures Buffered(b', q + 1, m, input, k)
  {
  }

  lemma LineDone(f: string -> string, input: string, j: nat, n: nat, out: string, out': string)
    requires j < |input| && LineStart(input, j) && n < |input| && Newline(input, j) == n
             && out == Between(f, input, 0, j)
    requires out' == out + f(input[j..n]) && n - j < 1023 && Stop(input, 0) == Stop(input, j)
    requires forall x :: j <= x < n ==> input[x] != '\0'
    ensures LineStart(input, n + 1) && out' == Between(f, input, 0, n + 1) && Stop(input, 0) == Stop(input, n + 1)
  {
    StopOnward(input, j, n);
    OneMoreLine(f, input, 0, j);
  }

  /** The inner loop of `grep`: the lines that are complete in the buffer. */
  method Lines(re: string, buf: array<char>, m: nat, ghost input: string, ghost k: nat, out0: string)
      returns (p: nat, out: string)
    requires UpTo(Printer(re), input, k, buf[..], 0, m, out0)
    modifies buf
    ensures UpTo(Printer(re), input, k, buf[..], p, m, out) && FirstNewline(buf[..], p, m, -1)
  {
    p, out := 0, out0;
    var q := Strchr(buf, p, m);
    while q != -1
      invariant UpTo(Printer(re), input, k, buf[..], p, m, out) && FirstNewline(buf[..], p, m, q)
      decreases m - p, q
    {
      ghost var b, last := buf[..], out;
      out := PrintLine(re, buf, p, q, out);
      Advance(Printer(re), input, k, b, buf[..], p, q, m, last, out);
      p := q + 1;
      q := Strchr(buf, p, m);
    }
  }

  /** `read(fd, buf+m, ...)` of `n` bytes, and the NUL after them. */
  method Fill(buf: array<char>, m: nat, n: nat, input: string, r: nat, ghost k: nat)
    requires buf.Length == 1024 && m + n < 1024 && r == k + m && r + n <= |input| && Pending(buf[..], m, input, k)
    modifies buf
    ensures Buffered(buf[..], 0, m + n, input, k)
  {
    var piece := input[r..r + n];
    forall x | 0 <= x < n {
      buf[m + x] := piece[x];
    }
    buf[m + n] := '\0';
    forall x | 0 <= x < m + n ensures buf[..][x] == input[k + x] {
      if x >= m { assert buf[m + (x - m)] == piece[x - m]; }
    }
  }

  /** The unfinished line at the front of the buffer. */
  ghost predicate Pending(b: string, m: nat, input: string, k: nat) {
    && m <= |b| && k + m <= |input| && (forall x :: 0 <= x < m ==> b[x] == input[k + x])
    && exists z: nat :: Unended(b, 0, m, z)
  }

  /** `memmove(buf, p, m)` */
  method Shift(buf: array<char>, p: nat, m: nat, ghost input: string, ghost k: nat)
    requires Buffered(buf[..], p, m, input, k) && FirstNewline(buf[..], p, m, -1)
    modifies buf
    ensures Pending(buf[..], m - p, input, k + p)
  {
    ghost var z: nat :| Unended(buf[..], p, m, z);
    forall x | 0 <= x < m - p {
      buf[x] := buf[p + x];
    }
    assert Unended(buf[..], 0, m - p, z - p);
  }

  /** No line ends in what is pending: it has a NUL, or is too long, or there is no more. */
  lemma Stuck(input: string, k: nat, b: string, m: nat)
    requires Pending(b, m, input, k) && (k + m == |input| || m == 1023)
    ensures Stop(input, k) == k && (TooLong(input, k) || HasNul(input, k) || Newline(input, k) == |input|)
  {
    var z: nat :| Unended(b, 0, m, z);
    forall x | k <= x < k + z ensures input[x] != '\n' {
      assert b[x - k] == input[x];
    }
    if z < m {
      assert input[k + z] == '\0' && Newline(input, k) > k + z;
    } else if k + m == |input| {
      NewlineIs(input, k, |input|);
    }
  }

  lemma NothingLeft(re: string, input: string, k: nat)
    requires LineStart(input, k) && Newline(input, k) == |input|
    ensures Grepped(Printer(re), input, 0) == Between(Printer(re), input, 0, k)
  {
    Rest(Printer(re), input, 0, k);
  }

  /** The state between two reads. */
  ghost predicate Ready(re: string, input: string, k: nat, b: string, m: nat, out: string) {
    && |b| == 1024 && m <= 1023 && Pending(b, m, input, k) && LineStart(input, k)
    && out == Between(Printer(re), input, 0, k)
    && Stop(input, 0) == Stop(input, k)
  }

  /** One turn of the outer loop of `grep`. */
  method Turn(re: string, buf: array<char>, m0: nat, n: nat, input: string, r: nat, ghost k: nat, out0: string)
      returns (p: nat, m: nat, out: string)
    requires Ready(re, input, k, buf[..], m0, out0) && 0 < n <= 1023 - m0 && r == k + m0 && r + n <= |input|
    modifies buf
    ensures p + m == m0 + n && Ready(re, input, k + p, buf[..], m, out)
  {
    Fill(buf, m0, n, input, r, k);
    p, out := Lines(re, buf, m0 + n, input, k, out0);
    Shift(buf, p, m0 + n, input, k);
    m := m0 + n - p;
  }

  /** `grep` on input that is read in pieces of any size: it prints the matching lines before the first line
      that does not fit its buffer or has a NUL in it, and all of them if there is no such line. */
  method Grep(re: string, input: string, sizes: nat -> nat) returns (out: string)
    ensures out == Between(Printer(re), input, 0, Stop(input, 0))
    ensures !TooLong(input, Stop(input, 0)) && !HasNul(input, Stop(input, 0)) ==> out == Grepped(Printer(re), input, 0)
  {
    var buf := new char[1024];
    var m: nat, r: nat, call := 0, 0, 0;
    ghost var k: nat := 0;
    out := "";
    assert Unended(buf[..], 0, 0, 0);
    var n: nat := ReadSize(sizes(call), 1023 - m, |input| - r);
    while n > 0
      invariant k + m == r && Ready(re, input, k, buf[..], m, out) && n == ReadSize(sizes(call), 1023 - m, |input| - r)
      decreases |input| - r
    {
      var p;
      p, m, out := Turn(re, buf, m, n, input, r, k, out);
      r, k, call := r + n, k + p, call + 1;
      n := ReadSize(sizes(call), 1023 - m, |input| - r);
    }
    Stuck(input, k, buf[..], m);
    if Newline(input, k) == |input| {
      NothingLeft(re, input, k);
    }
  }

  /** What `read` returns: no more than asked for or left, and nothing only if that is nothing. */
  function ReadSize(wish: nat, space: nat, left: nat): (n: nat)
    ensures n <= space && n <= left && (n == 0 <==> space == 0 || left == 0)
  {
    var most := if space < left then space else left;
    if most == 0 then 0 else if wish == 0 then 1 else if wish < most then wish else most
  }
}
