/**
 * kernel/pipe.c.  A process gives up the pipe only where it sleeps; what the others do meanwhile is
 * a parameter, so the methods are proved for every interleaving of readers and writers.
 */
module Pipe {

  /** What another process does to the pipe in one go. */
  datatype Op = Put(ch: char) | Get | CloseRead | CloseWrite

  /** One sleep: what the others do meanwhile. */
  type Nap = seq<Op>

  /** `killed(t)` is what the process finds when it asks for the `t`-th time whether it has been killed. */
  ghost predicate EverKilled(killed: nat -> bool) { exists t: nat :: killed(t) }

  /** The place in the ring `k` after `base`. */
  function Slot(base: nat, k: nat): nat { if base + k < 512 then base + k else base + k - 512 }

  /** The 32-bit counter `n` after `r`. */
  function Later(r: nat, n: nat): nat { if r + n < 0x1_0000_0000 then r + n else r + n - 0x1_0000_0000 }

  /** The bytes from counter `r` on in the ring are those of `q`, and the write counter is `w`. */
  ghost predicate Holds(data: seq<char>, r: nat, w: nat, q: seq<char>) {
    && |data| == 512 && |q| <= 512 && r < 0x1_0000_0000 && w == Later(r, |q|)
    && forall k :: 0 <= k < |q| ==> data[Slot(r % 512, k)] == q[k]
  }

  /** Wrap-around of the counters does not disturb the ring: 512 divides 2^32. */
  lemma Wraps(r: nat, n: nat)
    requires r < 0x1_0000_0000 && n <= 512
    ensures Later(r, n) < 0x1_0000_0000 && Later(r, n) % 512 == Slot(r % 512, n) % 512
    ensures (r + n) % 0x1_0000_0000 == Later(r, n)
  {
    assert 0x1_0000_0000 == 512 * 0x80_0000;
  }

  /** The two tests of the code, with wrapping counters. */
  lemma Tests(data: seq<char>, r: nat, w: nat, q: seq<char>)
    requires Holds(data, r, w, q)
    ensures r == w <==> q == []
    ensures w == (r + 512) % 0x1_0000_0000 <==> |q| == 512
  {
    Wraps(r, 512);
  }

  lemma PutKeeps(data: seq<char>, r: nat, w: nat, q: seq<char>, ch: char)
    requires Holds(data, r, w, q) && |q| < 512
    ensures Holds(data[w % 512 := ch], r, (w + 1) % 0x1_0000_0000, q + [ch])
  {
    Wraps(r, |q|);
    Wraps(w, 1);
    var at, q' := Slot(r % 512, |q|), q + [ch];
    assert w % 512 == at;
    var data' := data[at := ch];
    forall k | 0 <= k < |q'| ensures data'[Slot(r % 512, k)] == q'[k] {
      if k < |q| { assert data[Slot(r % 512, k)] == q[k]; }
    }
  }

  lemma GetKeeps(data: seq<char>, r: nat, w: nat, q: seq<char>)
    requires Holds(data, r, w, q) && q != []
    ensures data[r % 512] == q[0] && Holds(data, (r + 1) % 0x1_0000_0000, w, q[1..])
  {
    Wraps(r, 1);
    var base, q' := r % 512, q[1..];
    assert data[Slot(base, 0)] == q[0];
    assert Later(r, 1) % 512 == Slot(base, 1);
    forall k | 0 <= k < |q'| ensures data[Slot(Slot(base, 1), k)] == q'[k] {
      assert data[Slot(base, k + 1)] == q[k + 1];
    }
  }

  /** `part` is in `whole`, in order, at the increasing places `pos`, all of them from `from` on. */
  ghost predicate At(whole: seq<char>, from: nat, part: seq<char>, pos: seq<nat>) {
    && |pos| == |part|
    && (forall k :: 0 <= k < |pos| ==> from <= pos[k] < |whole| && whole[pos[k]] == part[k])
    && (forall j, k :: 0 <= j < k < |pos| ==> pos[j] < pos[k])
  }

  class PipeState {
    var data: seq<char>
    var nread: nat
    var nwrite: nat
    var readopen: bool
    var writeopen: bool

    ghost var sent: seq<char>    // all bytes ever put into the pipe
    ghost var got: seq<char>     // all bytes ever taken out

    /** Bytes come out in the order they went in, and at most 512 are in between. */
    ghost predicate Valid()
      reads this
    {
      |got| <= |sent| && got == sent[..|got|] && Holds(data, nread, nwrite, sent[|got|..])
    }

    /** `pipealloc` */
    constructor (page: seq<char>)
      requires |page| == 512
      ensures Valid() && sent == [] && got == [] && readopen && writeopen
    {
      data, nread, nwrite, readopen, writeopen, sent, got := page, 0, 0, true, true, [], [];
    }

    predicate Full()
      reads this
    {
      nwrite == (nread + 512) % 0x1_0000_0000
    }

    method PutByte(ch: char)
      requires Valid() && !Full()
      modifies this`data, this`nwrite, this`sent
      ensures Valid() && sent == old(sent) + [ch]
    {
      Tests(data, nread, nwrite, sent[|got|..]);
      PutKeeps(data, nread, nwrite, sent[|got|..], ch);
      assert (sent + [ch])[|got|..] == sent[|got|..] + [ch];
      data := data[nwrite % 512 := ch];
      nwrite := (nwrite + 1) % 0x1_0000_0000;
      sent := sent + [ch];
    }

    method GetByte() returns (ch: char)
      requires Valid() && nread != nwrite
      modifies this`nread, this`got
      ensures Valid() && got == old(got) + [ch]
    {
      Tests(data, nread, nwrite, sent[|got|..]);
      GetKeeps(data, nread, nwrite, sent[|got|..]);
      ch := data[nread % 512];
      nread := (nread + 1) % 0x1_0000_0000;
      assert sent[|got| + 1..] == sent[|got|..][1..];
      assert sent[..|got| + 1] == sent[..|got|] + [sent[|got|]];
      got := got + [ch];
    }

    /** Anything the others do keeps the order. */
    method Others(ops: seq<Op>)
      requires Valid()
      modifies this
      ensures Valid() && old(sent) <= sent && old(got) <= got
    {
      var i := 0;
      while i < |ops|
        invariant 0 <= i <= |ops| && Valid() && old(sent) <= sent && old(got) <= got
      {
        match ops[i] {
          case Put(ch) => if !Full() { PutByte(ch); }
          case Get => if nread != nwrite { var ch := GetByte(); }
          case CloseRead => readopen := false;
          case CloseWrite => writeopen := false;
        }
        i := i + 1;
      }
    }

    /** `pipewrite` of `src`: -1, or all of it; `asleep` when it has run out of naps and still waits. */
    method Pipewrite(src: seq<char>, killed: nat -> bool, naps: seq<Nap>)
        returns (r: int, asleep: bool, ghost pos: seq<nat>)
      requires Valid()
      modifies this
      ensures Valid() && old(sent) <= sent && old(got) <= got
      ensures |pos| <= |src| && At(sent, |old(sent)|, src[..|pos|], pos)
      ensures if asleep || r == -1 then |pos| < |src| else r == |src| && |pos| == |src|
      ensures asleep ==> |sent| - |got| == 512
      ensures r == -1 ==> !readopen || EverKilled(killed)
    {
      ghost var sent0 := sent;
      var i: nat, nap, asked: nat := 0, 0, 0;
      pos, asleep := [], false;
      while i < |src|
        invariant 0 <= i <= |src| && 0 <= nap <= |naps| && Valid() && sent0 <= sent && old(got) <= got
        invariant |pos| == i && At(sent, |sent0|, src[..i], pos)
        decreases |src| - i, |naps| - nap
      {
        if !readopen || killed(asked) {
          return -1, false, pos;
        }
        asked := asked + 1;
        if Full() {
          Tests(data, nread, nwrite, sent[|got|..]);
          if nap == |naps| {
            return 0, true, pos;
          }
          Others(naps[nap]);
          nap := nap + 1;
        } else {
          pos := pos + [|sent|];
          PutByte(src[i]);
          assert src[..i + 1] == src[..i] + [src[i]];
          i := i + 1;
        }
      }
      r := i;
    }

    /** `piperead` of up to `n` bytes: -1, or the bytes that come next in the order they were sent. */
    method Piperead(n: nat, killed: nat -> bool, naps: seq<Nap>) returns (r: int, out: seq<char>, asleep: bool)
      requires Valid()
      modifies this
      ensures Valid() && old(sent) <= sent && old(got) <= got
      ensures |out| <= |got| && got[|got| - |out|..] == out && |old(got)| <= |got| - |out|
      ensures if asleep || r == -1 then out == [] && got == sent && writeopen
              else r == |out| <= n && (r < n ==> got == sent) && (r == 0 && n > 0 ==> !writeopen)
      ensures r == -1 ==> EverKilled(killed)
    {
      ghost var sent0, got0 := sent, got;
      var nap, asked: nat := 0, 0;
      out, asleep := [], false;
      while nread == nwrite && writeopen
        invariant 0 <= nap <= |naps| && Valid() && sent0 <= sent && got0 <= got
        decreases |naps| - nap
      {
        Tests(data, nread, nwrite, sent[|got|..]);
        if killed(asked) {
          return -1, out, false;
        }
        asked := asked + 1;
        if nap == |naps| {
          return 0, out, true;
        }
        Others(naps[nap]);
        nap := nap + 1;
      }
      ghost var got1 := got;
      var i := 0;
      while i < n && nread != nwrite
        invariant 0 <= i <= n && |out| == i && Valid() && sent0 <= sent && got == got1 + out
                  && (i == 0 && nread == nwrite ==> !writeopen)
      {
        var ch := GetByte();
        out := out + [ch];
        i := i + 1;
      }
      Tests(data, nread, nwrite, sent[|got|..]);
      r := i;
    }

    /** `pipeclose`; true when both ends are closed and the page is freed. */
    method Pipeclose(writable: bool) returns (freed: bool)
      requires Valid()
      modifies this`readopen, this`writeopen
      ensures Valid() && writeopen == (old(writeopen) && !writable) && readopen == (old(readopen) && writable)
      ensures freed == (!readopen && !writeopen)
    {
      if writable {
        writeopen := false;
      } else {
        readopen := false;
      }
      freed := !readopen && !writeopen;
    }
  }
}
