/** Sequences of different numbers, shared by the queues and lists of this project. */
module Pigeonhole {

  ghost predicate Distinct(q: seq<nat>) {
    forall i, j :: 0 <= i < j < |q| ==> q[i] != q[j]
  }

  /** Different numbers below `m` are at most `m`. */
  lemma {:induction false} AtMost(q: seq<nat>, m: nat)
    requires Distinct(q) && forall k :: 0 <= k < |q| ==> q[k] < m
    ensures |q| <= m
    decreases m
  {
    if q != [] {
      var last := |q| - 1;
      assert q[last] < m;
      var r := seq(last, i requires 0 <= i < last => if q[i] == m - 1 then q[last] else q[i]);
      AtMost(r, m - 1);
    }
  }

  /** `n` different numbers below `n` are all of them. */
  lemma Find(q: seq<nat>, n: nat, b: nat) returns (k: nat)
    requires Distinct(q) && |q| == n && b < n && forall i :: 0 <= i < |q| ==> q[i] < n
    ensures k < |q| && q[k] == b
  {
    if b !in q {
      AtMost(seq(n, i requires 0 <= i < n => if q[i] == n - 1 then b else q[i]), n - 1);
    }
    k :| k < |q| && q[k] == b;
  }
}
