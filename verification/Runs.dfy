/** Finite runs of a transition relation, shared by the machines of this project. */
module Runs {

  function Front<T>(q: seq<T>): seq<T>
    requires q != []
  {
    q[..|q| - 1]
  }

  function Last<T>(q: seq<T>): T
    requires q != []
  {
    q[|q| - 1]
  }

  /** `s` is reached from `s0` by taking the events `evs` in order. */
  ghost predicate Reaches<S(!new), E>(step: (S, E, S) -> bool, s0: S, evs: seq<E>, s: S) {
    if evs == [] then s == s0
    else exists m :: Reaches(step, s0, Front(evs), m) && step(m, Last(evs), s)
  }

  /** The same, by way of states that all have a property. */
  ghost predicate ReachesIn<S(!new), E>(step: (S, E, S) -> bool, p: S -> bool, s0: S, evs: seq<E>, s: S) {
    && p(s)
    && if evs == [] then s == s0
       else exists m :: ReachesIn(step, p, s0, Front(evs), m) && step(m, Last(evs), s)
  }

  lemma Extend<S(!new), E>(step: (S, E, S) -> bool, s0: S, evs: seq<E>, m: S, e: E, s: S)
    requires Reaches(step, s0, evs, m) && step(m, e, s)
    ensures Reaches(step, s0, evs + [e], s)
  {
    assert Front(evs + [e]) == evs;
  }

  lemma {:induction false} Through<S(!new), E>(step: (S, E, S) -> bool, s0: S, a: seq<E>, m: S, b: seq<E>, s: S)
    requires Reaches(step, s0, a, m) && Reaches(step, m, b, s)
    ensures Reaches(step, s0, a + b, s)
    decreases |b|
  {
    if b == [] {
      assert a + b == a;
    } else {
      var n :| Reaches(step, m, Front(b), n) && step(n, Last(b), s);
      Through(step, s0, a, m, Front(b), n);
      assert a + b == a + Front(b) + [Last(b)];
      Extend(step, s0, a + Front(b), n, Last(b), s);
    }
  }

  /** The first event of a non-empty run, and the run from there on. */
  lemma {:induction false} First<S(!new), E>(step: (S, E, S) -> bool, m: S, evs: seq<E>, s: S) returns (n: S)
    requires evs != [] && Reaches(step, m, evs, s)
    ensures step(m, evs[0], n) && Reaches(step, n, evs[1..], s)
    decreases |evs|
  {
    var k :| Reaches(step, m, Front(evs), k) && step(k, Last(evs), s);
    if |evs| == 1 {
      n := s;
    } else {
      n := First(step, m, Front(evs), k);
      assert Front(evs)[1..] == Front(evs[1..]);
    }
  }

  /** What holds at the start and is kept by every event of the run holds at its end. */
  lemma {:induction false} Invariant<S(!new), E(!new)>(
      step: (S, E, S) -> bool, inv: S -> bool, s0: S, evs: seq<E>, s: S)
    requires Reaches(step, s0, evs, s) && inv(s0)
    requires forall m, e, n :: e in evs && inv(m) && step(m, e, n) ==> inv(n)
    ensures inv(s)
    decreases |evs|
  {
    if evs != [] {
      var m :| Reaches(step, s0, Front(evs), m) && step(m, Last(evs), s);
      Invariant(step, inv, s0, Front(evs), m);
      assert Last(evs) in evs;
    }
  }

  /** Where a property is lost between the ends of a run. */
  lemma {:induction false} Turn<S(!new), E>(step: (S, E, S) -> bool, p: S -> bool, m: S, evs: seq<E>, s: S)
      returns (before: seq<E>, x: S, e: E, y: S)
    requires Reaches(step, m, evs, s) && p(m) && !p(s)
    ensures Reaches(step, m, before, x) && step(x, e, y) && before + [e] <= evs && p(x) && !p(y)
    decreases |evs|
  {
    var n :| Reaches(step, m, Front(evs), n) && step(n, Last(evs), s);
    assert evs == Front(evs) + [Last(evs)];
    if p(n) {
      before, x, e, y := Front(evs), n, Last(evs), s;
    } else {
      before, x, e, y := Turn(step, p, m, Front(evs), n);
    }
  }
}
