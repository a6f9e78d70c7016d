/**
 * kernel/semaphore.c: the one semaphore `all_sem`, with its queue of waiting processes.  Every method
 * is what one process does while it holds the semaphore's lock; processes are numbered by their slot
 * in the process table.
 *
 * A process asleep in `sem_wait` sleeps on its own process structure and does not look again when it
 * wakes up.  `kill`, and the exit of a child, wake it as `sem_post` would, and its entry stays in the
 * queue: a stale entry.
 */
module Semaphore {

  import opened Pigeonhole

  const NPROC: nat := 64

  /** `queue` holds the last NPROC of the processes `all` that were ever entered, each at its place. */
  ghost predicate Ring(queue: seq<nat>, all: seq<nat>) {
    |queue| == NPROC && forall j :: 0 <= j < |all| && |all| - NPROC <= j ==> queue[j % NPROC] == all[j]
  }

  lemma RingMore(queue: seq<nat>, all: seq<nat>, p: nat)
    requires Ring(queue, all)
    ensures Ring(queue[|all| % NPROC := p], all + [p])
  {
    var queue', all' := queue[|all| % NPROC := p], all + [p];
    forall j | 0 <= j < |all'| && |all'| - NPROC <= j ensures queue'[j % NPROC] == all'[j] {
      if j < |all| { Apart(j, |all|); }
    }
  }

  lemma Apart(i: nat, j: nat)
    requires i < j < i + NPROC
    ensures i % NPROC != j % NPROC
  {
  }

  ghost function Elems(q: seq<nat>): set<nat> { set x | x in q }

  lemma {:induction false} FewElems(q: seq<nat>)
    ensures |Elems(q)| <= |q| && (|Elems(q)| == |q| <==> Distinct(q))
  {
    if q == [] {
      assert Elems(q) == {};
    } else {
      var r, x := q[..|q| - 1], q[|q| - 1];
      FewElems(r);
      assert q == r + [x] && Elems(q) == Elems(r) + {x};
      assert Distinct(q) <==> Distinct(r) && x !in r;
    }
  }

  lemma Subset(a: set<nat>, b: set<nat>)
    requires a <= b
    ensures |a| <= |b| && (|a| == |b| ==> a == b)
  {
    assert b == a + (b - a);
  }

  /** Everybody in the queue is asleep, and is there once. */
  ghost predicate NoStale(line: seq<nat>, asleep: set<nat>) {
    Distinct(line) && Elems(line) == asleep
  }

  /** `all` is everybody ever entered, and `line` are those not yet taken out. */
  ghost predicate Queue(queue: seq<nat>, head: nat, tail: nat, all: seq<nat>, line: seq<nat>) {
    && Ring(queue, all) && |line| <= |all| && line == all[|all| - |line|..]
    && head == (|all| - |line|) % NPROC && tail == |all| % NPROC
  }

  lemma Enqueue(queue: seq<nat>, head: nat, tail: nat, all: seq<nat>, line: seq<nat>, p: nat)
    requires Queue(queue, head, tail, all, line)
    ensures tail < |queue| && Queue(queue[tail := p], head, (tail + 1) % NPROC, all + [p], line + [p])
  {
    RingMore(queue, all, p);
  }

  /** Of `n` entries not yet taken out, the one in `queue[head]`: the oldest, unless later ones have overwritten it. */
  function Visible(n: nat): (k: nat)
    requires n > 0
    ensures k < n <= k + NPROC && (n <= NPROC ==> k == 0)
  {
    (n - 1) / NPROC * NPROC
  }

  lemma Shown(queue: seq<nat>, all: seq<nat>, n: nat)
    requires Ring(queue, all) && 0 < n <= |all|
    ensures queue[(|all| - n) % NPROC] == all[|all| - n + Visible(n)]
  {
    assert (|all| - n + Visible(n)) % NPROC == (|all| - n) % NPROC;
  }

  lemma Behead(queue: seq<nat>, head: nat, tail: nat, all: seq<nat>, line: seq<nat>)
    requires Queue(queue, head, tail, all, line) && line != []
    ensures Queue(queue, (head + 1) % NPROC, tail, all, line[1..])
  {
  }

  lemma Dequeue(queue: seq<nat>, head: nat, tail: nat, all: seq<nat>, line: seq<nat>)
    requires Queue(queue, head, tail, all, line) && line != []
    ensures head < |queue| && Queue(queue, (head + 1) % NPROC, tail, all, line[1..])
    ensures queue[head] == line[Visible(|line|)]
  {
    Behead(queue, head, tail, all, line);
    Shown(queue, all, |line|);
  }

  lemma Multiple(queue: seq<nat>, head: nat, tail: nat, all: seq<nat>, line: seq<nat>)
    requires Queue(queue, head, tail, all, line)
    ensures head == tail <==> |line| % NPROC == 0
  {
  }

  /** While the queue never overflowed every sleeper is in it; while only `sem_post` wakes waiters
      nobody else is. */
  ghost predicate Sleepers(line: seq<nat>, asleep: set<nat>, fits: bool, clean: bool) {
    && (forall p :: p in asleep ==> p < NPROC)
    && (fits ==> asleep <= Elems(line) && |line| <= NPROC)
    && (clean ==> fits && NoStale(line, asleep))
  }

  /** There are NPROC processes, and one that runs does not sleep. */
  lemma Room(line: seq<nat>, asleep: set<nat>, p: nat)
    requires NoStale(line, asleep) && (forall q :: q in asleep ==> q < NPROC) && p < NPROC && p !in asleep
    ensures |line| < NPROC
  {
    forall k | 0 <= k < |line| ensures line[k] < NPROC && line[k] != p {
      assert line[k] in Elems(line);
    }
    AtMost(line + [p], NPROC);
  }

  lemma OneMore(line: seq<nat>, asleep: set<nat>, fits: bool, clean: bool, p: nat)
    requires Sleepers(line, asleep, fits, clean) && p < NPROC && p !in asleep
    ensures Sleepers(line + [p], asleep + {p}, fits && |line| < NPROC, clean)
  {
    assert Elems(line + [p]) == Elems(line) + {p};
    if clean {
      Room(line, asleep, p);
      assert p !in Elems(line);
    }
  }

  lemma OneLess(line: seq<nat>, asleep: set<nat>, fits: bool, clean: bool, p: nat)
    requires Sleepers(line, asleep, fits, clean) && line != [] && (fits ==> p == line[0])
    ensures Sleepers(line[1..], asleep - {p}, fits, clean) && (clean ==> p in asleep)
  {
    assert line == [line[0]] + line[1..] && Elems(line) == {line[0]} + Elems(line[1..]);
    assert line[0] in Elems(line);
    if clean {
      assert line[0] !in line[1..];
    }
  }

  class Sem {
    var value: int
    var queue: seq<nat>
    var head: nat
    var tail: nat

    ghost var v: int             // the value it was initialised with
    ghost var waits: nat         // calls of sem_wait since then
    ghost var posts: nat         // calls of sem_post since then
    ghost var passed: nat        // calls of sem_wait that have got past it
    ghost var all: seq<nat>      // every process ever entered into the queue
    ghost var line: seq<nat>     // the entries not yet taken out, oldest first
    ghost var asleep: set<nat>   // the processes asleep in sem_wait
    ghost var fits: bool         // no process was ever entered into a full queue
    ghost var clean: bool        // only sem_post has woken waiters

    /** What every run keeps: the value counts calls, the queue is as long as the value is negative,
        and everybody who does not sleep has passed. */
    ghost predicate Valid()
      reads this
    {
      && v >= 0 && value == v + posts - waits && |line| == (if value < 0 then -value else 0)
      && passed + |asleep| == waits && Queue(queue, head, tail, all, line) && Sleepers(line, asleep, fits, clean)
    }

    /** At most the initial value more have passed than have posted. */
    ghost predicate Exclusive()
      reads this
    {
      passed <= v + posts
    }

    /** `sem_init` with a value that is not negative, when nobody waits. */
    constructor (value0: nat)
      ensures Valid() && Exclusive() && v == value0 && value == value0 && waits == 0 && posts == 0
      ensures line == [] && asleep == {} && fits && clean
    {
      value, queue, head, tail := value0, seq(64, i => 0), 0, 0;
      v, waits, posts, passed, all, line, asleep, fits, clean := value0, 0, 0, 0, [], [], {}, true, true;
    }

    /** Exclusion holds exactly when no entry of the queue is stale. */
    lemma ExclusiveExact()
      requires Valid() && fits
      ensures Exclusive() <==> value >= 0 || |asleep| == |line|
      ensures Exclusive() <==> NoStale(line, asleep)
    {
      FewElems(line);
      Subset(asleep, Elems(line));
    }

    /** While only `sem_post` wakes waiters, exclusion holds, and is tight while anybody waits. */
    lemma CleanIsExclusive()
      requires Valid() && clean
      ensures Exclusive() && (asleep != {} ==> passed == v + posts)
    {
      FewElems(line);
    }

    /** `queue[tail] = p; tail = (tail + 1) % NPROC`, and `p` goes to sleep. */
    method Enter(p: nat)
      requires Queue(queue, head, tail, all, line) && Sleepers(line, asleep, fits, clean) && p < NPROC && p !in asleep
      modifies this`queue, this`tail, this`all, this`line, this`asleep, this`fits
      ensures Queue(queue, head, tail, all, line) && Sleepers(line, asleep, fits, clean)
      ensures line == old(line) + [p] && asleep == old(asleep) + {p} && fits == (old(fits) && |old(line)| < NPROC)
    {
      Enqueue(queue, head, tail, all, line, p);
      OneMore(line, asleep, fits, clean, p);
      ghost var all1, line1, asleep1, fits1 := all + [p], line + [p], asleep + {p}, fits && |line| < NPROC;
      assert Queue(queue[tail := p], head, (tail + 1) % NPROC, all1, line1) && Sleepers(line1, asleep1, fits1, clean);
      queue := queue[tail := p];
      tail := (tail + 1) % NPROC;
      all, line, asleep, fits := all1, line1, asleep1, fits1;
    }

    /** `p = queue[head]; head = (head + 1) % NPROC`, and `p` wakes up if it is asleep. */
    method Leave() returns (p: nat)
      requires Queue(queue, head, tail, all, line) && Sleepers(line, asleep, fits, clean) && line != []
      modifies this`head, this`line, this`asleep
      ensures Queue(queue, head, tail, all, line) && Sleepers(line, asleep, fits, clean)
      ensures line == old(line)[1..] && asleep == old(asleep) - {p}
      ensures p == old(line)[Visible(|old(line)|)] && (clean ==> p in old(asleep))
    {
      Dequeue(queue, head, tail, all, line);
      p := queue[head];
      OneLess(line, asleep, fits, clean, p);
      ghost var line1, asleep1 := line[1..], asleep - {p};
      assert Queue(queue, (head + 1) % NPROC, tail, all, line1) && Sleepers(line1, asleep1, fits, clean);
      head := (head + 1) % NPROC;
      line, asleep := line1, asleep1;
    }

    /** `sem_wait`: true when the caller goes to sleep, last in the queue. */
    method Wait(p: nat) returns (sleeps: bool)
      requires Valid() && p < NPROC && p !in asleep
      modifies this
      ensures Valid() && waits == old(waits) + 1 && posts == old(posts) && v == old(v) && clean == old(clean)
      ensures sleeps == (old(value) <= 0)
      ensures sleeps ==> line == old(line) + [p] && asleep == old(asleep) + {p} && passed == old(passed)
      ensures !sleeps ==> line == old(line) == [] && asleep == old(asleep) && passed == old(passed) + 1
      ensures fits == (old(fits) && (sleeps ==> |old(line)| < NPROC))
    {
      value := value - 1;
      waits := waits + 1;
      sleeps := value < 0;
      if sleeps {
        Enter(p);
      } else {
        passed := passed + 1;
      }
    }

    /** `sem_post`: takes an entry out of the queue, if there is one, and wakes that process if it is asleep.  It is the
        oldest entry as long as the queue has not overflowed, and otherwise the one that has overwritten it last. */
    method Post() returns (takes: bool, p: nat, ghost wakes: bool)
      requires Valid()
      modifies this
      ensures Valid() && posts == old(posts) + 1 && waits == old(waits) && v == old(v) && clean == old(clean)
              && fits == old(fits)
      ensures takes == (old(line) != []) && line == (if takes then old(line)[1..] else [])
      ensures takes ==> p == old(line)[Visible(|old(line)|)] && (fits ==> p == old(line)[0])
      ensures wakes == (takes && p in old(asleep)) && (clean ==> wakes == takes)
      ensures asleep == (if wakes then old(asleep) - {p} else old(asleep))
              && passed == old(passed) + (if wakes then 1 else 0)
    {
      value := value + 1;
      posts := posts + 1;
      takes, p, wakes := value <= 0, 0, false;
      if takes {
        p := Leave();
        wakes := p in old(asleep);
        passed := passed + if wakes then 1 else 0;
      }
    }

    /** `kill`, or the exit of a child, wakes a waiter; its entry stays. */
    ghost method Stray(p: nat)
      requires Valid() && p in asleep
      modifies this`asleep, this`passed, this`clean
      ensures Valid() && !clean && asleep == old(asleep) - {p} && passed == old(passed) + 1
      ensures fits ==> !Exclusive()
    {
      asleep, passed, clean := asleep - {p}, passed + 1, false;
      if fits {
        ExclusiveExact();
        assert p in Elems(line);
      }
    }

    /** `sem_destroy` by a process `p` that is not asleep.  It panics exactly when the number of entries is
        not a multiple of NPROC, which while only `sem_post` wakes waiters means that somebody waits. */
    method Destroy(p: nat) returns (panics: bool)
      requires Valid() && p < NPROC && p !in asleep
      modifies this`value, this`queue
      ensures panics <==> |line| % NPROC != 0
      ensures clean ==> (panics <==> asleep != {})
      ensures panics ==> value == old(value) && queue == old(queue)
      ensures !panics ==> value == 0 && queue == seq(64, i => 0)
    {
      Multiple(queue, head, tail, all, line);
      if clean {
        Room(line, asleep, p);
        FewElems(line);
      }
      panics := head != tail;
      if !panics {
        value := 0;
        queue := seq(64, i => 0);
      }
    }
  }

  /** A stray wake-up lets one process too many pass until `sem_post` has taken out the stale entry. */
  method StaleEntry() returns (ghost during: bool, ghost after: bool)
    ensures !during && after
  {
    var s := new Sem(0);
    var sleeps := s.Wait(5);
    s.Stray(5);
    during := s.Exclusive();
    var takes, p, wakes := s.Post();
    after := s.Exclusive();
  }

  /** With 63 stale entries and one waiting process, `sem_destroy` does not see that one. */
  method HiddenWaiter() returns (panics: bool, ghost asleep: set<nat>)
    ensures !panics && asleep == {1}
  {
    var s := new Sem(0);
    var k := 0;
    while k < 63
      invariant 0 <= k <= 63 && fresh(s) && s.Valid() && s.asleep == {} && s.value == -k && |s.line| == k
    {
      var sleeps := s.Wait(0);
      s.Stray(0);
      k := k + 1;
    }
    var sleeps := s.Wait(1);
    panics := s.Destroy(0);
    asleep := s.asleep;
  }
}
