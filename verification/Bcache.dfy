/**
 * kernel/bio.c: the buffer cache.  Buffers are numbered from 0, and the list head comes after the
 * last one.  Every method is what the code does while it holds `bcache.lock` or a buffer's sleep
 * lock, so a run of the kernel is any sequence of calls.
 */
module Bcache {

  import opened Pigeonhole

  datatype Key = Key(dev: nat, blockno: nat)

  // ---- The circular list ----

  /** The node after position `k` of the list `l`; -1 is the position of the head `h`. */
  function After(l: seq<nat>, h: nat, k: int): nat
    requires -1 <= k < |l|
  {
    if k + 1 < |l| then l[k + 1] else h
  }

  function Before(l: seq<nat>, h: nat, k: int): nat
    requires 0 <= k <= |l|
  {
    if k > 0 then l[k - 1] else h
  }

  ghost predicate Nodes(l: seq<nat>, h: nat) {
    Distinct(l) && forall k :: 0 <= k < |l| ==> l[k] < h
  }

  ghost predicate NextOk(next: seq<nat>, h: nat, l: seq<nat>) {
    && |next| == h + 1 && next[h] == After(l, h, -1)
    && forall k: nat {:trigger After(l, h, k)} :: k < |l| && l[k] < h ==> next[l[k]] == After(l, h, k)
  }

  ghost predicate PrevOk(prev: seq<nat>, h: nat, l: seq<nat>) {
    && |prev| == h + 1 && prev[h] == Before(l, h, |l|)
    && forall k: nat {:trigger Before(l, h, k)} :: k < |l| && l[k] < h ==> prev[l[k]] == Before(l, h, k)
  }

  /** `next` and `prev` thread the head `h` and the buffers of `l` into one circle. */
  ghost predicate Linked(next: seq<nat>, prev: seq<nat>, h: nat, l: seq<nat>) {
    Nodes(l, h) && NextOk(next, h, l) && PrevOk(prev, h, l)
  }

  function Remove(l: seq<nat>, k: nat): seq<nat>
    requires k < |l|
  {
    l[..k] + l[k + 1..]
  }

  /** `b` is put right after the head. */
  lemma Pushed(next: seq<nat>, prev: seq<nat>, h: nat, l: seq<nat>, b: nat)
    requires Linked(next, prev, h, l) && b < h && b !in l
    ensures next[h] <= h && Linked(next[b := next[h]][h := b], prev[b := h][next[h] := b], h, [b] + l)
  {
    var l', next', prev' := [b] + l, next[b := next[h]][h := b], prev[b := h][next[h] := b];
    forall k: nat | k < |l'| ensures next'[l'[k]] == After(l', h, k) {
      if k > 0 { assert l'[k] == l[k - 1] && next[l[k - 1]] == After(l, h, k - 1); }
    }
    forall k: nat | k < |l'| ensures prev'[l'[k]] == Before(l', h, k) {
      if k > 0 { assert l'[k] == l[k - 1] && prev[l[k - 1]] == Before(l, h, k - 1); }
    }
  }

  lemma RemovedNodes(l: seq<nat>, h: nat, k: nat)
    requires Nodes(l, h) && k < |l|
    ensures Nodes(Remove(l, k), h) && After(l, h, k) <= h && Before(l, h, k) <= h
  {
  }

  lemma NextRemoved(next: seq<nat>, h: nat, l: seq<nat>, k: nat)
    requires Nodes(l, h) && NextOk(next, h, l) && k < |l|
    ensures next[l[k]] == After(l, h, k) && Before(l, h, k) <= h
    ensures NextOk(next[Before(l, h, k) := After(l, h, k)], h, Remove(l, k))
  {
    var l', next' := Remove(l, k), next[Before(l, h, k) := After(l, h, k)];
    forall i: nat | i < |l'| ensures next'[l'[i]] == After(l', h, i) {
      var j := if i < k then i else i + 1;
      assert l'[i] == l[j] && next[l[j]] == After(l, h, j);
    }
  }

  lemma PrevRemoved(prev: seq<nat>, h: nat, l: seq<nat>, k: nat)
    requires Nodes(l, h) && PrevOk(prev, h, l) && k < |l|
    ensures prev[l[k]] == Before(l, h, k) && After(l, h, k) <= h
    ensures PrevOk(prev[After(l, h, k) := Before(l, h, k)], h, Remove(l, k))
  {
    var l', prev' := Remove(l, k), prev[After(l, h, k) := Before(l, h, k)];
    forall i: nat | i < |l'| ensures prev'[l'[i]] == Before(l', h, i) {
      var j := if i < k then i else i + 1;
      assert l'[i] == l[j] && prev[l[j]] == Before(l, h, j);
    }
  }

  /** The buffer at position `k` is taken out. */
  lemma Unlinked(next: seq<nat>, prev: seq<nat>, h: nat, l: seq<nat>, k: nat)
    requires Linked(next, prev, h, l) && k < |l|
    ensures next[l[k]] == After(l, h, k) <= h && prev[l[k]] == Before(l, h, k) <= h
    ensures Linked(next[Before(l, h, k) := After(l, h, k)], prev[After(l, h, k) := Before(l, h, k)], h, Remove(l, k))
  {
    RemovedNodes(l, h, k);
    NextRemoved(next, h, l, k);
    PrevRemoved(prev, h, l, k);
  }

  /** Moving a buffer to the front keeps the list a list of the same buffers. */
  lemma SameBuffers(l: seq<nat>, k: nat)
    requires k < |l| && Distinct(l)
    ensures multiset([l[k]] + Remove(l, k)) == multiset(l) && l[k] !in Remove(l, k) && |Remove(l, k)| == |l| - 1
  {
    assert l == l[..k] + [l[k]] + l[k + 1..];
  }

  /** Moving a buffer to the front keeps the order of the others. */
  lemma Fronted(l: seq<nat>, k: nat)
    requires k < |l| && Distinct(l)
    ensures var l' := [l[k]] + Remove(l, k);
            && |l'| == |l| && Distinct(l') && l[k] !in Remove(l, k)
            && forall i :: 0 <= i < |l'| ==> l'[i] == if i == 0 then l[k] else if i <= k then l[i - 1] else l[i]
  {
  }

  // ---- Order of release ----

  /** `l` lists buffers from the one moved last to the one moved first. */
  ghost predicate Sorted(l: seq<nat>, stamp: seq<nat>, clock: nat) {
    && (forall i :: 0 <= i < |l| ==> l[i] < |stamp| && stamp[l[i]] < clock)
    && (forall i, j :: 0 <= i < j < |l| ==> stamp[l[i]] > stamp[l[j]])
  }

  lemma SortedFront(l: seq<nat>, k: nat, stamp: seq<nat>, clock: nat)
    requires k < |l| && Distinct(l) && Sorted(l, stamp, clock)
    ensures Sorted([l[k]] + Remove(l, k), stamp[l[k] := clock], clock + 1)
  {
    Fronted(l, k);
    var l', stamp' := [l[k]] + Remove(l, k), stamp[l[k] := clock];
    forall i | 1 <= i < |l'| ensures l'[i] != l[k] && stamp'[l'[i]] == stamp[l'[i]] {
      assert l'[i] == if i <= k then l[i - 1] else l[i];
    }
    forall i, j | 0 <= i < j < |l'| ensures stamp'[l'[i]] > stamp'[l'[j]] {
    }
  }

  // ---- Contents ----

  /** A valid buffer holds the block's content, and a block whose content is not yet on the disk
      has a referenced buffer. */
  ghost predicate Refines<Data>(key: seq<Key>, valid: seq<bool>, refcnt: seq<nat>, data: seq<Data>,
                                disk: map<Key, Data>, plain: map<Key, Data>) {
    && |key| == |valid| == |refcnt| == |data| && plain.Keys == disk.Keys
    && (forall b :: 0 <= b < |key| && valid[b] ==> key[b].dev != 0 && key[b] in plain && data[b] == plain[key[b]])
    && (forall k :: k in disk && disk[k] != plain[k] ==> exists b ::
         0 <= b < |key| && key[b] == k && valid[b] && refcnt[b] > 0)
  }

  /** At most one buffer for a block of a real device. */
  ghost predicate Unique(key: seq<Key>) {
    forall i, j :: 0 <= i < j < |key| && key[i] == key[j] ==> key[i].dev == 0
  }

  /** A buffer without references can be given to another block. */
  lemma Recycled<Data>(key: seq<Key>, valid: seq<bool>, refcnt: seq<nat>, data: seq<Data>, disk: map<Key, Data>,
                       plain: map<Key, Data>, b: nat, k: Key)
    requires Refines(key, valid, refcnt, data, disk, plain) && Unique(key) && b < |key| && refcnt[b] == 0
    requires forall c :: 0 <= c < |key| ==> key[c] != k
    ensures Unique(key[b := k]) && Refines(key[b := k], valid[b := false], refcnt[b := 1], data, disk, plain)
  {
    var key', valid', refcnt' := key[b := k], valid[b := false], refcnt[b := 1];
    forall q | q in disk && disk[q] != plain[q]
      ensures exists c :: 0 <= c < |key'| && key'[c] == q && valid'[c] && refcnt'[c] > 0
    {
      var c :| 0 <= c < |key| && key[c] == q && valid[c] && refcnt[c] > 0;
      assert key'[c] == q;
    }
  }

  /** Reference counts may change as long as a block that is not on the disk keeps one. */
  lemma Recounted<Data>(key: seq<Key>, valid: seq<bool>, refcnt: seq<nat>, data: seq<Data>, disk: map<Key, Data>,
                        plain: map<Key, Data>, b: nat, c: nat)
    requires Refines(key, valid, refcnt, data, disk, plain) && Unique(key) && b < |key|
    requires c > 0 || !valid[b] || disk[key[b]] == data[b]
    ensures Refines(key, valid, refcnt[b := c], data, disk, plain)
  {
    var refcnt' := refcnt[b := c];
    forall q | q in disk && disk[q] != plain[q]
      ensures exists d :: 0 <= d < |key| && key[d] == q && valid[d] && refcnt'[d] > 0
    {
      var d :| 0 <= d < |key| && key[d] == q && valid[d] && refcnt[d] > 0;
      assert key[d] == q;
    }
  }

  /** A buffer is filled from the disk. */
  lemma Filled<Data>(key: seq<Key>, valid: seq<bool>, refcnt: seq<nat>, data: seq<Data>, disk: map<Key, Data>,
                     plain: map<Key, Data>, b: nat)
    requires Refines(key, valid, refcnt, data, disk, plain) && Unique(key) && b < |key|
    requires !valid[b] && key[b].dev != 0 && key[b] in disk
    ensures Refines(key, valid[b := true], refcnt, data[b := disk[key[b]]], disk, plain)
            && disk[key[b]] == plain[key[b]]
  {
    var valid' := valid[b := true];
    forall q | q in disk && disk[q] != plain[q]
      ensures exists d :: 0 <= d < |key| && key[d] == q && valid'[d] && refcnt[d] > 0
    {
      var d :| 0 <= d < |key| && key[d] == q && valid[d] && refcnt[d] > 0;
      assert key[d] == q;
    }
  }

  /** The holder of a buffer changes its content. */
  lemma Changed<Data>(key: seq<Key>, valid: seq<bool>, refcnt: seq<nat>, data: seq<Data>, disk: map<Key, Data>,
                      plain: map<Key, Data>, b: nat, v: Data)
    requires Refines(key, valid, refcnt, data, disk, plain) && Unique(key) && b < |key| && valid[b] && refcnt[b] > 0
    ensures key[b] in disk && Refines(key, valid, refcnt, data[b := v], disk, plain[key[b] := v])
  {
    var plain' := plain[key[b] := v];
    forall q | q in disk && disk[q] != plain'[q]
      ensures exists d :: 0 <= d < |key| && key[d] == q && valid[d] && refcnt[d] > 0
    {
      if q != key[b] {
        var d :| 0 <= d < |key| && key[d] == q && valid[d] && refcnt[d] > 0;
        assert key[d] == q;
      } else {
        assert key[b] == q;
      }
    }
  }

  /** A buffer is written to the disk. */
  lemma Flushed<Data>(key: seq<Key>, valid: seq<bool>, refcnt: seq<nat>, data: seq<Data>, disk: map<Key, Data>,
                      plain: map<Key, Data>, b: nat)
    requires Refines(key, valid, refcnt, data, disk, plain) && b < |key| && valid[b]
    ensures key[b] in disk && Refines(key, valid, refcnt, data, disk[key[b] := data[b]], plain)
  {
    var disk' := disk[key[b] := data[b]];
    forall q | q in disk' && disk'[q] != plain[q]
      ensures exists d :: 0 <= d < |key| && key[d] == q && valid[d] && refcnt[d] > 0
    {
      var d :| 0 <= d < |key| && key[d] == q && valid[d] && refcnt[d] > 0;
      assert key[d] == q;
    }
  }

  /** The list once `b` has been moved to its front. */
  lemma FrontList(l: seq<nat>, n: nat, stamp: seq<nat>, clock: nat, b: nat) returns (k: nat, rest: seq<nat>)
    requires |l| == n && Nodes(l, n) && Sorted(l, stamp, clock) && b < n
    ensures k < n && l[k] == b && rest == Remove(l, k) && b !in rest && |rest| == n - 1
    ensures multiset([b] + rest) == multiset(l) && Sorted([b] + rest, stamp[b := clock], clock + 1)
  {
    k := Find(l, n, b);
    rest := Remove(l, k);
    SortedFront(l, k, stamp, clock);
    SameBuffers(l, k);
  }

  /** The list, and when each of its buffers was last moved to the front. */
  ghost predicate ListOk(next: seq<nat>, prev: seq<nat>, n: nat, lru: seq<nat>, stamp: seq<nat>, clock: nat) {
    |lru| == |stamp| == n && Linked(next, prev, n, lru) && Sorted(lru, stamp, clock)
  }

  /** A buffer without references was moved when it was last released. */
  ghost predicate Order(n: nat, refcnt: seq<nat>, stamp: seq<nat>, released: seq<nat>, clock: nat) {
    && |released| == |refcnt| == |stamp| == n && (forall b :: 0 <= b < n ==> released[b] < clock)
    && (forall b :: 0 <= b < n && refcnt[b] == 0 ==> released[b] == stamp[b])
  }

  function Held(h: int): nat { if h != -1 then 1 else 0 }

  /** Pins are references, and so are those of the holder of a sleep lock and of the processes that wait for it. */
  ghost predicate Locks(n: nat, refcnt: seq<nat>, pins: seq<nat>, holder: seq<int>, waiters: seq<set<nat>>) {
    && |holder| == |refcnt| == |pins| == |waiters| == n
    && forall b :: 0 <= b < n ==> refcnt[b] >= pins[b] + Held(holder[b]) + |waiters[b]|
  }

  /** Whoever waits for the lock of a buffer waits for the block that is in it. */
  ghost predicate Waiting(key: seq<Key>, waiters: seq<set<nat>>, want: map<nat, Key>, blocks: set<Key>) {
    && |waiters| == |key|
    && forall b, p :: 0 <= b < |waiters| && p in waiters[b] ==>
         p in want && want[p] == key[b] && want[p].dev != 0 && want[p] in blocks
  }

  lemma OneMoreWaits(n: nat, key: seq<Key>, refcnt: seq<nat>, pins: seq<nat>, holder: seq<int>, waiters: seq<set<nat>>,
                     want: map<nat, Key>, blocks: set<Key>, b: nat, me: nat)
    requires Locks(n, refcnt, pins, holder, waiters) && Waiting(key, waiters, want, blocks) && b < n == |key|
    requires refcnt[b] > pins[b] + Held(holder[b]) + |waiters[b]| && key[b].dev != 0 && key[b] in blocks
    requires forall c :: 0 <= c < n ==> me !in waiters[c]
    ensures var waiters' := waiters[b := waiters[b] + {me}];
            Locks(n, refcnt, pins, holder, waiters') && Waiting(key, waiters', want[me := key[b]], blocks)
  {
  }

  lemma MoreRefs(n: nat, refcnt: seq<nat>, pins: seq<nat>, holder: seq<int>, waiters: seq<set<nat>>,
                stamp: seq<nat>, released: seq<nat>, clock: nat, b: nat)
    requires Locks(n, refcnt, pins, holder, waiters) && Order(n, refcnt, stamp, released, clock) && b < n
    ensures var refcnt' := refcnt[b := refcnt[b] + 1];
            Locks(n, refcnt', pins, holder, waiters) && Order(n, refcnt', stamp, released, clock)
  {
  }

  lemma LessRefs(n: nat, refcnt: seq<nat>, pins: seq<nat>, holder: seq<int>, waiters: seq<set<nat>>,
                stamp: seq<nat>, released: seq<nat>, clock: nat, b: nat)
    requires Locks(n, refcnt, pins, holder, waiters) && Order(n, refcnt, stamp, released, clock) && b < n
    requires refcnt[b] > pins[b] + Held(holder[b]) + |waiters[b]|
    ensures Locks(n, refcnt[b := refcnt[b] - 1], pins, holder, waiters)
    ensures refcnt[b] == 1 ==> Order(n, refcnt[b := 0], stamp[b := clock], released[b := clock], clock + 1)
    ensures refcnt[b] > 1 ==> Order(n, refcnt[b := refcnt[b] - 1], stamp, released[b := clock], clock + 1)
  {
  }

  lemma LaterSorted(l: seq<nat>, stamp: seq<nat>, clock: nat)
    requires Sorted(l, stamp, clock)
    ensures Sorted(l, stamp, clock + 1)
  {
  }

  /** No buffer has block `k`, and all have references. */
  ghost predicate NoneLeft(key: seq<Key>, refcnt: seq<nat>, k: Key) {
    (forall c :: 0 <= c < |key| ==> key[c] != k) && forall c :: 0 <= c < |refcnt| ==> refcnt[c] > 0
  }

  /** One more reference to `b`. */
  ghost predicate OneMore(refcnt: seq<nat>, refcnt': seq<nat>, b: nat) {
    b < |refcnt| && refcnt' == refcnt[b := refcnt[b] + 1]
  }

  /** `Waits` has its reference, but somebody else holds the lock. */
  datatype Got = Got(b: nat) | Waits(b: nat) | NoBuffers

  class Cache<Data> {
    const n: nat               // NBUF
    var next: seq<nat>
    var prev: seq<nat>
    var key: seq<Key>          // dev and blockno
    var valid: seq<bool>
    var refcnt: seq<nat>
    var data: seq<Data>
    var holder: seq<int>       // who holds the sleep lock, -1 for nobody
    var disk: map<Key, Data>

    ghost var plain: map<Key, Data>   // what a plain array of blocks would hold
    ghost var lru: seq<nat>           // the list, most recently moved first
    ghost var stamp: seq<nat>         // when each buffer was last moved to the front
    ghost var released: seq<nat>      // when each buffer was last released
    ghost var clock: nat
    ghost var pins: seq<nat>          // how many of the references are pins
    ghost var waiters: seq<set<nat>>  // who sleeps in `acquiresleep` for each buffer
    ghost var want: map<nat, Key>     // and the block each of them asked for

    ghost predicate Valid()
      reads this
    {
      && ListOk(next, prev, n, lru, stamp, clock) && Order(n, refcnt, stamp, released, clock)
      && Locks(n, refcnt, pins, holder, waiters) && Waiting(key, waiters, want, disk.Keys)
      && Unique(key) && Refines(key, valid, refcnt, data, disk, plain)
    }

    /** `binit`: all buffers in one list, none of them holding a block of a real device. */
    constructor (nbuf: nat, blank: Data, disk0: map<Key, Data>)
      ensures Valid() && n == nbuf && disk == disk0 && plain == disk0
      ensures forall b :: 0 <= b < n ==> refcnt[b] == 0 && !valid[b] && key[b].dev == 0
      ensures forall k :: 0 <= k < n ==> lru[k] == n - 1 - k
    {
      n, disk, plain := nbuf, disk0, disk0;
      key, valid, refcnt := seq(nbuf, i => Key(0, 0)), seq(nbuf, i => false), seq(nbuf, i => 0);
      data, holder := seq(nbuf, i => blank), seq(nbuf, i => -1);
      stamp, released, pins := seq(nbuf, i => i), seq(nbuf, i => i), seq(nbuf, i => 0);
      waiters, want := seq(nbuf, i => {}), map[];
      lru, clock := [], nbuf;
      next, prev := seq(nbuf + 1, i => nbuf), seq(nbuf + 1, i => nbuf);
      new;
      InitList();
    }

    /** The loop of `binit`. */
    method InitList()
      requires lru == [] && next == seq(n + 1, i => n) && prev == seq(n + 1, i => n)
      modifies this`next, this`prev, this`lru
      ensures Linked(next, prev, n, lru) && |lru| == n && forall k :: 0 <= k < n ==> lru[k] == n - 1 - k
    {
      var b: nat := 0;
      while b < n
        invariant b <= n && Linked(next, prev, n, lru) && |lru| == b
        invariant forall k :: 0 <= k < b ==> lru[k] == b - 1 - k
      {
        PushFront(b, lru);
        lru := [b] + lru;
        b := b + 1;
      }
    }

    /** The list holds every buffer. */
    lemma Everywhere(b: nat) returns (k: nat)
      requires Valid() && b < n
      ensures k < |lru| && lru[k] == b
    {
      k := Find(lru, n, b);
    }

    /** The buffer that has block `k`, or `n`. */
    method FindCached(k: Key) returns (b: nat)
      requires Valid()
      ensures if b < n then key[b] == k else b == n && forall c :: 0 <= c < n ==> key[c] != k
    {
      ghost var pos: nat := 0;
      b := next[n];
      assert b == After(lru, n, -1);
      while b != n && key[b] != k
        invariant pos <= |lru| && b == After(lru, n, pos - 1)
        invariant forall i :: 0 <= i < pos ==> key[lru[i]] != k
        decreases |lru| - pos
      {
        assert next[lru[pos]] == After(lru, n, pos);
        b := next[b];
        pos := pos + 1;
      }
      if b == n {
        forall c | 0 <= c < n ensures key[c] != k {
          var i := Everywhere(c);
        }
      }
    }

    /** The unreferenced buffer that comes last in the list, or `n`. */
    method FindVictim() returns (b: nat)
      requires Valid()
      ensures if b < n then refcnt[b] == 0 && forall c :: 0 <= c < n && refcnt[c] == 0 ==> stamp[b] <= stamp[c]
              else b == n && forall c :: 0 <= c < n ==> refcnt[c] > 0
    {
      ghost var pos: nat := |lru|;
      b := prev[n];
      assert b == Before(lru, n, pos);
      while b != n && refcnt[b] != 0
        invariant pos <= |lru| && b == Before(lru, n, pos)
        invariant forall i :: pos <= i < |lru| ==> refcnt[lru[i]] > 0
        decreases pos
      {
        pos := pos - 1;
        assert prev[lru[pos]] == Before(lru, n, pos);
        b := prev[b];
      }
      forall c | 0 <= c < n && refcnt[c] == 0 ensures b < n && stamp[b] <= stamp[c] {
        var i := Everywhere(c);
      }
    }

    /** The victim becomes the buffer of block `k`. */
    method Recycle(b: nat, k: Key)
      requires Valid() && b < n && refcnt[b] == 0 && forall c :: 0 <= c < n ==> key[c] != k
      modifies this`key, this`valid, this`refcnt
      ensures Valid() && key == old(key)[b := k] && valid == old(valid)[b := false] && refcnt == old(refcnt)[b := 1]
    {
      Recycled(key, valid, refcnt, data, disk, plain, b, k);
      MoreRefs(n, refcnt, pins, holder, waiters, stamp, released, clock, b);
      key, valid, refcnt := key[b := k], valid[b := false], refcnt[b := 1];
    }

    /** The part of `bget` under `bcache.lock`. */
    method Bget(k: Key) returns (r: Got)
      requires Valid()
      modifies this`key, this`valid, this`refcnt
      ensures Valid()
      ensures !r.Waits? && (r.NoBuffers? <==> NoneLeft(old(key), old(refcnt), k))
      ensures r.NoBuffers? ==> key == old(key) && valid == old(valid) && refcnt == old(refcnt)
      ensures r.Got? ==>
                r.b < n && key[r.b] == k && OneMore(old(refcnt), refcnt, r.b)
                    && refcnt[r.b] > pins[r.b] + Held(holder[r.b]) + |waiters[r.b]|
      ensures r.Got? && old(key[r.b]) == k ==> key == old(key) && valid == old(valid)
      ensures r.Got? && old(key[r.b]) != k ==>
                && old(refcnt[r.b]) == 0 && key == old(key)[r.b := k] && valid == old(valid)[r.b := false]
                && (forall c :: 0 <= c < n && old(refcnt[c]) == 0 ==> released[r.b] <= released[c])
    {
      var b := FindCached(k);
      if b != n {
        Recounted(key, valid, refcnt, data, disk, plain, b, refcnt[b] + 1);
        MoreRefs(n, refcnt, pins, holder, waiters, stamp, released, clock, b);
        refcnt := refcnt[b := refcnt[b] + 1];
        return Got(b);
      }
      b := FindVictim();
      if b != n {
        Recycle(b, k);
        return Got(b);
      }
      return NoBuffers;
    }

    /** `acquiresleep`, once nobody holds the lock. */
    method AcquireSleep(b: nat, me: nat)
      requires Valid() && b < n && holder[b] == -1 && refcnt[b] > pins[b] + |waiters[b]|
      modifies this`holder
      ensures Valid() && holder == old(holder)[b := me]
    {
      holder := holder[b := me];
    }

    /** The second half of `bread`, with the buffer locked: it has what the plain array has. */
    method Fill(b: nat, me: nat)
      requires Valid() && b < n && holder[b] == me && key[b].dev != 0 && key[b] in disk
      modifies this`valid, this`data
      ensures Valid() && valid == old(valid)[b := true]
      ensures data[b] == plain[key[b]] && forall c :: 0 <= c < n && c != b ==> data[c] == old(data)[c]
    {
      if !valid[b] {
        Filled(key, valid, refcnt, data, disk, plain, b);
        data := data[b := disk[key[b]]];
        valid := valid[b := true];
      }
    }

    /** The holder of a buffer changes its data. */
    method Modify(b: nat, me: nat, v: Data)
      requires Valid() && b < n && holder[b] == me && valid[b]
      modifies this`data, this`plain
      ensures Valid() && data == old(data)[b := v] && plain == old(plain)[key[b] := v]
    {
      Changed(key, valid, refcnt, data, disk, plain, b, v);
      data := data[b := v];
      plain := plain[key[b] := v];
    }

    /** `bwrite`; `ok` is false where the kernel panics. */
    method Bwrite(b: nat, me: nat) returns (ok: bool)
      requires Valid() && b < n && valid[b] && me as int != -1
      modifies this`disk
      ensures Valid() && ok == (holder[b] == me)
      ensures disk == if ok then old(disk)[key[b] := data[b]] else old(disk)
    {
      ok := holder[b] == me;
      if ok {
        Flushed(key, valid, refcnt, data, disk, plain, b);
        disk := disk[key[b] := data[b]];
      }
    }

    /** `releasesleep` by the holder */
    method ReleaseSleep(b: nat)
      requires Valid() && b < n && holder[b] != -1
      modifies this`holder
      ensures Valid() && holder == old(holder)[b := -1] && refcnt[b] > pins[b] + Held(holder[b]) + |waiters[b]|
    {
      holder := holder[b := -1];
    }

    /** `b->next->prev = b->prev; b->prev->next = b->next` */
    method Unlink(b: nat, ghost k: nat)
      requires Linked(next, prev, n, lru) && k < |lru| && lru[k] == b
      modifies this`next, this`prev
      ensures Linked(next, prev, n, Remove(lru, k))
    {
      Unlinked(next, prev, n, lru, k);
      assert After(lru, n, k) != b;
      prev := prev[next[b] := prev[b]];
      next := next[prev[b] := next[b]];
    }

    /** Puts `b` between the head and what followed it. */
    method PushFront(b: nat, ghost l: seq<nat>)
      requires Linked(next, prev, n, l) && b < n && b !in l
      modifies this`next, this`prev
      ensures Linked(next, prev, n, [b] + l)
    {
      Pushed(next, prev, n, l, b);
      next := next[b := next[n]];
      prev := prev[b := n];
      prev := prev[next[n] := b];
      next := next[n := b];
    }

    /** Takes a buffer out of the list and puts it at the front. */
    method MoveToFront(b: nat)
      requires ListOk(next, prev, n, lru, stamp, clock) && b < n
      modifies this`next, this`prev, this`lru, this`stamp, this`clock
      ensures ListOk(next, prev, n, lru, stamp, clock) && lru != [] && lru[0] == b
              && multiset(lru) == multiset(old(lru))
      ensures stamp == old(stamp)[b := old(clock)] && clock == old(clock) + 1
    {
      ghost var k, rest := FrontList(lru, n, stamp, clock, b);
      Unlink(b, k);
      PushFront(b, rest);
      lru, stamp, clock := [b] + rest, stamp[b := clock], clock + 1;
    }

    /** `b->refcnt--` of a last reference: all is well once the buffer has been moved. */
    method NoRefs(b: nat)
      requires Valid() && b < n && refcnt[b] == 1 > pins[b] + Held(holder[b]) + |waiters[b]|
               && (valid[b] ==> disk[key[b]] == data[b])
      modifies this`refcnt, this`released
      ensures refcnt == old(refcnt)[b := 0] && released == old(released)[b := clock]
      ensures Order(n, refcnt, stamp[b := clock], released, clock + 1) && Locks(n, refcnt, pins, holder, waiters)
      ensures Refines(key, valid, refcnt, data, disk, plain)
    {
      Recounted(key, valid, refcnt, data, disk, plain, b, 0);
      LessRefs(n, refcnt, pins, holder, waiters, stamp, released, clock, b);
      refcnt := refcnt[b := 0];
      released := released[b := clock];
    }

    /** The last reference is gone: the buffer goes to the front of the list. */
    method LastDrop(b: nat)
      requires Valid() && b < n && refcnt[b] == 1 > pins[b] + Held(holder[b]) + |waiters[b]|
               && (valid[b] ==> disk[key[b]] == data[b])
      modifies this`next, this`prev, this`refcnt, this`lru, this`stamp, this`released, this`clock
      ensures Valid() && refcnt == old(refcnt)[b := 0] && released == old(released)[b := old(clock)]
      ensures lru[0] == b && multiset(lru) == multiset(old(lru))
    {
      ghost var stamp1, clock1 := stamp[b := clock], clock + 1;
      NoRefs(b);
      ghost var refcnt1, released1, waiters1, want1 := refcnt, released, waiters, want;
      MoveToFront(b);
      assert Order(n, refcnt1, stamp1, released1, clock1) && Locks(n, refcnt1, pins, holder, waiters1);
      assert Waiting(key, waiters1, want1, disk.Keys);
    }

    /** The second half of `brelse`: gives up a reference, the last one only of a block that the disk has. */
    method DropRef(b: nat)
      requires Valid() && b < n && refcnt[b] > pins[b] + Held(holder[b]) + |waiters[b]|
      requires refcnt[b] == 1 ==> (valid[b] ==> disk[key[b]] == data[b])
      modifies this`next, this`prev, this`refcnt, this`lru, this`stamp, this`released, this`clock
      ensures Valid() && refcnt == old(refcnt)[b := old(refcnt[b]) - 1] && released == old(released)[b := old(clock)]
      ensures refcnt[b] == 0 ==> lru[0] == b && multiset(lru) == multiset(old(lru))
      ensures refcnt[b] > 0 ==> lru == old(lru) && stamp == old(stamp)
    {
      if refcnt[b] == 1 {
        LastDrop(b);
      } else {
        OneDrop(b);
      }
    }

    /** Other references are left: the buffer stays where it is. */
    method OneDrop(b: nat)
      requires Valid() && b < n && refcnt[b] > 1 && refcnt[b] > pins[b] + Held(holder[b]) + |waiters[b]|
      modifies this`refcnt, this`released, this`clock
      ensures Valid() && refcnt == old(refcnt)[b := old(refcnt[b]) - 1] && released == old(released)[b := old(clock)]
    {
      Recounted(key, valid, refcnt, data, disk, plain, b, refcnt[b] - 1);
      LessRefs(n, refcnt, pins, holder, waiters, stamp, released, clock, b);
      LaterSorted(lru, stamp, clock);
      refcnt := refcnt[b := refcnt[b] - 1];
      released, clock := released[b := clock], clock + 1;
    }

    /** A process that runs waits for nothing. */
    ghost predicate Awake(me: nat)
      reads this
    {
      forall b :: 0 <= b < |waiters| ==> me !in waiters[b]
    }

    /** What `bread` does with a buffer whose lock is free. */
    method LockAndFill(b: nat, me: nat)
      requires Valid() && b < n && holder[b] == -1 && refcnt[b] > pins[b] + |waiters[b]|
      requires key[b].dev != 0 && key[b] in disk
      modifies this`valid, this`holder, this`data
      ensures Valid() && holder == old(holder)[b := me] && valid[b] && data[b] == plain[key[b]]
    {
      AcquireSleep(b, me);
      Fill(b, me);
    }

    ghost method StartWaiting(b: nat, me: nat, k: Key)
      requires Valid() && b < n && key[b] == k && k.dev != 0 && k in disk && Awake(me)
      requires refcnt[b] > pins[b] + Held(holder[b]) + |waiters[b]|
      modifies this`waiters, this`want
      ensures Valid() && waiters == old(waiters)[b := old(waiters[b]) + {me}] && want == old(want)[me := k]
    {
      OneMoreWaits(n, key, refcnt, pins, holder, waiters, want, disk.Keys, b, me);
      waiters, want := waiters[b := waiters[b] + {me}], want[me := k];
    }

    /** `bread`, as far as it gets without sleeping. */
    method Bread(k: Key, me: nat) returns (r: Got)
      requires Valid() && k.dev != 0 && k in disk && Awake(me)
      modifies this`key, this`valid, this`refcnt, this`holder, this`data, this`waiters, this`want
      ensures Valid()
      ensures !r.NoBuffers? ==> r.b < n && key[r.b] == k && OneMore(old(refcnt), refcnt, r.b)
      ensures r.Got? ==> old(holder[r.b]) == -1 && holder[r.b] == me && valid[r.b] && data[r.b] == plain[k]
      ensures r.Waits? ==> old(holder[r.b]) != -1 && holder == old(holder)
      ensures r.Waits? ==> waiters == old(waiters)[r.b := old(waiters[r.b]) + {me}] && want == old(want)[me := k]
      ensures !r.Waits? ==> waiters == old(waiters) && want == old(want)
      ensures r.NoBuffers? <==> NoneLeft(old(key), old(refcnt), k)
    {
      r := Bget(k);
      if r.Got? {
        if holder[r.b] != -1 {
          StartWaiting(r.b, me, k);
          return Waits(r.b);
        }
        LockAndFill(r.b, me);
      }
    }

    /** The rest of `bread`, once the lock it waits for is free: whatever happened in between, the buffer is still that
        of the block it asked for. */
    method Resume(b: nat, me: nat)
      requires Valid() && b < n && holder[b] == -1 && me in waiters[b]
      modifies this`valid, this`holder, this`data, this`waiters
      ensures Valid() && holder == old(holder)[b := me] && waiters == old(waiters)[b := old(waiters[b]) - {me}]
      ensures valid[b] && key[b] == want[me] && data[b] == plain[want[me]]
    {
      StopWaiting(b, me);
      LockAndFill(b, me);
    }

    ghost method StopWaiting(b: nat, me: nat)
      requires Valid() && b < n && holder[b] == -1 && me in waiters[b]
      modifies this`waiters
      ensures Valid() && waiters == old(waiters)[b := old(waiters[b]) - {me}]
      ensures key[b] == want[me] && key[b].dev != 0 && key[b] in disk && refcnt[b] > pins[b] + |waiters[b]|
    {
      waiters := waiters[b := waiters[b] - {me}];
    }

    /** `brelse`; `ok` is false where the kernel panics because the caller does not hold the lock. */
    method Brelse(b: nat, me: nat) returns (ok: bool)
      requires Valid() && b < n
      requires refcnt[b] == 1 ==> (valid[b] ==> disk[key[b]] == data[b])
      modifies this`next, this`prev, this`refcnt, this`holder, this`lru, this`stamp, this`released, this`clock
      ensures Valid() && ok == (old(holder[b]) == me)
      ensures !ok ==> refcnt == old(refcnt) && holder == old(holder) && lru == old(lru)
      ensures ok ==> holder == old(holder)[b := -1] && refcnt == old(refcnt)[b := old(refcnt[b]) - 1]
      ensures ok && refcnt[b] == 0 ==> lru[0] == b && multiset(lru) == multiset(old(lru))
      ensures ok && refcnt[b] > 0 ==> lru == old(lru)
    {
      ok := holder[b] == me;
      if ok {
        ghost var refcnt1, lru1 := refcnt, lru;
        ReleaseSleep(b);
        assert refcnt == refcnt1 && lru == lru1;
        DropRef(b);
      }
    }

    /** `bpin` */
    method Bpin(b: nat)
      requires Valid() && b < n && refcnt[b] > 0
      modifies this`refcnt, this`pins
      ensures Valid() && refcnt == old(refcnt)[b := old(refcnt[b]) + 1] && pins == old(pins)[b := old(pins[b]) + 1]
    {
      Recounted(key, valid, refcnt, data, disk, plain, b, refcnt[b] + 1);
      refcnt, pins := refcnt[b := refcnt[b] + 1], pins[b := pins[b] + 1];
    }

    /** `bunpin` of a pinned buffer by the holder of its lock, as `install_trans` calls it.  It does not move
        the buffer and need not: the holder's own reference is left. */
    method Bunpin(b: nat, me: nat)
      requires Valid() && b < n && pins[b] > 0 && holder[b] == me
      modifies this`refcnt, this`pins
      ensures Valid() && refcnt == old(refcnt)[b := old(refcnt[b]) - 1] && refcnt[b] > 0
              && pins == old(pins)[b := old(pins[b]) - 1]
    {
      Recounted(key, valid, refcnt, data, disk, plain, b, refcnt[b] - 1);
      refcnt, pins := refcnt[b := refcnt[b] - 1], pins[b := pins[b] - 1];
    }
  }
}
