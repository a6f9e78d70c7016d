/**
 * kernel/virtio_disk.c: the descriptors and rings shared with the disk.  Every method is one step,
 * taken by the driver under `vdisk_lock` or by the device on its own, so a run is any sequence of
 * calls.
 */
module Virtio {

  import opened Pigeonhole

  /** What a descriptor points at. */
  datatype Addr = Nothing | Header(i: nat) | Buffer(b: nat) | Status(i: nat)

  /** `more` is VRING_DESC_F_NEXT, `writes` is VRING_DESC_F_WRITE. */
  datatype Desc = Desc(addr: Addr, more: bool, writes: bool, next: nat)

  /** A block request: VIRTIO_BLK_T_OUT or VIRTIO_BLK_T_IN, and the block. */
  datatype Req = Req(write: bool, block: nat)

  /** The content of a block. */
  datatype Data = Data(bytes: seq<nat>)

  datatype Info = Info(b: int, status: nat)

  /** What driver and device share, the driver's own records, the buffers and the disk. */
  datatype State = State(
    free: seq<bool>, desc: seq<Desc>, ops: seq<Req>, info: seq<Info>,
    avail: seq<nat>, availIdx: nat,   // the avail ring and its 16-bit index
    devIdx: nat,                      // how far the device has read it
    used: seq<nat>, usedIdx: nat,     // the used ring and its 16-bit index
    seenIdx: nat,                     // how far the driver has read it
    busy: seq<bool>,                  // b->disk of each buffer
    data: seq<Data>, blockno: seq<nat>,
    media: map<nat, Data>)            // the blocks on the disk

  datatype Phase = Offered | Taken | Reported | Seen

  /** A request in flight: the other two descriptors of its chain, its buffer, what it asks for and
      what was in the buffer. */
  datatype Chain = Chain(d1: nat, d2: nat, b: nat, req: Req, given: Data, phase: Phase) {
    function To(p: Phase): Chain { Chain(d1, d2, b, req, given, p) }
  }

  /** The requests in flight by head, whose chain each descriptor is in (-1 free, -2 loose), and the
      heads waiting in the two rings. */
  datatype Flight = Flight(chains: map<nat, Chain>, owner: seq<int>, offered: seq<nat>, reported: seq<nat>)

  function Cleared(): Desc { Desc(Nothing, false, false, 0) }

  // ---- Rings ----

  /** The ring position of the `k`-th entry after the one at index `pos`. */
  function Slot(pos: nat, k: nat): nat { (pos + k) % 8 }

  /** The entries between the reader's index `pos` and the writer's index `idx`, both 16 bits wide and
      wrapping, are those of `q`. */
  ghost predicate Ring(ring: seq<nat>, pos: nat, idx: nat, q: seq<nat>) {
    && |ring| == 8 && |q| <= 8 && pos < 65536 && idx == (pos + |q|) % 65536
    && forall k :: 0 <= k < |q| ==> ring[Slot(pos, k)] == q[k]
  }

  /** A new entry overwrites none that has not been read yet. */
  lemma RingPush(ring: seq<nat>, pos: nat, idx: nat, q: seq<nat>, h: nat)
    requires Ring(ring, pos, idx, q) && |q| < 8
    ensures Ring(ring[idx % 8 := h], pos, (idx + 1) % 65536, q + [h])
  {
    assert idx % 8 == Slot(pos, |q|);
    var ring', q' := ring[idx % 8 := h], q + [h];
    forall k | 0 <= k < |q'| ensures ring'[Slot(pos, k)] == q'[k] {
      if k < |q| { assert ring[Slot(pos, k)] == q[k]; }
    }
  }

  /** No entry is lost, even when the indices wrap around between writing and reading. */
  lemma RingPop(ring: seq<nat>, pos: nat, idx: nat, q: seq<nat>)
    requires Ring(ring, pos, idx, q)
    ensures q == [] <==> pos == idx
    ensures q != [] ==> ring[pos % 8] == q[0] && Ring(ring, (pos + 1) % 65536, idx, q[1..])
  {
    if q != [] {
      assert ring[Slot(pos, 0)] == q[0];
      var q', pos' := q[1..], (pos + 1) % 65536;
      forall k | 0 <= k < |q'| ensures ring[Slot(pos', k)] == q'[k] {
        assert ring[Slot(pos, k + 1)] == q[k + 1];
      }
    }
  }

  lemma RingBusy(ring: seq<nat>, pos: nat, idx: nat, q: seq<nat>)
    requires Ring(ring, pos, idx, q) && q != []
    ensures pos != idx
  {
  }

  // ---- Descriptors ----

  /** The chain with head `h` is laid out as section 5.2.6 of VIRTIO 1.1 wants it. */
  ghost predicate LaidOut(s: State, h: nat, c: Chain) {
    && |s.desc| == 8 && |s.ops| == 8 && |s.info| == 8 && h < 8 && c.d1 < 8 && c.d2 < 8
    && s.desc[h] == Desc(Header(h), true, false, c.d1)
    && s.desc[c.d1] == Desc(Buffer(c.b), true, !c.req.write, c.d2)
    && s.desc[c.d2] == Desc(Status(h), false, true, 0)
    && s.ops[h] == c.req && s.info[h].b == c.b
  }

  ghost predicate AllLaidOut(s: State, f: Flight) {
    |s.desc| == 8 && |s.ops| == 8 && |s.info| == 8 && forall h :: h in f.chains ==> LaidOut(s, h, f.chains[h])
  }

  /** Descriptor `i` is in the chain that owns it. */
  predicate InChain(f: Flight, i: nat) {
    && i < |f.owner| && f.owner[i] >= 0 && f.owner[i] as nat in f.chains
    && (i == f.owner[i] || i == f.chains[f.owner[i] as nat].d1 || i == f.chains[f.owner[i] as nat].d2)
  }

  /** The free list and the loose descriptors agree with the owners. */
  ghost predicate Tally(free: seq<bool>, owner: seq<int>, loose: set<nat>) {
    && |free| == 8 && |owner| == 8 && (forall i :: i in loose ==> i < 8)
    && forall i :: 0 <= i < 8 ==> (free[i] <==> owner[i] == -1) && (i in loose <==> owner[i] == -2) && owner[i] >= -2
  }

  /** A chain has three descriptors and owns them. */
  ghost predicate Threes(f: Flight) {
    && |f.owner| == 8
    && forall h {:trigger f.chains[h]} :: h in f.chains ==>
         var c := f.chains[h];
         && h < 8 && c.d1 < 8 && c.d2 < 8 && h != c.d1 && c.d1 != c.d2 && c.d2 != h
         && f.owner[h] == h && f.owner[c.d1] == h && f.owner[c.d2] == h
  }

  /** Every descriptor is free, or in exactly one chain, or in `loose`: just allocated or about to be
      freed. */
  ghost predicate Split(free: seq<bool>, f: Flight, loose: set<nat>) {
    && Tally(free, f.owner, loose) && Threes(f)
    && (forall i: nat {:trigger InChain(f, i)} :: i < 8 && f.owner[i] >= 0 ==> InChain(f, i))
  }

  // ---- Requests ----

  ghost predicate Phases(f: Flight) {
    && Distinct(f.offered) && Distinct(f.reported)
    && (forall h :: h in f.offered <==> h in f.chains && f.chains[h].phase == Offered)
    && (forall h :: h in f.reported <==> h in f.chains && f.chains[h].phase == Reported)
  }

  /** The buffer of a request in flight: `b->disk` is set until the completion has been seen, the data
      of a write has not changed, and a completed request has made disk and buffer agree. */
  ghost predicate BufferOk(s: State, h: nat, c: Chain) {
    && h < |s.info| && c.b < |s.busy| == |s.data| == |s.blockno| && c.req.block == s.blockno[c.b]
    && c.req.block in s.media
    && (s.busy[c.b] <==> c.phase != Seen)
    && (c.req.write ==> s.data[c.b] == c.given)
    && (c.phase == Seen ==> s.info[h].status == 0)
    && (s.info[h].status == 0 && (c.phase == Reported || c.phase == Seen) ==> s.media[c.req.block] == s.data[c.b])
  }

  ghost predicate Buffers(s: State, f: Flight) {
    && |s.busy| == |s.data| == |s.blockno|
    && (forall h :: h in f.chains ==> BufferOk(s, h, f.chains[h]))
    && (forall h, i :: h in f.chains && i in f.chains && h != i ==> f.chains[h].req.block != f.chains[i].req.block)
  }

  ghost predicate Rings(s: State, f: Flight) {
    Ring(s.avail, s.devIdx, s.availIdx, f.offered) && Ring(s.used, s.seenIdx, s.usedIdx, f.reported)
  }

  /** Everything but the rings. */
  ghost predicate Core(s: State, f: Flight, loose: set<nat>) {
    Split(s.free, f, loose) && AllLaidOut(s, f) && Phases(f) && Buffers(s, f)
  }

  ghost predicate Inv(s: State, f: Flight, loose: set<nat>) {
    Core(s, f, loose) && Rings(s, f)
  }

  // ---- Allocating and freeing ----

  /** No three descriptors are free. */
  predicate TooFew(free: seq<bool>) {
    forall i, j, k :: 0 <= i < j < k < |free| ==> !(free[i] && free[j] && free[k])
  }

  function Take(s: State, i: nat): State
    requires i < |s.free|
  {
    s.(free := s.free[i := false])
  }

  function Give(s: State, i: nat): State
    requires i < |s.free| && i < |s.desc|
  {
    s.(free := s.free[i := true], desc := s.desc[i := Cleared()])
  }

  function Owned(f: Flight, i: nat, v: int): Flight
    requires i < |f.owner|
  {
    f.(owner := f.owner[i := v])
  }

  lemma SplitOwned(free: seq<bool>, f: Flight, loose: set<nat>, i: nat, v: int, loose': set<nat>)
    requires Split(free, f, loose) && i < 8 && f.owner[i] < 0 && v == (if free[i] then -2 else -1)
    requires loose' == if free[i] then loose + {i} else loose - {i}
    ensures Split(free[i := !free[i]], Owned(f, i, v), loose')
  {
    var f' := Owned(f, i, v);
    forall j: nat | j < 8 && f'.owner[j] >= 0 ensures InChain(f', j) {
      assert InChain(f, j);
    }
  }

  lemma OthersOk(s: State, s': State, f: Flight, i: nat, v: int)
    requires AllLaidOut(s, f) && Phases(f) && Buffers(s, f) && i < |f.owner|
    requires s' == s.(free := s'.free, desc := s'.desc) && |s'.desc| == 8
    requires forall h :: h in f.chains ==> LaidOut(s', h, f.chains[h])
    ensures AllLaidOut(s', Owned(f, i, v)) && Phases(Owned(f, i, v)) && Buffers(s', Owned(f, i, v))
  {
    forall h | h in f.chains ensures BufferOk(s', h, f.chains[h]) {
      assert BufferOk(s, h, f.chains[h]);
    }
  }

  lemma TakeKeeps(s: State, f: Flight, loose: set<nat>, i: nat)
    requires Inv(s, f, loose) && i < 8 && s.free[i]
    ensures i !in loose && Inv(Take(s, i), Owned(f, i, -2), loose + {i})
  {
    SplitOwned(s.free, f, loose, i, -2, loose + {i});
    forall h | h in f.chains ensures LaidOut(Take(s, i), h, f.chains[h]) {
      assert LaidOut(s, h, f.chains[h]);
    }
    OthersOk(s, Take(s, i), f, i, -2);
  }

  lemma GiveKeeps(s: State, f: Flight, loose: set<nat>, i: nat)
    requires Inv(s, f, loose) && i in loose
    ensures i < 8 && !s.free[i] && Inv(Give(s, i), Owned(f, i, -1), loose - {i})
  {
    SplitOwned(s.free, f, loose, i, -1, loose - {i});
    forall h | h in f.chains ensures LaidOut(Give(s, i), h, f.chains[h]) {
      assert LaidOut(s, h, f.chains[h]);
    }
    OthersOk(s, Give(s, i), f, i, -1);
  }

  ghost function Elems(q: seq<nat>): set<nat> { set x | x in q }

  /** Following `next` while VRING_DESC_F_NEXT is set visits exactly `q`. */
  ghost predicate Path(desc: seq<Desc>, q: seq<nat>) {
    && |desc| == 8 && Distinct(q)
    && forall k :: 0 <= k < |q| ==>
         q[k] < 8 && (desc[q[k]].more <==> k + 1 < |q|) && (k + 1 < |q| ==> desc[q[k]].next == q[k + 1])
  }

  lemma PathTail(desc: seq<Desc>, q: seq<nat>)
    requires q != [] && Path(desc, q)
    ensures q[0] in Elems(q) && Elems(q[1..]) == Elems(q) - {q[0]} && Path(desc[q[0] := Cleared()], q[1..])
  {
    var t := q[1..];
    assert forall k :: 0 <= k < |t| ==> t[k] == q[k + 1];
    assert forall x :: x in q <==> x == q[0] || x in t;
  }

  // ---- A request starts ----

  /** The state once the three descriptors `h`, `i1`, `i2` have been filled in and offered. */
  function Formatted(s: State, h: nat, i1: nat, i2: nat, b: nat, write: bool): State
    requires |s.desc| == 8 && |s.ops| == 8 && |s.info| == 8 && h < 8 && i1 < 8 && i2 < 8 && b < |s.busy|
             && b < |s.blockno|
  {
    s.(ops := s.ops[h := Req(write, s.blockno[b])],
       desc := s.desc[h := Desc(Header(h), true, false, i1)][i1 := Desc(Buffer(b), true, !write, i2)]
           [i2 := Desc(Status(h), false, true, 0)],
       info := s.info[h := Info(b, 0xff)], busy := s.busy[b := true])
  }

  function Pushed(s: State, h: nat): State
    requires |s.avail| == 8
  {
    s.(avail := s.avail[s.availIdx % 8 := h], availIdx := (s.availIdx + 1) % 65536)
  }

  function Started(f: Flight, h: nat, c: Chain): Flight
    requires |f.owner| == 8 && h < 8 && c.d1 < 8 && c.d2 < 8
  {
    Flight(f.chains[h := c], f.owner[h := h][c.d1 := h][c.d2 := h], f.offered + [h], f.reported)
  }

  /** `h`, `c.d1` and `c.d2` are loose, and nobody has a request for the block. */
  ghost predicate CanStart(s: State, f: Flight, h: nat, c: Chain, write: bool) {
    && h < 8 && c.d1 < 8 && c.d2 < 8 && h != c.d1 && c.d1 != c.d2 && c.d2 != h
    && c.b < |s.busy| == |s.blockno| == |s.data| && s.blockno[c.b] in s.media
    && c == Chain(c.d1, c.d2, c.b, Req(write, s.blockno[c.b]), s.data[c.b], Offered)
    && (forall g :: g in f.chains ==> f.chains[g].req.block != s.blockno[c.b])
  }

  lemma StartTally(free: seq<bool>, owner: seq<int>, h: nat, d1: nat, d2: nat)
    requires Tally(free, owner, {h, d1, d2})
    ensures h < 8 && d1 < 8 && d2 < 8 && Tally(free, owner[h := h][d1 := h][d2 := h], {})
  {
    assert h in {h, d1, d2} && d1 in {h, d1, d2} && d2 in {h, d1, d2};
  }

  lemma StartThrees(s: State, f: Flight, h: nat, c: Chain, write: bool)
    requires Split(s.free, f, {h, c.d1, c.d2}) && CanStart(s, f, h, c, write)
    ensures h !in f.chains && Threes(Started(f, h, c))
  {
  }

  lemma StartSplit(s: State, f: Flight, h: nat, c: Chain, write: bool)
    requires Split(s.free, f, {h, c.d1, c.d2}) && CanStart(s, f, h, c, write)
    ensures h !in f.chains && Split(s.free, Started(f, h, c), {})
  {
    StartTally(s.free, f.owner, h, c.d1, c.d2);
    StartThrees(s, f, h, c, write);
    var f' := Started(f, h, c);
    forall i: nat | i < 8 && f'.owner[i] >= 0 ensures InChain(f', i) {
      assert f.owner[i] >= 0 ==> InChain(f, i);
    }
  }

  lemma StartLaidOut(s: State, f: Flight, h: nat, c: Chain, write: bool)
    requires Split(s.free, f, {h, c.d1, c.d2}) && CanStart(s, f, h, c, write) && AllLaidOut(s, f) && |s.avail| == 8
    ensures AllLaidOut(Pushed(Formatted(s, h, c.d1, c.d2, c.b, write), h), Started(f, h, c))
  {
    var s' := Pushed(Formatted(s, h, c.d1, c.d2, c.b, write), h);
    forall g | g in f.chains ensures LaidOut(s', g, f.chains[g]) {
      assert LaidOut(s, g, f.chains[g]);
    }
    assert LaidOut(s', h, c);
  }

  lemma StartBuffers(s: State, f: Flight, h: nat, c: Chain, write: bool)
    requires CanStart(s, f, h, c, write) && Buffers(s, f) && h !in f.chains
    requires |s.desc| == |s.ops| == |s.info| == |s.avail| == 8 == |f.owner|
    ensures Buffers(Pushed(Formatted(s, h, c.d1, c.d2, c.b, write), h), Started(f, h, c))
  {
    var s' := Pushed(Formatted(s, h, c.d1, c.d2, c.b, write), h);
    forall g | g in f.chains ensures BufferOk(s', g, f.chains[g]) {
      assert BufferOk(s, g, f.chains[g]);
    }
    assert BufferOk(s', h, c);
  }

  /** Heads are different numbers below 8, so the avail ring has room for one more. */
  lemma StartPhases(free: seq<bool>, f: Flight, h: nat, c: Chain)
    requires Phases(f) && h !in f.chains && c.phase == Offered && |f.owner| == 8 && h < 8 && c.d1 < 8 && c.d2 < 8
    requires Split(free, Started(f, h, c), {})
    ensures Phases(Started(f, h, c)) && |f.offered| < 8
  {
    var f' := Started(f, h, c);
    forall k | 0 <= k < |f'.offered| ensures f'.offered[k] < 8 {
      assert f'.offered[k] in f'.chains && f'.chains[f'.offered[k]].phase == Offered;
    }
    AtMost(f'.offered, 8);
  }

  lemma StartKeeps(s: State, f: Flight, h: nat, c: Chain, write: bool)
    requires Inv(s, f, {h, c.d1, c.d2}) && CanStart(s, f, h, c, write)
    ensures h !in f.chains && Inv(Pushed(Formatted(s, h, c.d1, c.d2, c.b, write), h), Started(f, h, c), {})
  {
    StartSplit(s, f, h, c, write);
    StartLaidOut(s, f, h, c, write);
    StartBuffers(s, f, h, c, write);
    StartPhases(s.free, f, h, c);
    RingPush(s.avail, s.devIdx, s.availIdx, f.offered, h);
  }

  // ---- A request goes on ----

  function Rephase(f: Flight, h: nat, p: Phase): Flight
    requires h in f.chains
  {
    f.(chains := f.chains[h := f.chains[h].To(p)])
  }

  /** Going on to another phase changes no descriptor. */
  lemma RephaseSplit(s: State, f: Flight, h: nat, p: Phase)
    requires Split(s.free, f, {}) && AllLaidOut(s, f) && h in f.chains
    ensures Split(s.free, Rephase(f, h, p), {}) && AllLaidOut(s, Rephase(f, h, p))
  {
    var f' := Rephase(f, h, p);
    forall i: nat | i < 8 && f'.owner[i] >= 0 ensures InChain(f', i) {
      assert InChain(f, i);
    }
    forall g | g in f'.chains ensures LaidOut(s, g, f'.chains[g]) {
      assert LaidOut(s, g, f.chains[g]);
    }
  }

  function Fetched(s: State): State { s.(devIdx := (s.devIdx + 1) % 65536) }

  function AfterFetch(f: Flight): Flight
    requires f.offered != [] && f.offered[0] in f.chains
  {
    Rephase(f, f.offered[0], Taken).(offered := f.offered[1..])
  }

  lemma FetchPhases(f: Flight)
    requires Phases(f) && f.offered != []
    ensures f.offered[0] in f.chains && f.chains[f.offered[0]].phase == Offered && Phases(AfterFetch(f))
  {
    assert f.offered[0] in f.offered;
    assert f.offered == [f.offered[0]] + f.offered[1..];
  }

  lemma FetchCore(s: State, f: Flight)
    requires Core(s, f, {}) && f.offered != []
    ensures f.offered[0] in f.chains && f.chains[f.offered[0]].phase == Offered && Core(Fetched(s), AfterFetch(f), {})
  {
    FetchPhases(f);
    var h, s', f' := f.offered[0], Fetched(s), AfterFetch(f);
    RephaseSplit(s, f, h, Taken);
    forall g | g in f'.chains ensures LaidOut(s', g, f'.chains[g]) && BufferOk(s', g, f'.chains[g]) {
      assert LaidOut(s, g, f.chains[g]) && BufferOk(s, g, f.chains[g]);
    }
    forall i: nat | i < 8 && f'.owner[i] >= 0 ensures InChain(f', i) {
      assert InChain(f, i);
    }
  }

  lemma FetchKeeps(s: State, f: Flight)
    requires Inv(s, f, {}) && s.devIdx != s.availIdx
    ensures f.offered != [] && s.avail[s.devIdx % 8] == f.offered[0]
    ensures f.offered[0] in f.chains && f.chains[f.offered[0]].phase == Offered && Inv(Fetched(s), AfterFetch(f), {})
  {
    RingPop(s.avail, s.devIdx, s.availIdx, f.offered);
    FetchCore(s, f);
  }

  /** The block has been moved, the status written and the head reported. */
  function Served(s: State, h: nat, c: Chain, status: nat, junk: Data): State
    requires h < |s.info| && c.b < |s.data| && c.req.block in s.media && |s.used| == 8
  {
    s.(media := if c.req.write then s.media[c.req.block := if status == 0 then s.data[c.b] else junk] else s.media,
       data := if c.req.write then s.data else s.data[c.b := if status == 0 then s.media[c.req.block] else junk],
       info := s.info[h := Info(s.info[h].b, status)],
       used := s.used[s.usedIdx % 8 := h], usedIdx := (s.usedIdx + 1) % 65536)
  }

  function AfterServe(f: Flight, h: nat): Flight
    requires h in f.chains
  {
    Rephase(f, h, Reported).(reported := f.reported + [h])
  }

  lemma ServePhases(free: seq<bool>, f: Flight, h: nat)
    requires Split(free, f, {}) && Phases(f) && h in f.chains && f.chains[h].phase == Taken
    ensures Phases(AfterServe(f, h)) && |f.reported| < 8
  {
    var q := f.reported + [h];
    forall k | 0 <= k < |q| ensures q[k] < 8 {
      assert q[k] in f.chains && f.chains[q[k]].phase in {Reported, Taken};
    }
    AtMost(q, 8);
  }

  lemma ServeBuffers(s: State, f: Flight, h: nat, status: nat, junk: Data)
    requires Buffers(s, f) && h in f.chains && f.chains[h].phase == Taken && |s.used| == 8
    ensures h < |s.info| && f.chains[h].b < |s.data| && f.chains[h].req.block in s.media
    ensures Buffers(Served(s, h, f.chains[h], status, junk), AfterServe(f, h))
  {
    assert BufferOk(s, h, f.chains[h]);
    var s', f' := Served(s, h, f.chains[h], status, junk), AfterServe(f, h);
    forall g | g in f'.chains ensures BufferOk(s', g, f'.chains[g]) {
      assert BufferOk(s, g, f.chains[g]);
    }
  }

  lemma ServeCore(s: State, f: Flight, h: nat, status: nat, junk: Data)
    requires Core(s, f, {}) && h in f.chains && f.chains[h].phase == Taken && |s.used| == 8
    ensures LaidOut(s, h, f.chains[h]) && f.chains[h].b < |s.data| && f.chains[h].req.block in s.media
            && |f.reported| < 8
    ensures Core(Served(s, h, f.chains[h], status, junk), AfterServe(f, h), {})
  {
    ServePhases(s.free, f, h);
    ServeBuffers(s, f, h, status, junk);
    RephaseSplit(s, f, h, Reported);
    var s', f' := Served(s, h, f.chains[h], status, junk), AfterServe(f, h);
    forall g | g in f'.chains ensures LaidOut(s', g, f'.chains[g]) {
      assert LaidOut(s, g, f.chains[g]);
    }
    forall i: nat | i < 8 && f'.owner[i] >= 0 ensures InChain(f', i) {
      assert InChain(f, i);
    }
  }

  lemma ServeKeeps(s: State, f: Flight, h: nat, status: nat, junk: Data)
    requires Inv(s, f, {}) && h in f.chains && f.chains[h].phase == Taken
    ensures LaidOut(s, h, f.chains[h]) && f.chains[h].b < |s.data| && f.chains[h].req.block in s.media && |s.used| == 8
    ensures Inv(Served(s, h, f.chains[h], status, junk), AfterServe(f, h), {})
  {
    ServeCore(s, f, h, status, junk);
    RingPush(s.used, s.seenIdx, s.usedIdx, f.reported, h);
  }

  /** The driver has seen the completion reported first. */
  function Noticed(s: State, b: nat): State
    requires b < |s.busy|
  {
    s.(busy := s.busy[b := false], seenIdx := (s.seenIdx + 1) % 65536)
  }

  function AfterNotice(f: Flight): Flight
    requires f.reported != [] && f.reported[0] in f.chains
  {
    Rephase(f, f.reported[0], Seen).(reported := f.reported[1..])
  }

  lemma NoticePhases(f: Flight)
    requires Phases(f) && f.reported != []
    ensures f.reported[0] in f.chains && f.chains[f.reported[0]].phase == Reported && Phases(AfterNotice(f))
  {
    assert f.reported[0] in f.reported;
    assert f.reported == [f.reported[0]] + f.reported[1..];
  }

  lemma NoticeBuffers(s: State, f: Flight, h: nat)
    requires Buffers(s, f) && h in f.chains && f.chains[h].phase == Reported && h < |s.info| && s.info[h].status == 0
    ensures f.chains[h].b < |s.busy| && Buffers(Noticed(s, f.chains[h].b), Rephase(f, h, Seen))
  {
    assert BufferOk(s, h, f.chains[h]);
    var s', f' := Noticed(s, f.chains[h].b), Rephase(f, h, Seen);
    forall g | g in f'.chains ensures BufferOk(s', g, f'.chains[g]) {
      assert BufferOk(s, g, f.chains[g]);
    }
  }

  lemma NoticeCore(s: State, f: Flight)
    requires Core(s, f, {}) && f.reported != [] && f.reported[0] < |s.info| && s.info[f.reported[0]].status == 0
    ensures f.reported[0] in f.chains && f.chains[f.reported[0]].b < |s.busy|
    ensures Core(Noticed(s, f.chains[f.reported[0]].b), AfterNotice(f), {})
  {
    NoticePhases(f);
    var h := f.reported[0];
    assert BufferOk(s, h, f.chains[h]);
    NoticeBuffers(s, f, h);
    RephaseSplit(s, f, h, Seen);
    var s', f' := Noticed(s, f.chains[h].b), AfterNotice(f);
    forall g | g in f'.chains ensures LaidOut(s', g, f'.chains[g]) && BufferOk(s', g, f'.chains[g]) {
      assert LaidOut(s, g, f.chains[g]) && BufferOk(s', g, Rephase(f, h, Seen).chains[g]);
    }
    forall i: nat | i < 8 && f'.owner[i] >= 0 ensures InChain(f', i) {
      assert InChain(f, i);
    }
  }

  lemma NoticeRings(s: State, f: Flight, b: nat)
    requires Rings(s, f) && s.seenIdx != s.usedIdx && b < |s.busy|
    ensures f.reported != [] && s.used[s.seenIdx % 8] == f.reported[0]
    ensures f.reported[0] in f.chains ==> Rings(Noticed(s, b), AfterNotice(f))
  {
    RingPop(s.used, s.seenIdx, s.usedIdx, f.reported);
  }

  lemma ReportedFirst(s: State, f: Flight)
    requires Inv(s, f, {}) && s.seenIdx != s.usedIdx
    ensures f.reported != [] && s.used[s.seenIdx % 8] == f.reported[0] && f.reported[0] in f.chains
    ensures var h := f.reported[0];
            var c := f.chains[h];
            h < 8 && c.phase == Reported && c.b < |s.busy| && LaidOut(s, h, c)
  {
    RingPop(s.used, s.seenIdx, s.usedIdx, f.reported);
    NoticePhases(f);
    assert BufferOk(s, f.reported[0], f.chains[f.reported[0]]);
  }

  lemma NoticeKeeps(s: State, f: Flight)
    requires Inv(s, f, {}) && s.seenIdx != s.usedIdx
    ensures f.reported != [] && s.used[s.seenIdx % 8] == f.reported[0] && f.reported[0] in f.chains
    ensures var h := f.reported[0];
            var c := f.chains[h];
            && h < 8 && c.phase == Reported && c.b < |s.busy| && LaidOut(s, h, c)
            && (s.info[h].status == 0 ==> Inv(Noticed(s, c.b), AfterNotice(f), {}))
  {
    ReportedFirst(s, f);
    if s.info[f.reported[0]].status == 0 {
      NoticeCore(s, f);
      NoticeRings(s, f, f.chains[f.reported[0]].b);
    }
  }

  // ---- A request ends ----

  function Parted(f: Flight, h: nat): Flight
    requires h in f.chains && h < |f.owner| && f.chains[h].d1 < |f.owner| && f.chains[h].d2 < |f.owner|
  {
    Flight(f.chains - {h}, f.owner[h := -2][f.chains[h].d1 := -2][f.chains[h].d2 := -2], f.offered, f.reported)
  }

  function Forgotten(s: State, h: nat): State
    requires h < |s.info|
  {
    s.(info := s.info[h := Info(-1, s.info[h].status)])
  }

  /** Chains have no descriptor in common. */
  lemma Apart(free: seq<bool>, f: Flight, h: nat, g: nat)
    requires Split(free, f, {}) && h in f.chains && g in f.chains && g != h
    ensures var c, d := f.chains[h], f.chains[g];
            h < 8 && g < 8 && c.d1 < 8 && c.d2 < 8 && d.d1 < 8 && d.d2 < 8 && {h, c.d1, c.d2} !! {g, d.d1, d.d2}
  {
  }

  lemma PartThrees(free: seq<bool>, f: Flight, h: nat)
    requires Split(free, f, {}) && h in f.chains
    ensures h < 8 && f.chains[h].d1 < 8 && f.chains[h].d2 < 8 && Threes(Parted(f, h))
  {
    var f' := Parted(f, h);
    forall g | g in f'.chains
      ensures f'.owner[g] == f.owner[g] && f'.owner[f.chains[g].d1] == f.owner[f.chains[g].d1]
              && f'.owner[f.chains[g].d2] == f.owner[f.chains[g].d2]
    {
      Apart(free, f, h, g);
    }
  }

  lemma PartTally(free: seq<bool>, owner: seq<int>, h: nat, d1: nat, d2: nat)
    requires Tally(free, owner, {}) && h < 8 && d1 < 8 && d2 < 8 && owner[h] >= 0 && owner[d1] >= 0 && owner[d2] >= 0
    ensures Tally(free, owner[h := -2][d1 := -2][d2 := -2], {h, d1, d2})
  {
  }

  lemma PartSplit(free: seq<bool>, f: Flight, h: nat)
    requires Split(free, f, {}) && h in f.chains
    ensures var c := f.chains[h];
            h < 8 && c.d1 < 8 && c.d2 < 8 && Split(free, Parted(f, h), {h, c.d1, c.d2})
  {
    var c := f.chains[h];
    PartThrees(free, f, h);
    PartTally(free, f.owner, h, c.d1, c.d2);
    var f' := Parted(f, h);
    forall i: nat | i < 8 && f'.owner[i] >= 0 ensures InChain(f', i) {
      assert InChain(f, i);
    }
  }

  /** The completion has been seen: the chain can be taken apart. */
  lemma EndKeeps(s: State, f: Flight, h: nat)
    requires Inv(s, f, {}) && h in f.chains && f.chains[h].phase == Seen
    ensures var c := f.chains[h];
            && h < 8 && c.d1 < 8 && c.d2 < 8 && Path(s.desc, [h, c.d1, c.d2])
            && Inv(Forgotten(s, h), Parted(f, h), {h, c.d1, c.d2})
  {
    assert LaidOut(s, h, f.chains[h]);
    PartSplit(s.free, f, h);
    var s', f' := Forgotten(s, h), Parted(f, h);
    forall g | g in f'.chains ensures LaidOut(s', g, f'.chains[g]) && BufferOk(s', g, f'.chains[g]) {
      assert LaidOut(s, g, f.chains[g]) && BufferOk(s, g, f.chains[g]);
    }
    assert Phases(f');
  }

  class Disk {
    var s: State
    ghost var f: Flight

    ghost predicate ValidBut(loose: set<nat>)
      reads this
    {
      Inv(s, f, loose)
    }

    ghost predicate Valid()
      reads this
    {
      ValidBut({})
    }

    /** After `virtio_disk_init`: all descriptors free, both rings empty. */
    constructor (data0: seq<Data>, blockno0: seq<nat>, media0: map<nat, Data>)
      requires |data0| == |blockno0|
      ensures Valid() && f.chains == map[] && s.data == data0 && s.blockno == blockno0 && s.media == media0
      ensures f.offered == [] && f.reported == [] && |s.busy| == |data0| && forall i :: 0 <= i < 8 ==> s.free[i]
    {
      s := State(seq(8, i => true), seq(8, i => Cleared()), seq(8, i => Req(false, 0)), seq(8, i => Info(-1, 0)),
                 seq(8, i => 0), 0, 0, seq(8, i => 0), 0, 0, seq(|data0|, i => false), data0, blockno0, media0);
      f := Flight(map[], seq(8, i => -1), [], []);
    }

    /** `alloc_desc`: a descriptor that was free, or 8 when none is. */
    method AllocDesc(ghost loose: set<nat>) returns (i: nat)
      requires ValidBut(loose)
      modifies this
      ensures i <= 8 && (i == 8 ==> s == old(s) && f == old(f) && forall k :: 0 <= k < 8 ==> !s.free[k])
      ensures i < 8 ==>
                i !in loose && old(s.free[i]) && s == Take(old(s), i) && f == Owned(old(f), i, -2)
                    && ValidBut(loose + {i})
    {
      i := 0;
      while i < 8
        invariant i <= 8 && s == old(s) && f == old(f) && forall k :: 0 <= k < i ==> !s.free[k]
      {
        if s.free[i] {
          TakeKeeps(s, f, loose, i);
          s, f := s.(free := s.free[i := false]), Owned(f, i, -2);
          return;
        }
        i := i + 1;
      }
    }

    /** `free_desc` of a descriptor that is not free: it does not panic. */
    method FreeDesc(i: nat, ghost loose: set<nat>) returns (ok: bool)
      requires ValidBut(loose) && i in loose
      modifies this
      ensures ok && i < 8 && s == Give(old(s), i) && f == Owned(old(f), i, -1) && ValidBut(loose - {i})
    {
      GiveKeeps(s, f, loose, i);
      if i >= 8 || s.free[i] {
        return false;
      }
      s := s.(desc := s.desc[i := Cleared()]);
      s := s.(free := s.free[i := true]);
      f := Owned(f, i, -1);
      return true;
    }

    /** `alloc3_desc`: three descriptors, or none taken at all. */
    method Alloc3Desc() returns (ok: bool, i0: nat, i1: nat, i2: nat)
      requires Valid()
      modifies this
      ensures f == old(f).(owner := f.owner) && s == old(s).(free := s.free, desc := s.desc)
      ensures ok ==> i0 != i1 && i1 != i2 && i2 != i0 && i0 < 8 && i1 < 8 && i2 < 8 && ValidBut({i0, i1, i2})
      ensures !ok ==> Valid() && s.free == old(s.free) && TooFew(s.free)
    {
      ok, i1, i2 := false, 8, 8;
      i0 := AllocDesc({});
      if i0 == 8 {
        return;
      }
      i1 := AllocDesc({i0});
      if i1 == 8 {
        var fine := FreeDesc(i0, {i0});
        assert {i0} - {i0} == {};
        return;
      }
      i2 := AllocDesc({i0, i1});
      if i2 == 8 {
        var fine := FreeDesc(i0, {i0, i1});
        assert {i0, i1} - {i0} == {i1} && {i1} - {i1} == {};
        fine := FreeDesc(i1, {i1});
        return;
      }
      assert {i0, i1} + {i2} == {i0, i1, i2};
      ok := true;
    }

    /** `free_chain` along the descriptors in `chain`, which are loose. */
    method FreeChain(h: nat, ghost chain: seq<nat>) returns (ok: bool)
      requires chain != [] && chain[0] == h && Path(s.desc, chain) && ValidBut(Elems(chain))
      modifies this
      ensures ok && Valid() && f.chains == old(f.chains) && s == old(s).(free := s.free, desc := s.desc)
    {
      var i, more := h, true;
      ghost var left, s0, f0 := chain, s, f;
      ok := true;
      while more
        invariant ok && (more <==> left != []) && (more ==> i == left[0]) && Path(s.desc, left) && ValidBut(Elems(left))
        invariant f.chains == f0.chains && s == s0.(free := s.free, desc := s.desc)
        decreases |left|
      {
        PathTail(s.desc, left);
        more := s.desc[i].more;
        var nxt := s.desc[i].next;
        ok := FreeDesc(i, Elems(left));
        left := left[1..];
        i := nxt;
      }
    }

    /** Fills in the three descriptors and puts the head of the chain into the avail ring. */
    method Fill(h: nat, i1: nat, i2: nat, b: nat, write: bool)
      requires |s.desc| == 8 && |s.ops| == 8 && |s.info| == 8 && |s.avail| == 8 && h < 8 && i1 < 8 && i2 < 8
               && b < |s.busy| && b < |s.blockno|
      modifies this`s
      ensures s == Pushed(Formatted(old(s), h, i1, i2, b, write), h)
    {
      s := s.(ops := s.ops[h := Req(write, s.blockno[b])]);
      s := s.(desc := s.desc[h := Desc(Header(h), true, false, i1)]);
      s := s.(desc := s.desc[i1 := Desc(Buffer(b), true, !write, i2)]);
      s := s.(info := s.info[h := Info(b, 0xff)]);
      s := s.(desc := s.desc[i2 := Desc(Status(h), false, true, 0)]);
      s := s.(busy := s.busy[b := true]);
      s := s.(avail := s.avail[s.availIdx % 8 := h]);
      s := s.(availIdx := (s.availIdx + 1) % 65536);
    }

    /** Whoever holds a buffer that no request in flight uses may give it another content or another block. */
    method SetBuffer(b: nat, block: nat, v: Data)
      requires Valid() && b < |s.busy| && forall h :: h in f.chains ==> f.chains[h].b != b
      modifies this`s
      ensures Valid() && s == old(s).(data := old(s.data)[b := v], blockno := old(s.blockno)[b := block])
    {
      ghost var s0 := s;
      s := s.(data := s.data[b := v], blockno := s.blockno[b := block]);
      forall h | h in f.chains ensures LaidOut(s, h, f.chains[h]) && BufferOk(s, h, f.chains[h]) {
        assert LaidOut(s0, h, f.chains[h]) && BufferOk(s0, h, f.chains[h]);
      }
    }

    /** `virtio_disk_rw` up to the notification; false when it has to sleep for descriptors.  Nobody
        else has a request for this block, which the buffer cache sees to. */
    method Submit(b: nat, write: bool) returns (ok: bool, h: nat, ghost c: Chain)
      requires Valid() && b < |s.busy| && s.blockno[b] in s.media
      requires forall g :: g in f.chains ==> f.chains[g].req.block != s.blockno[b]
      modifies this
      ensures Valid() && s.data == old(s.data) && s.blockno == old(s.blockno) && s.media == old(s.media)
      ensures !ok ==> f.chains == old(f.chains) && s.free == old(s.free) && TooFew(s.free)
      ensures ok ==> h !in old(f.chains) && f.chains == old(f.chains)[h := c]
      ensures ok ==> c.b == b && c.req == Req(write, s.blockno[b]) && c.given == s.data[b] && c.phase == Offered
      ensures ok ==> s.devIdx != s.availIdx && f.offered == old(f.offered) + [h]
      ensures f.reported == old(f.reported)
    {
      var i1: nat, i2: nat;
      ok, h, i1, i2 := Alloc3Desc();
      c := Chain(i1, i2, b, Req(write, s.blockno[b]), s.data[b], Offered);
      if ok {
        StartKeeps(s, f, h, c, write);
        Fill(h, i1, i2, b, write);
        f := Started(f, h, c);
        RingBusy(s.avail, s.devIdx, s.availIdx, f.offered);
      }
    }

    // ---- The device ----

    /** The device takes up the chain offered first. */
    method DeviceTakes() returns (h: nat)
      requires Valid() && s.devIdx != s.availIdx
      modifies this
      ensures Valid() && h in old(f.chains) && old(f.chains)[h].phase == Offered
              && f.chains == old(f.chains)[h := old(f.chains)[h].To(Taken)]
      ensures s == Fetched(old(s)) && f.reported == old(f.reported)
    {
      FetchKeeps(s, f);
      h := s.avail[s.devIdx % 8];
      s, f := Fetched(s), AfterFetch(f);
    }

    /** The device follows the chain from `h`, moves the block, writes the status and reports the head.  With a
        status other than 0 it may leave anything where it was to write. */
    method Serve(h: nat, ghost c: Chain, status: nat, junk: Data)
      requires LaidOut(s, h, c) && c.b < |s.data| && c.req.block in s.media && |s.used| == 8
      modifies this`s
      ensures s == Served(old(s), h, c, status, junk)
    {
      var head := s.desc[h];
      var body := s.desc[head.next];
      var foot := s.desc[body.next];
      var req, b := s.ops[head.addr.i], body.addr.b;
      if req.write {
        s := s.(media := s.media[req.block := if status == 0 then s.data[b] else junk]);
      } else {
        s := s.(data := s.data[b := if status == 0 then s.media[req.block] else junk]);
      }
      s := s.(info := s.info[foot.addr.i := Info(s.info[foot.addr.i].b, status)]);
      s := s.(used := s.used[s.usedIdx % 8 := h]);
      s := s.(usedIdx := (s.usedIdx + 1) % 65536);
    }

    /** The device carries out a request it has taken, whichever it likes, and reports the status it likes. */
    method DeviceCompletes(h: nat, status: nat, junk: Data)
      requires Valid() && h in f.chains && f.chains[h].phase == Taken
      modifies this
      ensures Valid() && f.chains == old(f.chains)[h := old(f.chains)[h].To(Reported)]
              && f.reported == old(f.reported) + [h]
      ensures h < |s.info| == |old(s.info)| && s.info == old(s.info)[h := Info(old(s.info)[h].b, status)]
      ensures var c := old(f.chains)[h];
              var was := old(s.media)[c.req.block];
              if c.req.write
              then s.data == old(s.data) && s.media == old(s.media)[c.req.block := if status == 0 then c.given
                  else junk]
              else s.media == old(s.media) && s.data == old(s.data)[c.b := if status == 0 then was else junk]
    {
      assert BufferOk(s, h, f.chains[h]);
      ServeKeeps(s, f, h, status, junk);
      Serve(h, f.chains[h], status, junk);
      f := AfterServe(f, h);
    }

    // ---- The interrupt ----

    /** One turn of the loop of `virtio_disk_intr`; `ok` is false where the kernel panics. */
    method Notice() returns (ok: bool, ghost h: nat)
      requires Valid() && s.seenIdx != s.usedIdx
      modifies this
      ensures Valid() && s.data == old(s.data) && s.media == old(s.media) && s.info == old(s.info)
      ensures old(f.reported) != [] && h == old(f.reported)[0] && h in old(f.chains)
              && old(f.chains)[h].phase == Reported
      ensures ok == StatusOk(old(s), h) && (!ok ==> f == old(f))
      ensures ok ==> f.reported == old(f.reported)[1..] && f.chains == old(f.chains)[h := old(f.chains)[h].To(Seen)]
    {
      NoticeKeeps(s, f);
      var id := s.used[s.seenIdx % 8];
      h := id;
      if s.info[id].status != 0 {
        return false, h;
      }
      var b := s.info[id].b;
      s := s.(busy := s.busy[b := false]);
      s := s.(seenIdx := (s.seenIdx + 1) % 65536);
      f := AfterNotice(f);
      return true, h;
    }

    /** `virtio_disk_intr`: it panics exactly when an unseen completion has a status other than 0, having seen those
        before it; otherwise every reported completion is seen.  Nothing else changes. */
    method Interrupt() returns (ok: bool)
      requires Valid()
      modifies this
      ensures Valid() && s.data == old(s.data) && s.media == old(s.media)
      ensures ok <==> forall k :: 0 <= k < |old(f.reported)| ==> StatusOk(old(s), old(f.reported)[k])
      ensures SomeSeen(old(f.chains), f.chains)
      ensures ok ==> f.reported == [] && forall h :: h in f.chains ==>
                var c := old(f.chains)[h]; f.chains[h] == if c.phase == Reported then c.To(Seen) else c
    {
      ghost var s0, f0 := s, f;
      ghost var k: nat := 0;
      ok := true;
      while s.seenIdx != s.usedIdx && ok
        invariant Valid() && s.data == s0.data && s.media == s0.media && s.info == s0.info
                  && SomeSeen(f0.chains, f.chains)
        invariant SeenUpTo(s0, f0.reported, f.reported, k) && (!ok ==>
                    k < |f0.reported| && !StatusOk(s0, f0.reported[k]))
        decreases ok, |f.reported|
      {
        ghost var h, chains1 := 0, f.chains;
        ok, h := Notice();
        if ok {
          OneMoreSeen(f0.chains, chains1, h);
          k := k + 1;
        }
      }
      RingPop(s.used, s.seenIdx, s.usedIdx, f.reported);
      if ok {
        AllSeen(f0.chains, f);
      }
    }

    // ---- The end of a request ----

    /** The end of `virtio_disk_rw`, when `b->disk` is 0: that happens only after the request's own
        completion, and then disk and buffer agree. */
    method Finish(h: nat, b: nat) returns (ok: bool)
      requires Valid() && h in f.chains && f.chains[h].b == b && !s.busy[b]
      modifies this
      ensures ok && Valid() && f.chains == old(f.chains) - {h} && old(f.chains)[h].phase == Seen
      ensures s.data == old(s.data) && s.media == old(s.media) && s.blockno == old(s.blockno)
      ensures s.blockno[b] in s.media && s.data[b] == s.media[s.blockno[b]]
      ensures old(f.chains)[h].req.write ==> s.data[b] == old(f.chains)[h].given
    {
      ghost var c := f.chains[h];
      assert BufferOk(s, h, c);
      EndKeeps(s, f, h);
      s := s.(info := s.info[h := Info(-1, s.info[h].status)]);
      f := Parted(f, h);
      assert Elems([h, c.d1, c.d2]) == {h, c.d1, c.d2};
      ok := FreeChain(h, [h, c.d1, c.d2]);
    }
  }

  /** A device that answers the first request with status 1 makes the kernel panic. */
  method FailedRequest(content: Data) returns (ok: bool)
    ensures !ok
  {
    var d := new Disk([content], [0], map[0 := content]);
    assert d.s.free[0] && d.s.free[1] && d.s.free[2];
    var done, h, c := d.Submit(0, false);
    h := d.DeviceTakes();
    d.DeviceCompletes(h, 1, content);
    ok := d.Interrupt();
  }

  predicate StatusOk(s: State, h: nat) { h < |s.info| && s.info[h].status == 0 }

  /** The first `k` reports have been taken out, and their status was 0. */
  ghost predicate SeenUpTo(s: State, reported: seq<nat>, left: seq<nat>, k: nat) {
    k <= |reported| && left == reported[k..] && forall j :: 0 <= j < k ==> StatusOk(s, reported[j])
  }

  /** Some reported completions have been seen, and nothing else has changed. */
  ghost predicate SomeSeen(chains: map<nat, Chain>, chains': map<nat, Chain>) {
    && chains'.Keys == chains.Keys
    && forall h :: h in chains ==>
         chains'[h] == chains[h] || (chains[h].phase == Reported && chains'[h] == chains[h].To(Seen))
  }

  lemma OneMoreSeen(chains: map<nat, Chain>, chains': map<nat, Chain>, h: nat)
    requires SomeSeen(chains, chains') && h in chains' && chains'[h].phase == Reported
    ensures SomeSeen(chains, chains'[h := chains'[h].To(Seen)])
  {
  }

  lemma AllSeen(chains: map<nat, Chain>, f: Flight)
    requires SomeSeen(chains, f.chains) && Phases(f) && f.reported == []
    ensures f.chains.Keys == chains.Keys
    ensures forall h :: h in f.chains ==>
              f.chains[h] == if chains[h].phase == Reported then chains[h].To(Seen) else chains[h]
  {
    forall h | h in f.chains ensures f.chains[h].phase != Reported {
      assert h !in f.reported;
    }
  }
}
