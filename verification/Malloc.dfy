/** The Kernighan and Ritchie allocator of `user/umalloc.c`.

    Addresses count units of `sizeof(Header)`.  `BASE` is the address of the static `base`
    header; memory from `sbrk` lies above it.  The ghost map `who` sends every unit ever
    obtained from `sbrk` to the header of the block it is in, so being a function it says
    that the blocks, free and allocated, partition that memory. */
module Malloc {

  const BASE: nat := 1

  type Words = map<nat, nat>

  function Succ(fl: seq<nat>, i: nat): nat
    requires i < |fl|
  {
    if i + 1 < |fl| then fl[i + 1] else fl[0]
  }

  /** The `ptr` fields make `fl` one circular list starting at `base`. */
  ghost predicate Links(ptr: Words, fl: seq<nat>) {
    && |fl| >= 1 && fl[0] == BASE
    && (forall i :: 0 <= i < |fl| ==> fl[i] in ptr)
    && forall i: nat {:trigger Succ(fl, i)} :: i < |fl| ==> ptr[fl[i]] == Succ(fl, i)
  }

  /** The list is in address order, and a free block ends strictly before the next begins:
      no two free blocks touch. */
  ghost predicate Gaps(size: Words, fl: seq<nat>) {
    && |fl| >= 1 && fl[0] == BASE
    && (forall i :: 0 <= i < |fl| ==> fl[i] in size)
    && size[BASE] == 0
    && (forall i :: 1 <= i < |fl| ==> size[fl[i]] >= 1)
    && (forall i, j :: 0 <= i < j < |fl| ==> fl[i] + size[fl[i]] < fl[j])
  }

  ghost predicate IsBlock(fl: seq<nat>, live: Words, h: nat) {
    h in live || (h in fl && h != BASE)
  }

  /** Unit `u` is in the block whose header is at `h`. */
  ghost predicate Within(size: Words, h: nat, u: nat) {
    h in size && h <= u < h + size[h]
  }

  /** Every unit is in exactly one block, and every unit of a block is a unit. */
  ghost predicate Cover(size: Words, fl: seq<nat>, live: Words, who: Words, brk: nat) {
    && brk > BASE
    && (forall u :: u in who ==>
          BASE < u < brk && IsBlock(fl, live, who[u]) && Within(size, who[u], u))
    && (forall h: nat, u: nat {:trigger Within(size, h, u)} ::
          IsBlock(fl, live, h) && Within(size, h, u) ==> u in who && who[u] == h)
    && (forall h :: h in live ==> h !in fl && h in size && size[h] == live[h] >= 1)
  }

  ghost predicate HeapOk(ptr: Words, size: Words, fl: seq<nat>, live: Words, who: Words, brk: nat) {
    Links(ptr, fl) && Gaps(size, fl) && Cover(size, fl, live, who, brk)
  }

  /** Blocks do not overlap. */
  lemma Disjoint(size: Words, fl: seq<nat>, live: Words, who: Words, brk: nat, g: nat, h: nat)
    requires Cover(size, fl, live, who, brk) && IsBlock(fl, live, g) && IsBlock(fl, live, h)
    requires g in size && h in size && size[h] >= 1 && g < h
    ensures g + size[g] <= h
  {
    if h < g + size[g] {
      assert Within(size, g, h) && Within(size, h, h);
    }
  }

  lemma LiveAbove(size: Words, fl: seq<nat>, live: Words, who: Words, brk: nat, h: nat)
    requires Cover(size, fl, live, who, brk) && h in live
    ensures h > BASE && h !in fl
  {
    assert Within(size, h, h);
  }

  /** Position `k` of the list is where a block at `bp` belongs. */
  ghost predicate Slot(fl: seq<nat>, k: nat, bp: nat) {
    k < |fl| && fl[k] < bp && (k + 1 < |fl| ==> bp < fl[k + 1])
  }

  lemma {:induction false} SlotExists(size: Words, fl: seq<nat>, bp: nat, n: nat) returns (k: nat)
    requires Gaps(size, fl) && bp !in fl && bp > BASE && 1 <= n <= |fl|
    requires n < |fl| ==> bp < fl[n]
    ensures Slot(fl, k, bp)
  {
    if fl[n - 1] < bp {
      k := n - 1;
    } else {
      assert fl[n - 1] in fl;
      k := SlotExists(size, fl, bp, n - 1);
    }
  }

  // ---- How `free` joins a block to its neighbours ----

  /** What the two neighbours of a block at position `k` look like. */
  ghost predicate Between(size: Words, fl: seq<nat>, k: nat, bp: nat) {
    && Gaps(size, fl) && Slot(fl, k, bp) && bp in size && size[bp] >= 1
    && fl[k] + size[fl[k]] <= bp
    && (k + 1 < |fl| ==> bp + size[bp] <= fl[k + 1])
  }

  /** Of the free blocks below `bp`, the one at position `k` is the last. */
  lemma Nearest(size: Words, fl: seq<nat>, k: nat, bp: nat)
    requires Gaps(size, fl) && Slot(fl, k, bp)
    ensures fl[k] in fl && forall h :: h in fl ==> h <= fl[k] || bp < h
  {
    forall h | h in fl ensures h <= fl[k] || bp < h {
      var i :| 0 <= i < |fl| && fl[i] == h;
      if i > k + 1 {
        assert fl[k + 1] + size[fl[k + 1]] < fl[i];
      }
    }
  }

  lemma NeighboursApart(size: Words, fl: seq<nat>, live: Words, who: Words, brk: nat, k: nat, bp: nat)
    requires Gaps(size, fl) && Cover(size, fl, live, who, brk) && bp in live && Slot(fl, k, bp)
    ensures Between(size, fl, k, bp)
  {
    if k > 0 {
      assert fl[k] in fl;
      Disjoint(size, fl, live, who, brk, fl[k], bp);
    }
    if k + 1 < |fl| {
      assert fl[k + 1] in fl;
      Disjoint(size, fl, live, who, brk, bp, fl[k + 1]);
    }
  }

  /** The list with the element after position `k` taken out. */
  function Without(fl: seq<nat>, k: nat): (r: seq<nat>)
    requires k + 1 < |fl|
    ensures |r| == |fl| - 1
    ensures forall i :: 0 <= i < |r| ==> r[i] == if i <= k then fl[i] else fl[i + 1]
  {
    fl[..k + 1] + fl[k + 2..]
  }

  /** Units of block `from` now belong to block `to`. */
  function Moved(who: Words, from: nat, to: nat): Words {
    map u | u in who :: if who[u] == from then to else who[u]
  }

  /** All links are right except the one leaving position `k`. */
  ghost predicate LinksBut(ptr: Words, fl: seq<nat>, k: nat) {
    && k < |fl| && fl[0] == BASE
    && (forall i :: 0 <= i < |fl| ==> fl[i] in ptr)
    && forall i: nat {:trigger Succ(fl, i)} :: i < |fl| && i != k ==> ptr[fl[i]] == Succ(fl, i)
  }

  lemma OpenLink(ptr: Words, fl: seq<nat>, k: nat, bp: nat, v: nat)
    requires LinksBut(ptr, fl, k) && bp !in fl
    ensures LinksBut(ptr[bp := v], fl, k)
  {
    forall i: nat | i < |fl| && i != k ensures ptr[bp := v][fl[i]] == Succ(fl, i) {
      assert ptr[fl[i]] == Succ(fl, i);
    }
  }

  lemma CloseLink(ptr: Words, fl: seq<nat>, k: nat)
    requires LinksBut(ptr, fl, k) && forall i, j :: 0 <= i < j < |fl| ==> fl[i] != fl[j]
    ensures Links(ptr[fl[k] := Succ(fl, k)], fl)
  {
    forall i: nat | i < |fl| ensures ptr[fl[k] := Succ(fl, k)][fl[i]] == Succ(fl, i) {
      if i != k { assert ptr[fl[i]] == Succ(fl, i); }
    }
  }

  lemma JoinUpperLinks(ptr: Words, fl: seq<nat>, k: nat)
    requires Links(ptr, fl) && k + 1 < |fl|
    ensures LinksBut(ptr, Without(fl, k), k) && ptr[fl[k + 1]] == Succ(Without(fl, k), k)
  {
    var fl' := Without(fl, k);
    forall i: nat | i < |fl'| && i != k ensures ptr[fl'[i]] == Succ(fl', i) {
      var a := if i <= k then i else i + 1;
      assert ptr[fl[a]] == Succ(fl, a);
    }
    assert ptr[fl[k + 1]] == Succ(fl, k + 1);
  }

  lemma WithoutGaps(size: Words, fl: seq<nat>, k: nat)
    requires Gaps(size, fl) && k + 1 < |fl|
    ensures Gaps(size, Without(fl, k))
  {
    var fl' := Without(fl, k);
    forall i, j | 0 <= i < j < |fl'| ensures fl'[i] in size && fl'[i] + size[fl'[i]] < fl'[j] {
      var a, b := if i <= k then i else i + 1, if j <= k then j else j + 1;
      assert fl'[i] == fl[a] && fl'[j] == fl[b] && fl[a] + size[fl[a]] < fl[b];
    }
  }

  /** `bp` ends where the next free block begins: it swallows that block. */
  lemma JoinUpper(size: Words, fl: seq<nat>, k: nat, bp: nat)
    requires Between(size, fl, k, bp) && k + 1 < |fl| && bp + size[bp] == fl[k + 1]
    ensures var size' := size[bp := size[bp] + size[fl[k + 1]]];
            && Gaps(size', Without(fl, k)) && Between(size', Without(fl, k), k, bp)
            && (k + 1 < |Without(fl, k)| ==> bp + size'[bp] < Without(fl, k)[k + 1])
  {
    var fl' := Without(fl, k);
    var size' := size[bp := size[bp] + size[fl[k + 1]]];
    WithoutGaps(size, fl, k);
    assert forall i :: 0 <= i < |fl'| ==> fl'[i] != bp && fl'[i] in size && size'[fl'[i]] == size[fl'[i]];
  }

  lemma JoinUpperCover(size: Words, fl: seq<nat>, live: Words, who: Words, brk: nat, k: nat, bp: nat)
    requires Gaps(size, fl) && Cover(size, fl, live, who, brk) && bp in live && Between(size, fl, k, bp)
    requires k + 1 < |fl| && bp + size[bp] == fl[k + 1]
    ensures var q := fl[k + 1];
            var n := size[bp] + size[q];
            Cover(size[bp := n], Without(fl, k), live[bp := n], Moved(who, q, bp), brk)
  {
    var q, fl' := fl[k + 1], Without(fl, k);
    var n := size[bp] + size[q];
    var size', live', who' := size[bp := n], live[bp := n], Moved(who, q, bp);
    TakeMembers(size, fl, k);
    assert q in fl && q !in fl';
    forall u | u in who' ensures IsBlock(fl', live', who'[u]) && Within(size', who'[u], u) {
      assert Within(size, who[u], u);
    }
    forall h: nat, u: nat | IsBlock(fl', live', h) && Within(size', h, u) ensures u in who' && who'[u] == h {
      if h == bp && u >= q {
        assert Within(size, q, u);
      } else {
        assert Within(size, h, u);
      }
    }
  }

  /** The free block before `bp` ends where `bp` begins: it swallows `bp`. */
  lemma JoinLower(size: Words, fl: seq<nat>, live: Words, who: Words, brk: nat, k: nat, bp: nat)
    requires Gaps(size, fl) && Cover(size, fl, live, who, brk) && bp in live && Between(size, fl, k, bp)
    requires fl[k] + size[fl[k]] == bp && (k + 1 < |fl| ==> bp + size[bp] < fl[k + 1])
    ensures var p := fl[k];
            var size' := size[p := size[p] + size[bp]];
            Gaps(size', fl) && Cover(size', fl, live - {bp}, Moved(who, bp, p), brk)
  {
    var p := fl[k];
    var size', live', who' := size[p := size[p] + size[bp]], live - {bp}, Moved(who, bp, p);
    assert p in fl && k > 0;
    forall u | u in who' ensures IsBlock(fl, live', who'[u]) && Within(size', who'[u], u) {
      assert Within(size, who[u], u);
    }
    forall h: nat, u: nat | IsBlock(fl, live', h) && Within(size', h, u) ensures u in who' && who'[u] == h {
      if h == p && u >= bp {
        assert Within(size, bp, u);
      } else {
        assert Within(size, h, u);
      }
    }
  }

  function Inserted(fl: seq<nat>, k: nat, bp: nat): (r: seq<nat>)
    requires k < |fl|
    ensures |r| == |fl| + 1
    ensures forall i :: 0 <= i < |r| ==> r[i] == if i <= k then fl[i] else if i == k + 1 then bp else fl[i - 1]
  {
    fl[..k + 1] + [bp] + fl[k + 1..]
  }

  lemma InsertGaps(size: Words, fl: seq<nat>, k: nat, bp: nat)
    requires Between(size, fl, k, bp)
    requires fl[k] + size[fl[k]] != bp && (k + 1 < |fl| ==> bp + size[bp] < fl[k + 1])
    ensures Gaps(size, Inserted(fl, k, bp))
  {
    var fl' := Inserted(fl, k, bp);
    forall i, j | 0 <= i < j < |fl'| ensures fl'[i] + size[fl'[i]] < fl'[j] {
      if i == k + 1 {
        assert fl[k + 1] <= fl[j - 1];
      } else if j == k + 1 {
        assert fl[i] + size[fl[i]] < bp;
      }
    }
  }

  lemma InsertMembers(fl: seq<nat>, k: nat, bp: nat)
    requires k < |fl|
    ensures forall h :: h in Inserted(fl, k, bp) <==> h in fl || h == bp
  {
    assert fl == fl[..k + 1] + fl[k + 1..];
  }

  /** `bp` touches neither neighbour: it becomes a list element of its own. */
  lemma InsertCover(size: Words, fl: seq<nat>, live: Words, who: Words, brk: nat, k: nat, bp: nat)
    requires Cover(size, fl, live, who, brk) && bp in live && k < |fl| && bp > BASE
    ensures Cover(size, Inserted(fl, k, bp), live - {bp}, who, brk)
  {
    var fl', live' := Inserted(fl, k, bp), live - {bp};
    InsertMembers(fl, k, bp);
    assert forall h :: IsBlock(fl', live', h) <==> IsBlock(fl, live, h);
  }

  lemma InsertLinks(ptr: Words, fl: seq<nat>, k: nat, bp: nat)
    requires LinksBut(ptr, fl, k) && k < |fl| && bp !in fl && bp in ptr && ptr[bp] == Succ(fl, k)
    requires forall i, j :: 0 <= i < j < |fl| ==> fl[i] != fl[j]
    ensures Links(ptr[fl[k] := bp], Inserted(fl, k, bp))
  {
    var fl', ptr' := Inserted(fl, k, bp), ptr[fl[k] := bp];
    forall i: nat | i < |fl'| ensures ptr'[fl'[i]] == Succ(fl', i) {
      if i < k {
        assert ptr[fl[i]] == Succ(fl, i);
      } else if i > k + 1 {
        assert ptr[fl[i - 1]] == Succ(fl, i - 1);
      }
    }
  }

  /** Some free block has at least `n` units. */
  ghost predicate Enough(size: Words, fl: seq<nat>, n: nat) {
    exists i :: 0 <= i < |fl| && fl[i] in size && size[fl[i]] >= n
  }

  // ---- How `malloc` carves a block out ----

  /** The whole free block after position `k` is handed out. */
  lemma TakeWhole(ptr: Words, size: Words, fl: seq<nat>, live: Words, who: Words, brk: nat, k: nat)
    requires HeapOk(ptr, size, fl, live, who, brk) && k + 1 < |fl|
    ensures var p := fl[k + 1];
            && Links(ptr[fl[k] := ptr[p]], Without(fl, k))
            && Gaps(size, Without(fl, k))
            && Cover(size, Without(fl, k), live[p := size[p]], who, brk)
  {
    JoinUpperLinks(ptr, fl, k);
    WithoutGaps(size, fl, k);
    CloseLink(ptr, Without(fl, k), k);
    TakeWholeCover(size, fl, live, who, brk, k);
  }

  lemma TakeWholeCover(size: Words, fl: seq<nat>, live: Words, who: Words, brk: nat, k: nat)
    requires Gaps(size, fl) && Cover(size, fl, live, who, brk) && k + 1 < |fl|
    ensures Cover(size, Without(fl, k), live[fl[k + 1] := size[fl[k + 1]]], who, brk)
  {
    var p, fl' := fl[k + 1], Without(fl, k);
    var live' := live[p := size[p]];
    TakeMembers(size, fl, k);
    forall h ensures IsBlock(fl', live', h) <==> IsBlock(fl, live, h) {
      assert p in fl;
    }
    forall h | h in live' ensures h !in fl' && h in size && size[h] == live'[h] >= 1 {
    }
  }

  lemma TakeMembers(size: Words, fl: seq<nat>, k: nat)
    requires Gaps(size, fl) && k + 1 < |fl|
    ensures Gaps(size, Without(fl, k)) && fl[k + 1] != BASE
    ensures forall h :: h in Without(fl, k) <==> h in fl && h != fl[k + 1]
  {
    var fl' := Without(fl, k);
    WithoutGaps(size, fl, k);
    forall i | 0 <= i < |fl'| ensures fl'[i] in fl && fl'[i] != fl[k + 1] {
      assert fl'[i] == fl[if i <= k then i else i + 1];
    }
    forall h | h in fl && h != fl[k + 1] ensures h in fl' {
      var i :| 0 <= i < |fl| && fl[i] == h;
      assert fl'[if i <= k then i else i - 1] == h;
    }
  }

  /** Units from `t` on, of the block they were in, now belong to the block at `t`. */
  function Cut(who: Words, p: nat, t: nat): Words {
    map u | u in who :: if who[u] == p && u >= t then t else who[u]
  }

  lemma TailGaps(size: Words, fl: seq<nat>, k: nat, n: nat, t: nat)
    requires Gaps(size, fl) && 1 <= k < |fl| && 1 <= n < size[fl[k]] && t !in fl
    ensures Gaps(size[fl[k] := size[fl[k]] - n][t := n], fl)
  {
    var size' := size[fl[k] := size[fl[k]] - n][t := n];
    assert forall i :: 0 <= i < |fl| ==> fl[i] != t && size'[fl[i]] <= size[fl[i]];
  }

  /** The last `n` units of a larger free block are handed out. */
  lemma TakeTail(size: Words, fl: seq<nat>, live: Words, who: Words, brk: nat, p: nat, n: nat, t: nat)
    requires Cover(size, fl, live, who, brk) && p in fl && p != BASE && p in size && 1 <= n < size[p]
    requires t == p + size[p] - n && t !in live && t !in fl
    ensures Cover(size[p := size[p] - n][t := n], fl, live[t := n], Cut(who, p, t), brk)
  {
    var size', live', who' := size[p := size[p] - n][t := n], live[t := n], Cut(who, p, t);
    forall u | u in who' ensures IsBlock(fl, live', who'[u]) && Within(size', who'[u], u) {
      TailUnit(size, fl, live, who, brk, p, n, t, u);
    }
    forall h: nat, u: nat | IsBlock(fl, live', h) && Within(size', h, u) ensures u in who' && who'[u] == h {
      TailOwner(size, fl, live, who, brk, p, n, t, h, u);
    }
  }

  lemma TailUnit(size: Words, fl: seq<nat>, live: Words, who: Words, brk: nat, p: nat, n: nat, t: nat, u: nat)
    requires Cover(size, fl, live, who, brk) && p in fl && p != BASE && p in size && 1 <= n < size[p]
    requires t == p + size[p] - n && t !in live && t !in fl && u in who
    ensures var h := Cut(who, p, t)[u];
            IsBlock(fl, live[t := n], h) && Within(size[p := size[p] - n][t := n], h, u)
  {
    assert IsBlock(fl, live, who[u]) && Within(size, who[u], u);
  }

  lemma TailOwner(size: Words, fl: seq<nat>, live: Words, who: Words, brk: nat, p: nat, n: nat, t: nat, h: nat, u: nat)
    requires Cover(size, fl, live, who, brk) && p in fl && p != BASE && p in size && 1 <= n < size[p]
    requires t == p + size[p] - n && t !in live && t !in fl
    requires IsBlock(fl, live[t := n], h) && Within(size[p := size[p] - n][t := n], h, u)
    ensures u in who && Cut(who, p, t)[u] == h
  {
    assert Within(size, if h == t then p else h, u);
  }

  lemma FreshTail(size: Words, fl: seq<nat>, live: Words, who: Words, brk: nat, k: nat, t: nat)
    requires Gaps(size, fl) && Cover(size, fl, live, who, brk) && 1 <= k < |fl|
    requires fl[k] < t < fl[k] + size[fl[k]]
    ensures t !in live && t !in fl
  {
    assert fl[k] in fl && Within(size, fl[k], t);
    if t in live { assert Within(size, t, t); }
  }

  lemma TailHeap(ptr: Words, size: Words, fl: seq<nat>, live: Words, who: Words, brk: nat, k: nat, n: nat, t: nat)
    requires HeapOk(ptr, size, fl, live, who, brk) && 1 <= k < |fl| && 1 <= n < size[fl[k]]
             && t == fl[k] + size[fl[k]] - n
    ensures t !in live && Cut(who, fl[k], t).Keys == who.Keys
    ensures HeapOk(ptr, size[fl[k] := size[fl[k]] - n][t := n], fl, live[t := n], Cut(who, fl[k], t), brk)
  {
    FreshTail(size, fl, live, who, brk, k, t);
    TailGaps(size, fl, k, n, t);
    TakeTail(size, fl, live, who, brk, fl[k], n, t);
  }

  lemma ThereAndBack(live: Words, a: nat, n: nat)
    requires a !in live
    ensures live[a := n] - {a} == live && a in live[a := n] && live[a := n][a] == n
  {
  }

  /** New memory from `sbrk`, first as an allocated block. */
  lemma NewArena(size: Words, fl: seq<nat>, live: Words, who: Words, brk: nat, a: nat, n: nat)
    requires Gaps(size, fl) && Cover(size, fl, live, who, brk) && a >= brk && n >= 1
    ensures a !in live && Gaps(size[a := n], fl)
    ensures Cover(size[a := n], fl, live[a := n], who + Fresh(a, n), a + n)
  {
    var size', live', who' := size[a := n], live[a := n], who + Fresh(a, n);
    forall h: nat | IsBlock(fl, live, h) && h in size && size[h] >= 1 ensures h < brk {
      assert Within(size, h, h);
    }
    assert a !in fl && a !in live;
    forall u | u in who' ensures BASE < u < a + n && IsBlock(fl, live', who'[u]) && Within(size', who'[u], u) {
      if u in who { assert Within(size, who[u], u); }
    }
    forall h: nat, u: nat | IsBlock(fl, live', h) && Within(size', h, u) ensures u in who' && who'[u] == h {
      if h != a { assert Within(size, h, u); }
    }
  }

  /** The `n` units from `a` on, all in the block at `a`. */
  function Fresh(a: nat, n: nat): (w: Words)
    ensures forall u :: u in w <==> a <= u < a + n
    ensures forall u :: u in w ==> w[u] == a
  {
    if n == 0 then map[] else Fresh(a, n - 1)[a + n - 1 := a]
  }

  // ---- Sizes ----

  /** `(nbytes + sizeof(Header) - 1)/sizeof(Header) + 1` */
  function Nunits(nbytes: nat): nat { (nbytes + 15) / 16 + 1 }

  /** What `morecore` asks for: at least 4096 units. */
  function AtLeast4096(nu: nat): nat { if nu < 4096 then 4096 else nu }

  /** `nu * sizeof(Header)` converted to the `int` that `sbrk` takes. */
  function SbrkArgument(nu: nat): int {
    var b := (nu * 16) % 0x1_0000_0000;
    if b < 0x8000_0000 then b else b - 0x1_0000_0000
  }

  /** The request reaches `sbrk` unchanged exactly for sizes up to 2^31 - 32 bytes. */
  lemma RequestExact(nbytes: nat)
    requires nbytes < 0x1_0000_0000
    ensures SbrkArgument(AtLeast4096(Nunits(nbytes))) == 16 * AtLeast4096(Nunits(nbytes)) <==>
            nbytes <= 0x7FFF_FFE0
  {
  }

  /** The memory `sbrk` is asked for is the memory `morecore` then frees. */
  predicate Arrives(nu: nat) { SbrkArgument(AtLeast4096(nu)) == 16 * AtLeast4096(nu) }

  /** The number of bytes the kernel works with: the argument, or whatever is in the variable if the argument is
      negative, since `argint` refuses that and `sys_sbrk` does not look. */
  predicate Passed(nu: nat, bytes: int) {
    -0x8000_0000 <= bytes < 0x8000_0000 && (SbrkArgument(nu) >= 0 ==> bytes == SbrkArgument(nu))
  }

  /** Where the break is after it went along with a request at `a`. */
  function BreakAfter(a: nat, bytes: int): nat {
    if 16 * a + bytes < 0 then 0 else (16 * a + bytes) / 16
  }

  /** The blocks lie in the memory below `brk`, and no two share a unit. */
  ghost predicate Coverable(size: Words, fl: seq<nat>, live: Words, brk: nat) {
    exists who :: Cover(size, fl, live, who, brk)
  }

  lemma PastTheBreak(size: Words, fl: seq<nat>, live: Words, who: Words, brk: nat, a: nat, n: nat)
    requires Cover(size, fl, live, who, brk) && a in live && live[a] == n
    ensures a + n <= brk
  {
    assert Within(size, a, a + n - 1);
  }

  lemma BreakExact(a: nat, nbytes: nat, bytes: int)
    requires nbytes < 0x1_0000_0000 && Passed(AtLeast4096(Nunits(nbytes)), bytes)
    ensures var n := AtLeast4096(Nunits(nbytes));
            if nbytes <= 0x7FFF_FFE0 then BreakAfter(a, bytes) == a + n else BreakAfter(a, bytes) < a + n
  {
    RequestExact(nbytes);
  }

  /** The block that `morecore` makes of new memory can be part of a heap if and only if the
      size asked for is at most 2^31 - 32 bytes; a larger one reaches past the new break. */
  lemma MorecoreExact(size: Words, fl: seq<nat>, live: Words, who: Words, brk: nat, a: nat, nbytes: nat, bytes: int)
    requires Gaps(size, fl) && Cover(size, fl, live, who, brk) && a >= brk && nbytes < 0x1_0000_0000
    requires Passed(AtLeast4096(Nunits(nbytes)), bytes)
    ensures var n := AtLeast4096(Nunits(nbytes));
            nbytes <= 0x7FFF_FFE0 <==> Coverable(size[a := n], fl, live[a := n], BreakAfter(a, bytes))
  {
    var n := AtLeast4096(Nunits(nbytes));
    BreakExact(a, nbytes, bytes);
    if nbytes <= 0x7FFF_FFE0 {
      NewArena(size, fl, live, who, brk, a, n);
    } else if Coverable(size[a := n], fl, live[a := n], BreakAfter(a, bytes)) {
      var who' :| Cover(size[a := n], fl, live[a := n], who', BreakAfter(a, bytes));
      PastTheBreak(size[a := n], fl, live[a := n], who', BreakAfter(a, bytes), a, n);
    }
  }

  /** A larger request can arrive as a small one: 2^32 - 1 bytes ask `sbrk` for one header. */
  lemma RequestWraps()
    ensures SbrkArgument(AtLeast4096(Nunits(0xFFFF_FFFF))) == 16
  {
  }

  /** Steps forward from list position `a` to position `b`. */
  function Dist(a: nat, b: nat, n: nat): int {
    if a <= b then b - a else b - a + n
  }

  function Next(a: nat, n: nat): nat { if a + 1 < n then a + 1 else 0 }

  /** Where the search stands: `p` is next after `prevp`, and the block at `t` (the first large
      enough one, if there is one, and otherwise `freep`) has not been passed. */
  ghost predicate Looking(size: Words, fl: seq<nat>, freep: nat, n: nat, prevp: nat, p: nat, i: nat, f: nat, t: nat) {
    && i < |fl| && f < |fl| && t < |fl| && prevp == fl[i] && p == fl[Next(i, |fl|)] && freep == fl[f] && p in size
    && Dist(Next(i, |fl|), t, |fl|) <= Dist(Next(i, |fl|), f, |fl|)
    && (if Enough(size, fl, n) then fl[t] in size && size[fl[t]] >= n else t == f)
  }

  lemma Start(ptr: Words, size: Words, fl: seq<nat>, freep: nat, n: nat) returns (f: nat, t: nat)
    requires Links(ptr, fl) && Gaps(size, fl) && freep in fl
    ensures freep in ptr && Looking(size, fl, freep, n, freep, ptr[freep], f, f, t)
  {
    f :| f < |fl| && fl[f] == freep;
    assert ptr[freep] == Succ(fl, f);
    t := f;
    if Enough(size, fl, n) {
      t :| t < |fl| && fl[t] in size && size[fl[t]] >= n;
    }
  }

  lemma Onward(ptr: Words, size: Words, fl: seq<nat>, freep: nat, n: nat, prevp: nat, p: nat, i: nat, f: nat, t: nat)
    requires Links(ptr, fl) && Gaps(size, fl) && Looking(size, fl, freep, n, prevp, p, i, f, t)
    requires size[p] < n && p != freep
    ensures p in ptr && Looking(size, fl, freep, n, p, ptr[p], Next(i, |fl|), f, t)
    ensures Dist(Next(Next(i, |fl|), |fl|), t, |fl|) < Dist(Next(i, |fl|), t, |fl|)
  {
    assert ptr[p] == Succ(fl, Next(i, |fl|));
  }

  /** Back at `freep` without having stopped: no free block is large enough. */
  lemma WentRound(size: Words, fl: seq<nat>, freep: nat, n: nat, prevp: nat, p: nat, i: nat, f: nat, t: nat)
    requires Gaps(size, fl) && Looking(size, fl, freep, n, prevp, p, i, f, t) && size[p] < n && p == freep
    ensures !Enough(size, fl, n)
  {
    assert Next(i, |fl|) == f;
  }

  /** The base block is empty, so a block large enough comes after its predecessor in `fl`. */
  lemma NotBase(size: Words, fl: seq<nat>, i: nat, n: nat)
    requires Gaps(size, fl) && i < |fl| && n >= 1
    requires fl[Next(i, |fl|)] in size && size[fl[Next(i, |fl|)]] >= n
    ensures Next(i, |fl|) == i + 1 && Enough(size, fl, n)
  {
  }

  // ---- The code ----

  class Heap {
    var ptr: Words
    var size: Words
    var freep: nat   // 0 until the first call
    var brk: nat     // first unit `sbrk` has not handed out

    ghost var fl: seq<nat>
    ghost var live: Words
    ghost var who: Words

    ghost predicate Ready()
      reads this
    {
      HeapOk(ptr, size, fl, live, who, brk) && freep in fl
    }

    ghost predicate Valid()
      reads this
    {
      if freep == 0 then brk > BASE && live == map[] && who == map[] else Ready()
    }

    constructor (brk0: nat)
      requires brk0 > BASE
      ensures Valid() && live == map[] && who == map[]
    {
      ptr, size, freep, brk := map[], map[], 0, brk0;
      fl, live, who := [], map[], map[];
    }

    /** The search loop of `free`: the free block after which `bp` belongs. */
    method FindSlot(bp: nat) returns (p: nat, ghost k: nat)
      requires Ready() && bp > BASE && bp !in fl
      ensures Slot(fl, k, bp) && p == fl[k]
      ensures p in fl && p < bp && forall h :: h in fl ==> h <= p || bp < h
    {
      ghost var at := SlotExists(size, fl, bp, |fl|);
      p := freep;
      k :| 0 <= k < |fl| && fl[k] == freep;
      while !(bp > p && bp < ptr[p])
        invariant k < |fl| && p == fl[k]
        decreases if k <= at then at - k else at - k + |fl|
      {
        assert ptr[p] == Succ(fl, k);
        if p >= ptr[p] && (bp > p || bp < ptr[p]) {
          break;
        }
        p := ptr[p];
        k := if k + 1 < |fl| then k + 1 else 0;
      }
      assert ptr[p] == Succ(fl, k);
      Nearest(size, fl, k, bp);
    }

    /** `if(bp + bp->s.size == p->s.ptr) ... else bp->s.ptr = p->s.ptr` */
    method LinkUpper(bp: nat, p: nat, ghost k: nat)
      requires Ready() && bp in live && Slot(fl, k, bp) && p == fl[k]
      modifies this`ptr, this`size, this`fl, this`live, this`who
      ensures LinksBut(ptr, fl, k) && bp in ptr && ptr[bp] == Succ(fl, k)
      ensures Cover(size, fl, live, who, brk) && bp in live && Between(size, fl, k, bp)
      ensures k < |fl| && p == fl[k] && (k + 1 < |fl| ==> bp + size[bp] < fl[k + 1])
      ensures live - {bp} == old(live) - {bp} && who.Keys == old(who.Keys)
      ensures size[bp] >= old(size[bp])
    {
      NeighboursApart(size, fl, live, who, brk, k, bp);
      LiveAbove(size, fl, live, who, brk, bp);
      assert fl[k] in ptr && ptr[p] == Succ(fl, k);
      var q := ptr[p];
      if bp + size[bp] == q {
        JoinUpper(size, fl, k, bp);
        JoinUpperLinks(ptr, fl, k);
        JoinUpperCover(size, fl, live, who, brk, k, bp);
        OpenLink(ptr, Without(fl, k), k, bp, ptr[q]);
        var n := size[bp] + size[q];
        assert Cover(size[bp := n], Without(fl, k), live[bp := n], Moved(who, q, bp), brk);
        size, ptr := size[bp := n], ptr[bp := ptr[q]];
        fl, live, who := Without(fl, k), live[bp := n], Moved(who, q, bp);
      } else {
        OpenLink(ptr, fl, k, bp, q);
        ptr := ptr[bp := q];
      }
    }

    /** `p->s.size += bp->s.size; p->s.ptr = bp->s.ptr` */
    method JoinBelow(bp: nat, p: nat, ghost k: nat)
      requires LinksBut(ptr, fl, k) && bp in ptr && ptr[bp] == Succ(fl, k)
      requires Cover(size, fl, live, who, brk) && bp in live && Between(size, fl, k, bp)
      requires p == fl[k] && (k + 1 < |fl| ==> bp + size[bp] < fl[k + 1])
      requires p + size[p] == bp
      modifies this`ptr, this`size, this`live, this`who
      ensures HeapOk(ptr, size, fl, live, who, brk) && p in fl
      ensures live == old(live) - {bp} && who.Keys == old(who.Keys)
      ensures Enough(size, fl, old(size[bp]))
    {
      JoinLower(size, fl, live, who, brk, k, bp);
      CloseLink(ptr, fl, k);
      var n := size[p] + size[bp];
      assert HeapOk(ptr[p := ptr[bp]], size[p := n], fl, live - {bp}, Moved(who, bp, p), brk);
      size, ptr := size[p := n], ptr[p := ptr[bp]];
      live, who := live - {bp}, Moved(who, bp, p);
      assert size[fl[k]] >= n;
    }

    /** `p->s.ptr = bp` */
    method LinkAfter(bp: nat, p: nat, ghost k: nat)
      requires LinksBut(ptr, fl, k) && bp in ptr && ptr[bp] == Succ(fl, k)
      requires Cover(size, fl, live, who, brk) && bp in live && Between(size, fl, k, bp)
      requires p == fl[k] && (k + 1 < |fl| ==> bp + size[bp] < fl[k + 1])
      requires p + size[p] != bp
      modifies this`ptr, this`fl, this`live
      ensures HeapOk(ptr, size, fl, live, who, brk) && p in fl
      ensures live == old(live) - {bp} && who.Keys == old(who.Keys)
      ensures Enough(size, fl, old(size[bp]))
    {
      InsertGaps(size, fl, k, bp);
      InsertCover(size, fl, live, who, brk, k, bp);
      InsertLinks(ptr, fl, k, bp);
      assert HeapOk(ptr[p := bp], size, Inserted(fl, k, bp), live - {bp}, who, brk);
      ptr := ptr[p := bp];
      fl, live := Inserted(fl, k, bp), live - {bp};
      assert fl[k] == p && fl[k + 1] == bp;
    }

    /** `if(p + p->s.size == bp) ... else p->s.ptr = bp` */
    method LinkLower(bp: nat, p: nat, ghost k: nat)
      requires LinksBut(ptr, fl, k) && bp in ptr && ptr[bp] == Succ(fl, k)
      requires Cover(size, fl, live, who, brk) && bp in live && Between(size, fl, k, bp)
      requires p == fl[k] && (k + 1 < |fl| ==> bp + size[bp] < fl[k + 1])
      modifies this`ptr, this`size, this`fl, this`live, this`who
      ensures HeapOk(ptr, size, fl, live, who, brk) && p in fl
      ensures live == old(live) - {bp} && who.Keys == old(who.Keys)
      ensures Enough(size, fl, old(size[bp]))
    {
      if p + size[p] == bp {
        JoinBelow(bp, p, k);
      } else {
        LinkAfter(bp, p, k);
      }
    }

    /** Gives the block with payload `ap` back: its units become free, no others change hands,
        and the list stays sorted and coalesced. */
    method Free(ap: nat)
      requires Valid() && ap > 0 && ap - 1 in live
      modifies this`ptr, this`size, this`freep, this`fl, this`live, this`who
      ensures freep != 0 && Ready()
      ensures live == old(live) - {ap - 1} && who.Keys == old(who.Keys)
      ensures Enough(size, fl, old(live)[ap - 1])
    {
      var bp := ap - 1;
      LiveAbove(size, fl, live, who, brk, bp);
      var p, k := FindSlot(bp);
      LinkUpper(bp, p, k);
      LinkLower(bp, p, k);
      freep := p;
    }

    /** `sbrk`, answering as told: it refuses, or moves the break by `bytes`, from `skipped`
        units above where it last was (other callers of `sbrk` may have moved it). */
    method Sbrk(bytes: nat, refused: bool, skipped: nat) returns (a: nat)
      modifies this`brk
      ensures a == old(brk) + skipped && brk == if refused then old(brk) else a + bytes / 16
    {
      a := brk + skipped;
      if !refused {
        brk := a + bytes / 16;
      }
    }

    /** `hp->s.size = nu; free((void*)(hp + 1))` for `n` new units at `a`. */
    method FreeNew(a: nat, n: nat, ghost brk0: nat)
      requires HeapOk(ptr, size, fl, live, who, brk0) && freep in fl && n >= 1
      requires a >= brk0 && brk == a + n
      modifies this`ptr, this`size, this`freep, this`fl, this`live, this`who
      ensures Ready() && freep != 0 && live == old(live) && Enough(size, fl, n)
      ensures who.Keys == old(who).Keys + Fresh(a, n).Keys
    {
      NewArena(size, fl, live, who, brk0, a, n);
      FreepNotNull(size, fl, freep);
      assert HeapOk(ptr, size[a := n], fl, live[a := n], who + Fresh(a, n), a + n);
      size := size[a := n];
      live, who := live[a := n], who + Fresh(a, n);
      assert Ready();
      ThereAndBack(old(live), a, n);
      Free(a + 1);
    }

    /** Asks for more memory and frees it, which makes some free block large enough. */
    method Morecore(nu: nat, refused: bool, skipped: nat)
      requires Ready() && nu >= 1 && (refused || Arrives(nu))
      modifies this
      ensures Ready() && freep != 0 && live == old(live)
      ensures refused ==> who == old(who) && freep == old(freep) && fl == old(fl) && size == old(size)
      ensures !refused ==> Enough(size, fl, nu)
      ensures !refused ==> who.Keys == old(who).Keys + Fresh(old(brk) + skipped, AtLeast4096(nu)).Keys
    {
      ghost var brk0 := brk;
      var n := AtLeast4096(nu);
      FreepNotNull(size, fl, freep);
      if refused {
        return;
      }
      var a := Sbrk(SbrkArgument(n), refused, skipped);
      FreeNew(a, n, brk0);
    }

    /** `prevp->s.ptr = p->s.ptr`: all of the free block `p` that follows `prevp`. */
    method CarveWhole(prevp: nat, p: nat, ghost k: nat)
      requires Ready() && k + 1 < |fl| && prevp == fl[k] && p == fl[k + 1]
      modifies this`ptr, this`freep, this`fl, this`live
      ensures Ready() && freep != 0 && p !in old(live) && live == old(live)[p := size[p]]
    {
      FreepNotNull(size, fl, prevp);
      assert ptr[p] == Succ(fl, k + 1);
      TakeWhole(ptr, size, fl, live, who, brk, k);
      assert HeapOk(ptr[prevp := ptr[p]], size, Without(fl, k), live[p := size[p]], who, brk);
      ptr := ptr[prevp := ptr[p]];
      fl, live := Without(fl, k), live[p := size[p]];
      assert fl[k] == prevp;
      freep := prevp;
    }

    /** `p->s.size -= nunits; p += p->s.size; p->s.size = nunits`: its last `n` units. */
    method CarveTail(prevp: nat, p: nat, n: nat, ghost k: nat) returns (h: nat)
      requires Ready() && k + 1 < |fl| && prevp == fl[k] && p == fl[k + 1] && 1 <= n < size[p]
      modifies this`size, this`freep, this`live, this`who
      ensures Ready() && freep != 0 && h !in old(live) && live == old(live)[h := n] && who.Keys == old(who).Keys
    {
      FreepNotNull(size, fl, prevp);
      h := p + size[p] - n;
      TailHeap(ptr, size, fl, live, who, brk, k + 1, n, h);
      assert HeapOk(ptr, size[p := size[p] - n][h := n], fl, live[h := n], Cut(who, p, h), brk);
      size := size[p := size[p] - n][h := n];
      live, who := live[h := n], Cut(who, p, h);
      freep := prevp;
    }

    /** Takes `n` units from the free block `p` that follows `prevp`: all of it, or its tail. */
    method Carve(prevp: nat, p: nat, n: nat, ghost k: nat) returns (h: nat)
      requires Ready() && k + 1 < |fl| && prevp == fl[k] && p == fl[k + 1] && 1 <= n <= size[p]
      modifies this`ptr, this`size, this`freep, this`fl, this`live, this`who
      ensures Ready() && freep != 0 && h !in old(live) && live == old(live)[h := n] && who.Keys == old(who).Keys
    {
      if size[p] == n {
        CarveWhole(prevp, p, k);
        h := p;
      } else {
        h := CarveTail(prevp, p, n, k);
      }
    }

    /** `base.s.ptr = freep = prevp = &base; base.s.size = 0` */
    method InitBase()
      requires Valid() && freep == 0
      modifies this`ptr, this`size, this`freep, this`fl
      ensures Ready() && freep == BASE && fl == [BASE] && size[BASE] == 0
    {
      ptr, size, freep := ptr[BASE := BASE], size[BASE := 0], BASE;
      fl := [BASE];
      assert Succ(fl, 0) == BASE;
    }

    /** The search loop of `malloc`.  It stops: once some block is large enough it is met
        before the search is back at `freep`, and otherwise `morecore` is asked exactly once. */
    method Search(n: nat, refused: bool, skipped: nat) returns (r: nat)
      requires Ready() && n >= 1 && (refused || Arrives(n) || Enough(size, fl, n))
      modifies this
      ensures Ready() && freep != 0 && old(who).Keys <= who.Keys
      ensures r == 0 <==> refused && !Enough(old(size), old(fl), n)
      ensures r == 0 ==> live == old(live) && who == old(who)
      ensures r != 0 ==> r - 1 !in old(live) && live == old(live)[r - 1 := n]
    {
      ghost var size0, fl0, live0, who0 := size, fl, live, who;
      ghost var i, t := Start(ptr, size, fl, freep, n);
      ghost var f := i;
      var prevp, p := freep, ptr[freep];
      while true
        invariant Ready() && live == live0 && who0.Keys <= who.Keys
        invariant Looking(size, fl, freep, n, prevp, p, i, f, t)
        invariant !Enough(size, fl, n) ==> !Enough(size0, fl0, n) && who == who0
        invariant Enough(size, fl, n) ==> !refused || Enough(size0, fl0, n)
        decreases !Enough(size, fl, n), Dist(Next(i, |fl|), t, |fl|)
      {
        if size[p] >= n {
          NotBase(size, fl, i, n);
          var h := Carve(prevp, p, n, i);
          return h + 1;
        }
        if p == freep {
          WentRound(size, fl, freep, n, prevp, p, i, f, t);
          Morecore(n, refused, skipped);
          if refused {
            return 0;
          }
          i, t := Start(ptr, size, fl, freep, n);
          f := i;
          prevp, p := freep, ptr[freep];
        } else {
          Onward(ptr, size, fl, freep, n, prevp, p, i, f, t);
          i := Next(i, |fl|);
          prevp, p := p, ptr[p];
        }
      }
    }

    /** `malloc`: null, or the payload of a new block of enough units that overlaps no other. */
    method Malloc(nbytes: nat, refused: bool, skipped: nat) returns (r: nat)
      requires Valid() && nbytes < 0x1_0000_0000
      requires nbytes <= 0x7FFF_FFE0 || refused || (freep != 0 && Enough(size, fl, Nunits(nbytes)))
      modifies this
      ensures Valid() && freep != 0 && old(who).Keys <= who.Keys
      ensures r == 0 ==> refused && live == old(live) && who == old(who)
      ensures r != 0 ==> r - 1 !in old(live) && live == old(live)[r - 1 := Nunits(nbytes)]
      ensures r != 0 ==> 16 * (live[r - 1] - 1) >= nbytes
    {
      var n := Nunits(nbytes);
      if freep == 0 {
        InitBase();
      }
      RequestExact(nbytes);
      r := Search(n, refused, skipped);
    }
  }

  lemma FreepNotNull(size: Words, fl: seq<nat>, freep: nat)
    requires Gaps(size, fl) && freep in fl
    ensures freep != 0
  {
    var i :| 0 <= i < |fl| && fl[i] == freep;
    assert i > 0 ==> fl[0] + size[fl[0]] < fl[i];
  }
}
