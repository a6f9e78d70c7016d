/** `kernel/vm.c` and `kernel/kalloc.c` as code: one object holds physical memory, the list of
    free pages, and the ghost maps of `PageTable` that say what every page is used for.

    `all` are the pages between `end` and PHYSTOP.  Each is in exactly one of: the free list,
    a page-table tree, some process's user memory, or the hands of the running function. */
module PageTableCode {
  import opened PageTable

  const JUNK_ALLOC: seq<Pte> := seq(ENTRIES, _ => Pte(5, 5))
  const JUNK_FREE: seq<Pte> := seq(ENTRIES, _ => Pte(1, 1))

  function At(q: seq<nat>, k: nat): nat {
    if k < |q| then q[k] else 0
  }

  /** `kmem.freelist` and the `next` words of the free pages spell out `free`. */
  ghost predicate ListOk(head: nat, link: map<nat, nat>, free: seq<nat>) {
    && head == At(free, 0)
    && (forall k :: 0 <= k < |free| ==> free[k] in link && link[free[k]] == At(free, k + 1))
    && (forall k, l :: 0 <= k < l < |free| ==> free[k] != free[l])
  }

  /** Free, owned and held pages are disjoint and together are all pages. */
  ghost predicate Partition(all: set<nat>, mem: Mem, free: seq<nat>, own: Owners, held: set<nat>) {
    && 0 !in all
    && (forall q :: q in all ==> q in mem)
    && (forall q :: q in all <==> q in free || q in own || q in held)
    && (forall q :: q in own ==> q !in free && q !in held)
    && (forall q :: q in held ==> q !in free)
  }

  /** Every translation of every table is as before. */
  ghost predicate SameFlat(mem: Mem, node: Nodes, mem': Mem, node': Nodes) {
    forall r: nat, v: nat :: Flat(mem', node', r, v) == Flat(mem, node, r, v)
  }

  /** The user pages of `own` and the pages in hand still exist with the same words. */
  ghost predicate SameData(mem: Mem, own: Owners, held: set<nat>, mem': Mem) {
    forall q :: q in mem && (q in held || (q in own && own[q].User?)) ==> q in mem' && mem'[q] == mem[q]
  }

  /** The only pages newly in use are page-table pages of `root`; no page changed its use. */
  ghost predicate Grown(node: Nodes, own: Owners, node': Nodes, own': Owners, root: nat) {
    && (forall p :: p in node ==> p in node' && node'[p] == node[p])
    && (forall q :: q in own ==> q in own' && own'[q] == own[q])
    && (forall q :: q in own' && q !in own ==> own'[q].Table? && own'[q].pos.root == root)
  }

  lemma HangPages(all: set<nat>, mem: Mem, node: Nodes, free: seq<nat>, own: Owners, held: set<nat>, c: Pos, q: nat)
    requires CanHang(mem, node, own, c, q) && Partition(all, mem, free, own, held) && q in held
    ensures var mem' := Hang(mem, node, c, q);
            && Partition(all, mem', free, own[q := Table(c)], held - {q})
            && SameData(mem, own, held - {q}, mem')
            && Grown(node, own, node[c := q], own[q := Table(c)], c.root)
  {
  }

  datatype MapResult = Mapped | OutOfMemory | PanicRemap | PanicWalk | PanicAlign | PanicSize

  /** What `walk` returns: the place of an entry or 0, unless it panics. */
  datatype Walked = Slot(page: nat, i: nat) | NoSlot | BeyondMax

  /** Exactly the translation of `vpn` in table `root` changed, to `e`. */
  ghost predicate OneFlat(mem: Mem, node: Nodes, mem': Mem, node': Nodes, root: nat, vpn: nat, e: Pte) {
    forall r: nat, v: nat :: Flat(mem', node', r, v) == if r == root && v == vpn then e else Flat(mem, node, r, v)
  }

  /** Some page from `lo` up to `hi` is mapped. */
  ghost predicate Taken(mem: Mem, node: Nodes, root: nat, lo: nat, hi: nat) {
    exists v: nat :: lo <= v < hi && Flat(mem, node, root, v).V()
  }

  /** Exactly `n` translations from `vpn` on changed, to consecutive pages from `ppn`. */
  ghost predicate RangeFlat(mem: Mem, node: Nodes, mem': Mem, node': Nodes,
                            root: nat, vpn: nat, n: nat, ppn: nat, flags: nat) {
    forall r: nat, v: nat :: Flat(mem', node', r, v) ==
      if r == root && vpn <= v < vpn + n then Pte(ppn + v - vpn, flags) else Flat(mem, node, r, v)
  }

  /** `n` pages from `vpn` on, none of which had been, are mapped now, and but for new table pages nothing else has
      changed. */
  ghost predicate MappedSo(mem: Mem, node: Nodes, own: Owners, mem': Mem, node': Nodes, own': Owners, held: set<nat>,
                           root: nat, vpn: nat, n: nat, ppn: nat, flags: nat) {
    && SameData(mem, own, held, mem') && Grown(node, own, node', own', root)
    && RangeFlat(mem, node, mem', node', root, vpn, n, ppn, flags) && !Taken(mem, node, root, vpn, vpn + n)
  }

  /** The next page to map is as it was, so whether any up to there was taken shows only now. */
  lemma RangePast(mem: Mem, node: Nodes, mem1: Mem, node1: Nodes, root: nat, vpn: nat, n: nat, ppn: nat, flags: nat)
    requires RangeFlat(mem, node, mem1, node1, root, vpn, n, ppn, flags) && !Taken(mem, node, root, vpn, vpn + n)
    ensures Flat(mem1, node1, root, vpn + n) == Flat(mem, node, root, vpn + n)
    ensures Taken(mem, node, root, vpn, vpn + n + 1) <==> Flat(mem, node, root, vpn + n).V()
  {
    assert Flat(mem1, node1, root, vpn + n) == Flat(mem, node, root, vpn + n);
  }

  lemma RangeStep(mem: Mem, node: Nodes, mem1: Mem, node1: Nodes, mem2: Mem, node2: Nodes,
                  root: nat, vpn: nat, n: nat, ppn: nat, flags: nat)
    requires RangeFlat(mem, node, mem1, node1, root, vpn, n, ppn, flags)
    requires OneFlat(mem1, node1, mem2, node2, root, vpn + n, Pte(ppn + n, flags))
    ensures RangeFlat(mem, node, mem2, node2, root, vpn, n + 1, ppn, flags)
  {
  }

  lemma MapsMore(mem: Mem, node: Nodes, own: Owners, mem1: Mem, node1: Nodes, own1: Owners, mem2: Mem, node2: Nodes,
                 own2: Owners, held: set<nat>, root: nat, vpn: nat, n: nat, ppn: nat, flags: nat)
    requires MappedSo(mem, node, own, mem1, node1, own1, held, root, vpn, n, ppn, flags)
    requires SameData(mem1, own1, held, mem2) && Grown(node1, own1, node2, own2, root)
    requires OneFlat(mem1, node1, mem2, node2, root, vpn + n, Pte(ppn + n, flags))
             && !Flat(mem1, node1, root, vpn + n).V()
    ensures MappedSo(mem, node, own, mem2, node2, own2, held, root, vpn, n + 1, ppn, flags)
  {
    GrownThrough(mem, node, own, held, mem1, node1, own1, mem2, node2, own2, root);
    RangePast(mem, node, mem1, node1, root, vpn, n, ppn, flags);
    RangeStep(mem, node, mem1, node1, mem2, node2, root, vpn, n, ppn, flags);
  }

  lemma MapsNoMore(mem: Mem, node: Nodes, own: Owners, mem1: Mem, node1: Nodes, own1: Owners, mem2: Mem, node2: Nodes,
                   own2: Owners, held: set<nat>, root: nat, vpn: nat, n: nat, ppn: nat, flags: nat)
    requires MappedSo(mem, node, own, mem1, node1, own1, held, root, vpn, n, ppn, flags)
    requires SameData(mem1, own1, held, mem2) && Grown(node1, own1, node2, own2, root)
    requires SameFlat(mem1, node1, mem2, node2)
    ensures MappedSo(mem, node, own, mem2, node2, own2, held, root, vpn, n, ppn, flags)
  {
    GrownThrough(mem, node, own, held, mem1, node1, own1, mem2, node2, own2, root);
  }

  lemma NotTaken(mem: Mem, node: Nodes, root: nat, v: nat)
    requires !Flat(mem, node, root, v).V()
    ensures !Taken(mem, node, root, v, v + 1)
  {
  }

  lemma RangeNone(mem: Mem, node: Nodes, mem': Mem, node': Nodes, root: nat, vpn: nat, ppn: nat, flags: nat)
    requires RangeFlat(mem, node, mem', node', root, vpn, 0, ppn, flags)
    ensures SameFlat(mem, node, mem', node')
  {
  }

  lemma RangeOne(mem: Mem, node: Nodes, mem': Mem, node': Nodes, root: nat, vpn: nat, ppn: nat, flags: nat)
    requires RangeFlat(mem, node, mem', node', root, vpn, 1, ppn, flags)
    ensures OneFlat(mem, node, mem', node', root, vpn, Pte(ppn, flags))
  {
  }

  lemma GrownThrough(mem: Mem, node: Nodes, own: Owners, held: set<nat>,
                     mem1: Mem, node1: Nodes, own1: Owners, mem2: Mem, node2: Nodes, own2: Owners, root: nat)
    requires Grown(node, own, node1, own1, root) && Grown(node1, own1, node2, own2, root)
    requires SameData(mem, own, held, mem1) && SameData(mem1, own1, held, mem2)
    ensures Grown(node, own, node2, own2, root) && SameData(mem, own, held, mem2)
  {
  }

  /** `vpn` of table `root` is mapped to a page it owns. */
  ghost predicate Backed(mem: Mem, node: Nodes, own: Owners, root: nat, vpn: nat) {
    var e := Flat(mem, node, root, vpn);
    e.V() && e.Leaf() && e.ppn in own && own[e.ppn] == User(root, vpn)
  }

  /** There is a leaf entry for `v`, below MAXVA. */
  ghost predicate HasLeaf(mem: Mem, node: Nodes, root: nat, v: nat) {
    v < MAXVPN && Flat(mem, node, root, v).V() && Flat(mem, node, root, v).flags != PTE_V
  }

  ghost predicate AllMapped(mem: Mem, node: Nodes, root: nat, lo: nat, hi: nat) {
    forall v :: lo <= v < hi ==> HasLeaf(mem, node, root, v)
  }

  ghost predicate CanUnmap(mem: Mem, node: Nodes, own: Owners, root: nat, v: nat, doFree: bool) {
    && HasLeaf(mem, node, root, v)
    && if doFree then Backed(mem, node, own, root, v) else Unowned(own, root, v)
  }

  /** Exactly the translations from `lo` up to `hi` are gone. */
  ghost predicate Cleared(mem: Mem, node: Nodes, mem': Mem, node': Nodes, root: nat, lo: nat, hi: nat) {
    forall r: nat, v: nat :: Flat(mem', node', r, v) ==
      if r == root && lo <= v < hi then NoPte else Flat(mem, node, r, v)
  }

  /** Page `q` is user memory of `root` somewhere from `lo` up to `hi`. */
  ghost predicate UserIn(own: Owners, q: nat, root: nat, lo: nat, hi: nat) {
    q in own && own[q].User? && own[q].root == root && lo <= own[q].vpn < hi
  }

  /** Exactly the user pages of `root` in that range are no longer in use. */
  ghost predicate Released(own: Owners, own': Owners, root: nat, lo: nat, hi: nat) {
    && (forall q :: q in own' <==> q in own && !UserIn(own, q, root, lo, hi))
    && (forall q :: q in own' ==> own'[q] == own[q])
  }

  /** The effect of unmapping the pages from `lo` up to `hi`: translations, page use, and other data. */
  ghost predicate Unmapped(mem: Mem, own: Owners, mem': Mem, own': Owners, node: Nodes, held: set<nat>,
                           root: nat, lo: nat, hi: nat, doFree: bool) {
    && Cleared(mem, node, mem', node, root, lo, hi)
    && (if doFree then Released(own, own', root, lo, hi) else own' == own)
    && SameData(mem, own', held, mem')
  }

  /** Pages were added to table `root` from `lo` up to `hi`, and nothing else changed. */
  ghost predicate Extended(mem: Mem, node: Nodes, own: Owners, mem': Mem, node': Nodes, own': Owners,
                           held: set<nat>, root: nat, lo: nat, hi: nat) {
    && (forall r: nat, v: nat :: r != root || v < lo || hi <= v ==> Flat(mem', node', r, v) == Flat(mem, node, r, v))
    && AllBacked(mem', node', own', root, lo, hi)
    && (forall p :: p in node ==> p in node' && node'[p] == node[p])
    && (forall q :: q in own ==> q in own' && own'[q] == own[q])
    && (forall q :: q in own' && q !in own ==> TableOf(own', q, root) || UserIn(own', q, root, lo, hi))
    && SameData(mem, own, held, mem')
  }

  ghost predicate TableOf(own: Owners, q: nat, root: nat) {
    q in own && own[q].Table? && own[q].pos.root == root
  }

  /** At most page-table pages of `root` were added: what a failed call leaves behind. */
  ghost predicate Undone(mem: Mem, node: Nodes, own: Owners, mem': Mem, node': Nodes, own': Owners,
                         held: set<nat>, root: nat) {
    SameFlat(mem, node, mem', node') && Grown(node, own, node', own', root) && SameData(mem, own, held, mem')
  }

  /** The page at `v` holds `words` and is mapped with `flags`. */
  ghost predicate HoldsWords(mem: Mem, node: Nodes, root: nat, v: nat, words: seq<Pte>, flags: nat) {
    var e := Flat(mem, node, root, v);
    e.flags == flags && e.ppn in mem && mem[e.ppn] == words
  }

  ghost predicate ZeroFilled(mem: Mem, node: Nodes, root: nat, lo: nat, hi: nat, perm: nat) {
    forall v: nat :: lo <= v < hi ==> HoldsWords(mem, node, root, v, Zeros(), WithV(perm))
  }

  /** The first `n` pages of `child` are copies of the parent's, with the parent's flags. */
  ghost predicate Copied(mem: Mem, node: Nodes, mem': Mem, node': Nodes, parent: nat, child: nat, n: nat) {
    forall v: nat :: v < n ==>
      var e := Flat(mem, node, parent, v);
      e.ppn in mem && HoldsWords(mem', node', child, v, mem[e.ppn], e.flags)
  }

  /** Table `root` has no entry from `lo` up to `hi`. */
  ghost predicate Absent(mem: Mem, node: Nodes, root: nat, lo: nat, hi: nat) {
    forall v: nat :: lo <= v < hi ==> Flat(mem, node, root, v) == NoPte
  }

  /** Every page of table `root` from `lo` up to `hi` is mapped and its own. */
  ghost predicate AllBacked(mem: Mem, node: Nodes, own: Owners, root: nat, lo: nat, hi: nat) {
    forall v: nat :: lo <= v < hi ==> Backed(mem, node, own, root, v)
  }

  /** The first `n` children of `p` do not exist. */
  ghost predicate Childless(node: Nodes, p: Pos, n: nat) {
    p.level > 0 ==> forall i: nat :: i < n ==> p.Child(i) !in node
  }

  /** Positions in `ex` are not below `p`. */
  ghost predicate Above(ex: set<Pos>, p: Pos) {
    forall c :: c in ex ==> c.level >= p.level
  }

  ghost predicate NotUserPage(own: Owners, held: set<nat>, q: nat) {
    q !in held && (q in own ==> own[q].Table?)
  }

  /** Only page-table pages of `p`'s table, at its level or below, went out of use. */
  ghost predicate TornDown(mem: Mem, node: Nodes, own: Owners, mem': Mem, node': Nodes, own': Owners,
                           held: set<nat>, p: Pos) {
    && (forall a :: a in node' ==> a in node && node'[a] == node[a])
    && (forall a :: a in node && a !in node' ==> a.root == p.root && a.level <= p.level)
    && (forall q :: q in own' ==> q in own && own'[q] == own[q])
    && (forall q :: q in own && q !in own' ==> TableOf(own, q, p.root))
    && (forall r: nat, v: nat :: r != p.root ==> Flat(mem', node', r, v) == Flat(mem, node, r, v))
    && Blank(mem', node', p.root)
    && SameData(mem, own', held, mem')
  }

  ghost predicate BelongsTo(own: Owners, q: nat, root: nat) {
    q in own && match own[q] case Table(p) => p.root == root case User(r, _) => r == root
  }

  /** Exactly the pages of table `root` went out of use. */
  ghost predicate Gone(own: Owners, own': Owners, root: nat) {
    && (forall q :: q in own' <==> q in own && !BelongsTo(own, q, root))
    && (forall q :: q in own' ==> own'[q] == own[q])
  }

  /** Freeing table `root` and its memory touches nothing else. */
  ghost predicate Freed(mem: Mem, node: Nodes, own: Owners, mem': Mem, node': Nodes, own': Owners,
                        held: set<nat>, root: nat) {
    && Gone(own, own', root)
    && (forall r: nat, v: nat :: r != root ==> Flat(mem', node', r, v) == Flat(mem, node, r, v))
    && SameData(mem, own', held, mem')
  }

  /** Every other table has its translations, and every user page its words. */
  ghost predicate OthersKept(mem: Mem, node: Nodes, own: Owners, held: set<nat>, mem': Mem, node': Nodes, root: nat) {
    && (forall r: nat, v: nat :: r != root ==> Flat(mem', node', r, v) == Flat(mem, node, r, v))
    && SameData(mem, own, held, mem')
  }

  /** No page belongs to table `root`. */
  ghost predicate Strange(own: Owners, root: nat) {
    forall q :: q in own ==> !BelongsTo(own, q, root)
  }

  ghost predicate Empty(mem: Mem, node: Nodes, root: nat) {
    forall v: nat :: Flat(mem, node, root, v) == NoPte
  }

  /** Nothing is mapped from page `n` on. */
  ghost predicate NoneFrom(mem: Mem, node: Nodes, root: nat, n: nat) {
    forall v: nat :: n <= v ==> !Flat(mem, node, root, v).V()
  }

  /** `PGROUNDUP(sz) / PGSIZE` */
  function PgUp(sz: nat): nat {
    (sz + 4095) / 4096
  }

  function PageRange(lo: nat, hi: nat): (r: set<nat>)
    ensures forall q :: q in r <==> lo <= q < hi
    decreases hi - lo
  {
    if lo >= hi then {} else {lo} + PageRange(lo + 1, hi)
  }

  class Vm {
    var mem: Mem
    var head: nat
    var link: map<nat, nat>

    const lo: nat              // the first page after the kernel: `end`
    const hi: nat              // PHYSTOP
    ghost const all: set<nat>
    ghost var free: seq<nat>
    ghost var held: set<nat>
    ghost var node: Nodes
    ghost var own: Owners

    ghost predicate Valid()
      reads this
    {
      ValidBut({})
    }

    ghost predicate ValidBut(ex: set<Pos>)
      reads this
    {
      && ListOk(head, link, free)
      && Partition(all, mem, free, own, held)
      && TreeOkBut(mem, node, own, ex)
    }

    /** Physical memory before `kinit`: the pages from `lo` up to `hi` are in hand. */
    constructor (ram: Mem, lo: nat, hi: nat)
      requires 0 < lo <= hi && forall q :: q in PageRange(lo, hi) ==> q in ram
      ensures Valid() && free == [] && held == all == PageRange(lo, hi) && node == map[] && own == map[]
      ensures this.lo == lo && this.hi == hi
    {
      this.lo, this.hi := lo, hi;
      all, mem, head, link := PageRange(lo, hi), ram, 0, map[];
      free, held, node, own := [], PageRange(lo, hi), map[], map[];
    }

    /** `freerange`: afterwards exactly the pages from `lo` up to `hi` are on the free list. */
    method Freerange(lo: nat, hi: nat)
      requires Valid() && lo <= hi && held == PageRange(lo, hi) && free == [] && own == map[]
      modifies this`mem, this`head, this`link, this`free, this`held
      ensures Valid() && held == {} && |free| == hi - lo && forall q :: q in free <==> q in all
    {
      var p := lo;
      while p < hi
        invariant lo <= p <= hi && Valid() && held == PageRange(p, hi) && |free| == p - lo
      {
        FreePage(p);
        p := p + 1;
      }
    }

    method Kalloc() returns (q: nat)
      requires Valid()
      modifies this`mem, this`head, this`free, this`held
      ensures Valid()
      ensures q == 0 <==> old(free) == []
      ensures q == 0 ==> free == old(free) && held == old(held) && mem == old(mem)
      ensures q != 0 ==> old(free) == [q] + free && held == old(held) + {q} && q !in old(held)
      ensures SameFlat(old(mem), node, mem, node) && SameData(old(mem), own, old(held), mem)
    {
      q := head;
      if q != 0 {
        head := link[q];
        DataWrite(mem, node, own, q, JUNK_ALLOC, {});
        free, held := free[1..], held + {q};
        mem := mem[q := JUNK_ALLOC];
      }
    }

    /** `kfree`; `ok` is false where the kernel panics, which is exactly at an address that is no page of its memory. */
    method Kfree(pa: nat) returns (ok: bool)
      requires Valid() && all == PageRange(lo, hi)
      requires pa % 4096 == 0 && pa / 4096 in all ==> pa / 4096 in held
      modifies this`mem, this`head, this`link, this`free, this`held
      ensures Valid() && (ok <==> pa % 4096 == 0 && pa / 4096 in all)
      ensures ok ==> free == [pa / 4096] + old(free) && held == old(held) - {pa / 4096}
      ensures SameFlat(old(mem), node, mem, node) && SameData(old(mem), own, held, mem)
      ensures !ok ==> mem == old(mem) && free == old(free) && held == old(held)
    {
      if pa % 4096 != 0 || pa < lo * 4096 || pa >= hi * 4096 {
        return false;
      }
      FreePage(pa / 4096);
      return true;
    }

    /** Frees a page in hand.  `ex` is empty except while a whole table is being torn down. */
    method FreePage(q: nat, ghost ex: set<Pos> := {})
      requires ValidBut(ex) && q in held
      modifies this`mem, this`head, this`link, this`free, this`held
      ensures ValidBut(ex)
      ensures free == [q] + old(free) && held == old(held) - {q}
      ensures SameFlat(old(mem), node, mem, node) && SameData(old(mem), own, held, mem)
      ensures mem == old(mem)[q := JUNK_FREE]
    {
      DataWrite(mem, node, own, q, JUNK_FREE, ex);
      mem := mem[q := JUNK_FREE];
      link := link[q := head];
      head := q;
      free, held := [q] + free, held - {q};
    }

    /** Total free memory: one page size for every page on the free list. */
    method Memfree() returns (count: nat)
      requires Valid()
      ensures count == 4096 * |free|
    {
      count := 0;
      var r := head;
      ghost var k := 0;
      while r != 0
        invariant k <= |free| && r == At(free, k) && count == 4096 * k
        invariant k < |free| ==> r in all
        decreases |free| - k
      {
        count := count + 4096;
        r := link[r];
        k := k + 1;
      }
    }

    /** `memset(page, 0, PGSIZE)` and `memmove` into a page in hand. */
    method FillPage(q: nat, words: seq<Pte>)
      requires Valid() && q in held
      modifies this`mem
      ensures Valid() && mem == old(mem)[q := words]
      ensures SameFlat(old(mem), node, mem, node) && SameData(old(mem), own, held - {q}, mem)
    {
      DataWrite(mem, node, own, q, words, {});
      mem := mem[q := words];
    }

    /** `*pte = PA2PTE(pagetable) | PTE_V` with a zeroed page in hand. */
    method HangPage(page: nat, i: nat, q: nat, ghost c: Pos)
      requires Valid() && c.Ok() && c.level < 2 && c !in node && q in held && mem[q] == Zeros()
      requires c.Parent() in node && node[c.Parent()] == page && i == c.prefix % ENTRIES
      modifies this`mem, this`held, this`node, this`own
      ensures Valid() && held == old(held) - {q}
      ensures node == old(node)[c := q]
      ensures SameFlat(old(mem), old(node), mem, node) && SameData(old(mem), old(own), held, mem)
      ensures Grown(old(node), old(own), node, own, c.root)
    {
      HangKeeps(mem, node, own, c, q);
      HangPages(all, mem, node, free, own, held, c, q);
      mem := mem[page := mem[page][i := Pte(q, PTE_V)]];
      node, own, held := node[c := q], own[q := Table(c)], held - {q};
    }

    /** One level of `walk`: follow the entry, or hang a fresh zeroed page on it. */
    method Descend(root: nat, vpn: nat, level: nat, page: nat, alloc: bool) returns (ok: bool, next: nat)
      requires Valid() && 0 < level <= 2 && vpn < MAXVPN
      requires PosFor(root, level, vpn) in node && node[PosFor(root, level, vpn)] == page
      modifies this`mem, this`head, this`free, this`held, this`node, this`own
      ensures Valid() && held == old(held)
      ensures ok ==> PosFor(root, level - 1, vpn) in node && next == node[PosFor(root, level - 1, vpn)]
      ensures !ok ==> if alloc then free == [] else PosFor(root, level - 1, vpn) !in node
      ensures !alloc ==> mem == old(mem) && node == old(node) && own == old(own) && free == old(free)
      ensures SameFlat(old(mem), old(node), mem, node) && SameData(old(mem), old(own), held, mem)
      ensures Grown(old(node), old(own), node, own, root)
    {
      PosForChild(root, level, vpn);
      assert EdgeOk(mem, node, PosFor(root, level, vpn), Px(level, vpn));
      var pte := mem[page][Px(level, vpn)];
      if pte.V() {
        return true, pte.ppn;
      }
      if !alloc {
        return false, 0;
      }
      var q := Kalloc();
      if q == 0 {
        return false, 0;
      }
      FillPage(q, Zeros());
      HangPage(page, Px(level, vpn), q, PosFor(root, level - 1, vpn));
      return true, q;
    }

    /** `walk`: the slot of the leaf entry for `vpn`, with the pages on the way made if `alloc`; it panics at MAXVA. */
    method Walk(root: nat, vpn: nat, alloc: bool) returns (r: Walked)
      requires Valid() && Pos(root, 2, 0) in node
      modifies this`mem, this`head, this`free, this`held, this`node, this`own
      ensures Valid() && held == old(held) && (r.BeyondMax? <==> vpn >= MAXVPN)
      ensures r.Slot? ==>
                Pos(root, 0, vpn / ENTRIES) in node && r == Slot(node[Pos(root, 0, vpn / ENTRIES)], vpn % ENTRIES)
      ensures r.NoSlot? ==> if alloc then free == [] else Pos(root, 0, vpn / ENTRIES) !in node
      ensures !alloc || r.BeyondMax? ==> mem == old(mem) && node == old(node) && own == old(own) && free == old(free)
      ensures SameFlat(old(mem), old(node), mem, node) && SameData(old(mem), old(own), held, mem)
      ensures Grown(old(node), old(own), node, own, root)
    {
      if vpn >= MAXVPN {
        return BeyondMax;
      }
      var ok, page, i := WalkDown(root, vpn, alloc);
      return if ok then Slot(page, i) else NoSlot;
    }

    /** The loop of `walk`. */
    method WalkDown(root: nat, vpn: nat, alloc: bool) returns (ok: bool, page: nat, i: nat)
      requires Valid() && Pos(root, 2, 0) in node && vpn < MAXVPN
      modifies this`mem, this`head, this`free, this`held, this`node, this`own
      ensures Valid() && held == old(held)
      ensures ok ==>
                Pos(root, 0, vpn / ENTRIES) in node && page == node[Pos(root, 0, vpn / ENTRIES)] && i == vpn % ENTRIES
      ensures !ok ==> if alloc then free == [] else Pos(root, 0, vpn / ENTRIES) !in node
      ensures !alloc ==> mem == old(mem) && node == old(node) && own == old(own) && free == old(free)
      ensures SameFlat(old(mem), old(node), mem, node) && SameData(old(mem), old(own), held, mem)
      ensures Grown(old(node), old(own), node, own, root)
    {
      ghost var mem0, node0, own0 := mem, node, own;
      page, i := root, vpn % ENTRIES;
      var level := 2;
      while level > 0
        invariant level <= 2 && Valid() && held == old(held)
        invariant PosFor(root, level, vpn) in node && node[PosFor(root, level, vpn)] == page
        invariant !alloc ==> mem == mem0 && node == node0 && own == own0 && free == old(free)
        invariant SameFlat(mem0, node0, mem, node) && SameData(mem0, own0, held, mem)
        invariant Grown(node0, own0, node, own, root)
      {
        var found, next := Descend(root, vpn, level, page, alloc);
        if !found {
          if !alloc && level == 2 { NoChildBelow(mem, node, own, root, vpn); }
          return false, 0, 0;
        }
        page, level := next, level - 1;
      }
      return true, page, i;
    }

    /** Storing a leaf entry at the slot `walk` returned. */
    method StorePte(page: nat, i: nat, e: Pte, ghost root: nat, ghost vpn: nat)
      requires Valid() && Unowned(own, root, vpn)
      requires Pos(root, 0, vpn / ENTRIES) in node && page == node[Pos(root, 0, vpn / ENTRIES)] && i == vpn % ENTRIES
      modifies this`mem
      ensures Valid() && SameData(old(mem), own, held, mem)
      ensures OneFlat(old(mem), node, mem, node, root, vpn, e)
    {
      StoreKeeps(mem, node, own, root, vpn, e);
      assert Partition(all, SetLeaf(mem, node, root, vpn, e), free, own, held);
      mem := mem[page := mem[page][i := e]];
    }

    /** One pass of the loop in `mappages`. */
    method MapOne(root: nat, vpn: nat, ppn: nat, perm: nat) returns (r: MapResult)
      requires Valid() && Pos(root, 2, 0) in node
      modifies this`mem, this`head, this`free, this`held, this`node, this`own
      ensures Valid() && held == old(held)
      ensures SameData(old(mem), old(own), held, mem) && Grown(old(node), old(own), node, own, root)
      ensures r.Mapped? ==> OneFlat(old(mem), old(node), mem, node, root, vpn, Pte(ppn, WithV(perm)))
      ensures !r.Mapped? ==> SameFlat(old(mem), old(node), mem, node)
      ensures r.OutOfMemory? ==> free == []
      ensures r.Mapped? ==> !old(Flat(mem, node, root, vpn).V())
      ensures r.PanicRemap? ==> old(Flat(mem, node, root, vpn).V())
      ensures (r.PanicWalk? <==> vpn >= MAXVPN) && !r.PanicAlign? && !r.PanicSize?
    {
      var w := Walk(root, vpn, true);
      if !w.Slot? {
        return if w.NoSlot? then OutOfMemory else PanicWalk;
      }
      var page, i := w.page, w.i;
      assert Flat(mem, node, root, vpn) == mem[page][i];
      if mem[page][i].V() {
        return PanicRemap;
      }
      assert Unowned(own, root, vpn);
      StorePte(page, i, Pte(ppn, WithV(perm)), root, vpn);
      return Mapped;
    }

    /** `mappages` of `size` bytes from `va` to the physical memory at `pa`; `done` pages were mapped. */
    method Mappages(root: nat, va: nat, size: nat, pa: nat, perm: nat) returns (r: MapResult, ghost done: nat)
      requires Valid() && Pos(root, 2, 0) in node
      modifies this`mem, this`head, this`free, this`held, this`node, this`own
      ensures Valid() && held == old(held)
      ensures SameData(old(mem), old(own), held, mem) && Grown(old(node), old(own), node, own, root)
      ensures r.PanicAlign? <==> va % 4096 != 0 || size % 4096 != 0
      ensures r.PanicSize? <==> size == 0 && va % 4096 == 0
      ensures done <= size / 4096 && (r.Mapped? <==> done == size / 4096 && !r.PanicAlign? && !r.PanicSize?)
      ensures RangeFlat(old(mem), old(node), mem, node, root, va / 4096, done, pa / 4096, WithV(perm))
      ensures r.OutOfMemory? ==> free == []
      ensures r.PanicRemap? ==> Taken(old(mem), old(node), root, va / 4096, (va + size) / 4096)
      ensures r.PanicWalk? ==> va / 4096 + done >= MAXVPN
      ensures r.Mapped? ==> va + size <= MAXVPN * 4096
      ensures r.Mapped? ==> !Taken(old(mem), old(node), root, va / 4096, (va + size) / 4096)
    {
      done := 0;
      if va % 4096 != 0 || size % 4096 != 0 {
        return PanicAlign, 0;
      }
      if size == 0 {
        return PanicSize, 0;
      }
      r, done := MapRange(root, va / 4096, size / 4096, pa / 4096, perm);
    }

    /** One pass of the loop in `mappages`, after `k` others. */
    method MapNext(root: nat, vpn: nat, k: nat, ppn: nat, perm: nat, ghost mem0: Mem, ghost node0: Nodes,
                   ghost own0: Owners)
        returns (r: MapResult)
      requires Valid() && Pos(root, 2, 0) in node
      requires MappedSo(mem0, node0, own0, mem, node, own, held, root, vpn, k, ppn, WithV(perm))
      modifies this`mem, this`head, this`free, this`held, this`node, this`own
      ensures Valid() && held == old(held) && Pos(root, 2, 0) in node
      ensures var done := if r.Mapped? then k + 1 else k;
              MappedSo(mem0, node0, own0, mem, node, own, held, root, vpn, done, ppn, WithV(perm))
      ensures r.OutOfMemory? ==> free == []
      ensures r.PanicRemap? ==> Flat(mem0, node0, root, vpn + k).V()
      ensures (r.PanicWalk? <==> vpn + k >= MAXVPN) && !r.PanicAlign? && !r.PanicSize?
    {
      ghost var mem1, node1, own1 := mem, node, own;
      r := MapOne(root, vpn + k, ppn + k, perm);
      RangePast(mem0, node0, mem1, node1, root, vpn, k, ppn, WithV(perm));
      if r.Mapped? {
        MapsMore(mem0, node0, own0, mem1, node1, own1, mem, node, own, held, root, vpn, k, ppn, WithV(perm));
      } else {
        MapsNoMore(mem0, node0, own0, mem1, node1, own1, mem, node, own, held, root, vpn, k, ppn, WithV(perm));
      }
    }

    /** The loop of `mappages`, over page numbers. */
    method MapRange(root: nat, vpn: nat, n: nat, ppn: nat, perm: nat) returns (r: MapResult, ghost done: nat)
      requires Valid() && Pos(root, 2, 0) in node && n > 0
      modifies this`mem, this`head, this`free, this`held, this`node, this`own
      ensures Valid() && held == old(held)
      ensures MappedSo(old(mem), old(node), old(own), mem, node, own, held, root, vpn, done, ppn, WithV(perm))
      ensures done <= n && (r.Mapped? <==> done == n)
      ensures r.OutOfMemory? ==> free == []
      ensures r.PanicRemap? ==> Taken(old(mem), old(node), root, vpn, vpn + n)
      ensures (r.Mapped? ==> vpn + n <= MAXVPN) && (r.PanicWalk? ==> vpn + done >= MAXVPN) && !r.PanicAlign?
              && !r.PanicSize?
    {
      ghost var mem0, node0, own0 := mem, node, own;
      var k := 0;
      while true
        invariant k < n && (k > 0 ==> vpn + k <= MAXVPN)
        invariant Valid() && held == old(held) && Pos(root, 2, 0) in node
        invariant MappedSo(mem0, node0, own0, mem, node, own, held, root, vpn, k, ppn, WithV(perm))
        decreases n - k
      {
        r := MapNext(root, vpn, k, ppn, perm, mem0, node0, own0);
        done := if r.Mapped? then k + 1 else k;
        if !r.Mapped? || k == n - 1 {
          return;
        }
        k := k + 1;
      }
    }

    /** A page in hand, mapped at `vpn`, becomes user memory of `root`. */
    ghost method Adopt(q: nat, root: nat, vpn: nat)
      requires Valid() && q in held && Flat(mem, node, root, vpn).V() && Flat(mem, node, root, vpn).ppn == q
      modifies this`own, this`held
      ensures Valid() && own == old(own)[q := User(root, vpn)] && held == old(held) - {q}
    {
      AdoptTree(mem, node, own, q, User(root, vpn));
      AdoptPages(all, mem, free, own, held, q, User(root, vpn));
      own, held := own[q := User(root, vpn)], held - {q};
    }

    /** A user page is taken back in hand. */
    ghost method Disown(q: nat)
      requires Valid() && q in own && own[q].User?
      modifies this`own, this`held
      ensures Valid() && own == old(own) - {q} && held == old(held) + {q}
    {
      own, held := own - {q}, held + {q};
    }

    /** One pass of the loop in `uvmunmap`; `ok` is false where the kernel panics. */
    method UnmapOne(root: nat, vpn: nat, doFree: bool) returns (ok: bool)
      requires Valid() && Pos(root, 2, 0) in node
      requires HasLeaf(mem, node, root, vpn) ==> CanUnmap(mem, node, own, root, vpn, doFree)
      modifies this`mem, this`head, this`link, this`free, this`held, this`node, this`own
      ensures ok == HasLeaf(old(mem), old(node), root, vpn) && Valid() && held == old(held) && node == old(node)
      ensures !ok ==> mem == old(mem) && own == old(own) && free == old(free)
      ensures ok ==> OneFlat(old(mem), node, mem, node, root, vpn, NoPte)
      ensures ok ==> own == if doFree then old(own) - {old(Flat(mem, node, root, vpn)).ppn} else old(own)
      ensures ok ==> SameData(old(mem), own, held, mem) && |free| == |old(free)| + (if doFree then 1 else 0)
    {
      var w := Walk(root, vpn, false);
      if !w.Slot? {
        return false;
      }
      var page, i := w.page, w.i;
      assert Flat(mem, node, root, vpn) == mem[page][i];
      if !mem[page][i].V() || mem[page][i].flags == PTE_V {
        return false;
      }
      Unmap(root, vpn, page, i, doFree);
      return true;
    }

    /** `if(do_free) kfree(...); *pte = 0` */
    method Unmap(root: nat, vpn: nat, page: nat, i: nat, doFree: bool)
      requires Valid() && Pos(root, 0, vpn / ENTRIES) in node && page == node[Pos(root, 0, vpn / ENTRIES)]
               && i == vpn % ENTRIES
      requires CanUnmap(mem, node, own, root, vpn, doFree)
      modifies this`mem, this`head, this`link, this`free, this`held, this`own
      ensures Valid() && held == old(held)
      ensures OneFlat(old(mem), node, mem, node, root, vpn, NoPte)
      ensures own == if doFree then old(own) - {old(Flat(mem, node, root, vpn)).ppn} else old(own)
      ensures SameData(old(mem), own, held, mem) && |free| == |old(free)| + (if doFree then 1 else 0)
    {
      assert Flat(mem, node, root, vpn) == mem[page][i];
      if doFree {
        var q := mem[page][i].ppn;
        assert q !in held;
        Disown(q);
        FreePage(q);
      }
      StorePte(page, i, NoPte, root, vpn);
    }

    /** `n` pages of mappings removed, and with `doFree` their pages given back.  The kernel panics at the first page
        `a` that is not mapped. */
    method Uvmunmap(root: nat, vpn: nat, n: nat, doFree: bool) returns (ok: bool, ghost a: nat)
      requires Valid() && Pos(root, 2, 0) in node
      requires forall v :: vpn <= v < vpn + n && HasLeaf(mem, node, root, v) ==>
                 CanUnmap(mem, node, own, root, v, doFree)
      modifies this`mem, this`head, this`link, this`free, this`held, this`node, this`own
      ensures Valid() && held == old(held) && node == old(node)
      ensures vpn <= a <= vpn + n && (ok <==> a == vpn + n) && (!ok ==> !HasLeaf(old(mem), node, root, a))
      ensures AllMapped(old(mem), node, root, vpn, a)
      ensures Unmapped(old(mem), old(own), mem, own, node, held, root, vpn, a, doFree)
      ensures |free| == |old(free)| + (if doFree then a - vpn else 0)
    {
      ghost var mem0, node0, own0 := mem, node, own;
      var v := vpn;
      while v < vpn + n
        invariant vpn <= v <= vpn + n
        invariant Valid() && held == old(held) && node == node0 && AllMapped(mem0, node, root, vpn, v)
        invariant Unmapped(mem0, own0, mem, own, node, held, root, vpn, v, doFree)
        invariant |free| == |old(free)| + (if doFree then v - vpn else 0)
      {
        StillMapped(mem0, own0, mem, own, node, held, root, vpn, v, doFree);
        ghost var mem1, own1 := mem, own;
        ok := UnmapOne(root, v, doFree);
        if !ok {
          return false, v;
        }
        UnmapStep(mem0, own0, mem1, own1, mem, own, node, held, root, vpn, v, doFree);
        v := v + 1;
      }
      return true, v;
    }

    /** `uvmunmap` of pages that are mapped and the table's own: it does not panic. */
    method UnmapOwn(root: nat, vpn: nat, n: nat)
      requires Valid() && Pos(root, 2, 0) in node && vpn + n <= MAXVPN && AllBacked(mem, node, own, root, vpn, vpn + n)
      modifies this`mem, this`head, this`link, this`free, this`held, this`node, this`own
      ensures Valid() && held == old(held) && node == old(node)
      ensures Unmapped(old(mem), old(own), mem, own, node, held, root, vpn, vpn + n, true) && |free| == |old(free)| + n
    {
      BackedIsMapped(mem, node, own, root, vpn, vpn + n);
      ghost var a;
      var ok;
      ok, a := Uvmunmap(root, vpn, n, true);
    }

    /** A page in hand holding `words`, or 0. */
    method NewPage(words: seq<Pte>) returns (q: nat)
      requires Valid()
      modifies this`mem, this`head, this`free, this`held
      ensures Valid()
      ensures q == 0 <==> old(free) == []
      ensures q == 0 ==> held == old(held) && free == []
      ensures q != 0 ==> q !in old(held) && held == old(held) + {q} && q in mem && mem[q] == words
      ensures SameFlat(old(mem), node, mem, node) && SameData(old(mem), own, old(held), mem)
    {
      q := Kalloc();
      if q != 0 {
        FillPage(q, words);
      }
    }

    /** `mappages` of a single page in hand. */
    method MapPage(root: nat, v: nat, q: nat, perm: nat) returns (ok: bool)
      requires Valid() && Pos(root, 2, 0) in node && v < MAXVPN && !Flat(mem, node, root, v).V()
      modifies this`mem, this`head, this`free, this`held, this`node, this`own
      ensures Valid() && held == old(held)
      ensures SameData(old(mem), old(own), held, mem) && Grown(old(node), old(own), node, own, root)
      ensures if ok then OneFlat(old(mem), old(node), mem, node, root, v, Pte(q, WithV(perm)))
              else SameFlat(old(mem), old(node), mem, node) && free == []
    {
      NotTaken(mem, node, root, v);
      assert v * 4096 / 4096 == v && q * 4096 / 4096 == q && (v * 4096 + 4096) / 4096 == v + 1;
      var r, done := Mappages(root, v * 4096, 4096, q * 4096, perm);
      ok := r.Mapped?;
      if ok {
        RangeOne(old(mem), old(node), mem, node, root, v, q, WithV(perm));
      } else {
        RangeNone(old(mem), old(node), mem, node, root, v, q, WithV(perm));
      }
    }

    /** The steps `uvmalloc` and `uvmcopy` share: a new page with the given words, mapped at
        `v` and owned by `root`, or nothing but new page-table pages when memory runs out. */
    method AddPage(root: nat, v: nat, words: seq<Pte>, perm: nat) returns (ok: bool)
      requires Valid() && Pos(root, 2, 0) in node && v < MAXVPN && !Flat(mem, node, root, v).V()
      requires (perm / 2) % 8 != 0
      modifies this`mem, this`head, this`link, this`free, this`held, this`node, this`own
      ensures Valid() && held == old(held)
      ensures ok ==> Extended(old(mem), old(node), old(own), mem, node, own, held, root, v, v + 1)
      ensures ok ==> HoldsWords(mem, node, root, v, words, WithV(perm))
      ensures !ok ==> Undone(old(mem), old(node), old(own), mem, node, own, held, root) && |free| <= 1
    {
      var q := NewPage(words);
      if q == 0 {
        return false;
      }
      ghost var mem1 := mem;
      assert Flat(mem, node, root, v) == Flat(old(mem), node, root, v);
      ok := MapPage(root, v, q, perm);
      if ok {
        AdoptExtends(old(mem), mem1, old(node), old(own), mem, node, own, old(held), root, v, q, WithV(perm));
        Adopt(q, root, v);
      } else {
        FreePage(q);
      }
    }

    /** Shrinks user memory from `oldsz` to `newsz` bytes.  The kernel panics at the first page `a` in between that is
        not mapped, so `oldsz` cannot be larger than the actual size by a page or more. */
    method Uvmdealloc(root: nat, oldsz: nat, newsz: nat) returns (ok: bool, sz: nat, ghost a: nat)
      requires Valid() && Pos(root, 2, 0) in node
      requires forall v :: PgUp(newsz) <= v < PgUp(oldsz) && HasLeaf(mem, node, root, v) ==>
                 CanUnmap(mem, node, own, root, v, true)
      modifies this`mem, this`head, this`link, this`free, this`held, this`node, this`own
      ensures Valid() && held == old(held) && node == old(node)
      ensures sz == if newsz >= oldsz then oldsz else newsz
      ensures newsz >= oldsz ==> ok && mem == old(mem) && own == old(own) && free == old(free)
      ensures newsz < oldsz ==> (ok <==> AllMapped(old(mem), node, root, PgUp(newsz), PgUp(oldsz)))
      ensures newsz < oldsz ==>
                && PgUp(newsz) <= a <= PgUp(oldsz) && (ok <==> a == PgUp(oldsz))
                && AllMapped(old(mem), node, root, PgUp(newsz), a)
                && Unmapped(old(mem), old(own), mem, own, node, held, root, PgUp(newsz), a, true)
                && |free| == |old(free)| + a - PgUp(newsz)
    {
      if newsz >= oldsz {
        return true, oldsz, 0;
      }
      ok, a := true, PgUp(oldsz);
      if PgUp(newsz) < PgUp(oldsz) {
        var npages := PgUp(oldsz) - PgUp(newsz);
        ok, a := Uvmunmap(root, PgUp(newsz), npages, true);
      }
      sz := newsz;
    }

    /** One pass of the loop in `uvmalloc`, its two failure exits included. */
    method GrowOne(root: nat, lo: nat, a: nat, ghost hi: nat, perm: nat, ghost mem0: Mem, ghost node0: Nodes,
                   ghost own0: Owners)
        returns (ok: bool)
      requires Valid() && Pos(root, 2, 0) in node && lo <= a < hi <= MAXVPN && (perm / 2) % 8 != 0
      requires UsersOk(mem0, node0, own0)
      requires Extended(mem0, node0, own0, mem, node, own, held, root, lo, a)
      requires ZeroFilled(mem, node, root, lo, a, perm)
      requires Absent(mem0, node0, root, lo, hi)
      modifies this`mem, this`head, this`link, this`free, this`held, this`node, this`own
      ensures Valid() && held == old(held)
      ensures ok ==> Extended(mem0, node0, own0, mem, node, own, held, root, lo, a + 1)
                     && ZeroFilled(mem, node, root, lo, a + 1, perm)
      ensures !ok ==> Undone(mem0, node0, own0, mem, node, own, held, root) && |free| <= a + 1 - lo
    {
      StillAbsent(mem0, node0, own0, mem, node, own, held, root, lo, a, hi);
      ghost var mem1, node1, own1 := mem, node, own;
      ok := AddPage(root, a, Zeros(), perm);
      if ok {
        ExtendMore(mem0, node0, own0, mem1, node1, own1, mem, node, own, held, root, lo, a);
        ZeroFilledMore(mem0, node0, own0, mem1, node1, own1, mem, node, own, held, root, lo, a, perm);
      } else {
        ExtendThenUndone(mem0, node0, own0, mem1, node1, own1, mem, node, own, held, root, lo, a);
        GiveBack(mem0, node0, own0, root, lo, a, hi);
      }
    }

    /** The loop of `uvmalloc`, in pages. */
    method GrowAll(root: nat, lo: nat, hi: nat, perm: nat) returns (ok: bool)
      requires Valid() && Pos(root, 2, 0) in node && lo <= hi <= MAXVPN && (perm / 2) % 8 != 0
      requires Absent(mem, node, root, lo, hi)
      modifies this`mem, this`head, this`link, this`free, this`held, this`node, this`own
      ensures Valid() && held == old(held)
      ensures ok ==> Extended(old(mem), old(node), old(own), mem, node, own, held, root, lo, hi)
                     && ZeroFilled(mem, node, root, lo, hi, perm)
      ensures !ok ==> Undone(old(mem), old(node), old(own), mem, node, own, held, root) && |free| <= hi - lo
    {
      ghost var mem0, node0, own0 := mem, node, own;
      ExtendNone(mem, node, own, held, root, lo);
      var a := lo;
      while a < hi
        invariant lo <= a <= hi
        invariant Valid() && held == old(held)
        invariant Extended(mem0, node0, own0, mem, node, own, held, root, lo, a)
        invariant ZeroFilled(mem, node, root, lo, a, perm)
      {
        ok := GrowOne(root, lo, a, hi, perm, mem0, node0, own0);
        if !ok {
          return;
        }
        a := a + 1;
      }
      ok := true;
    }

    /** Grows user memory from `oldsz` to `newsz` bytes with zeroed pages mapped with `perm`
        (`PTE_R|PTE_U|xperm`); when memory runs out, gives back every page it took. */
    method Uvmalloc(root: nat, oldsz: nat, newsz: nat, perm: nat) returns (sz: nat, ok: bool)
      requires Valid() && Pos(root, 2, 0) in node && PgUp(newsz) <= MAXVPN && (perm / 2) % 8 != 0
      requires Absent(mem, node, root, PgUp(oldsz), PgUp(newsz))
      modifies this`mem, this`head, this`link, this`free, this`held, this`node, this`own
      ensures Valid() && held == old(held)
      ensures sz == if newsz < oldsz then oldsz else if ok then newsz else 0
      ensures newsz < oldsz ==> mem == old(mem) && node == old(node) && own == old(own)
      ensures newsz >= oldsz && ok ==>
                && Extended(old(mem), old(node), old(own), mem, node, own, held, root, PgUp(oldsz), PgUp(newsz))
                && ZeroFilled(mem, node, root, PgUp(oldsz), PgUp(newsz), perm)
      ensures !ok ==>
                Undone(old(mem), old(node), old(own), mem, node, own, held, root) && |free| <= PgUp(newsz) - PgUp(oldsz)
    {
      if newsz < oldsz {
        return oldsz, true;
      }
      ok := GrowAll(root, PgUp(oldsz), PgUp(newsz), perm);
      sz := if ok then newsz else 0;
    }

    /** The failure path: every page added from `lo` up to `a` goes back to the free list. */
    method GiveBack(ghost mem0: Mem, ghost node0: Nodes, ghost own0: Owners, root: nat, lo: nat, a: nat, ghost hi: nat)
      requires Valid() && Pos(root, 2, 0) in node && lo <= a <= hi && a <= MAXVPN && UsersOk(mem0, node0, own0)
      requires Extended(mem0, node0, own0, mem, node, own, held, root, lo, a)
      requires Absent(mem0, node0, root, lo, hi)
      modifies this`mem, this`head, this`link, this`free, this`held, this`node, this`own
      ensures Valid() && held == old(held)
      ensures Undone(mem0, node0, own0, mem, node, own, held, root) && |free| == |old(free)| + a - lo
    {
      ghost var mem1, own1 := mem, own;
      assert PgUp(a * 4096) == a && PgUp(lo * 4096) == lo;
      BackedIsMapped(mem, node, own, root, lo, a);
      var fine, sz, end := Uvmdealloc(root, a * 4096, lo * 4096);
      if lo < a {
        UnmapUndoes(mem0, node0, own0, mem1, node, own1, mem, own, held, root, lo, a);
      } else {
        ExtendedByNothing(mem0, node0, own0, mem, node, own, held, root, lo);
      }
    }

    /** An empty user page table, or 0 when there is no page for it. */
    method Uvmcreate() returns (root: nat)
      requires Valid()
      modifies this`mem, this`head, this`free, this`held, this`node, this`own
      ensures Valid() && held == old(held)
      ensures SameFlat(old(mem), old(node), mem, node) && SameData(old(mem), old(own), held, mem)
      ensures root == 0 <==> old(free) == []
      ensures root == 0 ==> node == old(node) && own == old(own) && free == []
      ensures root != 0 ==>
                && root !in old(own) && node == old(node)[Pos(root, 2, 0) := root]
                && own == old(own)[root := Table(Pos(root, 2, 0))]
                && Strange(old(own), root) && Empty(mem, node, root)
    {
      root := NewPage(Zeros());
      if root != 0 {
        NewRootKeeps(mem, node, own, root);
        StrangeRoot(mem, node, own, root);
        node, own, held := node[Pos(root, 2, 0) := root], own[root := Table(Pos(root, 2, 0))], held - {root};
      }
    }

    /** The page of `parent` at `v` copied to a page of the child's own. */
    method CopyPage(parent: nat, child: nat, v: nat, ghost e: Pte, ghost words0: seq<Pte>) returns (ok: bool)
      requires Valid() && Pos(parent, 2, 0) in node && Pos(child, 2, 0) in node && v < MAXVPN
      requires Flat(mem, node, parent, v) == e && e.V() && e.Leaf() && e.ppn in mem && mem[e.ppn] == words0
      requires !Flat(mem, node, child, v).V()
      modifies this`mem, this`head, this`link, this`free, this`held, this`node, this`own
      ensures Valid() && held == old(held)
      ensures ok ==> Extended(old(mem), old(node), old(own), mem, node, own, held, child, v, v + 1)
      ensures ok ==> HoldsWords(mem, node, child, v, words0, e.flags)
      ensures !ok ==> Undone(old(mem), old(node), old(own), mem, node, own, held, child) && |free| <= 1
    {
      var pte := ReadPte(parent, v);
      var words := mem[pte.ppn];
      ok := AddPage(child, v, words, pte.flags);
    }

    /** One pass of the loop in `uvmcopy`, its failure exits included. */
    method CopyOne(parent: nat, child: nat, v: nat, ghost n: nat, ghost mem0: Mem, ghost node0: Nodes,
                   ghost own0: Owners)
        returns (ok: bool)
      requires Valid() && Pos(parent, 2, 0) in node && Pos(child, 2, 0) in node && child != parent
      requires v < n <= MAXVPN && UsersOk(mem0, node0, own0)
      requires Extended(mem0, node0, own0, mem, node, own, held, child, 0, v)
      requires Copied(mem0, node0, mem, node, parent, child, v)
      requires AllBacked(mem0, node0, own0, parent, 0, n) && Absent(mem0, node0, child, 0, n)
      modifies this`mem, this`head, this`link, this`free, this`held, this`node, this`own
      ensures Valid() && held == old(held)
      ensures ok ==> Extended(mem0, node0, own0, mem, node, own, held, child, 0, v + 1)
                     && Copied(mem0, node0, mem, node, parent, child, v + 1)
      ensures !ok ==> Undone(mem0, node0, own0, mem, node, own, held, child) && |free| <= v + 1
    {
      StillAbsent(mem0, node0, own0, mem, node, own, held, child, 0, v, n);
      ghost var mem1, node1, own1 := mem, node, own;
      assert Backed(mem0, node0, own0, parent, v);
      ghost var e := Flat(mem0, node0, parent, v);
      ok := CopyPage(parent, child, v, e, mem0[e.ppn]);
      if ok {
        ExtendMore(mem0, node0, own0, mem1, node1, own1, mem, node, own, held, child, 0, v);
        CopiedMore(mem0, node0, own0, mem1, node1, own1, mem, node, own, held, parent, child, v);
      } else {
        ExtendThenUndone(mem0, node0, own0, mem1, node1, own1, mem, node, own, held, child, 0, v);
        GiveBack(mem0, node0, own0, child, 0, v, n);
      }
    }

    /** `walk` and a load: the entry of a mapped page. */
    method ReadPte(root: nat, v: nat) returns (pte: Pte)
      requires Valid() && Pos(root, 2, 0) in node && v < MAXVPN && Flat(mem, node, root, v).V()
      modifies this`mem, this`head, this`free, this`held, this`node, this`own
      ensures mem == old(mem) && head == old(head) && free == old(free) && held == old(held)
      ensures node == old(node) && own == old(own)
      ensures pte == Flat(mem, node, root, v)
    {
      var w := Walk(root, v, false);
      pte := mem[w.page][w.i];
    }

    /** Copies the first `n` pages of `parent` into `child`, or none of them. */
    method Uvmcopy(parent: nat, child: nat, n: nat) returns (ok: bool)
      requires Valid() && Pos(parent, 2, 0) in node && Pos(child, 2, 0) in node && child != parent
      requires n <= MAXVPN
      requires AllBacked(mem, node, own, parent, 0, n) && Absent(mem, node, child, 0, n)
      modifies this`mem, this`head, this`link, this`free, this`held, this`node, this`own
      ensures Valid() && held == old(held)
      ensures ok ==> Extended(old(mem), old(node), old(own), mem, node, own, held, child, 0, n)
                     && Copied(old(mem), old(node), mem, node, parent, child, n)
      ensures !ok ==> Undone(old(mem), old(node), old(own), mem, node, own, held, child) && |free| <= n
    {
      ghost var mem0, node0, own0 := mem, node, own;
      ExtendNone(mem, node, own, held, child, 0);
      var v := 0;
      while v < n
        invariant v <= n && Valid() && held == old(held)
        invariant Extended(mem0, node0, own0, mem, node, own, held, child, 0, v)
        invariant Copied(mem0, node0, mem, node, parent, child, v)
      {
        ok := CopyOne(parent, child, v, n, mem0, node0, own0);
        if !ok {
          return;
        }
        v := v + 1;
      }
      ok := true;
    }

    /** The page at `p`, all of whose children are gone, goes back to the free list. */
    method FreeNode(page: nat, ghost p: Pos, ghost ex: set<Pos>)
      requires ValidBut(ex) && p in node && node[p] == page && Blank(mem, node, p.root)
      requires Childless(node, p, ENTRIES)
      modifies this`mem, this`head, this`link, this`free, this`held, this`node, this`own
      ensures ValidBut(ex + {p}) && held == old(held)
      ensures node == old(node) - {p} && own == old(own) - {page}
      ensures Blank(mem, node, p.root) && mem == old(mem)[page := JUNK_FREE]
      ensures forall r: nat, v: nat :: r != p.root ==> Flat(mem, node, r, v) == old(Flat(mem, node, r, v))
    {
      ghost var held0 := held;
      TakeNode(page, p, ex);
      ghost var mem1 := mem;
      FreePage(page, ex + {p});
      assert held0 + {page} - {page} == held0;
      assert forall v: nat :: Flat(mem, node, p.root, v) == Flat(mem1, node, p.root, v);
    }

    /** The page leaves the tree and is in hand. */
    ghost method TakeNode(page: nat, p: Pos, ex: set<Pos>)
      requires ValidBut(ex) && p in node && node[p] == page && Blank(mem, node, p.root)
      requires Childless(node, p, ENTRIES)
      modifies this`held, this`node, this`own
      ensures ValidBut(ex + {p}) && page !in old(held) && held == old(held) + {page}
      ensures node == old(node) - {p} && own == old(own) - {page} && Blank(mem, node, p.root)
      ensures forall r: nat, v: nat :: r != p.root ==> Flat(mem, node, r, v) == old(Flat(mem, node, r, v))
    {
      assert page in own && page !in held;
      DropNode(mem, node, own, ex, p);
      node, own, held := node - {p}, own - {page}, held + {page};
    }

    /** Clears entry `i` of the page at `p`, whose child there has been freed. */
    method ClearEntry(page: nat, i: nat, ghost p: Pos, ghost ex: set<Pos>)
      requires p.level > 0 && i < ENTRIES && p in node && node[p] == page && p.Child(i) !in node
      requires ValidBut(ex + {p.Child(i)})
      modifies this`mem
      ensures ValidBut(ex) && mem == old(mem)[page := old(mem)[page][i := NoPte]]
      ensures SameFlat(old(mem), node, mem, node)
    {
      ZeroEdge(mem, node, own, ex, p, i);
      mem := mem[page := mem[page][i := NoPte]];
    }

    /** One pass of the loop in `freewalk`: if the entry leads to a page, free it and all below. */
    method FreeEntry(page: nat, i: nat, ghost p: Pos, ghost ex: set<Pos>)
      requires ValidBut(ex) && p in node && node[p] == page && i < ENTRIES
      requires Blank(mem, node, p.root) && Above(ex, p)
      modifies this`mem, this`head, this`link, this`free, this`held, this`node, this`own
      ensures ValidBut(ex) && held == old(held) && p in node && node[p] == page
      ensures p.level > 0 ==> p.Child(i) !in node
      ensures TornDown(old(mem), old(node), old(own), mem, node, own, held, p)
      decreases p.level, 0
    {
      if p.level > 0 {
        assert EdgeOk(mem, node, p, i);
      } else {
        assert Flat(mem, node, p.root, p.prefix * ENTRIES + i) == mem[page][i];
      }
      var pte := mem[page][i];
      if pte.V() && !pte.Leaf() {
        ghost var c := p.Child(i);
        Freewalk(pte.ppn, c, ex);
        ghost var mem1 := mem;
        ClearEntry(page, i, p, ex);
        TornMore(old(mem), old(node), old(own), mem1, mem, node, own, held, c, p);
      }
    }

    /** The loop of `freewalk` over the 512 entries of one page. */
    method FreeEntries(page: nat, ghost p: Pos, ghost ex: set<Pos>)
      requires ValidBut(ex) && p in node && node[p] == page
      requires Blank(mem, node, p.root) && Above(ex, p)
      modifies this`mem, this`head, this`link, this`free, this`held, this`node, this`own
      ensures ValidBut(ex) && held == old(held) && p in node && node[p] == page && Childless(node, p, ENTRIES)
      ensures TornDown(old(mem), old(node), old(own), mem, node, own, held, p)
      decreases p.level, 1
    {
      ghost var mem0, node0, own0 := mem, node, own;
      TornNone(mem, node, own, held, p);
      var i := 0;
      while i < ENTRIES
        invariant i <= ENTRIES && ValidBut(ex) && held == old(held) && p in node && node[p] == page
        invariant Childless(node, p, i)
        invariant TornDown(mem0, node0, own0, mem, node, own, held, p)
      {
        ghost var mem1, node1, own1 := mem, node, own;
        FreeEntry(page, i, p, ex);
        TornThrough(mem0, node0, own0, mem1, node1, own1, mem, node, own, held, p);
        ChildlessMore(mem1, node1, own1, mem, node, own, held, p, i);
        i := i + 1;
      }
    }

    /** Recursively frees the page at `p` and every page-table page below it. */
    method Freewalk(page: nat, ghost p: Pos, ghost ex: set<Pos>)
      requires ValidBut(ex) && p in node && node[p] == page
      requires Blank(mem, node, p.root) && Above(ex, p)
      modifies this`mem, this`head, this`link, this`free, this`held, this`node, this`own
      ensures ValidBut(ex + {p}) && held == old(held) && p !in node
      ensures TornDown(old(mem), old(node), old(own), mem, node, own, held, p)
      decreases p.level, 2
    {
      FreeEntries(page, p, ex);
      ghost var mem1, node1, own1 := mem, node, own;
      FreeNode(page, p, ex);
      TornLast(old(mem), old(node), old(own), mem1, node1, own1, mem, node, own, held, p);
    }

    /** Frees the user pages of `root` (`sz` bytes of them), then its page-table pages:
        afterwards no page belongs to `root`, and every other page is as it was. */
    method Uvmfree(root: nat, sz: nat)
      requires Valid() && Pos(root, 2, 0) in node && PgUp(sz) <= MAXVPN
      requires AllBacked(mem, node, own, root, 0, PgUp(sz)) && NoneFrom(mem, node, root, PgUp(sz))
      modifies this`mem, this`head, this`link, this`free, this`held, this`node, this`own
      ensures Valid() && held == old(held)
      ensures Freed(old(mem), old(node), old(own), mem, node, own, held, root)
    {
      ghost var mem0, node0, own0 := mem, node, own;
      if sz > 0 {
        FreeUserPages(root, PgUp(sz));
      } else {
        NoneIsUnmapped(mem, own, node, held, root);
      }
      ghost var mem1, own1 := mem, own;
      FreeTable(root);
      FreeBoth(mem0, node0, own0, mem1, own1, mem, node, own, held, root, PgUp(sz));
    }

    /** `uvmunmap(pagetable, 0, n, 1)` of everything that is mapped. */
    method FreeUserPages(root: nat, n: nat)
      requires Valid() && Pos(root, 2, 0) in node && n <= MAXVPN
      requires AllBacked(mem, node, own, root, 0, n) && NoneFrom(mem, node, root, n)
      modifies this`mem, this`head, this`link, this`free, this`held, this`node, this`own
      ensures Valid() && held == old(held) && node == old(node)
      ensures Unmapped(old(mem), old(own), mem, own, node, held, root, 0, n, true) && Blank(mem, node, root)
    {
      UnmapOwn(root, 0, n);
      UnmapBlanks(old(mem), old(own), mem, own, node, held, root, n);
    }

    /** `freewalk(pagetable)` on a table that maps nothing. */
    method FreeTable(root: nat)
      requires Valid() && Pos(root, 2, 0) in node && Blank(mem, node, root)
      modifies this`mem, this`head, this`link, this`free, this`held, this`node, this`own
      ensures Valid() && held == old(held)
      ensures Gone(old(own), own, root)
      ensures TornDown(old(mem), old(node), old(own), mem, node, own, held, Pos(root, 2, 0))
    {
      ghost var p := Pos(root, 2, 0);
      Freewalk(root, p, {});
      assert {} + {p} == {p};
      RootIsNoChild(mem, node, own, p);
      NothingBelow(mem, node, own, p);
      TornIsGone(old(mem), old(node), old(own), mem, node, own, held, p);
    }

    /** The memory part of `fork`: a new table with a copy of the first `n` pages of `parent`.
        When it fails, every page taken on the way is free again. */
    method ForkMemory(parent: nat, n: nat) returns (child: nat, ok: bool)
      requires Valid() && Pos(parent, 2, 0) in node && n <= MAXVPN && AllBacked(mem, node, own, parent, 0, n)
      modifies this`mem, this`head, this`link, this`free, this`held, this`node, this`own
      ensures Valid() && held == old(held)
      ensures ok ==> child !in old(own) && Copied(old(mem), old(node), mem, node, parent, child, n)
      ensures ok ==> AllBacked(mem, node, own, child, 0, n) && AllBacked(mem, node, own, parent, 0, n)
      ensures !ok ==> own == old(own) && forall q :: q in free <==> q in old(free)
      ensures OthersKept(old(mem), old(node), old(own), held, mem, node, child)
    {
      ghost var mem0, node0, own0, free0 := mem, node, own, free;
      child := Uvmcreate();
      if child == 0 {
        SamePages(all, mem0, free0, mem, free, own, held);
        return 0, false;
      }
      ghost var mem1, node1, own1 := mem, node, own;
      CreateKeepsBacked(mem0, node0, own0, mem1, node1, own1, held, parent, child, n);
      ok := Uvmcopy(parent, child, n);
      if ok {
        CopySurvives(mem0, node0, own0, mem1, node1, own1, mem, node, own, held, parent, child, n);
        OthersCopied(mem0, node0, own0, mem1, node1, own1, mem, node, own, held, child, n);
      } else {
        ghost var mem2, node2, own2 := mem, node, own;
        AbandonChild(child, own0, mem1, node1, own1);
        OthersAbandoned(mem0, node0, own0, mem1, node1, own1, mem2, node2, own2, mem, node, own, held, child);
        SamePages(all, mem0, free0, mem, free, own, held);
      }
    }

    /** `freeproc` after a failed copy: the child's table goes, and with it all it took. */
    method AbandonChild(child: nat, ghost own0: Owners, ghost mem1: Mem, ghost node1: Nodes, ghost own1: Owners)
      requires Valid() && Pos(child, 2, 0) in node && child !in own0 && Strange(own0, child)
      requires own1 == own0[child := Table(Pos(child, 2, 0))] && Empty(mem1, node1, child)
      requires Undone(mem1, node1, own1, mem, node, own, held, child)
      modifies this`mem, this`head, this`link, this`free, this`held, this`node, this`own
      ensures Valid() && held == old(held) && own == own0
      ensures Freed(old(mem), old(node), old(own), mem, node, own, held, child)
    {
      UndoneBlank(mem1, node1, own1, mem, node, own, held, child);
      Uvmfree(child, 0);
      RoundTrip(own0, own1, old(own), own, child);
    }
  }

  /** A table in a machine that has just started. */
  method FirstTable(ram: Mem, lo: nat, hi: nat) returns (vm: Vm, root: nat)
    requires 0 < lo < hi && forall q :: q in PageRange(lo, hi) ==> q in ram
    ensures fresh(vm) && vm.Valid() && Pos(root, 2, 0) in vm.node && Empty(vm.mem, vm.node, root)
  {
    vm := new Vm(ram, lo, hi);
    vm.Freerange(lo, hi);
    root := vm.Uvmcreate();
  }

  lemma NoFirstPage(mem: Mem, node: Nodes, root: nat)
    requires Empty(mem, node, root)
    ensures !AllMapped(mem, node, root, PgUp(0), PgUp(4096)) && forall v: nat :: !HasLeaf(mem, node, root, v)
  {
    assert PgUp(0) == 0 < PgUp(4096) && !HasLeaf(mem, node, root, 0);
  }

  /** Shrinking a new table from a page to nothing makes the kernel panic: there is no page. */
  method ShrinkEmpty(ram: Mem, lo: nat, hi: nat) returns (ok: bool)
    requires 0 < lo < hi && forall q :: q in PageRange(lo, hi) ==> q in ram
    ensures !ok
  {
    var vm, root := FirstTable(ram, lo, hi);
    NoFirstPage(vm.mem, vm.node, root);
    var sz;
    ghost var a;
    ok, sz, a := vm.Uvmdealloc(root, 4096, 0);
  }

  lemma OthersCopied(mem: Mem, node: Nodes, own: Owners, mem1: Mem, node1: Nodes, own1: Owners,
                     mem2: Mem, node2: Nodes, own2: Owners, held: set<nat>, child: nat, n: nat)
    requires SameFlat(mem, node, mem1, node1) && SameData(mem, own, held, mem1)
    requires child !in own && own1 == own[child := Table(Pos(child, 2, 0))]
    requires Extended(mem1, node1, own1, mem2, node2, own2, held, child, 0, n)
    ensures OthersKept(mem, node, own, held, mem2, node2, child)
  {
  }

  lemma OthersAbandoned(mem: Mem, node: Nodes, own: Owners, mem1: Mem, node1: Nodes, own1: Owners, mem2: Mem,
                        node2: Nodes, own2: Owners, mem3: Mem, node3: Nodes, own3: Owners, held: set<nat>, child: nat)
    requires SameFlat(mem, node, mem1, node1) && SameData(mem, own, held, mem1)
    requires child !in own && own1 == own[child := Table(Pos(child, 2, 0))]
    requires Undone(mem1, node1, own1, mem2, node2, own2, held, child)
    requires Freed(mem2, node2, own2, mem3, node3, own3, held, child) && own3 == own
    ensures OthersKept(mem, node, own, held, mem3, node3, child)
  {
    forall r: nat, v: nat | r != child ensures Flat(mem3, node3, r, v) == Flat(mem, node, r, v) {
      assert Flat(mem2, node2, r, v) == Flat(mem1, node1, r, v) == Flat(mem, node, r, v);
    }
  }

  lemma SamePages(all: set<nat>, mem: Mem, free: seq<nat>, mem': Mem, free': seq<nat>, own: Owners, held: set<nat>)
    requires Partition(all, mem, free, own, held) && Partition(all, mem', free', own, held)
    ensures forall q :: q in free' <==> q in free
  {
  }

  lemma StrangeRoot(mem: Mem, node: Nodes, own: Owners, root: nat)
    requires NodesOk(mem, node, own) && UsersOk(mem, node, own) && Pos(root, 2, 0) !in node
    requires forall v: nat :: Flat(mem, node, root, v) == NoPte
    ensures Strange(own, root)
  {
    NothingBelow(mem, node, own, Pos(root, 2, 0));
  }

  lemma CreateKeepsBacked(mem: Mem, node: Nodes, own: Owners, mem1: Mem, node1: Nodes, own1: Owners,
                          held: set<nat>, parent: nat, child: nat, n: nat)
    requires SameFlat(mem, node, mem1, node1) && SameData(mem, own, held, mem1)
    requires child !in own && own1 == own[child := Table(Pos(child, 2, 0))] && AllBacked(mem, node, own, parent, 0, n)
    ensures AllBacked(mem1, node1, own1, parent, 0, n)
  {
    forall v: nat | v < n ensures Backed(mem1, node1, own1, parent, v) {
      assert Backed(mem, node, own, parent, v);
    }
  }

  lemma CopySurvives(mem: Mem, node: Nodes, own: Owners, mem1: Mem, node1: Nodes, own1: Owners,
                     mem2: Mem, node2: Nodes, own2: Owners, held: set<nat>, parent: nat, child: nat, n: nat)
    requires SameFlat(mem, node, mem1, node1) && SameData(mem, own, held, mem1) && UsersOk(mem, node, own)
    requires AllBacked(mem, node, own, parent, 0, n) && AllBacked(mem1, node1, own1, parent, 0, n) && parent != child
    requires Extended(mem1, node1, own1, mem2, node2, own2, held, child, 0, n)
    requires Copied(mem1, node1, mem2, node2, parent, child, n)
    ensures Copied(mem, node, mem2, node2, parent, child, n)
    ensures AllBacked(mem2, node2, own2, parent, 0, n)
  {
    forall v: nat | v < n
      ensures Backed(mem2, node2, own2, parent, v)
      ensures var e := Flat(mem, node, parent, v);
              e.ppn in mem && HoldsWords(mem2, node2, child, v, mem[e.ppn], e.flags)
    {
      assert Backed(mem, node, own, parent, v) && Backed(mem1, node1, own1, parent, v);
      assert HoldsWords(mem2, node2, child, v, mem1[Flat(mem1, node1, parent, v).ppn],
               Flat(mem1, node1, parent, v).flags);
    }
  }

  lemma UndoneBlank(mem: Mem, node: Nodes, own: Owners, mem': Mem, node': Nodes, own': Owners, held: set<nat>,
                    root: nat)
    requires Undone(mem, node, own, mem', node', own', held, root)
    requires Empty(mem, node, root)
    ensures NoneFrom(mem', node', root, 0)
  {
  }

  /** Create, fail to copy, free: the pages in use are the same as before. */
  lemma RoundTrip(own0: Owners, own1: Owners, own2: Owners, own3: Owners, child: nat)
    requires child !in own0 && own1 == own0[child := Table(Pos(child, 2, 0))]
    requires Strange(own0, child)
    requires forall q :: q in own1 ==> q in own2 && own2[q] == own1[q]
    requires forall q :: q in own2 && q !in own1 ==> own2[q].Table? && own2[q].pos.root == child
    requires Gone(own2, own3, child)
    ensures own3 == own0
  {
    assert forall q :: q in own3 <==> q in own0;
    assert forall q :: q in own3 ==> own3[q] == own0[q];
  }

  lemma TornIsGone(mem: Mem, node: Nodes, own: Owners, mem': Mem, node': Nodes, own': Owners, held: set<nat>, p: Pos)
    requires TornDown(mem, node, own, mem', node', own', held, p) && p.level == 2
    requires NodesOk(mem', node', own') && UsersOk(mem', node', own')
    requires forall a :: a in node' ==> a.root != p.root
    requires UsersOk(mem, node, own) && Blank(mem, node, p.root)
    ensures Gone(own, own', p.root)
  {
  }

  lemma NoneIsUnmapped(mem: Mem, own: Owners, node: Nodes, held: set<nat>, root: nat)
    ensures Unmapped(mem, own, mem, own, node, held, root, 0, 0, true)
    ensures NoneFrom(mem, node, root, 0) ==> Blank(mem, node, root)
  {
  }

  lemma FreeBoth(mem: Mem, node: Nodes, own: Owners, mem1: Mem, own1: Owners, mem2: Mem, node2: Nodes, own2: Owners,
                 held: set<nat>, root: nat, n: nat)
    requires UsersOk(mem, node, own) && NoneFrom(mem, node, root, n)
    requires Unmapped(mem, own, mem1, own1, node, held, root, 0, n, true) && Gone(own1, own2, root)
    requires TornDown(mem1, node, own1, mem2, node2, own2, held, Pos(root, 2, 0))
    ensures Freed(mem, node, own, mem2, node2, own2, held, root)
  {
    forall q | q in own && own[q].User? && own[q].root == root ensures UserIn(own, q, root, 0, n) {
      assert Flat(mem, node, root, own[q].vpn).V();
    }
  }

  lemma UnmapBlanks(mem: Mem, own: Owners, mem': Mem, own': Owners, node: Nodes, held: set<nat>, root: nat, n: nat)
    requires Unmapped(mem, own, mem', own', node, held, root, 0, n, true)
    requires NoneFrom(mem, node, root, n)
    ensures Blank(mem', node, root)
  {
    forall v: nat ensures !Flat(mem', node, root, v).V() {
      if n <= v { assert !Flat(mem, node, root, v).V(); }
    }
  }

  lemma TornMore(mem: Mem, node: Nodes, own: Owners, mem1: Mem, mem2: Mem, node1: Nodes, own1: Owners,
                 held: set<nat>, c: Pos, p: Pos)
    requires TornDown(mem, node, own, mem1, node1, own1, held, c) && c.root == p.root && c.level < p.level
    requires SameFlat(mem1, node1, mem2, node1) && p in node1 && NotUserPage(own1, held, node1[p])
    requires node1[p] in mem2 && mem2 == mem1[node1[p] := mem2[node1[p]]]
    ensures TornDown(mem, node, own, mem2, node1, own1, held, p)
  {
    forall v: nat ensures !Flat(mem2, node1, p.root, v).V() {
      assert !Flat(mem1, node1, p.root, v).V();
    }
  }

  lemma TornNone(mem: Mem, node: Nodes, own: Owners, held: set<nat>, p: Pos)
    requires Blank(mem, node, p.root)
    ensures TornDown(mem, node, own, mem, node, own, held, p)
  {
  }

  lemma ChildlessMore(mem: Mem, node: Nodes, own: Owners, mem': Mem, node': Nodes, own': Owners,
                      held: set<nat>, p: Pos, i: nat)
    requires TornDown(mem, node, own, mem', node', own', held, p) && Childless(node, p, i)
    requires p.level > 0 ==> p.Child(i) !in node'
    ensures Childless(node', p, i + 1)
  {
  }

  lemma TornThrough(mem: Mem, node: Nodes, own: Owners, mem1: Mem, node1: Nodes, own1: Owners,
                    mem2: Mem, node2: Nodes, own2: Owners, held: set<nat>, p: Pos)
    requires TornDown(mem, node, own, mem1, node1, own1, held, p)
    requires TornDown(mem1, node1, own1, mem2, node2, own2, held, p)
    ensures TornDown(mem, node, own, mem2, node2, own2, held, p)
  {
  }

  lemma TornLast(mem: Mem, node: Nodes, own: Owners, mem1: Mem, node1: Nodes, own1: Owners,
                 mem2: Mem, node2: Nodes, own2: Owners, held: set<nat>, p: Pos)
    requires TornDown(mem, node, own, mem1, node1, own1, held, p)
    requires p in node1 && TableOf(own1, node1[p], p.root) && NotUserPage(own1, held, node1[p])
    requires node2 == node1 - {p} && own2 == own1 - {node1[p]} && mem2 == mem1[node1[p] := JUNK_FREE]
    requires Blank(mem2, node2, p.root)
    requires forall r: nat, v: nat :: r != p.root ==> Flat(mem2, node2, r, v) == Flat(mem1, node1, r, v)
    ensures TornDown(mem, node, own, mem2, node2, own2, held, p)
  {
  }

  lemma CopiedMore(mem: Mem, node: Nodes, own: Owners, mem1: Mem, node1: Nodes, own1: Owners, mem2: Mem, node2: Nodes,
                   own2: Owners, held: set<nat>, parent: nat, child: nat, v: nat)
    requires Copied(mem, node, mem1, node1, parent, child, v)
    requires Extended(mem, node, own, mem1, node1, own1, held, child, 0, v)
    requires Extended(mem1, node1, own1, mem2, node2, own2, held, child, v, v + 1)
    requires var e := Flat(mem, node, parent, v);
             e.ppn in mem && HoldsWords(mem2, node2, child, v, mem[e.ppn], e.flags)
    ensures Copied(mem, node, mem2, node2, parent, child, v + 1)
  {
    WordsStay(mem1, node1, own1, mem2, node2, own2, held, child, 0, v, v);
    forall u: nat | u < v + 1
      ensures var e := Flat(mem, node, parent, u);
              e.ppn in mem && HoldsWords(mem2, node2, child, u, mem[e.ppn], e.flags)
    {
      if u < v {
        var e := Flat(mem, node, parent, u);
        assert HoldsWords(mem1, node1, child, u, mem[e.ppn], e.flags);
      }
    }
  }

  lemma StillAbsent(mem: Mem, node: Nodes, own: Owners, mem1: Mem, node1: Nodes, own1: Owners,
                    held: set<nat>, root: nat, lo: nat, a: nat, hi: nat)
    requires Extended(mem, node, own, mem1, node1, own1, held, root, lo, a) && Absent(mem, node, root, lo, hi)
             && lo <= a < hi
    ensures !Flat(mem1, node1, root, a).V()
  {
    assert Flat(mem1, node1, root, a) == Flat(mem, node, root, a);
  }

  lemma ExtendNone(mem: Mem, node: Nodes, own: Owners, held: set<nat>, root: nat, lo: nat)
    ensures Extended(mem, node, own, mem, node, own, held, root, lo, lo)
  {
  }

  lemma ExtendMore(mem: Mem, node: Nodes, own: Owners, mem1: Mem, node1: Nodes, own1: Owners,
                   mem2: Mem, node2: Nodes, own2: Owners, held: set<nat>, root: nat, lo: nat, a: nat)
    requires lo <= a && Extended(mem, node, own, mem1, node1, own1, held, root, lo, a)
    requires Extended(mem1, node1, own1, mem2, node2, own2, held, root, a, a + 1)
    ensures Extended(mem, node, own, mem2, node2, own2, held, root, lo, a + 1)
  {
    forall v: nat | lo <= v < a + 1 ensures Backed(mem2, node2, own2, root, v) {
      if v < a {
        assert Backed(mem1, node1, own1, root, v);
      }
    }
  }

  lemma ExtendThenUndone(mem: Mem, node: Nodes, own: Owners, mem1: Mem, node1: Nodes, own1: Owners,
                         mem2: Mem, node2: Nodes, own2: Owners, held: set<nat>, root: nat, lo: nat, a: nat)
    requires Extended(mem, node, own, mem1, node1, own1, held, root, lo, a)
    requires Undone(mem1, node1, own1, mem2, node2, own2, held, root)
    ensures Extended(mem, node, own, mem2, node2, own2, held, root, lo, a)
  {
    forall v: nat | lo <= v < a ensures Backed(mem2, node2, own2, root, v) {
      assert Backed(mem1, node1, own1, root, v);
    }
  }

  /** Pages already written keep their words while another page is added. */
  lemma WordsStay(mem1: Mem, node1: Nodes, own1: Owners, mem2: Mem, node2: Nodes, own2: Owners,
                  held: set<nat>, root: nat, lo: nat, hi: nat, a: nat)
    requires hi <= a && Extended(mem1, node1, own1, mem2, node2, own2, held, root, a, a + 1)
    requires forall v: nat :: lo <= v < hi ==> Backed(mem1, node1, own1, root, v)
    ensures forall v: nat, w, f :: lo <= v < hi && HoldsWords(mem1, node1, root, v, w, f) ==>
              HoldsWords(mem2, node2, root, v, w, f)
  {
    forall v: nat, w, f | lo <= v < hi && HoldsWords(mem1, node1, root, v, w, f)
      ensures HoldsWords(mem2, node2, root, v, w, f)
    {
      assert Backed(mem1, node1, own1, root, v);
    }
  }

  lemma ZeroFilledMore(mem: Mem, node: Nodes, own: Owners, mem1: Mem, node1: Nodes, own1: Owners,
                       mem2: Mem, node2: Nodes, own2: Owners, held: set<nat>, root: nat, lo: nat, a: nat, perm: nat)
    requires lo <= a && Extended(mem, node, own, mem1, node1, own1, held, root, lo, a)
    requires Extended(mem1, node1, own1, mem2, node2, own2, held, root, a, a + 1)
    requires ZeroFilled(mem1, node1, root, lo, a, perm) && HoldsWords(mem2, node2, root, a, Zeros(), WithV(perm))
    ensures ZeroFilled(mem2, node2, root, lo, a + 1, perm)
  {
    WordsStay(mem1, node1, own1, mem2, node2, own2, held, root, lo, a, a);
  }

  lemma ExtendedByNothing(mem: Mem, node: Nodes, own: Owners, mem1: Mem, node1: Nodes, own1: Owners,
                          held: set<nat>, root: nat, lo: nat)
    requires Extended(mem, node, own, mem1, node1, own1, held, root, lo, lo)
    ensures Undone(mem, node, own, mem1, node1, own1, held, root)
  {
  }

  lemma UnmapUndoes(mem: Mem, node: Nodes, own: Owners, mem1: Mem, node1: Nodes, own1: Owners,
                    mem2: Mem, own2: Owners, held: set<nat>, root: nat, lo: nat, a: nat)
    requires UsersOk(mem, node, own) && Extended(mem, node, own, mem1, node1, own1, held, root, lo, a)
    requires Unmapped(mem1, own1, mem2, own2, node1, held, root, lo, a, true)
    requires Absent(mem, node, root, lo, a)
    ensures Undone(mem, node, own, mem2, node1, own2, held, root)
  {
    assert forall q :: q in own ==> !UserIn(own1, q, root, lo, a);
  }

  lemma AdoptExtends(mem: Mem, mem1: Mem, node: Nodes, own: Owners, mem': Mem, node': Nodes, own': Owners,
                     held: set<nat>, root: nat, v: nat, q: nat, flags: nat)
    requires SameFlat(mem, node, mem1, node) && SameData(mem, own, held, mem1)
    requires OneFlat(mem1, node, mem', node', root, v, Pte(q, flags)) && Grown(node, own, node', own', root)
    requires SameData(mem1, own, held + {q}, mem') && q !in own' && q in mem1
    requires flags % 2 == 1 && (flags / 2) % 8 != 0
    ensures Extended(mem, node, own, mem', node', own'[q := User(root, v)], held, root, v, v + 1)
    ensures HoldsWords(mem', node', root, v, mem1[q], flags)
  {
    assert Flat(mem', node', root, v) == Pte(q, flags);
  }

  lemma AdoptTree(mem: Mem, node: Nodes, own: Owners, q: nat, u: Owner)
    requires TreeOk(mem, node, own) && q !in own && q in mem && u.User?
    requires Flat(mem, node, u.root, u.vpn).V() && Flat(mem, node, u.root, u.vpn).ppn == q
    ensures TreeOk(mem, node, own[q := u])
  {
    assert EdgesOk(mem, node, own[q := u], {});
  }

  lemma AdoptPages(all: set<nat>, mem: Mem, free: seq<nat>, own: Owners, held: set<nat>, q: nat, u: Owner)
    requires Partition(all, mem, free, own, held) && q in held
    ensures q in mem && q !in own && Partition(all, mem, free, own[q := u], held - {q})
  {
  }

  lemma BackedIsMapped(mem: Mem, node: Nodes, own: Owners, root: nat, lo: nat, hi: nat)
    requires hi <= MAXVPN && AllBacked(mem, node, own, root, lo, hi)
    ensures forall v :: lo <= v < hi ==> HasLeaf(mem, node, root, v) && CanUnmap(mem, node, own, root, v, true)
  {
    forall v: nat | lo <= v < hi ensures HasLeaf(mem, node, root, v) && CanUnmap(mem, node, own, root, v, true) {
      assert Backed(mem, node, own, root, v);
    }
  }

  lemma StillMapped(mem: Mem, own: Owners, mem1: Mem, own1: Owners, node: Nodes, held: set<nat>,
                    root: nat, lo: nat, hi: nat, doFree: bool)
    requires lo <= hi && Unmapped(mem, own, mem1, own1, node, held, root, lo, hi, doFree)
    requires HasLeaf(mem, node, root, hi) ==> CanUnmap(mem, node, own, root, hi, doFree)
    ensures HasLeaf(mem1, node, root, hi) ==> CanUnmap(mem1, node, own1, root, hi, doFree)
    ensures Flat(mem1, node, root, hi) == Flat(mem, node, root, hi)
  {
  }

  lemma UnmapStep(mem: Mem, own: Owners, mem1: Mem, own1: Owners, mem2: Mem, own2: Owners,
                  node: Nodes, held: set<nat>, root: nat, lo: nat, hi: nat, doFree: bool)
    requires UsersOk(mem, node, own)
    requires lo <= hi && Unmapped(mem, own, mem1, own1, node, held, root, lo, hi, doFree)
    requires CanUnmap(mem, node, own, root, hi, doFree)
    requires OneFlat(mem1, node, mem2, node, root, hi, NoPte) && SameData(mem1, own2, held, mem2)
    requires own2 == if doFree then own1 - {Flat(mem, node, root, hi).ppn} else own1
    ensures Unmapped(mem, own, mem2, own2, node, held, root, lo, hi + 1, doFree)
  {
    if doFree { ReleaseStep(mem, node, own, own1, own2, root, lo, hi); }
  }

  /** Dropping the page mapped at `hi` releases one more page. */
  lemma ReleaseStep(mem: Mem, node: Nodes, own: Owners, own1: Owners, own2: Owners, root: nat, lo: nat, hi: nat)
    requires UsersOk(mem, node, own) && Released(own, own1, root, lo, hi) && lo <= hi
    requires Backed(mem, node, own, root, hi) && own2 == own1 - {Flat(mem, node, root, hi).ppn}
    ensures Released(own, own2, root, lo, hi + 1)
  {
  }

  lemma NoChildBelow(mem: Mem, node: Nodes, own: Owners, root: nat, vpn: nat)
    requires NodesOk(mem, node, own) && vpn < MAXVPN && PosFor(root, 1, vpn) !in node
    ensures PosFor(root, 0, vpn) !in node
  {
    PosForChild(root, 1, vpn);
    ChildParent(PosFor(root, 1, vpn), Px(1, vpn));
  }
}
