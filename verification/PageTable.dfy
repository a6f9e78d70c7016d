/** Sv39 page tables and physical pages: `kernel/vm.c`, `kernel/kalloc.c`, the macros of
    `kernel/riscv.h`.

    Physical memory maps page numbers to pages of 512 words; a page-table page and a user
    page are the same kind of thing.  A word is read as a page-table entry: a physical page
    number and ten flag bits.  Two ghost maps describe who uses which page: `node` says where
    each tree position keeps its page, `own` says what each page in use is for. */
module PageTable {

  const ENTRIES: nat := 512
  const PTE_V: nat := 1

  datatype Pte = Pte(ppn: nat, flags: nat) {
    /** `*pte & PTE_V` */
    predicate V() { flags % 2 == 1 }

    /** `pte & (PTE_R|PTE_W|PTE_X)` is not zero. */
    predicate Leaf() { (flags / 2) % 8 != 0 }
  }

  const NoPte := Pte(0, 0)

  // The macros of `kernel/riscv.h`, shifts and masks written as division and remainder.

  const PGSIZE: nat := 4096
  const MAXVA: nat := 0x40_0000_0000

  function Pa2Pte(pa: nat): nat { (pa / PGSIZE) * 1024 }
  function Pte2Pa(word: nat): nat { (word / 1024) * PGSIZE }
  function PteFlags(word: nat): nat { word % 1024 }

  /** The word a page-table entry is stored as. */
  function Word(e: Pte): nat { Pa2Pte(e.ppn * PGSIZE) + e.flags }

  /** An entry survives being stored and read back, and different entries are different words. */
  lemma WordRoundTrip(e: Pte, pa: nat)
    requires e.flags < 1024
    ensures Pte2Pa(Word(e)) == e.ppn * PGSIZE && PteFlags(Word(e)) == e.flags
    ensures pa % PGSIZE == 0 ==> Pte2Pa(Pa2Pte(pa)) == pa && PteFlags(Pa2Pte(pa)) == 0
  {
    assert Word(e) == e.ppn * 1024 + e.flags;
  }

  /** `PX(level, va)`: nine bits of the address above the page offset. */
  function PxVa(level: nat, va: nat): nat
    requires level <= 2
  {
    match level
    case 0 => (va / 0x1000) % 512
    case 1 => (va / 0x20_0000) % 512
    case 2 => (va / 0x4000_0000) % 512
  }

  /** The three indices and the offset are the address, so no two addresses below MAXVA share
      all four. */
  lemma PxDetermines(va: nat)
    requires va < MAXVA
    ensures va == ((PxVa(2, va) * 512 + PxVa(1, va)) * 512 + PxVa(0, va)) * PGSIZE + va % PGSIZE
    ensures PxVa(2, va) < 256
    ensures forall level: nat :: level <= 2 ==> PxVa(level, va) == Px(level, va / PGSIZE)
  {
    var v := va / PGSIZE;
    assert va / 0x20_0000 == v / 512;
    assert va / 0x4000_0000 == v / 512 / 512;
  }

  type Mem = map<nat, seq<Pte>>

  /** A place in the tree of the page table at `root`: level 2 is the root page itself;
      `prefix` is the virtual page number without its `9 * (level + 1)` low bits. */
  datatype Pos = Pos(root: nat, level: nat, prefix: nat) {
    ghost predicate Ok() {
      || (level == 2 && prefix == 0)
      || (level == 1 && prefix < ENTRIES)
      || (level == 0 && prefix < ENTRIES * ENTRIES)
    }

    function Child(i: nat): Pos
      requires level > 0
    {
      Pos(root, level - 1, prefix * ENTRIES + i)
    }

    function Parent(): Pos {
      Pos(root, level + 1, prefix / ENTRIES)
    }
  }

  datatype Owner = Table(pos: Pos) | User(root: nat, vpn: nat)

  type Nodes = map<Pos, nat>
  type Owners = map<nat, Owner>

  /** `PX(level, va)` for the virtual page number `vpn`. */
  function Px(level: nat, vpn: nat): (i: nat)
    requires level <= 2
    ensures i < ENTRIES
  {
    match level
    case 0 => vpn % ENTRIES
    case 1 => (vpn / ENTRIES) % ENTRIES
    case 2 => (vpn / ENTRIES / ENTRIES) % ENTRIES
  }

  function PosFor(root: nat, level: nat, vpn: nat): Pos
    requires level <= 2
  {
    match level
    case 0 => Pos(root, 0, vpn / ENTRIES)
    case 1 => Pos(root, 1, vpn / ENTRIES / ENTRIES)
    case 2 => Pos(root, 2, 0)
  }

  const MAXVPN: nat := 0x400_0000  // MAXVA / PGSIZE

  /** Every page of the tree is where `node` says, and `own` is the inverse of `node`. */
  ghost predicate NodesOk(mem: Mem, node: Nodes, own: Owners) {
    && (forall p :: p in node ==>
          && p.Ok() && node[p] in mem && |mem[node[p]]| == ENTRIES
          && node[p] in own && own[node[p]] == Table(p)
          && (p.level == 2 ==> node[p] == p.root))
    && (forall p: Pos {:trigger p.Parent()} :: p in node && p.level < 2 ==> p.Parent() in node)
    && (forall q :: q in own && own[q].Table? ==> own[q].pos in node && node[own[q].pos] == q)
  }

  /** An inner entry is valid exactly when the child position exists, and then points to it. */
  ghost predicate EdgeOk(mem: Mem, node: Nodes, p: Pos, i: nat)
    requires p in node && node[p] in mem && |mem[node[p]]| == ENTRIES && p.level > 0 && i < ENTRIES
  {
    if p.Child(i) in node then mem[node[p]][i] == Pte(node[p.Child(i)], PTE_V)
    else !mem[node[p]][i].V()
  }

  /** All inner entries are right, except those that lead to a position in `ex`. */
  ghost predicate EdgesOk(mem: Mem, node: Nodes, own: Owners, ex: set<Pos>)
    requires NodesOk(mem, node, own)
  {
    forall p: Pos, i: nat {:trigger p.Child(i)} ::
      p in node && p.level > 0 && i < ENTRIES && p.Child(i) !in ex ==> EdgeOk(mem, node, p, i)
  }

  /** The flat view: the leaf entry for virtual page `vpn`, all zero when there is none. */
  function Flat(mem: Mem, node: Nodes, root: nat, vpn: nat): Pte {
    var p := Pos(root, 0, vpn / ENTRIES);
    if p in node && node[p] in mem && |mem[node[p]]| == ENTRIES then mem[node[p]][vpn % ENTRIES]
    else NoPte
  }

  /** A page owned as user memory is mapped where its owner says. */
  ghost predicate UsersOk(mem: Mem, node: Nodes, own: Owners) {
    forall q :: q in own && own[q].User? ==>
      && q in mem
      && Flat(mem, node, own[q].root, own[q].vpn).V()
      && Flat(mem, node, own[q].root, own[q].vpn).ppn == q
  }

  /** What the hardware does with `vpn`: three loads starting at the root page. */
  function HwWalk(mem: Mem, root: nat, vpn: nat): Pte {
    if root !in mem || |mem[root]| != ENTRIES then NoPte else
    var e2 := mem[root][Px(2, vpn)];
    if !e2.V() || e2.ppn !in mem || |mem[e2.ppn]| != ENTRIES then NoPte else
    var e1 := mem[e2.ppn][Px(1, vpn)];
    if !e1.V() || e1.ppn !in mem || |mem[e1.ppn]| != ENTRIES then NoPte else
    mem[e1.ppn][Px(0, vpn)]
  }

  lemma PosForChild(root: nat, level: nat, vpn: nat)
    requires 0 < level <= 2 && vpn < MAXVPN
    ensures PosFor(root, level, vpn).Child(Px(level, vpn)) == PosFor(root, level - 1, vpn)
    ensures PosFor(root, level, vpn).Ok() && PosFor(root, level - 1, vpn).Ok()
    ensures PosFor(root, level - 1, vpn).prefix % ENTRIES == Px(level, vpn)
    ensures PosFor(root, level - 1, vpn).Parent() == PosFor(root, level, vpn)
  {
  }

  lemma ChildParent(p: Pos, i: nat)
    requires p.Ok() && p.level > 0 && i < ENTRIES
    ensures p.Child(i).Ok() && p.Child(i).Parent() == p
  {
  }

  /** The three-level walk reads exactly the flat map. */
  lemma HwWalkIsFlat(mem: Mem, node: Nodes, own: Owners, root: nat, vpn: nat)
    requires NodesOk(mem, node, own) && EdgesOk(mem, node, own, {})
    requires Pos(root, 2, 0) in node && vpn < MAXVPN
    ensures HwWalk(mem, root, vpn) == Flat(mem, node, root, vpn)
  {
    var p2, p1, p0 := PosFor(root, 2, vpn), PosFor(root, 1, vpn), PosFor(root, 0, vpn);
    PosForChild(root, 2, vpn);
    PosForChild(root, 1, vpn);
    assert EdgeOk(mem, node, p2, Px(2, vpn));
    ChildParent(p1, Px(1, vpn));
    if p1 in node {
      assert EdgeOk(mem, node, p1, Px(1, vpn));
    }
  }

  ghost predicate TreeOk(mem: Mem, node: Nodes, own: Owners) {
    TreeOkBut(mem, node, own, {})
  }

  ghost predicate TreeOkBut(mem: Mem, node: Nodes, own: Owners, ex: set<Pos>) {
    NodesOk(mem, node, own) && EdgesOk(mem, node, own, ex) && UsersOk(mem, node, own)
  }

  /** Page `q` is not a page-table page, so its words can change freely. */
  ghost predicate NotTable(own: Owners, q: nat) {
    q in own ==> own[q].User?
  }

  function Zeros(): (z: seq<Pte>)
    ensures |z| == ENTRIES
  {
    seq(ENTRIES, _ => NoPte)
  }

  lemma DataWriteTables(mem: Mem, node: Nodes, own: Owners, q: nat, words: seq<Pte>, ex: set<Pos>)
    requires NodesOk(mem, node, own) && EdgesOk(mem, node, own, ex) && NotTable(own, q)
    ensures NodesOk(mem[q := words], node, own) && EdgesOk(mem[q := words], node, own, ex)
  {
    var mem' := mem[q := words];
    assert forall p :: p in node ==> mem'[node[p]] == mem[node[p]];
    assert NodesOk(mem', node, own);
    forall p: Pos, i: nat | p in node && p.level > 0 && i < ENTRIES && p.Child(i) !in ex
      ensures EdgeOk(mem', node, p, i) {
      assert EdgeOk(mem, node, p, i);
    }
  }

  /** Writing a page that is not a page-table page leaves every translation alone. */
  lemma DataWrite(mem: Mem, node: Nodes, own: Owners, q: nat, words: seq<Pte>, ex: set<Pos>)
    requires TreeOkBut(mem, node, own, ex) && NotTable(own, q)
    ensures TreeOkBut(mem[q := words], node, own, ex)
    ensures forall r, v :: Flat(mem[q := words], node, r, v) == Flat(mem, node, r, v)
  {
    DataWriteTables(mem, node, own, q, words, ex);
    assert forall p :: p in node ==> mem[q := words][node[p]] == mem[node[p]];
    assert forall r, v :: Flat(mem[q := words], node, r, v) == Flat(mem, node, r, v);
  }

  /** What `walk` does to memory when it hangs the fresh page `q` at position `c`. */
  function Hang(mem: Mem, node: Nodes, c: Pos, q: nat): Mem
    requires c.Parent() in node && node[c.Parent()] in mem && |mem[node[c.Parent()]]| == ENTRIES
  {
    var up := node[c.Parent()];
    mem[up := mem[up][c.prefix % ENTRIES := Pte(q, PTE_V)]]
  }

  ghost predicate CanHang(mem: Mem, node: Nodes, own: Owners, c: Pos, q: nat) {
    && TreeOk(mem, node, own) && c.Ok() && c.level < 2 && c !in node && c.Parent() in node
    && q in mem && q !in own && mem[q] == Zeros()
  }

  lemma HangNodes(mem: Mem, node: Nodes, own: Owners, c: Pos, q: nat)
    requires CanHang(mem, node, own, c, q)
    ensures NodesOk(Hang(mem, node, c, q), node[c := q], own[q := Table(c)])
  {
    assert node[c.Parent()] != q;
  }

  lemma HangFlat(mem: Mem, node: Nodes, own: Owners, c: Pos, q: nat, r: nat, v: nat)
    requires CanHang(mem, node, own, c, q)
    ensures Flat(Hang(mem, node, c, q), node[c := q], r, v) == Flat(mem, node, r, v)
  {
    assert node[c.Parent()] != q;
    var p := Pos(r, 0, v / ENTRIES);
    if p in node {
      assert node[p] != node[c.Parent()];
    }
  }

  lemma HangEdge(mem: Mem, node: Nodes, own: Owners, c: Pos, q: nat, p: Pos, i: nat)
    requires CanHang(mem, node, own, c, q) && node[c.Parent()] != q
    requires p in node && p.level > 0 && i < ENTRIES
    ensures EdgeOk(Hang(mem, node, c, q), node[c := q], p, i)
  {
    assert p.Child(i) !in {};
    assert EdgeOk(mem, node, p, i);
    ChildParent(p, i);
    if p != c.Parent() {
      assert node[p] != node[c.Parent()];
    }
  }

  lemma HangEdges(mem: Mem, node: Nodes, own: Owners, c: Pos, q: nat)
    requires CanHang(mem, node, own, c, q)
    requires NodesOk(Hang(mem, node, c, q), node[c := q], own[q := Table(c)])
    ensures EdgesOk(Hang(mem, node, c, q), node[c := q], own[q := Table(c)], {})
  {
    assert node[c.Parent()] != q;
    var mem', node' := Hang(mem, node, c, q), node[c := q];
    forall p: Pos, i: nat | p in node' && p.level > 0 && i < ENTRIES ensures EdgeOk(mem', node', p, i) {
      if p == c {
        ChildParent(p, i);
        assert p.Child(i) !in node;
      } else {
        HangEdge(mem, node, own, c, q, p, i);
      }
    }
  }

  /** Hanging a zeroed page in the tree keeps everything and translates nothing new. */
  lemma HangKeeps(mem: Mem, node: Nodes, own: Owners, c: Pos, q: nat)
    requires CanHang(mem, node, own, c, q)
    ensures TreeOk(Hang(mem, node, c, q), node[c := q], own[q := Table(c)])
    ensures forall r, v :: Flat(Hang(mem, node, c, q), node[c := q], r, v) == Flat(mem, node, r, v)
  {
    HangNodes(mem, node, own, c, q);
    HangEdges(mem, node, own, c, q);
    forall r, v ensures Flat(Hang(mem, node, c, q), node[c := q], r, v) == Flat(mem, node, r, v) {
      HangFlat(mem, node, own, c, q, r, v);
    }
  }

  /** Storing `e` in the leaf slot for virtual page `v` of the table at `r`. */
  function SetLeaf(mem: Mem, node: Nodes, r: nat, v: nat, e: Pte): Mem
    requires var p := Pos(r, 0, v / ENTRIES); p in node && node[p] in mem && |mem[node[p]]| == ENTRIES
  {
    var q := node[Pos(r, 0, v / ENTRIES)];
    mem[q := mem[q][v % ENTRIES := e]]
  }

  lemma SetLeafFlat(mem: Mem, node: Nodes, own: Owners, r: nat, v: nat, e: Pte, r': nat, v': nat)
    requires NodesOk(mem, node, own) && Pos(r, 0, v / ENTRIES) in node
    ensures Flat(SetLeaf(mem, node, r, v, e), node, r', v') ==
            if r' == r && v' == v then e else Flat(mem, node, r', v')
  {
    var p, p' := Pos(r, 0, v / ENTRIES), Pos(r', 0, v' / ENTRIES);
    if p' in node && p' != p {
      assert node[p'] != node[p];
    }
  }

  lemma SetLeafKeeps(mem: Mem, node: Nodes, own: Owners, r: nat, v: nat, e: Pte)
    requires NodesOk(mem, node, own) && EdgesOk(mem, node, own, {}) && Pos(r, 0, v / ENTRIES) in node
    ensures var mem' := SetLeaf(mem, node, r, v, e);
            NodesOk(mem', node, own) && EdgesOk(mem', node, own, {})
  {
    var mem', leaf := SetLeaf(mem, node, r, v, e), Pos(r, 0, v / ENTRIES);
    assert NodesOk(mem', node, own);
    forall p: Pos, i: nat | p in node && p.level > 0 && i < ENTRIES ensures EdgeOk(mem', node, p, i) {
      assert p.Child(i) !in {};
      assert node[p] != node[leaf];
    }
  }

  /** No page is owned as user memory at `v` of table `r`. */
  ghost predicate Unowned(own: Owners, r: nat, v: nat) {
    forall q :: q in own ==> own[q] != User(r, v)
  }

  /** Storing a leaf entry changes exactly one translation. */
  lemma StoreKeeps(mem: Mem, node: Nodes, own: Owners, r: nat, v: nat, e: Pte)
    requires TreeOk(mem, node, own) && Pos(r, 0, v / ENTRIES) in node && Unowned(own, r, v)
    ensures TreeOk(SetLeaf(mem, node, r, v, e), node, own)
    ensures forall r', v' :: Flat(SetLeaf(mem, node, r, v, e), node, r', v') ==
                             if r' == r && v' == v then e else Flat(mem, node, r', v')
  {
    SetLeafKeeps(mem, node, own, r, v, e);
    forall r', v' ensures Flat(SetLeaf(mem, node, r, v, e), node, r', v') ==
                          if r' == r && v' == v then e else Flat(mem, node, r', v') {
      SetLeafFlat(mem, node, own, r, v, e, r', v');
    }
  }

  /** `perm | PTE_V` */
  function WithV(perm: nat): (f: nat)
    ensures f % 2 == 1 && f / 2 == perm / 2
  {
    if perm % 2 == 1 then perm else perm + 1
  }

  /** A fresh zeroed page becomes the root of an empty table. */
  lemma NewRootKeeps(mem: Mem, node: Nodes, own: Owners, q: nat)
    requires TreeOk(mem, node, own) && q in mem && q !in own && mem[q] == Zeros()
    ensures var p := Pos(q, 2, 0);
            && p !in node && TreeOk(mem, node[p := q], own[q := Table(p)])
            && forall r, v :: Flat(mem, node[p := q], r, v) == Flat(mem, node, r, v)
    ensures forall v :: Flat(mem, node, q, v) == NoPte
  {
    var p := Pos(q, 2, 0);
    var node', own' := node[p := q], own[q := Table(p)];
    NothingBelow(mem, node, own, p);
    forall r, v ensures Flat(mem, node', r, v) == Flat(mem, node, r, v) {
    }
    assert NodesOk(mem, node', own');
    forall a: Pos, i: nat | a in node' && a.level > 0 && i < ENTRIES && a.Child(i) !in {}
      ensures EdgeOk(mem, node', a, i) {
      if a != p { assert EdgeOk(mem, node, a, i); }
    }
  }

  /** A table without its root page has no pages at all. */
  lemma NothingBelow(mem: Mem, node: Nodes, own: Owners, p: Pos)
    requires NodesOk(mem, node, own) && p.level == 2 && p.prefix == 0 && p !in node
    ensures forall a :: a in node ==> a.root != p.root
  {
    forall a | a in node ensures a.root != p.root {
      if a.level < 2 { assert a.Parent() in node; }
      if a.level == 0 { assert a.Parent().Parent() in node; }
    }
  }

  /** Table `r` maps nothing. */
  ghost predicate Blank(mem: Mem, node: Nodes, r: nat) {
    forall v: nat :: !Flat(mem, node, r, v).V()
  }

  lemma DropNodeTables(mem: Mem, node: Nodes, own: Owners, ex: set<Pos>, p: Pos)
    requires NodesOk(mem, node, own) && EdgesOk(mem, node, own, ex) && p in node
    requires p.level > 0 ==> forall i: nat :: i < ENTRIES ==> p.Child(i) !in node
    ensures NodesOk(mem, node - {p}, own - {node[p]})
    ensures EdgesOk(mem, node - {p}, own - {node[p]}, ex + {p})
  {
    var node', own' := node - {p}, own - {node[p]};
    assert NodesOk(mem, node', own') by {
      forall a: Pos | a in node' && a.level < 2 ensures a.Parent() in node' {
        assert a.Parent() in node;
        assert a == a.Parent().Child(a.prefix % ENTRIES);
      }
    }
    forall a: Pos, i: nat | a in node' && a.level > 0 && i < ENTRIES && a.Child(i) !in ex + {p}
      ensures EdgeOk(mem, node', a, i) {
      assert EdgeOk(mem, node, a, i);
    }
  }

  /** A page-table page without children leaves the tree. */
  lemma DropNode(mem: Mem, node: Nodes, own: Owners, ex: set<Pos>, p: Pos)
    requires TreeOkBut(mem, node, own, ex) && p in node && Blank(mem, node, p.root)
    requires p.level > 0 ==> forall i: nat :: i < ENTRIES ==> p.Child(i) !in node
    ensures TreeOkBut(mem, node - {p}, own - {node[p]}, ex + {p})
    ensures forall r, v :: r != p.root ==> Flat(mem, node - {p}, r, v) == Flat(mem, node, r, v)
    ensures Blank(mem, node - {p}, p.root)
  {
    DropNodeTables(mem, node, own, ex, p);
    forall v: nat ensures !Flat(mem, node - {p}, p.root, v).V() {
      assert !Flat(mem, node, p.root, v).V();
    }
    assert UsersOk(mem, node - {p}, own - {node[p]});
  }

  /** Clearing the entry that led to a dropped page. */
  lemma ZeroEdge(mem: Mem, node: Nodes, own: Owners, ex: set<Pos>, p: Pos, i: nat)
    requires p.level > 0 && i < ENTRIES && p in node && p.Child(i) !in node
    requires TreeOkBut(mem, node, own, ex + {p.Child(i)})
    ensures var mem' := mem[node[p] := mem[node[p]][i := NoPte]];
            && TreeOkBut(mem', node, own, ex)
            && forall r, v :: Flat(mem', node, r, v) == Flat(mem, node, r, v)
  {
    var mem' := mem[node[p] := mem[node[p]][i := NoPte]];
    assert forall a :: a in node && a != p ==> node[a] != node[p];
    assert NodesOk(mem', node, own);
    forall r, v ensures Flat(mem', node, r, v) == Flat(mem, node, r, v) {
    }
    forall a: Pos, k: nat | a in node && a.level > 0 && k < ENTRIES && a.Child(k) !in ex
      ensures EdgeOk(mem', node, a, k) {
      ChildParent(a, k);
      ChildParent(p, i);
      if a.Child(k) != p.Child(i) { assert EdgeOk(mem, node, a, k); }
    }
  }

  /** A root page is nobody's child, so exempting it changes nothing. */
  lemma RootIsNoChild(mem: Mem, node: Nodes, own: Owners, p: Pos)
    requires TreeOkBut(mem, node, own, {p}) && p.level == 2
    ensures TreeOk(mem, node, own)
  {
    forall a: Pos, i: nat | a in node && a.level > 0 && i < ENTRIES && a.Child(i) !in {}
      ensures EdgeOk(mem, node, a, i) {
      assert a.Child(i).level < 2;
    }
  }
}
