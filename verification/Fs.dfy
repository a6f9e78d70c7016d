/**
 * The on-disk file system of kernel/fs.c seen as values: a disk of byte blocks, the inodes, and
 * who owns each data block.
 *
 * The bitmap, the indirect blocks and the file data all live in the same array of bytes, so
 * writing one block can only be harmless to the others because no block has two owners.
 */
module Fs {

  type Byte = x: nat | x < 256
  type Uint = x: nat | x < 0x1_0000_0000
  type Blk = s: seq<Byte> | |s| == 1024 witness seq(1024, i => 0)
  type Addrs = s: seq<Uint> | |s| == 13 witness seq(13, i => 0)

  /** The fields of an inode that say where its content is. */
  datatype Inode = Inode(size: Uint, addrs: Addrs)

  /** The layout the super block describes.  Blocks below `nmeta` hold no file data. */
  datatype Geometry = Geometry(size: Uint, inodestart: nat, bmapstart: nat, nmeta: nat) {
    predicate Valid() {
      0 < inodestart <= bmapstart && bmapstart + (size + 8191) / 8192 <= nmeta <= size
    }
  }

  /** A place where a block number is kept. */
  datatype Place = Direct(i: nat, k: nat) | Indirect(i: nat) | Entry(i: nat, j: nat)

  // ---- Bits and words in a block ----

  function Bit(x: nat, k: nat): bool {
    if k == 0 then x % 2 == 1 else Bit(x / 2, k - 1)
  }

  /** `x | 1 << k` or `x & ~(1 << k)` */
  function PutBit(x: nat, k: nat, v: bool): (y: nat)
    ensures Bit(y, k) == v
  {
    if k == 0 then x / 2 * 2 + (if v then 1 else 0) else PutBit(x / 2, k - 1, v) * 2 + x % 2
  }

  lemma {:induction false} PutBitOther(x: nat, k: nat, v: bool, j: nat)
    requires j != k
    ensures Bit(PutBit(x, k, v), j) == Bit(x, j)
  {
    if k > 0 && j > 0 {
      PutBitOther(x / 2, k - 1, v, j - 1);
    }
  }

  lemma {:induction false} PutBitBound(x: nat, k: nat, v: bool, n: nat)
    requires x < 2 * Pow2(n) && k <= n
    ensures PutBit(x, k, v) < 2 * Pow2(n)
  {
    if k > 0 {
      assert Pow2(n) == 2 * Pow2(n - 1);
      PutBitBound(x / 2, k - 1, v, n - 1);
      assert PutBit(x, k, v) == PutBit(x / 2, k - 1, v) * 2 + x % 2;
    } else {
      assert PutBit(x, k, v) <= x / 2 * 2 + 1;
    }
  }

  function Pow2(n: nat): nat { if n == 0 then 1 else 2 * Pow2(n - 1) }

  /** `data[bi/8] & (1 << (bi % 8))` */
  function BitOf(blk: Blk, bi: nat): bool
    requires bi < 8192
  {
    Bit(blk[bi / 8], bi % 8)
  }

  function WithBit(blk: Blk, bi: nat, v: bool): Blk
    requires bi < 8192
  {
    assert PutBit(blk[bi / 8], bi % 8, v) < 256 by {
      assert Pow2(7) == 128;
      PutBitBound(blk[bi / 8], bi % 8, v, 7);
    }
    blk[bi / 8 := PutBit(blk[bi / 8], bi % 8, v)]
  }

  lemma WithBitAt(blk: Blk, bi: nat, v: bool, bj: nat)
    requires bi < 8192 && bj < 8192
    ensures BitOf(WithBit(blk, bi, v), bj) == if bi == bj then v else BitOf(blk, bj)
  {
    if bi != bj && bi / 8 == bj / 8 {
      PutBitOther(blk[bi / 8], bi % 8, v, bj % 8);
    }
  }

  /** `((uint*)data)[j]` */
  function Word(blk: Blk, j: nat): Uint
    requires j < 256
  {
    blk[4 * j] as int + 0x100 * (blk[4 * j + 1] as int)
      + 0x1_0000 * (blk[4 * j + 2] as int) + 0x100_0000 * (blk[4 * j + 3] as int)
  }

  function WithWord(blk: Blk, j: nat, v: Uint): Blk
    requires j < 256
  {
    blk[4 * j := v % 0x100][4 * j + 1 := v / 0x100 % 0x100][4 * j + 2 := v / 0x1_0000 % 0x100]
        [4 * j + 3 := v / 0x100_0000]
  }

  lemma WithWordAt(blk: Blk, j: nat, v: Uint, k: nat)
    requires j < 256 && k < 256
    ensures Word(WithWord(blk, j, v), k) == if k == j then v else Word(blk, k)
  {
    var blk' := WithWord(blk, j, v);
    if k == j {
      assert v == v % 0x100 + 0x100 * (v / 0x100 % 0x100) + 0x1_0000 * (v / 0x1_0000 % 0x100)
               + 0x100_0000 * (v / 0x100_0000) by { Bytes(v); }
    } else {
      assert blk'[4 * k] == blk[4 * k] && blk'[4 * k + 1] == blk[4 * k + 1];
      assert blk'[4 * k + 2] == blk[4 * k + 2] && blk'[4 * k + 3] == blk[4 * k + 3];
    }
  }

  lemma Bytes(v: nat)
    ensures v == v % 0x100 + 0x100 * (v / 0x100 % 0x100) + 0x1_0000 * (v / 0x1_0000 % 0x100)
              + 0x100_0000 * (v / 0x100_0000)
  {
    assert v / 0x1_0000 == v / 0x100 / 0x100 && v / 0x100_0000 == v / 0x1_0000 / 0x100;
  }

  function Zeroes(): (z: Blk)
    ensures forall k :: 0 <= k < 1024 ==> z[k] == 0
  {
    seq(1024, i => 0)
  }

  // ---- Who owns what ----

  predicate PlaceOk(ino: seq<Inode>, p: Place) {
    p.i < |ino| && (p.Direct? ==> p.k < 12) && (p.Entry? ==> p.j < 256)
  }

  /** The block number kept at `p`, 0 for none. */
  function At(disk: seq<Blk>, ino: seq<Inode>, p: Place): Uint
    requires PlaceOk(ino, p)
  {
    match p
    case Direct(i, k) => ino[i].addrs[k]
    case Indirect(i) => ino[i].addrs[12]
    case Entry(i, j) =>
      var a := ino[i].addrs[12];
      if a == 0 || a >= |disk| then 0 else Word(disk[a], j)
  }

  /** `own` is the inverse of `At`: every kept block number is a data block with that one owner. */
  ghost predicate Tree(g: Geometry, disk: seq<Blk>, ino: seq<Inode>, own: map<nat, Place>) {
    && g.Valid() && |disk| == g.size
    && (forall p: Place {:trigger At(disk, ino, p)} :: PlaceOk(ino, p) && At(disk, ino, p) != 0 ==>
          At(disk, ino, p) in own && own[At(disk, ino, p)] == p)
    && (forall b :: b in own ==> g.nmeta <= b < g.size && PlaceOk(ino, own[b]) && At(disk, ino, own[b]) == b)
  }

  function Used(g: Geometry, disk: seq<Blk>, b: nat): bool
    requires g.Valid() && |disk| == g.size && b < g.size
  {
    BitOf(disk[g.bmapstart + b / 8192], b % 8192)
  }

  /** The set bits are exactly the metadata blocks, the owned blocks and those in `ex`. */
  ghost predicate Bits(g: Geometry, disk: seq<Blk>, own: map<nat, Place>, ex: set<nat>) {
    && g.Valid() && |disk| == g.size
    && (forall b :: b in ex ==> g.nmeta <= b < g.size && b !in own)
    && forall b: nat {:trigger Used(g, disk, b)} :: b < g.size ==>
         (Used(g, disk, b) <==> b < g.nmeta || b in own || b in ex)
  }

  // ---- File contents ----

  /** The block that holds block `bn` of file `i`, 0 for a hole. */
  function BlockOf(disk: seq<Blk>, ino: seq<Inode>, i: nat, bn: nat): Uint
    requires i < |ino| && bn < 268
  {
    if bn < 12 then At(disk, ino, Direct(i, bn)) else At(disk, ino, Entry(i, bn - 12))
  }

  function ByteAt(disk: seq<Blk>, ino: seq<Inode>, i: nat, pos: nat): Byte
    requires i < |ino| && pos < 274432
  {
    var b := BlockOf(disk, ino, i, pos / 1024);
    if b == 0 || b >= |disk| then 0 else disk[b][pos % 1024]
  }

  /** Every block number that was kept somewhere is still there. */
  ghost predicate KeepsBlocks(disk: seq<Blk>, ino: seq<Inode>, disk': seq<Blk>, ino': seq<Inode>) {
    |ino'| == |ino| && forall p: Place {:trigger At(disk', ino', p)} ::
      PlaceOk(ino, p) && At(disk, ino, p) != 0 ==> At(disk', ino', p) == At(disk, ino, p)
  }

  /** Every file has the same bytes, at every position, as before. */
  ghost predicate SameBytes(disk: seq<Blk>, ino: seq<Inode>, disk': seq<Blk>, ino': seq<Inode>) {
    KeepsBlocks(disk, ino, disk', ino') && forall i: nat, pos: nat {:trigger ByteAt(disk', ino', i, pos)} ::
      i < |ino| && pos < 274432 ==> ByteAt(disk', ino', i, pos) == ByteAt(disk, ino, i, pos)
  }

  // ---- Frames ----

  /** Only indirect blocks matter to the tree. */
  lemma TreeFrame(g: Geometry, disk: seq<Blk>, disk': seq<Blk>, ino: seq<Inode>, own: map<nat, Place>)
    requires Tree(g, disk, ino, own) && |disk'| == |disk|
    requires forall b :: b in own && own[b].Indirect? ==> disk'[b] == disk[b]
    ensures Tree(g, disk', ino, own)
    ensures forall p: Place {:trigger At(disk', ino, p)} :: PlaceOk(ino, p) ==> At(disk', ino, p) == At(disk, ino, p)
  {
    forall p: Place | PlaceOk(ino, p) ensures At(disk', ino, p) == At(disk, ino, p) {
      if p.Entry? {
        assert At(disk, ino, Indirect(p.i)) == ino[p.i].addrs[12];
      }
    }
  }

  /** Content is in owned blocks only. */
  lemma BytesFrame(g: Geometry, disk: seq<Blk>, disk': seq<Blk>, ino: seq<Inode>, own: map<nat, Place>)
    requires Tree(g, disk, ino, own) && |disk'| == |disk|
    requires forall b :: b in own ==> disk'[b] == disk[b]
    ensures SameBytes(disk, ino, disk', ino)
  {
    TreeFrame(g, disk, disk', ino, own);
  }

  // ---- Allocation ----

  /** The disk after the bit of `b` has been set or cleared. */
  function Marked(g: Geometry, disk: seq<Blk>, b: nat, v: bool): (d: seq<Blk>)
    requires g.Valid() && |disk| == g.size && b < g.size
    ensures |d| == |disk|
  {
    var bb := g.bmapstart + b / 8192;
    disk[bb := WithBit(disk[bb], b % 8192, v)]
  }

  lemma MarkedBits(g: Geometry, disk: seq<Blk>, b: nat, v: bool, c: nat)
    requires g.Valid() && |disk| == g.size && b < g.size && c < g.size
    ensures Used(g, Marked(g, disk, b, v), c) == if c == b then v else Used(g, disk, c)
  {
    WithBitAt(disk[g.bmapstart + b / 8192], b % 8192, v, c % 8192);
  }

  /** Metadata blocks are not data blocks. */
  lemma MarkedFrame(g: Geometry, disk: seq<Blk>, ino: seq<Inode>, own: map<nat, Place>, b: nat, v: bool)
    requires Tree(g, disk, ino, own) && b < g.size
    ensures Tree(g, Marked(g, disk, b, v), ino, own)
    ensures SameBytes(disk, ino, Marked(g, disk, b, v), ino)
  {
    TreeFrame(g, disk, Marked(g, disk, b, v), ino, own);
    BytesFrame(g, disk, Marked(g, disk, b, v), ino, own);
  }

  /** A clear bit belongs to a block nobody owns; setting it accounts for one more block. */
  lemma TakeBits(g: Geometry, disk: seq<Blk>, own: map<nat, Place>, ex: set<nat>, r: nat)
    requires Bits(g, disk, own, ex) && r < g.size && !Used(g, disk, r)
    ensures g.nmeta <= r && r !in own && r !in ex
    ensures Bits(g, Marked(g, disk, r, true), own, ex + {r})
  {
    forall b: nat | b < g.size ensures Used(g, Marked(g, disk, r, true), b) == (b == r || Used(g, disk, b)) {
      MarkedBits(g, disk, r, true, b);
    }
  }

  /** Clearing the bit of a block that is held but not owned. */
  lemma GiveBits(g: Geometry, disk: seq<Blk>, own: map<nat, Place>, ex: set<nat>, r: nat)
    requires Bits(g, disk, own, ex) && r in ex
    ensures r < g.size && Used(g, disk, r)
    ensures Bits(g, Marked(g, disk, r, false), own, ex - {r})
  {
    forall b: nat | b < g.size ensures Used(g, Marked(g, disk, r, false), b) == (b != r && Used(g, disk, b)) {
      MarkedBits(g, disk, r, false, b);
    }
  }

  /** Writing a data block leaves the bitmap alone. */
  lemma BitsFrame(g: Geometry, disk: seq<Blk>, own: map<nat, Place>, ex: set<nat>, b: nat, blk: Blk)
    requires Bits(g, disk, own, ex) && g.nmeta <= b < g.size
    ensures Bits(g, disk[b := blk], own, ex)
  {
    var disk' := disk[b := blk];
    forall c: nat | c < g.size ensures Used(g, disk', c) == Used(g, disk, c) {
    }
  }

  /** Zeroing a block nobody owns is harmless. */
  lemma ZeroFrame(g: Geometry, disk: seq<Blk>, ino: seq<Inode>, own: map<nat, Place>, r: nat)
    requires Tree(g, disk, ino, own) && r < g.size && r !in own
    ensures Tree(g, disk[r := Zeroes()], ino, own)
    ensures SameBytes(disk, ino, disk[r := Zeroes()], ino)
  {
    TreeFrame(g, disk, disk[r := Zeroes()], ino, own);
    BytesFrame(g, disk, disk[r := Zeroes()], ino, own);
  }

  // ---- Hanging a new block ----

  function SetAddr(ino: seq<Inode>, i: nat, k: nat, b: Uint): seq<Inode>
    requires i < |ino| && k < 13
  {
    ino[i := Inode(ino[i].size, ino[i].addrs[k := b])]
  }

  ghost predicate NewBlock(g: Geometry, disk: seq<Blk>, own: map<nat, Place>, r: nat) {
    g.nmeta <= r < g.size == |disk| && r !in own && disk[r] == Zeroes()
  }

  lemma HangDirect(g: Geometry, disk: seq<Blk>, ino: seq<Inode>, own: map<nat, Place>, i: nat, k: nat, r: nat)
    requires Tree(g, disk, ino, own) && NewBlock(g, disk, own, r)
    requires i < |ino| && k < 12 && ino[i].addrs[k] == 0
    ensures Tree(g, disk, SetAddr(ino, i, k, r), own[r := Direct(i, k)])
    ensures SameBytes(disk, ino, disk, SetAddr(ino, i, k, r))
  {
    var ino' := SetAddr(ino, i, k, r);
    forall p: Place | PlaceOk(ino', p)
      ensures At(disk, ino', p) == if p == Direct(i, k) then r else At(disk, ino, p)
    {
    }
  }

  /** No block of any file has changed but those of file `i` from `lo` up to `hi`. */
  ghost predicate Elsewhere(disk: seq<Blk>, ino: seq<Inode>, disk': seq<Blk>, ino': seq<Inode>, i: nat, lo: nat,
                            hi: nat) {
    |ino'| == |ino| && forall i': nat, bn: nat {:trigger BlockOf(disk', ino', i', bn)} ::
      i' < |ino| && bn < 268 && (i' != i || bn < lo || hi <= bn) ==>
          BlockOf(disk', ino', i', bn) == BlockOf(disk, ino, i', bn)
  }

  lemma HangDirectElsewhere(disk: seq<Blk>, ino: seq<Inode>, i: nat, k: nat, r: Uint)
    requires i < |ino| && k < 12
    ensures Elsewhere(disk, ino, disk, SetAddr(ino, i, k, r), i, k, k + 1)
  {
  }

  lemma HangIndirectElsewhere(g: Geometry, disk: seq<Blk>, ino: seq<Inode>, own: map<nat, Place>, i: nat, r: nat)
    requires Tree(g, disk, ino, own) && NewBlock(g, disk, own, r) && i < |ino| && ino[i].addrs[12] == 0
    ensures Elsewhere(disk, ino, disk, SetAddr(ino, i, 12, r), i, 0, 0)
  {
    forall i': nat, bn: nat | i' < |ino| && bn < 268
      ensures BlockOf(disk, SetAddr(ino, i, 12, r), i', bn) == BlockOf(disk, ino, i', bn)
    {
      if bn >= 12 { WordOfZeroes(bn - 12); }
    }
  }

  lemma HangEntryElsewhere(g: Geometry, disk: seq<Blk>, ino: seq<Inode>, own: map<nat, Place>, i: nat, j: nat, r: nat)
    requires Tree(g, disk, ino, own) && r < g.size && i < |ino| && j < 256 && 0 < ino[i].addrs[12] < |disk|
    ensures Elsewhere(disk, ino, SetEntry(disk, ino[i].addrs[12], j, r), ino, i, 12 + j, 13 + j)
  {
    var disk' := SetEntry(disk, ino[i].addrs[12], j, r);
    forall i': nat, bn: nat | i' < |ino| && bn < 268 && (i' != i || bn != 12 + j)
      ensures BlockOf(disk', ino, i', bn) == BlockOf(disk, ino, i', bn)
    {
      HangEntryAt(g, disk, ino, own, i, j, r, if bn < 12 then Direct(i', bn) else Entry(i', bn - 12));
    }
  }

  lemma WriteDataElsewhere(g: Geometry, disk: seq<Blk>, ino: seq<Inode>, own: map<nat, Place>, i: nat, bn: nat,
                           blk: Blk)
    requires Tree(g, disk, ino, own) && i < |ino| && bn < 268 && BlockOf(disk, ino, i, bn) != 0
    ensures var b := BlockOf(disk, ino, i, bn); b < |disk| && Elsewhere(disk, ino, disk[b := blk], ino, i, 0, 0)
  {
    var b := BlockOf(disk, ino, i, bn);
    TreeFrame(g, disk, disk[b := blk], ino, own);
  }

  lemma ElsewhereThrough(disk: seq<Blk>, ino: seq<Inode>, disk1: seq<Blk>, ino1: seq<Inode>, disk2: seq<Blk>,
                         ino2: seq<Inode>, i: nat, lo: nat, mid: nat, at: nat, hi: nat)
    requires Elsewhere(disk, ino, disk1, ino1, i, lo, mid) && Elsewhere(disk1, ino1, disk2, ino2, i, at, hi)
    requires lo <= at || at == hi
    ensures mid <= hi ==> Elsewhere(disk, ino, disk2, ino2, i, lo, hi)
    ensures at == hi ==> Elsewhere(disk, ino, disk2, ino2, i, lo, mid)
  {
    forall i': nat, bn: nat | i' < |ino| && bn < 268
      ensures (i' != i || bn < at || hi <= bn) ==> BlockOf(disk2, ino2, i', bn) == BlockOf(disk1, ino1, i', bn)
    {
    }
  }

  lemma WordOfZeroes(j: nat)
    requires j < 256
    ensures Word(Zeroes(), j) == 0
  {
  }

  lemma HangIndirect(g: Geometry, disk: seq<Blk>, ino: seq<Inode>, own: map<nat, Place>, i: nat, r: nat)
    requires Tree(g, disk, ino, own) && NewBlock(g, disk, own, r)
    requires i < |ino| && ino[i].addrs[12] == 0
    ensures Tree(g, disk, SetAddr(ino, i, 12, r), own[r := Indirect(i)])
    ensures SameBytes(disk, ino, disk, SetAddr(ino, i, 12, r))
  {
    var ino' := SetAddr(ino, i, 12, r);
    forall p: Place | PlaceOk(ino', p)
      ensures At(disk, ino', p) == if p == Indirect(i) then r else At(disk, ino, p)
    {
      if p.Entry? { WordOfZeroes(p.j); }
    }
  }

  function SetEntry(disk: seq<Blk>, a: nat, j: nat, b: Uint): seq<Blk>
    requires a < |disk| && j < 256
  {
    disk[a := WithWord(disk[a], j, b)]
  }

  lemma HangEntryAt(g: Geometry, disk: seq<Blk>, ino: seq<Inode>, own: map<nat, Place>, i: nat, j: nat, r: nat,
                    p: Place)
    requires Tree(g, disk, ino, own) && r < g.size && i < |ino| && j < 256 && PlaceOk(ino, p)
    requires 0 < ino[i].addrs[12] < |disk|
    ensures At(SetEntry(disk, ino[i].addrs[12], j, r), ino, p) == if p == Entry(i, j) then r else At(disk, ino, p)
  {
    if p.Entry? {
      assert At(disk, ino, Indirect(i)) == ino[i].addrs[12];
      assert At(disk, ino, Indirect(p.i)) == ino[p.i].addrs[12];
      if p.i == i {
        WithWordAt(disk[ino[i].addrs[12]], j, r, p.j);
      }
    }
  }

  lemma HangEntry(g: Geometry, disk: seq<Blk>, ino: seq<Inode>, own: map<nat, Place>, i: nat, j: nat, r: nat)
    requires Tree(g, disk, ino, own) && NewBlock(g, disk, own, r)
    requires i < |ino| && j < 256 && 0 < ino[i].addrs[12] < |disk| && At(disk, ino, Entry(i, j)) == 0
    ensures var disk' := SetEntry(disk, ino[i].addrs[12], j, r);
            && Tree(g, disk', ino, own[r := Entry(i, j)])
            && SameBytes(disk, ino, disk', ino)
  {
    var disk' := SetEntry(disk, ino[i].addrs[12], j, r);
    forall p: Place | PlaceOk(ino, p) ensures At(disk', ino, p) == if p == Entry(i, j) then r else At(disk, ino, p) {
      HangEntryAt(g, disk, ino, own, i, j, r, p);
    }
    assert At(disk, ino, Indirect(i)) == ino[i].addrs[12];
  }

  /** A block that was held and is now owned. */
  lemma Owned(g: Geometry, disk: seq<Blk>, own: map<nat, Place>, ex: set<nat>, r: nat, p: Place)
    requires Bits(g, disk, own, ex) && r in ex
    ensures Bits(g, disk, own[r := p], ex - {r})
  {
  }

  // ---- Writing data ----

  /** The bytes of block `bn` of file `i` are now those of `blk`, and no other byte has changed. */
  ghost predicate BlockWritten(disk: seq<Blk>, disk': seq<Blk>, ino: seq<Inode>, i: nat, bn: nat, blk: Blk) {
    && KeepsBlocks(disk, ino, disk', ino)
    && forall i': nat, pos: nat {:trigger ByteAt(disk', ino, i', pos)} :: i' < |ino| && pos < 274432 ==>
         ByteAt(disk', ino, i', pos) ==
           if i' == i && pos / 1024 == bn then blk[pos % 1024] else ByteAt(disk, ino, i', pos)
  }

  /** A data block has one owner, so writing it shows in one block of one file. */
  lemma WriteData(g: Geometry, disk: seq<Blk>, ino: seq<Inode>, own: map<nat, Place>, i: nat, bn: nat, blk: Blk)
    requires Tree(g, disk, ino, own) && i < |ino| && bn < 268 && BlockOf(disk, ino, i, bn) != 0
    ensures var b := BlockOf(disk, ino, i, bn);
            && g.nmeta <= b < g.size && Tree(g, disk[b := blk], ino, own)
            && BlockWritten(disk, disk[b := blk], ino, i, bn, blk)
  {
    var b := BlockOf(disk, ino, i, bn);
    var disk' := disk[b := blk];
    TreeFrame(g, disk, disk', ino, own);
    forall i': nat, pos: nat | i' < |ino| && pos < 274432
      ensures ByteAt(disk', ino, i', pos) ==
                if i' == i && pos / 1024 == bn then blk[pos % 1024] else ByteAt(disk, ino, i', pos)
    {
      assert BlockOf(disk', ino, i', pos / 1024) == BlockOf(disk, ino, i', pos / 1024);
    }
  }

  // ---- Taking blocks away ----

  /** Every file but `i` has the same bytes as before. */
  ghost predicate OthersSame(disk: seq<Blk>, ino: seq<Inode>, disk': seq<Blk>, ino': seq<Inode>, i: nat) {
    |ino'| == |ino| && forall i': nat, pos: nat {:trigger ByteAt(disk', ino', i', pos)} ::
      i' < |ino| && i' != i && pos < 274432 ==> ByteAt(disk', ino', i', pos) == ByteAt(disk, ino, i', pos)
  }

  lemma DropDirect(g: Geometry, disk: seq<Blk>, ino: seq<Inode>, own: map<nat, Place>, i: nat, k: nat)
    requires Tree(g, disk, ino, own) && i < |ino| && k < 12 && ino[i].addrs[k] != 0
    ensures ino[i].addrs[k] in own && own[ino[i].addrs[k]] == Direct(i, k)
    ensures Tree(g, disk, SetAddr(ino, i, k, 0), own - {ino[i].addrs[k] as nat})
    ensures OthersSame(disk, ino, disk, SetAddr(ino, i, k, 0), i)
  {
    var ino' := SetAddr(ino, i, k, 0);
    forall p: Place | PlaceOk(ino', p)
      ensures At(disk, ino', p) == if p == Direct(i, k) then 0 else At(disk, ino, p)
    {
    }
    assert At(disk, ino, Direct(i, k)) == ino[i].addrs[k];
  }

  /** The indirect block of file `i` and the blocks it lists. */
  ghost function Below(own: map<nat, Place>, i: nat): set<nat> {
    set b | b in own && own[b].i == i && !own[b].Direct?
  }

  lemma DropIndirect(g: Geometry, disk: seq<Blk>, ino: seq<Inode>, own: map<nat, Place>, i: nat)
    requires Tree(g, disk, ino, own) && i < |ino|
    ensures Tree(g, disk, SetAddr(ino, i, 12, 0), own - Below(own, i))
    ensures OthersSame(disk, ino, disk, SetAddr(ino, i, 12, 0), i)
  {
    var ino' := SetAddr(ino, i, 12, 0);
    forall p: Place | PlaceOk(ino', p)
      ensures At(disk, ino', p) == if p.i == i && !p.Direct? then 0 else At(disk, ino, p)
    {
    }
  }

  // ---- Sizes ----

  function SetSize(ino: seq<Inode>, i: nat, n: Uint): seq<Inode>
    requires i < |ino|
  {
    ino[i := Inode(n, ino[i].addrs)]
  }

  lemma SizeKeeps(g: Geometry, disk: seq<Blk>, ino: seq<Inode>, own: map<nat, Place>, i: nat, n: Uint)
    requires Tree(g, disk, ino, own) && i < |ino|
    ensures Tree(g, disk, SetSize(ino, i, n), own) && SameBytes(disk, ino, disk, SetSize(ino, i, n))
  {
    var ino' := SetSize(ino, i, n);
    forall p: Place | PlaceOk(ino', p) ensures At(disk, ino', p) == At(disk, ino, p) {
    }
  }

  /** Every block of file `i` up to its size is allocated. */
  ghost predicate NoHoles(disk: seq<Blk>, ino: seq<Inode>, i: nat) {
    i < |ino| && forall bn: nat {:trigger BlockOf(disk, ino, i, bn)} ::
      bn < 268 && bn * 1024 < ino[i].size ==> BlockOf(disk, ino, i, bn) != 0
  }

  /** No block of file `i` past its size is allocated. */
  ghost predicate NoTail(disk: seq<Blk>, ino: seq<Inode>, i: nat) {
    i < |ino| && forall bn: nat {:trigger BlockOf(disk, ino, i, bn)} ::
      bn < 268 && bn * 1024 >= ino[i].size ==> BlockOf(disk, ino, i, bn) == 0
  }
}
