/**
 * The operations of kernel/fs.c on blocks and file contents, in place, and the chunked
 * `filewrite` of kernel/file.c.
 */
module FsCode {

  import opened Fs
  import RedoLog

  function Min(a: nat, b: nat): nat { if a < b then a else b }

  function Max(a: nat, b: nat): nat { if a < b then b else a }

  ghost predicate Sizes(ino: seq<Inode>) {
    forall i :: 0 <= i < |ino| ==> ino[i].size <= 274432
  }

  /** No block is left. */
  ghost predicate Full(g: Geometry, disk: seq<Blk>)
    requires g.Valid() && |disk| == g.size
  {
    forall b: nat {:trigger Used(g, disk, b)} :: b < g.size ==> Used(g, disk, b)
  }

  /** The numbers from `lo` on, `n` of them. */
  ghost function Range(lo: nat, n: nat): (r: set<nat>)
    ensures |r| == n && forall b :: b in r <==> lo <= b < lo + n
  {
    if n == 0 then {} else Range(lo, n - 1) + {lo + n - 1}
  }

  ghost function NumBitmap(g: Geometry): nat { (g.size + 8191) / 8192 }

  /** The blocks of the bitmap. */
  ghost function BitmapBlocks(g: Geometry): set<nat> { Range(g.bmapstart, NumBitmap(g)) }

  /** Only block numbers of inode `i` have changed, and only ones that were 0. */
  ghost predicate Filled(ino: seq<Inode>, ino': seq<Inode>, i: nat) {
    && |ino'| == |ino| && i < |ino| && ino'[i].size == ino[i].size
    && (forall i' :: 0 <= i' < |ino| && i' != i ==> ino'[i'] == ino[i'])
    && (forall k :: 0 <= k < 13 && ino[i].addrs[k] != 0 ==> ino'[i].addrs[k] == ino[i].addrs[k])
  }

  /** `src` has replaced the bytes of file `i` from `off` on, and no other byte has changed. */
  ghost predicate Written(disk: seq<Blk>, ino: seq<Inode>, disk': seq<Blk>, ino': seq<Inode>, i: nat, off: nat,
                          src: seq<Byte>) {
    KeepsBlocks(disk, ino, disk', ino') && forall i': nat, pos: nat {:trigger ByteAt(disk', ino', i', pos)} ::
      i' < |ino| && pos < 274432 ==>
        ByteAt(disk', ino', i', pos) ==
          if i' == i && off <= pos < off + |src| then src[pos - off] else ByteAt(disk, ino, i', pos)
  }

  /** The block with `src` copied in at `o`. */
  function Patched(blk: Blk, o: nat, src: seq<Byte>): Blk
    requires o + |src| <= 1024
  {
    blk[..o] + src + blk[o + |src|..]
  }

  /** How many blocks of a file `n` bytes at `off` meet. */
  function BlocksMet(off: nat, n: nat): nat { if n == 0 then 0 else (off + n + 1023) / 1024 - off / 1024 }

  /** All but the first and last piece of a write are whole blocks. */
  predicate Aligned(off: nat, tot: nat, n: nat) { 0 < tot < n ==> (off + tot) % 1024 == 0 }

  lemma OneMoreMet(off: nat, tot: nat, m: nat, n: nat)
    requires tot < n && Aligned(off, tot, n) && 0 < m == Min(n - tot, 1024 - (off + tot) % 1024)
    ensures BlocksMet(off, tot + m) == BlocksMet(off, tot) + 1 && Aligned(off, tot + m, n)
    ensures (off + tot) / 1024 == off / 1024 + BlocksMet(off, tot)
  {
  }

  /** Every block the `n` bytes at `off` meet is allocated. */
  ghost predicate Covered(disk: seq<Blk>, ino: seq<Inode>, i: nat, off: nat, n: nat) {
    && i < |ino|
    && forall bn: nat {:trigger BlockOf(disk, ino, i, bn)} ::
         off / 1024 <= bn < off / 1024 + BlocksMet(off, n) && bn < 268 ==> BlockOf(disk, ino, i, bn) != 0
  }

  /** No block holds byte `pos` of file `i`. */
  ghost predicate Hole(disk: seq<Blk>, ino: seq<Inode>, i: nat, pos: nat) {
    i < |ino| && pos < 274432 && BlockOf(disk, ino, i, pos / 1024) == 0
  }

  /** A block that is not there now was not there before. */
  lemma OldHole(disk: seq<Blk>, ino: seq<Inode>, disk1: seq<Blk>, ino1: seq<Inode>, i: nat, pos: nat)
    requires SameBytes(disk, ino, disk1, ino1) && i < |ino| && pos < 274432
    ensures BlockOf(disk1, ino1, i, pos / 1024) == 0 ==> Hole(disk, ino, i, pos)
    ensures BlockOf(disk, ino, i, pos / 1024) != 0 ==> !Hole(disk, ino, i, pos)
  {
    var bn := pos / 1024;
    var p := if bn < 12 then Direct(i, bn) else Entry(i, bn - 12);
    assert PlaceOk(ino, p) && BlockOf(disk1, ino1, i, bn) == At(disk1, ino1, p)
           && BlockOf(disk, ino, i, bn) == At(disk, ino, p);
  }

  lemma CoveredHasNoHole(disk: seq<Blk>, ino: seq<Inode>, i: nat, off: nat, n: nat)
    requires Covered(disk, ino, i, off, n)
    ensures forall pos: nat {:trigger Hole(disk, ino, i, pos)} :: off <= pos < off + n ==> !Hole(disk, ino, i, pos)
  {
    forall pos: nat | off <= pos < off + n && pos < 274432 ensures BlockOf(disk, ino, i, pos / 1024) != 0 {
      assert off / 1024 <= pos / 1024 < off / 1024 + BlocksMet(off, n);
    }
  }

  /** How far a write of `src` to file `i` at `off` has come, from `disk0` and `ino0`. */
  ghost predicate Writing(disk0: seq<Blk>, ino0: seq<Inode>, disk: seq<Blk>, ino: seq<Inode>,
                          i: nat, off: nat, src: seq<Byte>, tot: nat) {
    && tot <= |src| && Aligned(off, tot, |src|) && Filled(ino0, ino, i) && Covered(disk, ino, i, off, tot)
    && Written(disk0, ino0, disk, ino, i, off, src[..tot])
  }

  lemma WritingSame(disk0: seq<Blk>, ino0: seq<Inode>, disk: seq<Blk>, ino: seq<Inode>, disk1: seq<Blk>,
                    ino1: seq<Inode>, i: nat, off: nat, src: seq<Byte>, tot: nat)
    requires Writing(disk0, ino0, disk, ino, i, off, src, tot) && SameBytes(disk, ino, disk1, ino1)
             && Filled(ino, ino1, i)
    ensures Writing(disk0, ino0, disk1, ino1, i, off, src, tot)
  {
    forall i': nat, pos: nat | i' < |ino1| && pos < 274432
      ensures ByteAt(disk1, ino1, i', pos) == ByteAt(disk, ino, i', pos)
    {
    }
    forall p: Place | PlaceOk(ino0, p) && At(disk0, ino0, p) != 0 ensures At(disk1, ino1, p) == At(disk0, ino0, p) {
      assert At(disk, ino, p) == At(disk0, ino0, p);
    }
    forall bn: nat | bn < 268 && BlockOf(disk, ino, i, bn) != 0 ensures BlockOf(disk1, ino1, i, bn) != 0 {
    }
  }

  /** One block of a longer write. */
  lemma WriteMore(disk0: seq<Blk>, ino0: seq<Inode>, disk: seq<Blk>, ino: seq<Inode>, disk1: seq<Blk>,
                  i: nat, off: nat, src: seq<Byte>, tot: nat, m: nat)
    requires tot < |src| && off + |src| <= 274432 && 0 < m == Min(|src| - tot, 1024 - (off + tot) % 1024)
    requires Written(disk0, ino0, disk, ino, i, off, src[..tot]) && i < |ino|
    requires 0 < BlockOf(disk, ino, i, (off + tot) / 1024) < |disk|
    requires BlockWritten(disk, disk1, ino, i, (off + tot) / 1024,
               Patched(disk[BlockOf(disk, ino, i, (off + tot) / 1024)], (off + tot) % 1024, src[tot..tot + m]))
    ensures Written(disk0, ino0, disk1, ino, i, off, src[..tot + m])
  {
    forall i': nat, pos: nat | i' < |ino| && pos < 274432
      ensures ByteAt(disk1, ino, i', pos) ==
                if i' == i && off <= pos < off + tot + m then src[pos - off] else ByteAt(disk0, ino0, i', pos)
    {
      assert ByteAt(disk, ino, i', pos) == if i' == i && off <= pos < off + tot then src[pos - off]
               else ByteAt(disk0, ino0, i', pos);
    }
    forall p: Place | PlaceOk(ino0, p) && At(disk0, ino0, p) != 0 ensures At(disk1, ino, p) == At(disk0, ino0, p) {
      assert At(disk, ino, p) == At(disk0, ino0, p);
    }
  }

  lemma CoverMore(disk: seq<Blk>, disk1: seq<Blk>, ino: seq<Inode>, i: nat, off: nat, n: nat, tot: nat, m: nat)
    requires tot < n && Aligned(off, tot, n) && 0 < m == Min(n - tot, 1024 - (off + tot) % 1024) && off + n <= 274432
    requires Covered(disk, ino, i, off, tot) && KeepsBlocks(disk, ino, disk1, ino)
    requires BlockOf(disk, ino, i, (off + tot) / 1024) != 0
    ensures Covered(disk1, ino, i, off, tot + m)
  {
    OneMoreMet(off, tot, m, n);
    forall bn: nat | bn < 268 && BlockOf(disk, ino, i, bn) != 0 ensures BlockOf(disk1, ino, i, bn) != 0 {
    }
  }

  /** A turn of the loop: `bmap` may have allocated, then one block was written. */
  lemma WritingMore(disk0: seq<Blk>, ino0: seq<Inode>, disk1: seq<Blk>, ino1: seq<Inode>, mid: seq<Blk>,
                    ino: seq<Inode>, disk: seq<Blk>, i: nat, off: nat, src: seq<Byte>, tot: nat, m: nat)
    requires tot < |src| && off + |src| <= 274432 && 0 < m == Min(|src| - tot, 1024 - (off + tot) % 1024)
    requires Writing(disk0, ino0, disk1, ino1, i, off, src, tot) && SameBytes(disk1, ino1, mid, ino)
             && Filled(ino1, ino, i)
    requires 0 < BlockOf(mid, ino, i, (off + tot) / 1024) < |mid|
    requires BlockWritten(mid, disk, ino, i, (off + tot) / 1024,
               Patched(mid[BlockOf(mid, ino, i, (off + tot) / 1024)], (off + tot) % 1024, src[tot..tot + m]))
    ensures Writing(disk0, ino0, disk, ino, i, off, src, tot + m)
  {
    WritingSame(disk0, ino0, disk1, ino1, mid, ino, i, off, src, tot);
    WriteMore(disk0, ino0, mid, ino, disk, i, off, src, tot, m);
    CoverMore(mid, disk, ino, i, off, |src|, tot, m);
    OneMoreMet(off, tot, m, |src|);
  }

  /** A write that starts inside the file leaves no hole. */
  lemma NoNewHole(disk0: seq<Blk>, ino0: seq<Inode>, disk: seq<Blk>, ino: seq<Inode>, i: nat, off: nat, src: seq<Byte>,
                  tot: nat, bn: nat)
    requires Writing(disk0, ino0, disk, ino, i, off, src, tot) && NoHoles(disk0, ino0, i) && off <= ino0[i].size
    requires bn < 268 && bn * 1024 < Max(ino0[i].size, off + tot)
    ensures BlockOf(disk, ino, i, bn) != 0
  {
    if bn * 1024 < ino0[i].size {
      assert BlockOf(disk0, ino0, i, bn) != 0;
    }
  }

  /** What a write has come to once the size of the file is set. */
  lemma Resized(disk0: seq<Blk>, ino0: seq<Inode>, disk: seq<Blk>, ino: seq<Inode>, i: nat, off: nat, src: seq<Byte>,
                tot: nat)
    requires Writing(disk0, ino0, disk, ino, i, off, src, tot) && off <= ino0[i].size && off + tot <= 274432
    ensures var ino' := SetSize(ino, i, Max(ino[i].size, off + tot));
            && Written(disk0, ino0, disk, ino', i, off, src[..tot]) && Covered(disk, ino', i, off, tot)
            && (NoHoles(disk0, ino0, i) ==> NoHoles(disk, ino', i))
            && forall i' :: 0 <= i' < |ino0| && i' != i ==> ino'[i'] == ino0[i']
  {
    var ino' := SetSize(ino, i, Max(ino[i].size, off + tot));
    forall p: Place | PlaceOk(ino, p) ensures At(disk, ino', p) == At(disk, ino, p) {
    }
    forall i': nat, pos: nat | i' < |ino| && pos < 274432
      ensures ByteAt(disk, ino', i', pos) == ByteAt(disk, ino, i', pos)
    {
    }
    forall bn: nat | bn < 268 ensures BlockOf(disk, ino', i, bn) == BlockOf(disk, ino, i, bn) {
    }
    if NoHoles(disk0, ino0, i) {
      forall bn: nat | bn < 268 && bn * 1024 < ino'[i].size ensures BlockOf(disk, ino', i, bn) != 0 {
        NoNewHole(disk0, ino0, disk, ino, i, off, src, tot, bn);
      }
    }
  }

  /** `out` is what file `i` holds from `off` on. */
  ghost predicate Holds(disk: seq<Blk>, ino: seq<Inode>, i: nat, off: nat, out: seq<Byte>) {
    && i < |ino| && off + |out| <= 274432
    && forall k: nat {:trigger out[k]} :: k < |out| ==> out[k] == ByteAt(disk, ino, i, off + k)
  }

  /** `m` bytes of a block from `o` on. */
  function Piece(blk: Blk, o: nat, m: nat): (r: seq<Byte>)
    requires o + m <= 1024
    ensures |r| == m
  {
    blk[o..o + m]
  }

  lemma DataBlock(g: Geometry, disk: seq<Blk>, ino: seq<Inode>, own: map<nat, Place>, i: nat, bn: nat)
    requires Tree(g, disk, ino, own) && i < |ino| && bn < 268
    ensures BlockOf(disk, ino, i, bn) < |disk|
  {
  }

  lemma HoldsMore(disk: seq<Blk>, ino: seq<Inode>, i: nat, off: nat, out: seq<Byte>, m: nat)
    requires Holds(disk, ino, i, off, out)
    requires off + |out| + m <= 274432 && 0 < m && (off + |out|) % 1024 + m <= 1024
    requires 0 < BlockOf(disk, ino, i, (off + |out|) / 1024) < |disk|
    ensures var at := off + |out|;
            Holds(disk, ino, i, off, out + Piece(disk[BlockOf(disk, ino, i, at / 1024)], at % 1024, m))
  {
    var o := (off + |out|) % 1024;
    var out' := out + Piece(disk[BlockOf(disk, ino, i, (off + |out|) / 1024)], o, m);
    forall k: nat | k < |out'| ensures out'[k] == ByteAt(disk, ino, i, off + k) {
      if k < |out| {
        assert out'[k] == out[k];
      } else {
        assert (off + k) / 1024 == (off + |out|) / 1024 && (off + k) % 1024 == o + k - |out|;
      }
    }
  }

  lemma SameBytesRefl(disk: seq<Blk>, ino: seq<Inode>)
    ensures SameBytes(disk, ino, disk, ino)
  {
  }

  lemma SameBytesThrough(disk0: seq<Blk>, ino0: seq<Inode>, disk: seq<Blk>, ino: seq<Inode>, disk1: seq<Blk>,
                         ino1: seq<Inode>)
    requires SameBytes(disk0, ino0, disk, ino) && SameBytes(disk, ino, disk1, ino1)
    ensures SameBytes(disk0, ino0, disk1, ino1)
  {
    forall i: nat, pos: nat | i < |ino1| && pos < 274432
      ensures ByteAt(disk1, ino1, i, pos) == ByteAt(disk0, ino0, i, pos)
    {
      assert ByteAt(disk, ino, i, pos) == ByteAt(disk0, ino0, i, pos);
    }
    forall p: Place | PlaceOk(ino0, p) && At(disk0, ino0, p) != 0 ensures At(disk1, ino1, p) == At(disk0, ino0, p) {
      assert At(disk, ino, p) == At(disk0, ino0, p);
    }
  }

  lemma HoldsSame(disk: seq<Blk>, ino: seq<Inode>, disk1: seq<Blk>, ino1: seq<Inode>, i: nat, off: nat, out: seq<Byte>)
    requires Holds(disk, ino, i, off, out) && SameBytes(disk, ino, disk1, ino1)
    ensures Holds(disk1, ino1, i, off, out)
  {
    forall k: nat | k < |out| ensures out[k] == ByteAt(disk1, ino1, i, off + k) {
    }
  }

  /** A read after a write of the same range gives back what was written. */
  lemma ReadBack(disk0: seq<Blk>, ino0: seq<Inode>, disk: seq<Blk>, ino: seq<Inode>, disk1: seq<Blk>, ino1: seq<Inode>,
                 i: nat, off: nat, src: seq<Byte>, out: seq<Byte>)
    requires Written(disk0, ino0, disk, ino, i, off, src) && SameBytes(disk, ino, disk1, ino1)
    requires Holds(disk1, ino1, i, off, out) && |out| == |src|
    ensures out == src
  {
    forall k: nat | k < |src| ensures out[k] == src[k] {
      assert ByteAt(disk1, ino1, i, off + k) == ByteAt(disk, ino, i, off + k);
    }
  }

  /** The blocks logged by a write: bitmap blocks, the indirect block at `a` and those in `data`. */
  ghost predicate Logged(g: Geometry, logged: set<nat>, logged': set<nat>, a: nat, data: set<nat>) {
    logged' <= logged + BitmapBlocks(g) + ({a} - {0}) + data
  }

  lemma LogMore(g: Geometry, logged: set<nat>, logged1: set<nat>, logged2: set<nat>, a1: nat, a2: nat, data: set<nat>,
                b: nat)
    requires Logged(g, logged, logged1, a1, data) && (a1 != 0 ==> a2 == a1)
    requires logged2 <= logged1 + BitmapBlocks(g) + ({a2, b} - {0})
    ensures Logged(g, logged, logged2, a2, data + {b})
    ensures b == 0 ==> Logged(g, logged, logged2, a2, data)
  {
  }

  /** Blocks that were owned and are now only held. */
  lemma Released(g: Geometry, disk: seq<Blk>, own: map<nat, Place>, ex: set<nat>, bs: set<nat>)
    requires Bits(g, disk, own, ex) && bs <= own.Keys && forall b :: b in own ==> g.nmeta <= b < g.size
    ensures Bits(g, disk, own - bs, ex + bs)
  {
  }

  lemma OthersThrough(disk0: seq<Blk>, ino0: seq<Inode>, disk1: seq<Blk>, ino1: seq<Inode>, disk2: seq<Blk>,
                      ino2: seq<Inode>, i: nat)
    requires OthersSame(disk0, ino0, disk1, ino1, i) && OthersSame(disk1, ino1, disk2, ino2, i)
    ensures OthersSame(disk0, ino0, disk2, ino2, i)
  {
    forall i': nat, pos: nat | i' < |ino0| && i' != i && pos < 274432
      ensures ByteAt(disk2, ino2, i', pos) == ByteAt(disk0, ino0, i', pos)
    {
      assert ByteAt(disk1, ino1, i', pos) == ByteAt(disk0, ino0, i', pos);
    }
  }

  lemma OthersAfter(disk0: seq<Blk>, ino0: seq<Inode>, disk1: seq<Blk>, ino1: seq<Inode>, disk2: seq<Blk>, i: nat)
    requires OthersSame(disk0, ino0, disk1, ino1, i) && SameBytes(disk1, ino1, disk2, ino1)
    ensures OthersSame(disk0, ino0, disk2, ino1, i)
  {
    OthersThrough(disk0, ino0, disk1, ino1, disk2, ino1, i);
  }

  /** Only blocks that hold no file data have changed. */
  ghost predicate MetaOnly(g: Geometry, disk: seq<Blk>, disk': seq<Blk>) {
    |disk'| == |disk| && forall b :: g.nmeta <= b < |disk| ==> disk'[b] == disk[b]
  }

  /** The indirect block of file `i` and the blocks it lists from its `j`-th entry on. */
  ghost function Rest(own: map<nat, Place>, i: nat, j: nat): set<nat> {
    set b | b in own && own[b].i == i && !own[b].Direct? && (own[b].Entry? ==> own[b].j >= j)
  }

  lemma RestAll(own: map<nat, Place>, i: nat)
    ensures Rest(own, i, 0) == Below(own, i)
  {
  }

  lemma RestNext(g: Geometry, disk: seq<Blk>, ino: seq<Inode>, own: map<nat, Place>, i: nat, j: nat)
    requires Tree(g, disk, ino, own) && i < |ino| && j < 256 && 0 < ino[i].addrs[12] < |disk|
    ensures var w := Word(disk[ino[i].addrs[12]], j);
            if w == 0 then Rest(own, i, j + 1) == Rest(own, i, j)
            else w as nat in Rest(own, i, j) && Rest(own, i, j + 1) == Rest(own, i, j) - {w as nat}
  {
    assert At(disk, ino, Entry(i, j)) == Word(disk[ino[i].addrs[12]], j);
    forall b | b in Rest(own, i, j) ensures own[b] != Entry(i, j) ==> b in Rest(own, i, j + 1) {
    }
  }

  lemma RestNone(g: Geometry, disk: seq<Blk>, ino: seq<Inode>, own: map<nat, Place>, i: nat)
    requires Tree(g, disk, ino, own) && i < |ino| && ino[i].addrs[12] != 0
    ensures Rest(own, i, 256) == {ino[i].addrs[12] as nat}
  {
    assert At(disk, ino, Indirect(i)) == ino[i].addrs[12];
  }

  /** An inode without block numbers owns nothing. */
  lemma Emptied(g: Geometry, disk: seq<Blk>, ino: seq<Inode>, own: map<nat, Place>, i: nat)
    requires Tree(g, disk, ino, own) && i < |ino| && forall k :: 0 <= k < 13 ==> ino[i].addrs[k] == 0
    ensures forall b :: b in own ==> own[b].i != i
  {
    forall b | b in own ensures own[b].i != i {
      assert At(disk, ino, own[b]) == b;
    }
  }

  /** 3072 bytes at any offset meet at most 4 blocks. */
  lemma Budget(g: Geometry, logged: set<nat>, a: nat, data: set<nat>, ib: nat, off: nat, tot: nat)
    requires Logged(g, {}, logged, a, data + {ib}) && |data| <= BlocksMet(off, tot) && tot <= 3072
    ensures |logged| <= 6 + NumBitmap(g)
  {
    var most := BitmapBlocks(g) + {a} + {ib} + data;
    assert logged <= most;
    Smaller(logged, most);
  }

  lemma {:induction false} Smaller(a: set<nat>, b: set<nat>)
    requires a <= b
    ensures |a| <= |b|
  {
    assert b == a + (b - a);
  }

  /** Two writes, the second starting where the first ended. */
  lemma WrittenThrough(disk0: seq<Blk>, ino0: seq<Inode>, disk1: seq<Blk>, ino1: seq<Inode>, disk2: seq<Blk>,
                       ino2: seq<Inode>, i: nat, off: nat, src: seq<Byte>, k: nat, at: nat, piece: seq<Byte>, r: nat)
    requires r <= |piece| && k + |piece| <= |src| && forall j :: 0 <= j < |piece| ==> piece[j] == src[k + j]
    requires Written(disk0, ino0, disk1, ino1, i, off, src[..k])
    requires Written(disk1, ino1, disk2, ino2, i, at, piece[..r]) && at == off + k
    ensures Written(disk0, ino0, disk2, ino2, i, off, src[..k + r])
  {
    forall i': nat, pos: nat | i' < |ino0| && pos < 274432
      ensures ByteAt(disk2, ino2, i', pos) ==
                if i' == i && off <= pos < off + k + r then src[pos - off] else ByteAt(disk0, ino0, i', pos)
    {
      assert ByteAt(disk1, ino1, i', pos) ==
               if i' == i && off <= pos < off + k then src[pos - off] else ByteAt(disk0, ino0, i', pos);
    }
    forall p: Place | PlaceOk(ino0, p) && At(disk0, ino0, p) != 0 ensures At(disk2, ino2, p) == At(disk0, ino0, p) {
      assert At(disk1, ino1, p) == At(disk0, ino0, p);
    }
  }

  /** Hanging a new block in the indirect block of file `i`. */
  lemma EntryHung(g: Geometry, disk0: seq<Blk>, disk: seq<Blk>, ino: seq<Inode>, own: map<nat, Place>, i: nat, j: nat,
                  r: nat)
    requires Tree(g, disk, ino, own) && Bits(g, disk, own, {r}) && NewBlock(g, disk, own, r)
             && SameBytes(disk0, ino, disk, ino)
    requires i < |ino| && j < 256 && 0 < ino[i].addrs[12] < |disk| && Word(disk[ino[i].addrs[12]], j) == 0
    ensures var disk' := SetEntry(disk, ino[i].addrs[12], j, r);
            && Tree(g, disk', ino, own[r := Entry(i, j)]) && Bits(g, disk', own[r := Entry(i, j)], {})
            && SameBytes(disk0, ino, disk', ino) && At(disk', ino, Entry(i, j)) == r
  {
    assert At(disk, ino, Indirect(i)) == ino[i].addrs[12];
    HangEntry(g, disk, ino, own, i, j, r);
    HangEntryAt(g, disk, ino, own, i, j, r, Entry(i, j));
    Owned(g, disk, own, {r}, r, Entry(i, j));
    assert {r} - {r} == {};
    BitsFrame(g, disk, own[r := Entry(i, j)], {}, ino[i].addrs[12], WithWord(disk[ino[i].addrs[12]], j, r));
    SameBytesThrough(disk0, ino, disk, ino, SetEntry(disk, ino[i].addrs[12], j, r), ino);
  }

  class FileSystem {
    const g: Geometry
    var disk: seq<Blk>
    var ino: seq<Inode>     // inodes as the kernel sees them
    var dino: seq<Inode>    // inodes in the inode blocks
    var logged: set<nat>    // blocks `log_write` was called on in this transaction
    ghost var own: map<nat, Place>

    ghost predicate ValidBut(ex: set<nat>)
      reads this
    {
      Tree(g, disk, ino, own) && Bits(g, disk, own, ex) && Sizes(ino) && |dino| == |ino|
    }

    ghost predicate Valid()
      reads this
    {
      ValidBut({})
    }

    constructor (g0: Geometry, disk0: seq<Blk>, ino0: seq<Inode>, ghost own0: map<nat, Place>)
      requires Tree(g0, disk0, ino0, own0) && Bits(g0, disk0, own0, {}) && Sizes(ino0)
      ensures Valid() && g == g0 && disk == disk0 && ino == ino0 && dino == ino0 && own == own0 && logged == {}
    {
      g, disk, ino, dino, logged, own := g0, disk0, ino0, ino0, {}, own0;
    }

    method LogWrite(b: nat)
      modifies this`logged
      ensures logged == old(logged) + {b}
    {
      logged := logged + {b};
    }

    // ---- Blocks ----

    /** A zeroed block that nobody owns, or 0 when every bit is set. */
    method Balloc(ghost ex: set<nat>) returns (r: Uint)
      requires ValidBut(ex)
      modifies this`disk, this`logged
      ensures r == 0 ==> disk == old(disk) && logged == old(logged) && Full(g, disk)
      ensures r != 0 ==> NewBlock(g, disk, own, r) && r !in ex && ValidBut(ex + {r as nat})
      ensures r != 0 ==> SameBytes(old(disk), ino, disk, ino)
      ensures r != 0 ==> logged <= old(logged) + BitmapBlocks(g) + {r as nat}
      ensures r != 0 ==> forall b :: g.nmeta <= b < g.size && b != r ==> disk[b] == old(disk)[b]
    {
      var b: nat := 0;
      while b < g.size
        invariant b % 8192 == 0 && disk == old(disk) && logged == old(logged)
        invariant forall c: nat {:trigger Used(g, disk, c)} :: c < b && c < g.size ==> Used(g, disk, c)
      {
        var bi: nat := 0;
        while bi < 8192 && b + bi < g.size
          invariant bi <= 8192 && disk == old(disk) && logged == old(logged)
          invariant forall c: nat {:trigger Used(g, disk, c)} :: c < b + bi && c < g.size ==> Used(g, disk, c)
        {
          assert (b + bi) / 8192 == b / 8192 && (b + bi) % 8192 == bi;
          assert Used(g, disk, b + bi) == BitOf(disk[g.bmapstart + b / 8192], bi);
          if !BitOf(disk[g.bmapstart + b / 8192], bi) {
            r := b + bi;
            TakeBits(g, disk, own, ex, r);
            MarkedFrame(g, disk, ino, own, r, true);
            disk := Marked(g, disk, r, true);
            LogWrite(g.bmapstart + r / 8192);
            Bzero(r, ex + {r as nat});
            return;
          }
          bi := bi + 1;
        }
        b := b + 8192;
      }
      return 0;
    }

    method Bzero(r: nat, ghost ex: set<nat>)
      requires ValidBut(ex) && g.nmeta <= r < g.size && r !in own
      modifies this`disk, this`logged
      ensures ValidBut(ex) && disk == old(disk)[r := Zeroes()] && logged == old(logged) + {r}
      ensures SameBytes(old(disk), ino, disk, ino)
    {
      ZeroFrame(g, disk, ino, own, r);
      BitsFrame(g, disk, own, ex, r, Zeroes());
      disk := disk[r := Zeroes()];
      LogWrite(r);
    }

    /** Gives back a held block; `ok` is false where the kernel panics with "freeing free block". */
    method Bfree(b: Uint, ghost ex: set<nat>) returns (ok: bool)
      requires Bits(g, disk, own, ex) && b as nat in ex
      modifies this`disk, this`logged
      ensures ok && disk == Marked(g, old(disk), b, false) && Bits(g, disk, own, ex - {b as nat})
    {
      GiveBits(g, disk, own, ex, b);
      if !BitOf(disk[g.bmapstart + b / 8192], b % 8192) {
        return false;
      }
      disk := Marked(g, disk, b, false);
      LogWrite(g.bmapstart + b / 8192);
      return true;
    }

    // ---- Where a block of a file is ----

    method BmapDirect(i: nat, bn: nat) returns (r: Uint)
      requires Valid() && i < |ino| && bn < 12
      modifies this`disk, this`ino, this`own, this`logged
      ensures Valid() && SameBytes(old(disk), old(ino), disk, ino) && Filled(old(ino), ino, i)
      ensures r == ino[i].addrs[bn] && (r == 0 ==> Full(g, disk))
      ensures old(ino[i].addrs[bn]) != 0 ==>
                disk == old(disk) && ino == old(ino) && own == old(own) && logged == old(logged)
      ensures logged <= old(logged) + BitmapBlocks(g) + ({r as nat} - {0})
    {
      r := ino[i].addrs[bn];
      if r == 0 {
        r := Balloc({});
        if r != 0 {
          HangDirect(g, disk, ino, own, i, bn, r);
          Owned(g, disk, own, {r as nat}, r, Direct(i, bn));
          ino := SetAddr(ino, i, bn, r);
          own := own[r as nat := Direct(i, bn)];
        }
      }
    }

    /** Allocates the indirect block if there is none. */
    method NeedIndirect(i: nat) returns (a: Uint)
      requires Valid() && i < |ino|
      modifies this`disk, this`ino, this`own, this`logged
      ensures Valid() && SameBytes(old(disk), old(ino), disk, ino) && Filled(old(ino), ino, i)
      ensures a == ino[i].addrs[12] && (a == 0 ==> Full(g, disk))
      ensures old(ino[i].addrs[12]) != 0 ==>
                disk == old(disk) && ino == old(ino) && own == old(own) && logged == old(logged)
      ensures logged <= old(logged) + BitmapBlocks(g) + ({a as nat} - {0})
    {
      a := ino[i].addrs[12];
      if a == 0 {
        a := Balloc({});
        if a != 0 {
          HangIndirect(g, disk, ino, own, i, a);
          Owned(g, disk, own, {a as nat}, a, Indirect(i));
          ino := SetAddr(ino, i, 12, a);
          own := own[a as nat := Indirect(i)];
        }
      }
    }

    /** Allocates the block for an empty entry of the indirect block at `a`. */
    method NewEntry(i: nat, a: Uint, j: nat) returns (r: Uint)
      requires Valid() && i < |ino| && j < 256 && a == ino[i].addrs[12] && a != 0 && At(disk, ino, Entry(i, j)) == 0
      modifies this`disk, this`own, this`logged
      ensures Valid() && SameBytes(old(disk), ino, disk, ino)
      ensures r == At(disk, ino, Entry(i, j)) && (r == 0 ==> Full(g, disk))
      ensures logged <= old(logged) + BitmapBlocks(g) + ({a as nat, r as nat} - {0})
    {
      assert At(disk, ino, Indirect(i)) == a;
      r := Balloc({});
      if r != 0 {
        EntryHung(g, old(disk), disk, ino, own, i, j, r);
        disk := SetEntry(disk, a, j, r);
        own := own[r as nat := Entry(i, j)];
        LogWrite(a);
      }
    }

    /** The `j`-th number in the indirect block at `a`. */
    method BmapEntry(i: nat, a: Uint, j: nat) returns (r: Uint)
      requires Valid() && i < |ino| && j < 256 && a == ino[i].addrs[12] && a != 0
      modifies this`disk, this`own, this`logged
      ensures Valid() && SameBytes(old(disk), ino, disk, ino)
      ensures r == At(disk, ino, Entry(i, j)) && (r == 0 ==> Full(g, disk))
      ensures old(At(disk, ino, Entry(i, j))) != 0 ==> disk == old(disk) && own == old(own) && logged == old(logged)
      ensures logged <= old(logged) + BitmapBlocks(g) + ({a as nat, r as nat} - {0})
    {
      assert At(disk, ino, Indirect(i)) == a;
      r := Word(disk[a], j);
      if r == 0 {
        r := NewEntry(i, a, j);
      } else {
        SameBytesRefl(disk, ino);
      }
    }

    /** The block that holds block `bn` of file `i`, allocated if need be; 0 when none is left.
        The bytes of no file change: a new block is all zeroes, as a hole is. */
    method Bmap(i: nat, bn: nat) returns (r: Uint)
      requires Valid() && i < |ino| && bn < 268
      modifies this`disk, this`ino, this`own, this`logged
      ensures Valid() && SameBytes(old(disk), old(ino), disk, ino) && Filled(old(ino), ino, i)
      ensures r == BlockOf(disk, ino, i, bn) && (r == 0 ==> Full(g, disk))
      ensures old(BlockOf(disk, ino, i, bn)) != 0 ==>
                disk == old(disk) && ino == old(ino) && own == old(own) && logged == old(logged)
      ensures logged <= old(logged) + BitmapBlocks(g) + ({ino[i].addrs[12] as nat, r as nat} - {0})
    {
      if bn < 12 {
        r := BmapDirect(i, bn);
      } else {
        var a := NeedIndirect(i);
        if a == 0 {
          return 0;
        }
        r := BmapEntry(i, a, bn - 12);
      }
    }

    // ---- Contents ----

    /** Copies `src` into block `bn` of file `i` at `o`. */
    method CopyIn(i: nat, bn: nat, b: Uint, o: nat, src: seq<Byte>)
      requires Valid() && i < |ino| && bn < 268 && b == BlockOf(disk, ino, i, bn) && b != 0 && o + |src| <= 1024
      modifies this`disk, this`logged
      ensures Valid() && b < |disk| == |old(disk)| && logged == old(logged) + {b as nat}
      ensures BlockWritten(old(disk), disk, ino, i, bn, Patched(old(disk)[b], o, src))
    {
      WriteData(g, disk, ino, own, i, bn, Patched(disk[b], o, src));
      BitsFrame(g, disk, own, {}, b, Patched(disk[b], o, src));
      disk := disk[b := Patched(disk[b], o, src)];
      LogWrite(b);
    }

    /** `bmap`, then the copy: `piece` goes to block `bn` of file `i` at `o`, unless no block is left. */
    method PutBlock(i: nat, bn: nat, o: nat, piece: seq<Byte>) returns (a: Uint, ghost mid: seq<Blk>)
      requires Valid() && i < |ino| && bn < 268 && o + |piece| <= 1024
      modifies this`disk, this`ino, this`own, this`logged
      ensures Valid() && SameBytes(old(disk), old(ino), mid, ino) && Filled(old(ino), ino, i)
      ensures a == 0 ==> Full(g, disk) && disk == mid
      ensures a != 0 ==>
                a == BlockOf(mid, ino, i, bn) < |mid| && BlockWritten(mid, disk, ino, i, bn, Patched(mid[a], o, piece))
      ensures logged <= old(logged) + BitmapBlocks(g) + ({ino[i].addrs[12] as nat, a as nat} - {0})
    {
      a := Bmap(i, bn);
      mid := disk;
      if a != 0 {
        CopyIn(i, bn, a, o, piece);
      }
    }

    /** A write of `src` to file `i` at `off` has come to byte `tot`; the data blocks logged are in `data`. */
    ghost predicate Busy(disk0: seq<Blk>, ino0: seq<Inode>, logged0: set<nat>, i: nat, off: nat, src: seq<Byte>,
                         tot: nat, data: set<nat>)
      reads this
    {
      && Valid() && Writing(disk0, ino0, disk, ino, i, off, src, tot)
      && Logged(g, logged0, logged, ino[i].addrs[12], data) && |data| <= BlocksMet(off, tot)
    }

    /** One turn of the loop of `writei`, from byte `tot` to byte `next`. */
    method WriteBlock(i: nat, off: nat, src: seq<Byte>, tot: nat,
                      ghost disk0: seq<Blk>, ghost ino0: seq<Inode>, ghost logged0: set<nat>, ghost data0: set<nat>)
      returns (next: nat, ghost data: set<nat>)
      requires Busy(disk0, ino0, logged0, i, off, src, tot, data0) && tot < |src| && off + |src| <= 274432
      modifies this`disk, this`ino, this`own, this`logged
      ensures Busy(disk0, ino0, logged0, i, off, src, next, data)
      ensures tot <= next && (next == tot ==> Full(g, disk))
    {
      ghost var disk1, ino1, logged1 := disk, ino, logged;
      var m := Min(|src| - tot, 1024 - (off + tot) % 1024);
      OneMoreMet(off, tot, m, |src|);
      var a, mid := PutBlock(i, (off + tot) / 1024, (off + tot) % 1024, src[tot..tot + m]);
      LogMore(g, logged0, logged1, logged, ino1[i].addrs[12], ino[i].addrs[12], data0, a);
      if a == 0 {
        WritingSame(disk0, ino0, disk1, ino1, disk, ino, i, off, src, tot);
        next, data := tot, data0;
      } else {
        WritingMore(disk0, ino0, disk1, ino1, mid, ino, disk, i, off, src, tot, m);
        next, data := tot + m, data0 + {a as nat};
      }
    }

    /** The loop of `writei`: stops short only when no block is left.  `data` is the data blocks
        written, one for each block of the file that the range meets. */
    method WriteLoop(i: nat, off: nat, src: seq<Byte>) returns (tot: nat, ghost data: set<nat>)
      requires Valid() && i < |ino| && off + |src| <= 274432
      modifies this`disk, this`ino, this`own, this`logged
      ensures Busy(old(disk), old(ino), old(logged), i, off, src, tot, data)
      ensures tot < |src| ==> Full(g, disk)
    {
      ghost var disk0, ino0, logged0 := disk, ino, logged;
      tot, data := 0, {};
      while tot < |src|
        invariant Busy(disk0, ino0, logged0, i, off, src, tot, data)
      {
        var last := tot;
        tot, data := WriteBlock(i, off, src, tot, disk0, ino0, logged0, data);
        if tot == last {
          break;
        }
      }
    }

    method Iupdate(i: nat)
      requires i < |ino| == |dino|
      modifies this`dino, this`logged
      ensures dino == old(dino)[i := ino[i]] && logged == old(logged) + {g.inodestart + i / 16}
    {
      dino := dino[i := ino[i]];
      LogWrite(g.inodestart + i / 16);
    }

    /** `if(off > ip->size) ip->size = off` */
    method GrowTo(i: nat, n: Uint)
      requires Valid() && i < |ino| && n <= 274432
      modifies this`ino
      ensures Valid() && SameBytes(disk, old(ino), disk, ino) && ino == SetSize(old(ino), i, Max(old(ino[i].size), n))
    {
      if n > ino[i].size {
        SizeKeeps(g, disk, ino, own, i, n);
        ino := SetSize(ino, i, n);
      } else {
        assert ino == SetSize(ino, i, ino[i].size);
      }
    }

    /** `writei` with `n = |src|` and copies that succeed: -1 when the range starts past the end or
        reaches past the largest file, and otherwise the number of bytes written. */
    method Writei(i: nat, off: Uint, src: seq<Byte>) returns (tot: int, ghost data: set<nat>)
      requires Valid() && i < |ino| && |src| < 0x1_0000_0000
      modifies this
      ensures Valid() && |ino| == |old(ino)|
      ensures tot == -1 <==> off > old(ino[i].size) || off + |src| > 274432
      ensures tot == -1 ==> disk == old(disk) && ino == old(ino) && dino == old(dino) && logged == old(logged)
      ensures tot != -1 ==> 0 <= tot <= |src| && Written(old(disk), old(ino), disk, ino, i, off, src[..tot])
      ensures 0 <= tot < |src| ==> Full(g, disk)
      ensures tot != -1 ==> Covered(disk, ino, i, off, tot)
      ensures tot != -1 ==> ino[i].size == Max(old(ino[i].size), off + tot) && dino == old(dino)[i := ino[i]]
      ensures tot != -1 && old(NoHoles(disk, ino, i)) ==> NoHoles(disk, ino, i)
      ensures forall i' :: 0 <= i' < |ino| && i' != i ==> ino[i'] == old(ino)[i']
      ensures tot != -1 ==> |data| <= BlocksMet(off, tot)
      ensures tot != -1 ==> Logged(g, old(logged), logged, ino[i].addrs[12], data + {g.inodestart + i / 16})
    {
      data := {};
      if off > ino[i].size || (off + |src|) % 0x1_0000_0000 < off {
        return -1, data;
      }
      if off + |src| > 274432 {
        return -1, data;
      }
      tot, data := WriteRange(i, off, src);
    }

    /** `writei` of a range that is in bounds. */
    method WriteRange(i: nat, off: Uint, src: seq<Byte>) returns (tot: nat, ghost data: set<nat>)
      requires Valid() && i < |ino| && off <= ino[i].size && off + |src| <= 274432
      modifies this
      ensures Valid() && tot <= |src| && (tot < |src| ==> Full(g, disk)) && |ino| == |old(ino)|
      ensures Written(old(disk), old(ino), disk, ino, i, off, src[..tot]) && Covered(disk, ino, i, off, tot)
      ensures ino[i].size == Max(old(ino[i].size), off + tot) && dino == old(dino)[i := ino[i]]
      ensures old(NoHoles(disk, ino, i)) ==> NoHoles(disk, ino, i)
      ensures forall i' :: 0 <= i' < |ino| && i' != i ==> ino[i'] == old(ino)[i']
      ensures |data| <= BlocksMet(off, tot)
      ensures Logged(g, old(logged), logged, ino[i].addrs[12], data + {g.inodestart + i / 16})
    {
      ghost var disk0, ino0 := disk, ino;
      tot, data := WriteLoop(i, off, src);
      Resized(disk0, ino0, disk, ino, i, off, src, tot);
      ghost var ino2 := SetSize(ino, i, Max(ino[i].size, off + tot));
      GrowTo(i, off + tot);
      assert ino == ino2;
      Iupdate(i);
    }

    /** What `readi` has read so far, from `disk0` and `ino0`; a file without holes is only read. */
    ghost predicate Reading(disk0: seq<Blk>, ino0: seq<Inode>, own0: map<nat, Place>, logged0: set<nat>, i: nat,
                            off: nat, out: seq<Byte>)
      reads this
    {
      && Valid() && SameBytes(disk0, ino0, disk, ino) && Filled(ino0, ino, i) && Holds(disk, ino, i, off, out)
      && (NoHoles(disk0, ino0, i) ==> disk == disk0 && ino == ino0 && own == own0 && logged == logged0)
    }

    /** The block that has the next byte to read; 0 when that is a hole and no block is left. */
    method Fetch(i: nat, off: nat, out: seq<Byte>,
                 ghost disk0: seq<Blk>, ghost ino0: seq<Inode>, ghost own0: map<nat, Place>, ghost logged0: set<nat>)
      returns (b: Uint)
      requires Reading(disk0, ino0, own0, logged0, i, off, out) && off + |out| < ino0[i].size
      modifies this`disk, this`ino, this`own, this`logged
      ensures Reading(disk0, ino0, own0, logged0, i, off, out)
      ensures b == BlockOf(disk, ino, i, (off + |out|) / 1024)
              && (b == 0 ==> Full(g, disk) && Hole(disk0, ino0, i, off + |out|))
    {
      ghost var disk1, ino1 := disk, ino;
      var bn := (off + |out|) / 1024;
      b := Bmap(i, bn);
      SameBytesThrough(disk0, ino0, disk1, ino1, disk, ino);
      HoldsSame(disk1, ino1, disk, ino, i, off, out);
      OldHole(disk0, ino0, disk, ino, i, off + |out|);
    }

    /** One turn of the loop of `readi`; `more` is false when a hole needs a block and none is left. */
    method ReadBlock(i: nat, off: nat, end: nat, out0: seq<Byte>,
                     ghost disk0: seq<Blk>, ghost ino0: seq<Inode>, ghost own0: map<nat, Place>,
                     ghost logged0: set<nat>)
      returns (out: seq<Byte>, more: bool)
      requires Reading(disk0, ino0, own0, logged0, i, off, out0) && off + |out0| < end <= ino0[i].size
      modifies this`disk, this`ino, this`own, this`logged
      ensures Reading(disk0, ino0, own0, logged0, i, off, out) && off + |out| <= end
      ensures if more then |out| > |out0| else out == out0 && Full(g, disk) && Hole(disk0, ino0, i, off + |out|)
    {
      var b := Fetch(i, off, out0, disk0, ino0, own0, logged0);
      if b == 0 {
        return out0, false;
      }
      var m := Min(end - off - |out0|, 1024 - (off + |out0|) % 1024);
      var piece := Piece(disk[b], (off + |out0|) % 1024, m);
      DataBlock(g, disk, ino, own, i, (off + |out0|) / 1024);
      HoldsMore(disk, ino, i, off, out0, m);
      return out0 + piece, true;
    }

    /** `readi` with copies that succeed: the bytes of the file from `off` on, `n` of them or up to its
        end.  A file without holes is read without allocating or logging anything. */
    method Readi(i: nat, off: Uint, n: Uint) returns (out: seq<Byte>)
      requires Valid() && i < |ino|
      modifies this`disk, this`ino, this`own, this`logged
      ensures Reading(old(disk), old(ino), old(own), old(logged), i, if off > 274432 then 0 else off, out)
      ensures off > old(ino[i].size) || off + n >= 0x1_0000_0000 ==> out == []
      ensures off <= old(ino[i].size) && off + n < 0x1_0000_0000 ==>
                |out| == Min(n, old(ino[i].size) - off) ||
                (|out| < Min(n, old(ino[i].size) - off) && Full(g, disk) && Hole(old(disk), old(ino), i, off + |out|))
    {
      SameBytesRefl(disk, ino);
      out := [];
      if off > ino[i].size || (off + n) % 0x1_0000_0000 < off {
        return;
      }
      var end := if off + n > ino[i].size then ino[i].size else off + n;
      out := ReadUpTo(i, off, end);
    }

    /** The loop of `readi`. */
    method ReadUpTo(i: nat, off: Uint, end: nat) returns (out: seq<Byte>)
      requires Valid() && i < |ino| && off <= end <= ino[i].size
      modifies this`disk, this`ino, this`own, this`logged
      ensures Reading(old(disk), old(ino), old(own), old(logged), i, off, out) && off + |out| <= end
      ensures off + |out| < end ==> Full(g, disk) && Hole(old(disk), old(ino), i, off + |out|)
    {
      ghost var disk0, ino0, own0, logged0 := disk, ino, own, logged;
      SameBytesRefl(disk, ino);
      out := [];
      var more := true;
      while off + |out| < end && more
        invariant Reading(disk0, ino0, own0, logged0, i, off, out) && off + |out| <= end
        invariant !more ==> Full(g, disk) && Hole(disk0, ino0, i, off + |out|)
        decreases more, end - |out|
      {
        out, more := ReadBlock(i, off, end, out, disk0, ino0, own0, logged0);
      }
    }

    /** A `readi` of what `writei` has just written. */
    method WriteThenRead(i: nat, off: Uint, src: seq<Byte>) returns (tot: int, out: seq<Byte>)
      requires Valid() && i < |ino| && |src| < 0x1_0000_0000
      modifies this
      ensures tot == -1 <==> off > old(ino[i].size) || off + |src| > 274432
      ensures tot != -1 ==> 0 <= tot <= |src| && out == src[..tot]
      ensures tot == |src| ==> out == src
    {
      ghost var disk0, ino0 := disk, ino;
      ghost var data;
      tot, data := Writei(i, off, src);
      out := [];
      if tot != -1 {
        ghost var disk1, ino1 := disk, ino;
        out := Readi(i, off, tot);
        CoveredHasNoHole(disk1, ino1, i, off, tot);
        ReadBack(disk0, ino0, disk1, ino1, disk, ino, i, off, src[..tot], out);
      }
    }

    // ---- Truncation ----

    /** The blocks of inode `i` that are left are the direct ones from `k` on and those below the
        indirect block; everything else is as it was. */
    ghost predicate Truncating(disk0: seq<Blk>, ino0: seq<Inode>, own0: map<nat, Place>, i: nat, k: nat)
      reads this
    {
      && Valid() && i < |ino| && OthersSame(disk0, ino0, disk, ino, i)
      && (forall j :: 0 <= j < k && j < 12 ==> ino[i].addrs[j] == 0)
      && (forall i' :: 0 <= i' < |ino| && i' != i ==> ino[i'] == ino0[i'])
      && (forall b :: b in own ==> b in own0 && own[b] == own0[b])
      && (forall b :: b in own0 && own0[b].i != i ==> b in own)
    }

    method FreeDirect(i: nat, k: nat, ghost disk0: seq<Blk>, ghost ino0: seq<Inode>, ghost own0: map<nat, Place>)
        returns (ok: bool)
      requires k < 12 && Truncating(disk0, ino0, own0, i, k)
      modifies this`disk, this`ino, this`own, this`logged
      ensures ok && Truncating(disk0, ino0, own0, i, k + 1)
    {
      var b := ino[i].addrs[k];
      ok := true;
      if b != 0 {
        ghost var disk1, ino1 := disk, ino;
        DropDirect(g, disk, ino, own, i, k);
        Released(g, disk, own, {}, {b as nat});
        own := own - {b as nat};
        ok := Bfree(b, {b as nat});
        ino := SetAddr(ino, i, k, 0);
        MarkedFrame(g, disk1, ino, own, b, false);
        assert {b as nat} - {b as nat} == {};
        OthersThrough(disk0, ino0, disk1, ino1, disk1, ino, i);
        OthersAfter(disk0, ino0, disk1, ino, disk, i);
      }
    }

    /** The loop over the indirect block at `a`: frees every block it lists. */
    method FreeEntries(i: nat, a: Uint, ghost ino1: seq<Inode>, ghost own1: map<nat, Place>) returns (ok: bool)
      requires Tree(g, disk, ino1, own1) && i < |ino1| && a == ino1[i].addrs[12] && a != 0
      requires own == own1 - Below(own1, i) && Bits(g, disk, own, Below(own1, i))
      modifies this`disk, this`logged
      ensures ok && MetaOnly(g, old(disk), disk) && Bits(g, disk, own, {a as nat})
    {
      ghost var disk1 := disk;
      assert At(disk, ino1, Indirect(i)) == a;
      var j := 0;
      ok := true;
      RestAll(own1, i);
      while j < 256 && ok
        invariant 0 <= j <= 256 && ok && MetaOnly(g, disk1, disk) && Bits(g, disk, own, Rest(own1, i, j))
      {
        RestNext(g, disk1, ino1, own1, i, j);
        var w := Word(disk[a], j);
        if w != 0 {
          ok := Bfree(w, Rest(own1, i, j));
        }
        j := j + 1;
      }
      RestNone(g, disk1, ino1, own1, i);
    }

    method FreeIndirect(i: nat, ghost disk0: seq<Blk>, ghost ino0: seq<Inode>, ghost own0: map<nat, Place>)
        returns (ok: bool)
      requires Truncating(disk0, ino0, own0, i, 12)
      modifies this`disk, this`ino, this`own, this`logged
      ensures ok && Truncating(disk0, ino0, own0, i, 12) && ino[i].addrs[12] == 0
    {
      var a := ino[i].addrs[12];
      ok := true;
      if a != 0 {
        ghost var disk1, ino1, own1 := disk, ino, own;
        DropIndirect(g, disk, ino, own, i);
        Released(g, disk, own, {}, Below(own, i));
        assert {} + Below(own, i) == Below(own, i);
        own := own - Below(own, i);
        ok := FreeEntries(i, a, ino1, own1);
        ok := Bfree(a, {a as nat});
        ino := SetAddr(ino, i, 12, 0);
        assert {a as nat} - {a as nat} == {};
        assert MetaOnly(g, disk1, disk);
        TreeFrame(g, disk1, disk, ino, own);
        BytesFrame(g, disk1, disk, ino, own);
        OthersThrough(disk0, ino0, disk1, ino1, disk1, ino, i);
        OthersAfter(disk0, ino0, disk1, ino, disk, i);
      }
    }

    /** `itrunc`: frees exactly the blocks of inode `i`, and never meets a block already free. */
    method Itrunc(i: nat) returns (ok: bool)
      requires Valid() && i < |ino|
      modifies this
      ensures ok && Valid() && |ino| == |old(ino)|
      ensures own.Keys == (set b | b in old(own) && old(own)[b].i != i)
      ensures forall b :: b in own ==> own[b] == old(own)[b]
      ensures ino[i].size == 0 && forall k :: 0 <= k < 13 ==> ino[i].addrs[k] == 0
      ensures dino == old(dino)[i := ino[i]] && forall i' :: 0 <= i' < |ino| && i' != i ==> ino[i'] == old(ino)[i']
      ensures OthersSame(old(disk), old(ino), disk, ino, i)
    {
      ghost var disk0, ino0, own0 := disk, ino, own;
      var k := 0;
      ok := true;
      while k < 12 && ok
        invariant 0 <= k <= 12 && ok && Truncating(disk0, ino0, own0, i, k) && |ino| == |ino0| && dino == old(dino)
      {
        ok := FreeDirect(i, k, disk0, ino0, own0);
        k := k + 1;
      }
      ok := FreeIndirect(i, disk0, ino0, own0);
      Emptied(g, disk, ino, own, i);
      ghost var ino1 := ino;
      SizeKeeps(g, disk, ino, own, i, 0);
      ino := SetSize(ino, i, 0);
      Iupdate(i);
      OthersThrough(disk0, ino0, disk, ino1, disk, ino, i);
    }

    // ---- Writing in chunks ----

    /** One `begin_op` .. `end_op` of `filewrite`: at most 3 blocks' worth of bytes, hence at most
        4 data blocks, an indirect block, the inode block and the bitmap. */
    method WriteChunk(i: nat, off: Uint, src: seq<Byte>) returns (r: int)
      requires Valid() && i < |ino| && |src| <= 3072
      modifies this
      ensures Valid() && |ino| == |old(ino)|
      ensures r == -1 ==> disk == old(disk) && ino == old(ino)
      ensures r == -1 <==> off > old(ino[i].size) || off + |src| > 274432
      ensures r != -1 ==> 0 <= r <= |src| && Written(old(disk), old(ino), disk, ino, i, off, src[..r])
      ensures r != -1 ==> ino[i].size == Max(old(ino[i].size), off + r)
      ensures 0 <= r < |src| ==> Full(g, disk)
      ensures |logged| <= 6 + NumBitmap(g) && (NumBitmap(g) <= 4 ==> |logged| <= RedoLog.MAXOPBLOCKS)
    {
      logged := {};
      ghost var data;
      r, data := Writei(i, off, src);
      if r != -1 {
        Budget(g, logged, ino[i].addrs[12], data, g.inodestart + i / 16, off, r);
      }
    }

    /** A `filewrite` of `src` at `off` has written the first `k` bytes. */
    ghost predicate Chunking(disk0: seq<Blk>, ino0: seq<Inode>, i: nat, off: Uint, src: seq<Byte>, k: nat)
      reads this
    {
      && Valid() && i < |ino| == |ino0| && k <= |src| && Written(disk0, ino0, disk, ino, i, off, src[..k])
      && ino[i].size == (if k == 0 then ino0[i].size else Max(ino0[i].size, off + k))
      && (k > 0 ==> off <= ino0[i].size && off + k <= 274432)
    }

    /** One turn of the loop of `filewrite`; `more` is false after an error or a short write. */
    method NextChunk(i: nat, off: Uint, src: seq<Byte>, k: nat, ghost disk0: seq<Blk>, ghost ino0: seq<Inode>)
      returns (next: nat, more: bool)
      requires Chunking(disk0, ino0, i, off, src, k) && k < |src| < 0x8000_0000
      modifies this
      ensures Chunking(disk0, ino0, i, off, src, next) && k <= next && |logged| <= 6 + NumBitmap(g)
      ensures if more then next > k
              else next < |src| && (off > ino0[i].size || off + |src| > 274432 || Full(g, disk))
    {
      var n1 := Min(|src| - k, 3072);
      var piece := src[k..k + n1];
      ghost var disk1, ino1 := disk, ino;
      assert Written(disk0, ino0, disk1, ino1, i, off, src[..k]);
      var at: Uint := off + k;
      var r := WriteChunk(i, at, piece);
      next := k;
      if r != -1 {
        WrittenThrough(disk0, ino0, disk1, ino1, disk, ino, i, off, src, k, at, piece, r);
        next := k + r;
      }
      more := r == n1;
    }

    /** `filewrite` to an inode: `-1` or the whole length, the new offset, and the most blocks any one
        of its transactions logged.  What was written is a prefix of `src`, all of it unless the range
        is out of bounds or no block is left. */
    method Filewrite(i: nat, off0: Uint, src: seq<Byte>) returns (ret: int, off: Uint, ghost peak: nat)
      requires Valid() && i < |ino| && |src| < 0x8000_0000
      modifies this
      ensures off0 <= off && Chunking(old(disk), old(ino), i, off0, src, off - off0)
      ensures if ret == -1 then off0 > old(ino[i].size) || off0 + |src| > 274432 || Full(g, disk)
              else ret == |src| && off == off0 + |src|
      ensures peak <= 6 + NumBitmap(g) && (NumBitmap(g) <= 4 ==> peak <= RedoLog.MAXOPBLOCKS)
    {
      ghost var disk0, ino0 := disk, ino;
      var k: nat, more := 0, true;
      peak := 0;
      while k < |src| && more
        invariant Chunking(disk0, ino0, i, off0, src, k) && peak <= 6 + NumBitmap(g)
        invariant !more ==> k < |src| && (off0 > ino0[i].size || off0 + |src| > 274432 || Full(g, disk))
        decreases more, |src| - k
      {
        k, more := NextChunk(i, off0, src, k, disk0, ino0);
        peak := Max(peak, |logged|);
      }
      off := off0 + k;
      ret := if more then |src| else -1;
    }
  }
}
