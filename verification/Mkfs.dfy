/**
 * mkfs/mkfs.c: the image the kernel starts from.  Blocks are handed out in order, files are
 * appended to, and the bitmap is written at the end.
 */
module Mkfs {

  import opened Fs
  import opened FsCode

  /** Every data block up to `free` is owned, and the others and the bitmap are still blank. */
  ghost predicate Bumped(g: Geometry, disk: seq<Blk>, own: map<nat, Place>, free: nat) {
    && g.nmeta <= free <= g.size == |disk|
    && (forall b :: b in own <==> g.nmeta <= b < free)
    && (forall b :: free <= b < g.size || 0 < g.bmapstart <= b < g.nmeta ==> disk[b] == Zeroes())
  }

  lemma BumpedEntry(g: Geometry, disk: seq<Blk>, ino: seq<Inode>, own: map<nat, Place>, free: nat, i: nat, j: nat)
    requires Tree(g, disk, ino, own) && Bumped(g, disk, own, free) && free < g.size
    requires i < |ino| && j < 256 && 0 < ino[i].addrs[12] < |disk| && Word(disk[ino[i].addrs[12]], j) == 0
    ensures var disk' := SetEntry(disk, ino[i].addrs[12], j, free);
            && Tree(g, disk', ino, own[free := Entry(i, j)]) && Bumped(g, disk', own[free := Entry(i, j)], free + 1)
            && SameBytes(disk, ino, disk', ino) && At(disk', ino, Entry(i, j)) == free
  {
    assert At(disk, ino, Indirect(i)) == ino[i].addrs[12];
    HangEntry(g, disk, ino, own, i, j, free);
    HangEntryAt(g, disk, ino, own, i, j, free, Entry(i, j));
  }

  lemma {:induction false} ZeroBit(k: nat)
    ensures !Bit(0, k)
  {
    if k > 0 { ZeroBit(k - 1); }
  }

  /** An append at the end of a file allocates no block past any file's end. */
  lemma Grown(disk0: seq<Blk>, ino0: seq<Inode>, disk: seq<Blk>, ino: seq<Inode>, i: nat, off: nat, p: seq<Byte>)
    requires Writing(disk0, ino0, disk, ino, i, off, p, |p|) && off == ino0[i].size && off + |p| <= 274432
    requires Elsewhere(disk0, ino0, disk, ino, i, off / 1024, (off + |p| + 1023) / 1024)
    ensures var ino' := SetSize(ino, i, off + |p|);
            forall i' :: 0 <= i' < |ino0| && NoTail(disk0, ino0, i') ==> NoTail(disk, ino', i')
  {
    var ino' := SetSize(ino, i, off + |p|);
    forall i': nat, bn: nat | i' < |ino| && bn < 268 ensures BlockOf(disk, ino', i', bn) == BlockOf(disk, ino, i', bn) {
    }
    forall i': nat | i' < |ino0| && NoTail(disk0, ino0, i') ensures NoTail(disk, ino', i') {
      forall bn: nat | bn < 268 && bn * 1024 >= ino'[i'].size ensures BlockOf(disk, ino', i', bn) == 0 {
        assert BlockOf(disk, ino', i', bn) == BlockOf(disk, ino, i', bn) && BlockOf(disk0, ino0, i', bn) == 0;
      }
    }
  }

  lemma MoreToMeet(off: nat, tot: nat, n: nat)
    requires tot < n && Aligned(off, tot, n)
    ensures BlocksMet(off, tot) + 1 <= BlocksMet(off, n)
  {
  }

  /** How many of `n` bytes at `off` go to the block there, and from where in it on. */
  method PieceAt(off: nat, n: nat) returns (m: nat, o: nat)
    ensures m == Min(n, 1024 - off % 1024) && o == off % 1024
  {
    var fbn := off / 1024;
    m := Min(n, (fbn + 1) * 1024 - off);
    o := off - fbn * 1024;
  }

  class Image {
    const g: Geometry
    var disk: seq<Blk>
    var ino: seq<Inode>
    var freeblock: nat
    ghost var own: map<nat, Place>

    ghost predicate Valid()
      reads this
    {
      Tree(g, disk, ino, own) && Bumped(g, disk, own, freeblock) && Sizes(ino)
    }

    /** A zeroed disk and `n` inodes without content. */
    constructor (g0: Geometry, n: nat)
      requires g0.Valid()
      ensures Valid() && g == g0 && own == map[] && freeblock == g.nmeta
      ensures |ino| == n && forall i :: 0 <= i < n ==> ino[i].size == 0 && NoHoles(disk, ino, i) && NoTail(disk, ino, i)
    {
      g, disk, freeblock, own := g0, seq(g0.size, i => Zeroes()), g0.nmeta, map[];
      ino := seq(n, i => Inode(0, seq(13, k => 0)));
    }

    /** The block for block `fbn` of file `i`; 0 when the image is full. */
    method Place(i: nat, fbn: nat) returns (x: Uint)
      requires Valid() && i < |ino| && fbn < 268
      modifies this
      ensures Valid() && SameBytes(old(disk), old(ino), disk, ino) && Filled(old(ino), ino, i)
      ensures x == BlockOf(disk, ino, i, fbn) && (x == 0 ==> freeblock == g.size < old(freeblock) + 2)
              && freeblock <= old(freeblock) + 2
      ensures Elsewhere(old(disk), old(ino), disk, ino, i, fbn, fbn + 1)
    {
      if fbn < 12 {
        x := PlaceAddr(i, fbn);
      } else {
        var a := PlaceAddr(i, 12);
        if a == 0 {
          return 0;
        }
        ghost var disk1 := disk;
        x := PlaceEntry(i, a, fbn - 12);
        ElsewhereThrough(old(disk), old(ino), disk1, ino, disk, ino, i, 0, 0, fbn, fbn + 1);
      }
    }

    method PlaceAddr(i: nat, k: nat) returns (x: Uint)
      requires Valid() && i < |ino| && k < 13
      modifies this
      ensures Valid() && SameBytes(old(disk), old(ino), disk, ino) && Filled(old(ino), ino, i)
      ensures x == ino[i].addrs[k] && (x == 0 ==> freeblock == g.size == old(freeblock))
              && freeblock <= old(freeblock) + 1
      ensures Elsewhere(old(disk), old(ino), disk, ino, i, k, if k < 12 then k + 1 else k)
    {
      x := ino[i].addrs[k];
      SameBytesRefl(disk, ino);
      if x == 0 && freeblock < g.size {
        x := freeblock;
        if k < 12 {
          HangDirect(g, disk, ino, own, i, k, x);
          HangDirectElsewhere(disk, ino, i, k, x);
          own := own[x as nat := Direct(i, k)];
        } else {
          HangIndirect(g, disk, ino, own, i, x);
          HangIndirectElsewhere(g, disk, ino, own, i, x);
          own := own[x as nat := Indirect(i)];
        }
        ino := SetAddr(ino, i, k, x);
        freeblock := freeblock + 1;
      }
    }

    method PlaceEntry(i: nat, a: Uint, j: nat) returns (x: Uint)
      requires Valid() && i < |ino| && j < 256 && a == ino[i].addrs[12] && a != 0
      modifies this`disk, this`own, this`freeblock
      ensures Valid() && SameBytes(old(disk), ino, disk, ino)
      ensures x == At(disk, ino, Entry(i, j)) && (x == 0 ==> freeblock == g.size == old(freeblock))
              && freeblock <= old(freeblock) + 1
      ensures Elsewhere(old(disk), ino, disk, ino, i, 12 + j, 13 + j)
    {
      assert At(disk, ino, Indirect(i)) == a;
      x := Word(disk[a], j);
      SameBytesRefl(disk, ino);
      if x == 0 && freeblock < g.size {
        x := freeblock;
        BumpedEntry(g, disk, ino, own, freeblock, i, j);
        HangEntryElsewhere(g, disk, ino, own, i, j, freeblock);
        disk := SetEntry(disk, a, j, x);
        own := own[x as nat := Entry(i, j)];
        freeblock := freeblock + 1;
      }
    }

    method PutBytes(i: nat, bn: nat, x: Uint, o: nat, piece: seq<Byte>)
      requires Valid() && i < |ino| && bn < 268 && x == BlockOf(disk, ino, i, bn) && x != 0 && o + |piece| <= 1024
      modifies this`disk
      ensures Valid() && x < |disk| == |old(disk)|
      ensures BlockWritten(old(disk), disk, ino, i, bn, Patched(old(disk)[x], o, piece))
      ensures Elsewhere(old(disk), ino, disk, ino, i, 0, 0)
    {
      WriteData(g, disk, ino, own, i, bn, Patched(disk[x], o, piece));
      WriteDataElsewhere(g, disk, ino, own, i, bn, Patched(disk[x], o, piece));
      assert x == At(disk, ino, if bn < 12 then Direct(i, bn) else Entry(i, bn - 12));
      disk := disk[x := Patched(disk[x], o, piece)];
    }

    /** Finds the block and copies `piece` into it at `o`, unless the image is full. */
    method PutBlock(i: nat, bn: nat, o: nat, piece: seq<Byte>) returns (x: Uint, ghost mid: seq<Blk>)
      requires Valid() && i < |ino| && bn < 268 && o + |piece| <= 1024
      modifies this
      ensures Valid() && SameBytes(old(disk), old(ino), mid, ino) && Filled(old(ino), ino, i)
      ensures freeblock <= old(freeblock) + 2 && (x == 0 ==> freeblock == g.size < old(freeblock) + 2 && disk == mid)
      ensures x != 0 ==>
                x == BlockOf(mid, ino, i, bn) < |mid| && BlockWritten(mid, disk, ino, i, bn, Patched(mid[x], o, piece))
      ensures Elsewhere(old(disk), old(ino), disk, ino, i, bn, bn + 1)
    {
      x := Place(i, bn);
      mid := disk;
      if x != 0 {
        PutBytes(i, bn, x, o, piece);
        ElsewhereThrough(old(disk), old(ino), mid, ino, disk, ino, i, bn, bn + 1, 0, 0);
      }
    }

    /** An append of `p` to file `i` at `off` has come to byte `tot`. */
    ghost predicate Appending(disk0: seq<Blk>, ino0: seq<Inode>, i: nat, off: nat, p: seq<Byte>, tot: nat)
      reads this
    {
      && Valid() && Writing(disk0, ino0, disk, ino, i, off, p, tot)
      && Elsewhere(disk0, ino0, disk, ino, i, off / 1024, (off + tot + 1023) / 1024)
    }

    /** One turn of the loop of `iappend`, from byte `tot` to byte `next`. */
    method AppendBlock(i: nat, off: nat, p: seq<Byte>, tot: nat, ghost disk0: seq<Blk>, ghost ino0: seq<Inode>)
        returns (next: nat)
      requires Appending(disk0, ino0, i, off, p, tot) && tot < |p| && off + |p| <= 274432
      modifies this
      ensures next > tot ==> Appending(disk0, ino0, i, off, p, next)
      ensures Valid() && |ino| == |ino0| && tot <= next && (next == tot ==> freeblock == g.size < old(freeblock) + 2)
      ensures freeblock <= old(freeblock) + 2 && (next > tot ==> BlocksMet(off, next) >= BlocksMet(off, tot) + 1)
    {
      ghost var disk1, ino1 := disk, ino;
      var fbn := (off + tot) / 1024;
      var m, o := PieceAt(off + tot, |p| - tot);
      var x, mid := PutBlock(i, fbn, o, p[tot..tot + m]);
      if x == 0 {
        return tot;
      }
      WritingMore(disk0, ino0, disk1, ino1, mid, ino, disk, i, off, p, tot, m);
      assert fbn + 1 == (off + tot + m + 1023) / 1024 && (off + tot + 1023) / 1024 <= fbn + 1;
      ElsewhereThrough(disk0, ino0, disk1, ino1, disk, ino, i, off / 1024, (off + tot + 1023) / 1024, fbn, fbn + 1);
      OneMoreMet(off, tot, m, |p|);
      next := tot + m;
    }

    /** `iappend`: false when the file would pass its largest size, where mkfs stops, or when the
        image is full. */
    method Iappend(i: nat, p: seq<Byte>) returns (ok: bool)
      requires Valid() && i < |ino|
      modifies this
      ensures Valid() && |ino| == |old(ino)|
      ensures ok ==> Written(old(disk), old(ino), disk, ino, i, old(ino[i].size), p)
      ensures ok ==> ino[i].size == old(ino[i].size) + |p| && (old(NoHoles(disk, ino, i)) ==> NoHoles(disk, ino, i))
      ensures ok ==> forall i' :: 0 <= i' < |ino| && old(NoTail(disk, ino, i')) ==> NoTail(disk, ino, i')
      ensures ok ==> forall i' :: 0 <= i' < |ino| && i' != i ==> ino[i'] == old(ino)[i']
      ensures !ok ==>
                || old(ino[i].size) + |p| > 274432
                || freeblock == g.size < old(freeblock) + 2 * BlocksMet(old(ino[i].size), |p|)
      ensures freeblock <= old(freeblock) + 2 * BlocksMet(old(ino[i].size), |p|)
    {
      var off := ino[i].size;
      if off + |p| > 274432 {
        return false;
      }
      ghost var disk0, ino0 := disk, ino;
      var tot: nat := 0;
      while tot < |p|
        invariant Appending(disk0, ino0, i, off, p, tot) && freeblock <= old(freeblock) + 2 * BlocksMet(off, tot)
      {
        var last := tot;
        MoreToMeet(off, tot, |p|);
        tot := AppendBlock(i, off, p, tot, disk0, ino0);
        if tot == last {
          return false;
        }
      }
      assert p[..tot] == p;
      SetEnd(i, off, p, disk0, ino0);
      return true;
    }

    /** The new size, once all the bytes are there. */
    method SetEnd(i: nat, off: nat, p: seq<Byte>, ghost disk0: seq<Blk>, ghost ino0: seq<Inode>)
      requires Appending(disk0, ino0, i, off, p, |p|) && off == ino0[i].size && off + |p| <= 274432
      modifies this`ino
      ensures Valid() && |ino| == |ino0| && Written(disk0, ino0, disk, ino, i, off, p) && ino[i].size == off + |p|
      ensures NoHoles(disk0, ino0, i) ==> NoHoles(disk, ino, i)
      ensures forall i' :: 0 <= i' < |ino| && NoTail(disk0, ino0, i') ==> NoTail(disk, ino, i')
      ensures forall i' :: 0 <= i' < |ino| && i' != i ==> ino[i'] == ino0[i']
    {
      assert p[..|p|] == p;
      ghost var ino1 := ino;
      SizeKeeps(g, disk, ino, own, i, off + |p|);
      ino := SetSize(ino, i, off + |p|);
      Grown(disk0, ino0, disk, ino1, i, off, p);
      Resized(disk0, ino0, disk, ino1, i, off, p, |p|);
    }

    /** `off = ((off/BSIZE) + 1) * BSIZE`: the root directory ends on a block boundary.  That leaves a hole
        exactly when its entries fill their blocks. */
    method RoundUp(i: nat)
      requires Valid() && i < |ino| && ino[i].size < 274432 && NoHoles(disk, ino, i) && NoTail(disk, ino, i)
      modifies this`ino
      ensures Valid() && SameBytes(disk, old(ino), disk, ino) && ino[i].size == (old(ino[i].size) / 1024 + 1) * 1024
      ensures NoHoles(disk, ino, i) <==> old(ino[i].size) % 1024 != 0
    {
      ghost var last := ino[i].size / 1024;
      ghost var ino0 := ino;
      SizeKeeps(g, disk, ino, own, i, (ino[i].size / 1024 + 1) * 1024);
      ino := SetSize(ino, i, (ino[i].size / 1024 + 1) * 1024);
      assert forall bn: nat {:trigger BlockOf(disk, ino, i, bn)} :: bn < 268 ==>
               BlockOf(disk, ino, i, bn) == BlockOf(disk, ino0, i, bn);
      assert BlockOf(disk, ino, i, last) == BlockOf(disk, ino0, i, last);
    }

    /** `balloc(used)`: the bitmap block, with the first `used` bits set. */
    method Bitmap() returns (ok: bool)
      requires Valid()
      modifies this`disk
      ensures ok <==> freeblock < 8192
      ensures ok ==> Tree(g, disk, ino, own) && Bits(g, disk, own, {}) && SameBytes(old(disk), ino, disk, ino)
    {
      if freeblock >= 8192 {
        return false;
      }
      var k: nat := 0;
      ghost var disk0 := disk;
      SameBytesRefl(disk, ino);
      forall b: nat | b < g.size ensures !Used(g, disk, b) {
        ZeroBit(b % 8192 % 8);
      }
      while k < freeblock
        invariant k <= freeblock && Tree(g, disk, ino, own) && SameBytes(disk0, ino, disk, ino)
        invariant forall b: nat {:trigger Used(g, disk, b)} :: b < g.size ==> (Used(g, disk, b) <==> b < k)
      {
        ghost var disk1 := disk;
        MarkedFrame(g, disk, ino, own, k, true);
        disk := Marked(g, disk, k, true);
        SameBytesThrough(disk0, ino, disk1, ino, disk, ino);
        forall b: nat | b < g.size ensures Used(g, disk, b) == (b < k + 1) {
          MarkedBits(g, disk1, k, true, b);
        }
        k := k + 1;
      }
      return true;
    }

    /** The file system the kernel finds: bitmap and inodes agree. */
    method Mount() returns (fs: FileSystem)
      requires Tree(g, disk, ino, own) && Bits(g, disk, own, {}) && Sizes(ino)
      ensures fresh(fs) && fs.Valid() && fs.disk == disk && fs.ino == ino && fs.dino == ino
    {
      fs := new FileSystem(g, disk, ino, own);
    }
  }

  /** A root directory of 64 entries fills its block: rounded up, it ends in a hole. */
  method FullRoot(g: Geometry) returns (image: Image)
    requires g.Valid() && g.nmeta + 128 <= g.size
    ensures fresh(image) && image.Valid() && |image.ino| == 2 && image.ino[1].size == 2048
            && !NoHoles(image.disk, image.ino, 1)
  {
    image := new Image(g, 2);
    var k := 0;
    while k < 64
      invariant 0 <= k <= 64 && fresh(image) && image.Valid() && |image.ino| == 2 && image.ino[1].size == 16 * k
      invariant image.g == g && image.freeblock <= g.nmeta + 2 * k
      invariant NoHoles(image.disk, image.ino, 1) && NoTail(image.disk, image.ino, 1)
    {
      var ok := image.Iappend(1, seq(16, j => 1));
      k := k + 1;
    }
    image.RoundUp(1);
  }
}
