/**
 Files as byte sequences: what byte of which block a position of a file is, and
 the relation "these bytes were written at this offset of this file, and every
 other byte of every file is as before".
 */
module FileData {
  import opened LogFormat
  import opened ByteWords
  import opened BlockOwner

  // ----- Bytes of a block -----

  /** Byte j of a block of little-endian 32-bit words. */
  function BlockByte(x: Block, j: nat): (b: byte)
    requires j < 1024
  {
    ByteOf(x.words[j / 4], j % 4)
  }

  /** A word stays a word when one of its four bytes is replaced. */
  lemma WordByte(w: Word, k: nat, b: byte)
    requires k < 4
    ensures WithByte(w, k, b) < 0x1_0000_0000
  {
    if k > 0 {
      assert WithByte(w, k, b) == WithByte(w / 256, k - 1, b) * 256 + w % 256;
      if k > 1 {
        assert WithByte(w / 256, k - 1, b) == WithByte(w / 256 / 256, k - 2, b) * 256 + w / 256 % 256;
        if k > 2 {
          assert WithByte(w / 256 / 256, k - 2, b) == WithByte(w / 256 / 256 / 256, 0, b) * 256 + w / 256 / 256 % 256;
        }
      }
    }
  }

  function SetBlockByte(x: Block, j: nat, b: byte): (r: Block)
    requires j < 1024
  {
    WordByte(x.words[j / 4], j % 4, b);
    Block(x.words[j / 4 := WithByte(x.words[j / 4], j % 4, b)])
  }

  lemma BlockByteSet(x: Block, j: nat, b: byte, i: nat)
    requires j < 1024 && i < 1024
    ensures BlockByte(SetBlockByte(x, j, b), i) == if i == j then b else BlockByte(x, i)
  {
    if i / 4 == j / 4 {
      ByteWritten(x.words[j / 4], j % 4, b, i % 4);
    }
  }

  /** memmove() of bs to offset off of a block. */
  function SetBlockBytes(x: Block, off: nat, bs: seq<byte>): (r: Block)
    requires off + |bs| <= 1024
  {
    if bs == [] then x else SetBlockByte(SetBlockBytes(x, off, bs[..|bs| - 1]), off + |bs| - 1, bs[|bs| - 1])
  }

  lemma {:induction false} BlockBytesSet(x: Block, off: nat, bs: seq<byte>, i: nat)
    requires off + |bs| <= 1024 && i < 1024
    ensures BlockByte(SetBlockBytes(x, off, bs), i) == if off <= i < off + |bs| then bs[i - off] else BlockByte(x, i)
  {
    if bs != [] {
      var n := |bs| - 1;
      BlockBytesSet(x, off, bs[..n], i);
      BlockByteSet(SetBlockBytes(x, off, bs[..n]), off + n, bs[n], i);
    }
  }

  /** memmove() of n bytes from offset off of a block. */
  function BlockBytes(x: Block, off: nat, n: nat): (bs: seq<byte>)
    requires off + n <= 1024
    ensures |bs| == n
    ensures forall i :: 0 <= i < n ==> bs[i] == BlockByte(x, off + i)
  {
    if n == 0 then [] else BlockBytes(x, off, n - 1) + [BlockByte(x, off + n - 1)]
  }

  // ----- Bytes of a file -----

  /** Byte j of block f of inode i. */
  function ByteAt(m: Image, i: nat, f: nat, j: nat): (b: byte)
    requires m.Ok() && m.IsInode(i) && f < MAXFILE && j < 1024
  {
    if Addr(m, i, f) != 0 && m.IsBlock(Addr(m, i, f)) then BlockByte(m.data[Addr(m, i, f)], j) else 0
  }

  /** Position j of block f lies in the n bytes from off. */
  predicate In(off: nat, n: nat, f: nat, j: nat) {
    off <= f * 1024 + j < off + n
  }

  /** Addresses once given stay, and only inode i was given any. */
  ghost predicate AddrsKept(m: Image, m': Image, i: nat)
    requires m.Ok() && m'.Ok() && |m'.inodes| == |m.inodes|
  {
    forall k, f {:trigger Addr(m', k, f)} :: m.IsInode(k) && 0 <= f < MAXFILE && (k != i || Addr(m, k, f) != 0) ==>
      Addr(m', k, f) == Addr(m, k, f)
  }

  /** Bytes of blocks that existed are kept, except those in the range of inode i. */
  ghost predicate BytesKept(m: Image, m': Image, i: nat, off: nat, n: nat)
    requires m.Ok() && m'.Ok() && |m'.inodes| == |m.inodes|
  {
    forall k, f, j {:trigger ByteAt(m', k, f, j)} ::
      m.IsInode(k) && 0 <= f < MAXFILE && 0 <= j < 1024 && Addr(m, k, f) != 0 && !(k == i && In(off, n, f, j)) ==>
        ByteAt(m', k, f, j) == ByteAt(m, k, f, j)
  }

  /** The range of inode i holds bs, in blocks that exist. */
  ghost predicate RangeHolds(m: Image, i: nat, off: nat, bs: seq<byte>)
    requires m.Ok() && m.IsInode(i)
  {
    && off + |bs| <= 274432
    && forall f, j {:trigger ByteAt(m, i, f, j)} :: 0 <= f < MAXFILE && 0 <= j < 1024 && In(off, |bs|, f, j) ==>
         Addr(m, i, f) != 0 && ByteAt(m, i, f, j) == bs[f * 1024 + j - off]
  }

  /** bs was written at off of inode i; sizes and the other inodes are unchanged, and so is every other byte. */
  ghost predicate Wrote(m: Image, m': Image, i: nat, off: nat, bs: seq<byte>) {
    && m.Ok() && m'.Ok() && |m'.inodes| == |m.inodes| && |m'.data| == |m.data| && m.IsInode(i)
    && (forall k :: m.IsInode(k) && k != i ==> m'.inodes[k] == m.inodes[k])
    && m'.inodes[i].size == m.inodes[i].size
    && AddrsKept(m, m', i)
    && BytesKept(m, m', i, off, |bs|)
    && RangeHolds(m', i, off, bs)
  }

  lemma WroteTrans(m0: Image, m1: Image, m2: Image, i: nat, off: nat, a: seq<byte>, b: seq<byte>)
    requires Wrote(m0, m1, i, off, a) && Wrote(m1, m2, i, off + |a|, b)
    ensures Wrote(m0, m2, i, off, a + b)
  {
    forall k, f | m0.IsInode(k) && 0 <= f < MAXFILE && (k != i || Addr(m0, k, f) != 0)
      ensures Addr(m2, k, f) == Addr(m0, k, f)
    {
      assert Addr(m1, k, f) == Addr(m0, k, f);
    }
    forall k, f, j | m0.IsInode(k) && 0 <= f < MAXFILE && 0 <= j < 1024 && Addr(m0, k, f) != 0
                     && !(k == i && In(off, |a + b|, f, j))
      ensures ByteAt(m2, k, f, j) == ByteAt(m0, k, f, j)
    {
      assert Addr(m1, k, f) == Addr(m0, k, f);
      assert ByteAt(m1, k, f, j) == ByteAt(m0, k, f, j);
    }
    forall f, j | 0 <= f < MAXFILE && 0 <= j < 1024 && In(off, |a + b|, f, j)
      ensures Addr(m2, i, f) != 0 && ByteAt(m2, i, f, j) == (a + b)[f * 1024 + j - off]
    {
      if In(off, |a|, f, j) {
        assert ByteAt(m1, i, f, j) == a[f * 1024 + j - off];
        assert Addr(m2, i, f) == Addr(m1, i, f);
      } else {
        assert ByteAt(m2, i, f, j) == b[f * 1024 + j - (off + |a|)];
      }
    }
  }

  /** memmove() into block f of inode i. */
  lemma WriteChunk(m: Image, own: Owners, i: nat, f: nat, off: nat, bs: seq<byte>)
    requires OwnOk(m, own) && m.IsInode(i) && f < MAXFILE && Addr(m, i, f) != 0 && off + |bs| <= 1024
    ensures m.IsBlock(Addr(m, i, f))
    ensures OwnOk(WithBlock(m, Addr(m, i, f), SetBlockBytes(m.data[Addr(m, i, f)], off, bs)), own)
    ensures Wrote(m, WithBlock(m, Addr(m, i, f), SetBlockBytes(m.data[Addr(m, i, f)], off, bs)), i, f * 1024 + off, bs)
  {
    assert DownOk(m, own, i, f);
    var b := Addr(m, i, f);
    var m' := WithBlock(m, b, SetBlockBytes(m.data[b], off, bs));
    WriteKeeps(m, own, b, SetBlockBytes(m.data[b], off, bs));
    forall k, g, j | m.IsInode(k) && 0 <= g < MAXFILE && 0 <= j < 1024 && Addr(m, k, g) != 0
      ensures ByteAt(m', k, g, j) ==
        if k == i && In(f * 1024 + off, |bs|, g, j) then bs[g * 1024 + j - (f * 1024 + off)] else ByteAt(m, k, g, j)
    {
      ChunkByte(m, own, i, f, off, bs, k, g, j);
    }
    ChunkHolds(m', i, f, off, bs);
  }

  /** A range within one block. */
  lemma ChunkHolds(m: Image, i: nat, f: nat, off: nat, bs: seq<byte>)
    requires m.Ok() && m.IsInode(i) && f < MAXFILE && off + |bs| <= 1024 && Addr(m, i, f) != 0
    requires forall j {:trigger ByteAt(m, i, f, j)} :: off <= j < off + |bs| ==> ByteAt(m, i, f, j) == bs[j - off]
    ensures RangeHolds(m, i, f * 1024 + off, bs)
  {
    var start, n := f * 1024 + off, |bs|;
    forall g, j | 0 <= g < MAXFILE && 0 <= j < 1024 && In(start, n, g, j)
      ensures g == f && off <= j < off + |bs|
    {
    }
  }

  lemma ChunkByte(m: Image, own: Owners, i: nat, f: nat, off: nat, bs: seq<byte>, k: nat, g: nat, j: nat)
    requires OwnOk(m, own) && m.IsInode(i) && f < MAXFILE && Addr(m, i, f) != 0 && off + |bs| <= 1024
    requires m.IsInode(k) && g < MAXFILE && j < 1024 && Addr(m, k, g) != 0 && m.IsBlock(Addr(m, i, f))
    requires Addr(WithBlock(m, Addr(m, i, f), SetBlockBytes(m.data[Addr(m, i, f)], off, bs)), k, g) == Addr(m, k, g)
    ensures ByteAt(WithBlock(m, Addr(m, i, f), SetBlockBytes(m.data[Addr(m, i, f)], off, bs)), k, g, j) ==
      if k == i && In(f * 1024 + off, |bs|, g, j) then bs[g * 1024 + j - (f * 1024 + off)] else ByteAt(m, k, g, j)
  {
    if k == i && g == f {
      BlockBytesSet(m.data[Addr(m, i, f)], off, bs, j);
    } else if Addr(m, k, g) == Addr(m, i, f) {
      AddrInjective(m, own, i, f, k, g);
    }
  }

  // ----- Growing a file by blocks -----

  /** Taking a free block for any purpose. */
  lemma ClaimWrote(m: Image, own: Owners, b: nat, i: nat)
    requires OwnOk(m, own) && 0 < b < |own| && own[b].Free? && m.IsInode(i)
    ensures Wrote(m, WithBlock(WithBit(m, b, true), b, ZeroBlock()), i, 0, [])
  {
    var m1 := WithBit(m, b, true);
    var m2 := WithBlock(m1, b, ZeroBlock());
    FlipKeeps(m, own, b, true);
    WriteKeeps(m1, own[b := Held], b, ZeroBlock());
    forall k, f, j | m.IsInode(k) && 0 <= f < MAXFILE && 0 <= j < 1024 && Addr(m, k, f) != 0
      ensures ByteAt(m2, k, f, j) == ByteAt(m, k, f, j)
    {
      assert DownOk(m, own, k, f);
      assert Addr(m1, k, f) == Addr(m, k, f);
    }
    forall k, f | m.IsInode(k) && 0 <= f < MAXFILE
      ensures Addr(m2, k, f) == Addr(m, k, f)
    {
      assert Addr(m1, k, f) == Addr(m, k, f);
    }
    HoldsNothing(m2, i);
  }

  lemma HoldsNothing(m: Image, i: nat)
    requires m.Ok() && m.IsInode(i)
    ensures RangeHolds(m, i, 0, [])
  {
    assert forall f: nat, j: nat :: !In(0, 0, f, j);
  }

  /** Letting a slot that was empty name a block: no data block changes. */
  lemma PlaceWrote(m: Image, m': Image, own: Owners, i: nat)
    requires OwnOk(m, own) && m'.Ok() && m.IsInode(i) && |m'.inodes| == |m.inodes| && |m'.data| == |m.data|
    requires forall k :: m.IsInode(k) && k != i ==> m'.inodes[k] == m.inodes[k]
    requires m'.inodes[i].size == m.inodes[i].size
    requires AddrsKept(m, m', i)
    requires forall b :: 0 <= b < |own| && own[b].Data? ==> m'.data[b] == m.data[b]
    ensures Wrote(m, m', i, 0, [])
  {
    forall k, f, j | m.IsInode(k) && 0 <= f < MAXFILE && 0 <= j < 1024 && Addr(m, k, f) != 0
      ensures ByteAt(m', k, f, j) == ByteAt(m, k, f, j)
    {
      assert DownOk(m, own, k, f);
      assert Addr(m', k, f) == Addr(m, k, f);
    }
    HoldsNothing(m', i);
  }

  /** A claimed block becomes direct block k of inode i. */
  lemma DirectPlaced(m: Image, own: Owners, i: nat, k: nat, b: nat)
    requires OwnOk(m, own) && m.IsInode(i) && k < NDIRECT && m.inodes[i].addrs[k] == 0 && 0 < b < |own| && own[b].Held?
    ensures OwnOk(WithInode(m, i, m.inodes[i].WithAddr(k, b)), own[b := Data(i, k)])
    ensures Wrote(m, WithInode(m, i, m.inodes[i].WithAddr(k, b)), i, 0, [])
    ensures Addr(WithInode(m, i, m.inodes[i].WithAddr(k, b)), i, k) == b
  {
    PlaceDirect(m, own, i, k, b);
    PlaceWrote(m, WithInode(m, i, m.inodes[i].WithAddr(k, b)), own, i);
  }

  /** A claimed, zeroed block becomes the indirect block of inode i. */
  lemma IndPlaced(m: Image, own: Owners, i: nat, b: nat)
    requires OwnOk(m, own) && m.IsInode(i) && m.inodes[i].Indirect() == 0
    requires 0 < b < |own| && own[b].Held? && m.data[b] == ZeroBlock()
    ensures OwnOk(WithInode(m, i, m.inodes[i].WithAddr(NDIRECT, b)), own[b := Ind(i)])
    ensures Wrote(m, WithInode(m, i, m.inodes[i].WithAddr(NDIRECT, b)), i, 0, [])
  {
    PlaceInd(m, own, i, b);
    PlaceWrote(m, WithInode(m, i, m.inodes[i].WithAddr(NDIRECT, b)), own, i);
  }

  /** A claimed block becomes entry j of the indirect block of inode i. */
  lemma EntryPlaced(m: Image, own: Owners, i: nat, j: nat, b: Word)
    requires OwnOk(m, own) && m.IsInode(i) && j < NINDIRECT && m.inodes[i].Indirect() != 0 && Entry(m, i, j) == 0
    requires 0 < b < |own| && own[b].Held?
    ensures m.IsBlock(m.inodes[i].Indirect())
    ensures OwnOk(WithEntry(m, i, j, b), own[b := Data(i, NDIRECT + j)])
    ensures Wrote(m, WithEntry(m, i, j, b), i, 0, [])
    ensures Addr(WithEntry(m, i, j, b), i, NDIRECT + j) == b
  {
    PlaceEntry(m, own, i, j, b);
    assert DownInd(m, own, i);
    PlaceWrote(m, WithEntry(m, i, j, b), own, i);
  }

  // ----- Contents -----

  /** Every block below the size exists. */
  ghost predicate NoHoles(m: Image, i: nat)
    requires m.Ok() && m.IsInode(i)
  {
    && m.inodes[i].size <= 274432
    && forall f {:trigger Addr(m, i, f)} :: 0 <= f < MAXFILE && f * 1024 < m.inodes[i].size ==> Addr(m, i, f) != 0
  }

  /** The byte at position p of a file. */
  function PosByte(m: Image, i: nat, p: nat): (b: byte)
    requires m.Ok() && m.IsInode(i) && p < 274432
  {
    ByteAt(m, i, p / 1024, p % 1024)
  }

  /** The first n bytes of a file. */
  function Prefix(m: Image, i: nat, n: nat): (bs: seq<byte>)
    requires m.Ok() && m.IsInode(i) && n <= 274432
    ensures |bs| == n
    ensures forall p :: 0 <= p < n ==> bs[p] == PosByte(m, i, p)
  {
    if n == 0 then [] else Prefix(m, i, n - 1) + [PosByte(m, i, n - 1)]
  }

  /** A file as a byte sequence. */
  function Contents(m: Image, i: nat): (bs: seq<byte>)
    requires m.Ok() && m.IsInode(i) && m.inodes[i].size <= 274432
    ensures |bs| == m.inodes[i].size
  {
    Prefix(m, i, m.inodes[i].size)
  }

  /** A byte sequence with bs written at off, growing if need be. */
  function Overwrite(c: seq<byte>, off: nat, bs: seq<byte>): (r: seq<byte>)
    requires off <= |c|
  {
    c[..off] + bs + (if off + |bs| <= |c| then c[off + |bs|..] else [])
  }

  lemma PosIn(off: nat, n: nat, p: nat)
    ensures In(off, n, p / 1024, p % 1024) <==> off <= p < off + n
    ensures p < 274432 ==> p / 1024 < MAXFILE
  {
    assert p / 1024 * 1024 + p % 1024 == p;
  }

  /** What Wrote means for one position of one file. */
  lemma WrotePos(m: Image, m': Image, i: nat, off: nat, bs: seq<byte>, k: nat, p: nat)
    requires Wrote(m, m', i, off, bs) && m.IsInode(k) && NoHoles(m, k) && p < 274432
    requires p < m.inodes[k].size || (k == i && off <= p < off + |bs|)
    ensures PosByte(m', k, p) == if k == i && off <= p < off + |bs| then bs[p - off] else PosByte(m, k, p)
  {
    PosIn(off, |bs|, p);
    var f, j := p / 1024, p % 1024;
    assert p == f * 1024 + j;
    if k == i && off <= p < off + |bs| {
      assert ByteAt(m', i, f, j) == bs[f * 1024 + j - off];
    } else {
      assert Addr(m, k, f) != 0;
      assert ByteAt(m', k, f, j) == ByteAt(m, k, f, j);
    }
  }

  /** The image with the size of inode i set. */
  function Sized(m: Image, i: nat, size: nat): (r: Image)
    requires m.Ok() && m.IsInode(i)
    ensures r.Ok()
  {
    WithInode(m, i, m.inodes[i].(size := size))
  }

  function Max(a: nat, b: nat): nat {
    if a >= b then a else b
  }

  lemma SizedBytes(m: Image, i: nat, size: nat, k: nat, f: nat)
    requires m.Ok() && m.IsInode(i) && m.IsInode(k) && f < MAXFILE
    ensures Addr(Sized(m, i, size), k, f) == Addr(m, k, f)
  {
  }

  /** Written bytes, seen as contents of inode i, of which the size counts all or some. */
  lemma WroteContents(m: Image, m': Image, i: nat, off: nat, bs: seq<byte>, size: nat)
    requires Wrote(m, m', i, off, bs) && NoHoles(m, i) && off <= m.inodes[i].size
    requires m.inodes[i].size <= size <= Max(m.inodes[i].size, off + |bs|)
    ensures size <= 274432 && NoHoles(Sized(m', i, size), i)
    ensures Contents(Sized(m', i, size), i) == Overwrite(Contents(m, i), off, bs)[..size]
  {
    var m2 := Sized(m', i, size);
    forall f | 0 <= f < MAXFILE && f * 1024 < size
      ensures Addr(m2, i, f) != 0
    {
      SizedBytes(m', i, size, i, f);
      if f * 1024 < m.inodes[i].size {
        assert Addr(m, i, f) != 0;
      } else {
        assert In(off, |bs|, f, 0);
        assert ByteAt(m', i, f, 0) == bs[f * 1024 - off];
      }
    }
    var c, c2 := Contents(m, i), Contents(m2, i);
    forall p | 0 <= p < size
      ensures c2[p] == Overwrite(c, off, bs)[p]
    {
      SizedBytes(m', i, size, i, p / 1024);
      WrotePos(m, m', i, off, bs, i, p);
    }
  }

  /** The other files keep their contents. */
  lemma OthersKept(m: Image, m': Image, i: nat, off: nat, bs: seq<byte>, size: nat, k: nat)
    requires Wrote(m, m', i, off, bs) && m.IsInode(k) && k != i && NoHoles(m, k)
    ensures NoHoles(Sized(m', i, size), k)
    ensures Contents(Sized(m', i, size), k) == Contents(m, k)
  {
    var m2 := Sized(m', i, size);
    forall f | 0 <= f < MAXFILE && f * 1024 < m2.inodes[k].size
      ensures Addr(m2, k, f) != 0
    {
      SizedBytes(m', i, size, k, f);
      assert Addr(m, k, f) != 0;
    }
    forall p | 0 <= p < m.inodes[k].size
      ensures Contents(m2, k)[p] == Contents(m, k)[p]
    {
      SizedBytes(m', i, size, k, p / 1024);
      WrotePos(m, m', i, off, bs, k, p);
    }
  }

  // ----- Reading and writing chunk by chunk -----

  /** An empty write may be placed anywhere. */
  lemma WroteNothing(m: Image, m': Image, i: nat, off: nat)
    requires Wrote(m, m', i, 0, []) && off <= 274432
    ensures Wrote(m, m', i, off, [])
  {
    var n := 0;
    assert forall f: nat, j: nat :: !In(off, n, f, j);
    assert forall f: nat, j: nat :: !In(0, n, f, j);
  }

  /** The bytes of a chunk of block f, from offset j on, are those of the file. */
  lemma ChunkIsContents(m: Image, i: nat, f: nat, j: nat, n: nat)
    requires m.Ok() && m.IsInode(i) && NoHoles(m, i) && f * 1024 + j + n <= m.inodes[i].size && j + n <= 1024 && n > 0
    ensures f < MAXFILE && Addr(m, i, f) != 0
    ensures m.IsBlock(Addr(m, i, f)) ==>
      BlockBytes(m.data[Addr(m, i, f)], j, n) == Contents(m, i)[f * 1024 + j..f * 1024 + j + n]
  {
    assert Addr(m, i, f) != 0;
    if m.IsBlock(Addr(m, i, f)) {
      forall x | 0 <= x < n
        ensures BlockBytes(m.data[Addr(m, i, f)], j, n)[x] == Contents(m, i)[f * 1024 + j + x]
      {
        PosOf(f, j + x);
        assert PosByte(m, i, f * 1024 + j + x) == ByteAt(m, i, f, j + x);
      }
    }
  }

  lemma PosOf(f: nat, j: nat)
    requires j < 1024
    ensures (f * 1024 + j) / 1024 == f && (f * 1024 + j) % 1024 == j
  {
  }
}
