/**
 Who owns each disk block. Inodes name blocks directly and through an indirect
 block; `own` labels every block with the one slot of the one inode that names
 it, and the predicates tie the labels to the bitmap and to the inodes.
 */
module BlockOwner {
  import opened LogFormat

  const NDIRECT: nat := 12
  const NINDIRECT: nat := 256
  const MAXFILE: nat := 268

  /** What block mapping uses of an inode. addrs[NDIRECT] is the indirect block. */
  datatype Inode = Inode(size: nat, addrs: seq<nat>) {
    predicate Ok() {
      |addrs| == NDIRECT + 1
    }

    function Indirect(): nat
      requires Ok()
    {
      addrs[NDIRECT]
    }

    function WithAddr(k: nat, b: nat): (r: Inode)
      requires Ok() && k <= NDIRECT
      ensures r.Ok()
    {
      Inode(size, addrs[k := b])
    }
  }

  datatype Owner =
    | Free                          // bit clear
    | Meta                          // boot block, superblock, log, inode blocks, bitmap
    | Held                          // allocated, not named by an inode
    | Data(inum: nat, fbn: nat)     // block fbn of a file
    | Ind(inum: nat)                // the indirect block of a file

  type Owners = seq<Owner>

  /** The bitmap, the inodes and the blocks. */
  datatype Image = Image(bits: seq<bool>, inodes: seq<Inode>, data: seq<Block>) {
    predicate Ok() {
      |bits| == |data| && forall i :: 0 <= i < |inodes| ==> inodes[i].Ok()
    }

    predicate IsInode(i: int) {
      0 <= i < |inodes|
    }

    predicate IsBlock(b: int) {
      0 <= b < |data|
    }
  }

  /** Entry j of the indirect block of inode i, 0 if there is no such block. */
  function Entry(m: Image, i: nat, j: nat): (b: nat)
    requires m.Ok() && m.IsInode(i) && j < NINDIRECT
  {
    var a := m.inodes[i].Indirect();
    if a != 0 && m.IsBlock(a) then m.data[a].words[j] else 0
  }

  /** The block of block number f of inode i, 0 if there is none. */
  function Addr(m: Image, i: nat, f: nat): (b: nat)
    requires m.Ok() && m.IsInode(i) && f < MAXFILE
  {
    if f < NDIRECT then m.inodes[i].addrs[f] else Entry(m, i, f - NDIRECT)
  }

  // ----- The invariant -----

  predicate BitOk(m: Image, own: Owners, b: nat)
    requires b < |m.bits| && b < |own|
  {
    m.bits[b] <==> !own[b].Free?
  }

  /** The block named by a slot is labelled with that slot. */
  predicate DownOk(m: Image, own: Owners, i: nat, f: nat)
    requires m.Ok() && m.IsInode(i) && f < MAXFILE
  {
    Addr(m, i, f) != 0 ==> Addr(m, i, f) < |own| && own[Addr(m, i, f)] == Data(i, f)
  }

  predicate DownInd(m: Image, own: Owners, i: nat)
    requires m.Ok() && m.IsInode(i)
  {
    var a := m.inodes[i].Indirect();
    a != 0 ==> a < |own| && own[a] == Ind(i)
  }

  /** A block labelled with a slot is named by that slot. */
  predicate UpOk(m: Image, own: Owners, b: nat)
    requires m.Ok() && b < |own|
  {
    match own[b]
    case Data(i, f) => m.IsInode(i) && f < MAXFILE && Addr(m, i, f) == b
    case Ind(i) => m.IsInode(i) && m.inodes[i].Indirect() == b
    case _ => true
  }

  ghost predicate OwnOk(m: Image, own: Owners) {
    && m.Ok() && |own| == |m.data| && |own| > 0 && own[0] == Meta
    && (forall b {:trigger BitOk(m, own, b)} :: 0 <= b < |own| ==> BitOk(m, own, b))
    && (forall b {:trigger UpOk(m, own, b)} :: 0 <= b < |own| ==> UpOk(m, own, b))
    && (forall i {:trigger DownInd(m, own, i)} :: m.IsInode(i) ==> DownInd(m, own, i))
    && (forall i, f {:trigger DownOk(m, own, i, f)} :: m.IsInode(i) && 0 <= f < MAXFILE ==> DownOk(m, own, i, f))
  }

  // ----- Steps -----

  /** memset(bp->data, 0, BSIZE). */
  function ZeroBlock(): (z: Block)
    ensures forall j :: 0 <= j < BLOCK_WORDS ==> z.words[j] == 0
  {
    Block(seq(BLOCK_WORDS, _ => 0))
  }

  /** Setting or clearing a bit, and changing the contents of the block. */
  function WithBit(m: Image, b: nat, bit: bool): (r: Image)
    requires m.Ok() && b < |m.bits|
    ensures r.Ok()
  {
    m.(bits := m.bits[b := bit])
  }

  function WithBlock(m: Image, b: nat, x: Block): (r: Image)
    requires m.Ok() && m.IsBlock(b)
    ensures r.Ok()
  {
    m.(data := m.data[b := x])
  }

  function WithInode(m: Image, i: nat, ino: Inode): (r: Image)
    requires m.Ok() && m.IsInode(i) && ino.Ok()
    ensures r.Ok()
  {
    m.(inodes := m.inodes[i := ino])
  }

  /** Only the entries of an indirect block depend on the contents of blocks. */
  lemma AddrOfBlock(m: Image, own: Owners, b: nat, x: Block, i: nat, f: nat)
    requires OwnOk(m, own) && b < |own| && !own[b].Ind? && m.IsInode(i) && f < MAXFILE
    ensures Addr(WithBlock(m, b, x), i, f) == Addr(m, i, f)
  {
    assert DownInd(m, own, i);
  }

  /** Writing a block that is no indirect block changes no label and no address. */
  lemma WriteKeeps(m: Image, own: Owners, b: nat, x: Block)
    requires OwnOk(m, own) && b < |own| && !own[b].Ind?
    ensures OwnOk(WithBlock(m, b, x), own)
    ensures forall i, f :: m.IsInode(i) && 0 <= f < MAXFILE ==> Addr(WithBlock(m, b, x), i, f) == Addr(m, i, f)
  {
    var m' := WithBlock(m, b, x);
    forall i, f | m.IsInode(i) && 0 <= f < MAXFILE
      ensures Addr(m', i, f) == Addr(m, i, f) && DownOk(m', own, i, f)
    {
      AddrOfBlock(m, own, b, x, i, f);
      assert DownOk(m, own, i, f);
    }
    forall i | m.IsInode(i)
      ensures DownInd(m', own, i)
    {
      assert DownInd(m, own, i);
    }
    forall c | 0 <= c < |own|
      ensures UpOk(m', own, c) && BitOk(m', own, c)
    {
      assert UpOk(m, own, c) && BitOk(m, own, c);
    }
  }

  /** Marking a free block as held, or a held one as free. */
  lemma FlipKeeps(m: Image, own: Owners, b: nat, bit: bool)
    requires OwnOk(m, own) && 0 < b < |own| && (own[b].Free? || own[b].Held?)
    ensures OwnOk(WithBit(m, b, bit), own[b := if bit then Held else Free])
    ensures forall i, f :: m.IsInode(i) && 0 <= f < MAXFILE ==> Addr(WithBit(m, b, bit), i, f) == Addr(m, i, f)
  {
    var m', own' := WithBit(m, b, bit), own[b := if bit then Held else Free];
    forall i, f | m.IsInode(i) && 0 <= f < MAXFILE
      ensures Addr(m', i, f) == Addr(m, i, f) && DownOk(m', own', i, f)
    {
      assert DownOk(m, own, i, f);
    }
    forall i | m.IsInode(i)
      ensures DownInd(m', own', i)
    {
      assert DownInd(m, own, i);
    }
    forall c | 0 <= c < |own|
      ensures UpOk(m', own', c) && BitOk(m', own', c)
    {
      assert UpOk(m, own, c) && BitOk(m, own, c);
    }
  }

  /** Slot k of inode i takes over the held block b. */
  lemma PlaceDirect(m: Image, own: Owners, i: nat, k: nat, b: nat)
    requires OwnOk(m, own) && m.IsInode(i) && k < NDIRECT && m.inodes[i].addrs[k] == 0
    requires 0 < b < |own| && own[b].Held?
    ensures OwnOk(WithInode(m, i, m.inodes[i].WithAddr(k, b)), own[b := Data(i, k)])
  {
    var m', own' := WithInode(m, i, m.inodes[i].WithAddr(k, b)), own[b := Data(i, k)];
    forall j, f | m.IsInode(j) && 0 <= f < MAXFILE
      ensures DownOk(m', own', j, f)
    {
      assert DownOk(m, own, j, f);
    }
    forall j | m.IsInode(j)
      ensures DownInd(m', own', j)
    {
      assert DownInd(m, own, j);
    }
    forall c | 0 <= c < |own|
      ensures UpOk(m', own', c) && BitOk(m', own', c)
    {
      assert UpOk(m, own, c) && BitOk(m, own, c);
    }
  }

  /** Slot k of inode i gives up its block. */
  lemma RemoveDirect(m: Image, own: Owners, i: nat, k: nat)
    requires OwnOk(m, own) && m.IsInode(i) && k < NDIRECT && m.inodes[i].addrs[k] != 0
    ensures m.inodes[i].addrs[k] < |own| && own[m.inodes[i].addrs[k]] == Data(i, k)
    ensures OwnOk(WithInode(m, i, m.inodes[i].WithAddr(k, 0)), own[m.inodes[i].addrs[k] := Held])
  {
    assert DownOk(m, own, i, k);
    var b := m.inodes[i].addrs[k];
    var m', own' := WithInode(m, i, m.inodes[i].WithAddr(k, 0)), own[b := Held];
    forall j, f | m.IsInode(j) && 0 <= f < MAXFILE
      ensures DownOk(m', own', j, f)
    {
      assert DownOk(m, own, j, f);
    }
    forall j | m.IsInode(j)
      ensures DownInd(m', own', j)
    {
      assert DownInd(m, own, j);
    }
    forall c | 0 <= c < |own|
      ensures UpOk(m', own', c) && BitOk(m', own', c)
    {
      assert UpOk(m, own, c) && BitOk(m, own, c);
    }
  }

  /** The zeroed held block b becomes the indirect block of inode i. */
  lemma PlaceInd(m: Image, own: Owners, i: nat, b: nat)
    requires OwnOk(m, own) && m.IsInode(i) && m.inodes[i].Indirect() == 0
    requires 0 < b < |own| && own[b].Held? && m.data[b] == ZeroBlock()
    ensures OwnOk(WithInode(m, i, m.inodes[i].WithAddr(NDIRECT, b)), own[b := Ind(i)])
    ensures forall j, f :: m.IsInode(j) && 0 <= f < MAXFILE ==>
      Addr(WithInode(m, i, m.inodes[i].WithAddr(NDIRECT, b)), j, f) == Addr(m, j, f)
  {
    var m', own' := WithInode(m, i, m.inodes[i].WithAddr(NDIRECT, b)), own[b := Ind(i)];
    forall j, f | m.IsInode(j) && 0 <= f < MAXFILE
      ensures Addr(m', j, f) == Addr(m, j, f) && DownOk(m', own', j, f)
    {
      assert DownOk(m, own, j, f) && DownInd(m, own, j);
    }
    forall j | m.IsInode(j)
      ensures DownInd(m', own', j)
    {
      assert DownInd(m, own, j);
    }
    forall c | 0 <= c < |own|
      ensures UpOk(m', own', c) && BitOk(m', own', c)
    {
      assert UpOk(m, own, c) && BitOk(m, own, c);
    }
  }

  /** Entry j of the indirect block set to b. */
  function WithEntry(m: Image, i: nat, j: nat, b: Word): (r: Image)
    requires m.Ok() && m.IsInode(i) && j < NINDIRECT && m.IsBlock(m.inodes[i].Indirect())
    ensures r.Ok()
  {
    var a := m.inodes[i].Indirect();
    WithBlock(m, a, Block(m.data[a].words[j := b]))
  }

  /** Entry j of the indirect block of inode i takes over the held block b. */
  lemma PlaceEntry(m: Image, own: Owners, i: nat, j: nat, b: Word)
    requires OwnOk(m, own) && m.IsInode(i) && j < NINDIRECT && m.inodes[i].Indirect() != 0 && Entry(m, i, j) == 0
    requires 0 < b < |own| && own[b].Held?
    ensures m.IsBlock(m.inodes[i].Indirect())
    ensures OwnOk(WithEntry(m, i, j, b), own[b := Data(i, NDIRECT + j)])
    ensures forall k, f :: m.IsInode(k) && 0 <= f < MAXFILE ==>
      Addr(WithEntry(m, i, j, b), k, f) == if k == i && f == NDIRECT + j then b else Addr(m, k, f)
  {
    assert DownInd(m, own, i);
    var m', own' := WithEntry(m, i, j, b), own[b := Data(i, NDIRECT + j)];
    forall k, f | m.IsInode(k) && 0 <= f < MAXFILE
      ensures Addr(m', k, f) == if k == i && f == NDIRECT + j then b else Addr(m, k, f)
      ensures DownOk(m', own', k, f)
    {
      assert DownOk(m, own, k, f) && DownInd(m, own, k);
    }
    forall k | m.IsInode(k)
      ensures DownInd(m', own', k)
    {
      assert DownInd(m, own, k);
    }
    forall c | 0 <= c < |own|
      ensures UpOk(m', own', c) && BitOk(m', own', c)
    {
      assert UpOk(m, own, c) && BitOk(m, own, c);
    }
  }

  // ----- Taking away the indirect part of an inode -----

  /** A block reached through the indirect block of inode i, or that block itself. */
  predicate Below(o: Owner, i: nat) {
    (o.Ind? && o.inum == i) || (o.Data? && o.inum == i && o.fbn >= NDIRECT)
  }

  /** All these blocks become held. */
  function Loosened(own: Owners, i: nat): (r: Owners)
    ensures |r| == |own|
    ensures forall b :: 0 <= b < |own| ==> r[b] == if Below(own[b], i) then Held else own[b]
  {
    if own == [] then []
    else
      var o := own[|own| - 1];
      Loosened(own[..|own| - 1], i) + [if Below(o, i) then Held else o]
  }

  /** The image as if inode i had no indirect block. */
  function Detached(m: Image, i: nat): (r: Image)
    requires m.Ok() && m.IsInode(i)
    ensures r.Ok()
  {
    WithInode(m, i, m.inodes[i].WithAddr(NDIRECT, 0))
  }

  lemma Detach(m: Image, own: Owners, i: nat)
    requires OwnOk(m, own) && m.IsInode(i)
    ensures OwnOk(Detached(m, i), Loosened(own, i))
  {
    var m', own' := Detached(m, i), Loosened(own, i);
    forall j, f | m.IsInode(j) && 0 <= f < MAXFILE
      ensures DownOk(m', own', j, f)
    {
      assert DownOk(m, own, j, f) && DownInd(m, own, j);
    }
    forall j | m.IsInode(j)
      ensures DownInd(m', own', j)
    {
      assert DownInd(m, own, j);
    }
    forall c | 0 <= c < |own|
      ensures UpOk(m', own', c) && BitOk(m', own', c)
    {
      assert UpOk(m, own, c) && BitOk(m, own, c);
    }
  }

  // ----- Consequences -----

  /** Distinct slots name distinct blocks. */
  lemma AddrInjective(m: Image, own: Owners, i: nat, f: nat, j: nat, g: nat)
    requires OwnOk(m, own) && m.IsInode(i) && m.IsInode(j) && f < MAXFILE && g < MAXFILE
    requires Addr(m, i, f) != 0 && Addr(m, i, f) == Addr(m, j, g)
    ensures i == j && f == g
  {
    assert DownOk(m, own, i, f) && DownOk(m, own, j, g);
  }
}
