/**
 The image mkfs/mkfs.c builds: blocks are handed out in order, files grow by
 iappend(), and the bitmap is written at the end. A call that makes the program
 exit returns false, and then nothing is said of the image.
 */
module Mkfs {
  import opened LogFormat
  import opened ByteWords
  import opened BlockOwner
  import opened FileData
  import opened Fs

  /** The first k of n bits are set. */
  function Used(n: nat, k: nat): (bits: seq<bool>)
    ensures |bits| == n && forall b :: 0 <= b < n ==> bits[b] == (b < k)
  {
    seq(n, b => b < k)
  }

  lemma UsedNext(n: nat, k: nat)
    requires k < n
    ensures Used(n, k + 1) == Used(n, k)[k := true]
  {
  }

  // ----- Blocks of a file -----

  /** The blocks that hold n bytes. */
  function Blocks(n: nat): nat {
    (n + 1023) / 1024
  }

  /** The same with the indirect block. */
  function Need(n: nat): nat {
    Blocks(n) + if Blocks(n) > NDIRECT then 1 else 0
  }

  lemma NeedMore(a: nat, b: nat)
    requires a <= b
    ensures Need(a) <= Need(b)
  {
  }

  /** What block f adds for a file of n bytes that is about to grow into it. */
  lemma NeedBlock(n: nat, f: nat, n2: nat)
    requires f * 1024 <= n < n2 <= f * 1024 + 1024
    ensures Need(n2) == Need(n) + (if n == f * 1024 then 1 else 0) + (if f >= NDIRECT && n <= 12288 then 1 else 0)
  {
    assert Blocks(n2) == f + 1;
    assert n == f * 1024 ==> Blocks(n) == f;
    assert n > f * 1024 ==> Blocks(n) == f + 1;
  }

  /** Inode i has the blocks that n bytes need, and no others. */
  ghost predicate Exact(m: Image, i: nat, n: nat)
    requires m.Ok() && m.IsInode(i)
  {
    && (forall f {:trigger Addr(m, i, f)} :: 0 <= f < MAXFILE ==> (Addr(m, i, f) != 0 <==> f * 1024 < n))
    && (m.inodes[i].Indirect() != 0 <==> n > 12288)
  }

  /** The blocks of inode i are zero from position n on. */
  ghost predicate ZeroFrom(m: Image, i: nat, n: nat)
    requires m.Ok() && m.IsInode(i)
  {
    forall f, j {:trigger ByteAt(m, i, f, j)} :: 0 <= f < MAXFILE && 0 <= j < 1024 && f * 1024 + j >= n ==>
      ByteAt(m, i, f, j) == 0
  }

  /** A file as iappend() leaves it. */
  ghost predicate Filled(m: Image, i: nat)
    requires m.Ok() && m.IsInode(i)
  {
    var n := m.inodes[i].size;
    n <= 274432 && Exact(m, i, n) && ZeroFrom(m, i, n)
  }

  ghost predicate AllFilled(m: Image)
    requires m.Ok()
  {
    forall i {:trigger Filled(m, i)} :: m.IsInode(i) ==> Filled(m, i)
  }

  /** src was appended to the contents of inode i, and the other files have the contents they had. */
  ghost predicate Grown(m: Image, m': Image, i: nat, src: seq<byte>) {
    && m.Ok() && m'.Ok() && |m'.inodes| == |m.inodes| && m.IsInode(i)
    && m.inodes[i].size + |src| == m'.inodes[i].size <= 274432
    && Contents(m', i) == Contents(m, i) + src
    && (forall k :: m.IsInode(k) && k != i ==> m'.inodes[k] == m.inodes[k] && KeptContents(m, m', k))
  }

  ghost predicate KeptContents(m: Image, m': Image, k: nat) {
    && m.Ok() && m'.Ok() && m.IsInode(k) && m'.IsInode(k)
    && m'.inodes[k].size == m.inodes[k].size <= 274432 && Contents(m', k) == Contents(m, k)
  }

  /** From position p on, inode i reads as before; a block that is missing reads as zero. */
  ghost predicate SameFrom(m: Image, m': Image, i: nat, p: nat)
    requires m.Ok() && m'.Ok() && m.IsInode(i) && m'.IsInode(i)
  {
    forall f, j {:trigger ByteAt(m', i, f, j)} :: 0 <= f < MAXFILE && 0 <= j < 1024 && f * 1024 + j >= p ==>
      ByteAt(m', i, f, j) == ByteAt(m, i, f, j)
  }

  /** Labels of an empty file system with nmeta blocks of metadata. */
  function MetaLabels(size: nat, nmeta: nat): (own: Owners)
    ensures |own| == size && forall b :: 0 <= b < size ==> own[b] == if b < nmeta then Meta else Free
  {
    seq(size, b => if b < nmeta then Meta else Free)
  }

  function EmptyInodes(n: nat): (inodes: seq<Inode>)
    ensures |inodes| == n && forall i :: 0 <= i < n ==> inodes[i] == Inode(0, NoAddrs())
  {
    seq(n, _ => Inode(0, NoAddrs()))
  }

  function ZeroBlocks(n: nat): (data: seq<Block>)
    ensures |data| == n && forall b :: 0 <= b < n ==> data[b] == ZeroBlock()
  {
    seq(n, _ => ZeroBlock())
  }

  /** The image with a bitmap that has the blocks before freeblock. */
  function Marked(m: Image, freeblock: nat): (r: Image) {
    m.(bits := Used(|m.data|, freeblock))
  }

  /** Blocks before freeblock are metadata or named by an inode; the others are free and zero. */
  ghost predicate Built(m: Image, own: Owners, freeblock: nat, size: nat, nmeta: nat) {
    && OwnOk(Marked(m, freeblock), own) && |m.data| == size == |m.bits| && size < 0x1_0000_0000
    && nmeta <= freeblock <= size
    && (forall b :: freeblock <= b < size ==> m.data[b] == ZeroBlock())
    && (forall b :: 0 <= b < size ==> !own[b].Held? && (own[b].Meta? <==> b < nmeta))
  }

  lemma BuiltIs(m: Image, own: Owners, freeblock: nat, size: nat, nmeta: nat)
    requires Built(m, own, freeblock, size, nmeta)
    ensures m.Ok() && Marked(m, freeblock).Ok() && OwnOk(Marked(m, freeblock), own) && freeblock <= size == |m.data|
  {
  }

  lemma BuiltWrite(m: Image, own: Owners, freeblock: nat, size: nat, nmeta: nat, x: nat, block: Block)
    requires Built(m, own, freeblock, size, nmeta) && x < freeblock && own[x].Data?
    ensures m.Ok() && m.IsBlock(x) && Built(WithBlock(m, x, block), own, freeblock, size, nmeta)
    ensures Marked(WithBlock(m, x, block), freeblock) == WithBlock(Marked(m, freeblock), x, block)
  {
    WriteKeeps(Marked(m, freeblock), own, x, block);
    assert Marked(WithBlock(m, x, block), freeblock) == WithBlock(Marked(m, freeblock), x, block);
  }

  lemma BuiltSize(m: Image, own: Owners, freeblock: nat, size: nat, nmeta: nat, i: nat, n: nat)
    requires Built(m, own, freeblock, size, nmeta) && m.IsInode(i)
    ensures m.Ok() && Built(Sized(m, i, n), own, freeblock, size, nmeta)
    ensures Marked(Sized(m, i, n), freeblock) == Sized(Marked(m, freeblock), i, n)
  {
    SizeKeeps(Marked(m, freeblock), own, i, n);
    assert Marked(Sized(m, i, n), freeblock) == Sized(Marked(m, freeblock), i, n);
  }

  class Builder {
    const size: nat
    const nmeta: nat
    var m: Image
    var freeblock: nat
    var freeinode: nat
    ghost var own: Owners

    /** The image as it will be once the bitmap is written. */
    ghost function Now(): (r: Image)
      reads this
    {
      Marked(m, freeblock)
    }

    ghost predicate Core()
      reads this
    {
      Built(m, own, freeblock, size, nmeta)
    }

    ghost predicate Valid()
      reads this
    {
      && Core() && AllFilled(Now())
      && (forall i :: m.IsInode(i) && i >= freeinode ==> m.inodes[i] == Inode(0, NoAddrs()))
    }

    lemma CoreIs(i: nat)
      requires Core()
      ensures Now().Ok() && m.Ok() && OwnOk(Now(), own) && (m.IsInode(i) <==> Now().IsInode(i)) && freeblock <= size
      ensures Now().inodes == m.inodes && m.IsInode(i) == (i < |m.inodes|)
    {
    }

    lemma ValidIs(i: nat)
      requires Valid()
      ensures Core() && Now().Ok() && AllFilled(Now()) && freeblock <= size
      ensures Now().inodes == m.inodes && m.IsInode(i) == Now().IsInode(i) == (i < |m.inodes|)
    {
    }

    /** A zeroed image; the first block to be handed out follows the metadata. */
    constructor (size: nat, nmeta: nat, ninodes: nat)
      requires 0 < nmeta <= size < 0x1_0000_0000
      ensures Valid() && this.size == size && this.nmeta == freeblock == nmeta && |m.inodes| == ninodes
      ensures freeinode == 1
      ensures forall i :: m.IsInode(i) ==> m.inodes[i] == Inode(0, NoAddrs())
    {
      this.size := size;
      this.nmeta := nmeta;
      m := Image(Used(size, 0), EmptyInodes(ninodes), ZeroBlocks(size));
      freeblock := nmeta;
      freeinode := 1;
      own := MetaLabels(size, nmeta);
      new;
      Fresh(Now(), own, nmeta);
    }

    /** ialloc(): the next inode, zeroed. */
    method Ialloc() returns (inum: nat)
      requires Valid() && freeinode < |m.inodes|
      modifies this`m, this`freeinode
      ensures Valid() && inum == old(freeinode) && freeinode == inum + 1 && m == old(m)
      ensures m.inodes[inum] == Inode(0, NoAddrs())
    {
      inum := freeinode;
      freeinode := freeinode + 1;
      m := WithInode(m, inum, Inode(0, NoAddrs()));
      assert m.inodes == old(m).inodes;
    }

    /** freeblock++ for direct block k of inode i. */
    method NewDirect(i: nat, k: nat) returns (x: nat)
      requires Core() && m.IsInode(i) && k < NDIRECT && m.inodes[i].addrs[k] == 0 && freeblock < size
      modifies this`m, this`own, this`freeblock
      ensures Core() && freeblock == old(freeblock) + 1 && Wrote(old(Now()), Now(), i, 0, [])
      ensures x == Addr(Now(), i, k) && x != 0 && x < size && m.data[x] == ZeroBlock()
      ensures m.inodes[i].Indirect() == old(m).inodes[i].Indirect()
      ensures forall f :: 0 <= f < MAXFILE && f != k ==> Addr(Now(), i, f) == Addr(old(Now()), i, f)
    {
      x := freeblock;
      ghost var now := Now();
      NewBlock(now, own, x, i);
      DirectPlaced(WithBit(now, x, true), own[x := Held], i, k, x);
      UsedNext(|m.data|, freeblock);
      ghost var target := WithInode(WithBit(now, x, true), i, m.inodes[i].WithAddr(k, x));
      WroteTrans(now, WithBit(now, x, true), target, i, 0, [], []);
      freeblock := freeblock + 1;
      m := WithInode(m, i, m.inodes[i].WithAddr(k, x));
      own := own[x := Held][x := Data(i, k)];
      assert Now() == target;
    }

    /** freeblock++ for the indirect block of inode i. */
    method NewIndirect(i: nat)
      requires Core() && m.IsInode(i) && m.inodes[i].Indirect() == 0 && freeblock < size
      modifies this`m, this`own, this`freeblock
      ensures Core() && freeblock == old(freeblock) + 1 && Wrote(old(Now()), Now(), i, 0, [])
      ensures m.inodes[i].Indirect() != 0
      ensures forall f :: 0 <= f < MAXFILE ==> Addr(Now(), i, f) == Addr(old(Now()), i, f)
    {
      var x := freeblock;
      ghost var now := Now();
      NewBlock(now, own, x, i);
      IndPlaced(WithBit(now, x, true), own[x := Held], i, x);
      PlaceInd(WithBit(now, x, true), own[x := Held], i, x);
      UsedNext(|m.data|, freeblock);
      ghost var target := WithInode(WithBit(now, x, true), i, m.inodes[i].WithAddr(NDIRECT, x));
      WroteTrans(now, WithBit(now, x, true), target, i, 0, [], []);
      freeblock := freeblock + 1;
      m := WithInode(m, i, m.inodes[i].WithAddr(NDIRECT, x));
      own := own[x := Held][x := Ind(i)];
      assert Now() == target;
    }

    /** freeblock++ for entry j of the indirect block of inode i. */
    method NewEntry(i: nat, j: nat) returns (x: nat)
      requires Core() && m.IsInode(i) && j < NINDIRECT && freeblock < size
      requires m.inodes[i].Indirect() != 0 && Entry(Now(), i, j) == 0
      modifies this`m, this`own, this`freeblock
      ensures Core() && freeblock == old(freeblock) + 1 && Wrote(old(Now()), Now(), i, 0, [])
      ensures x == Addr(Now(), i, NDIRECT + j) && x != 0 && x < size && m.data[x] == ZeroBlock()
      ensures m.inodes == old(m).inodes
      ensures forall f :: 0 <= f < MAXFILE && f != NDIRECT + j ==> Addr(Now(), i, f) == Addr(old(Now()), i, f)
    {
      x := freeblock;
      ghost var now := Now();
      NewBlock(now, own, x, i);
      EntryPlaced(WithBit(now, x, true), own[x := Held], i, j, x);
      PlaceEntry(WithBit(now, x, true), own[x := Held], i, j, x);
      UsedNext(|m.data|, freeblock);
      ghost var target := WithEntry(WithBit(now, x, true), i, j, x);
      WroteTrans(now, WithBit(now, x, true), target, i, 0, [], []);
      InUse(now, own, i);
      freeblock := freeblock + 1;
      m := WithEntry(m, i, j, x);
      own := own[x := Held][x := Data(i, NDIRECT + j)];
      assert Now() == target;
    }

    /** Blocks to be handed out for block number fbn of inode i. */
    ghost function Missing(i: nat, fbn: nat): (k: nat)
      requires Now().Ok() && m.IsInode(i) && fbn < MAXFILE
      reads this
    {
      (if Addr(Now(), i, fbn) == 0 then 1 else 0) + (if fbn >= NDIRECT && m.inodes[i].Indirect() == 0 then 1 else 0)
    }

    lemma MissingIs(i: nat, n: nat, fbn: nat, n2: nat)
      requires Now().Ok() && m.IsInode(i) && fbn < MAXFILE && Exact(Now(), i, n)
      requires fbn * 1024 <= n < n2 <= fbn * 1024 + 1024
      ensures Missing(i, fbn) == Need(n2) - Need(n)
    {
      NeedBlock(n, fbn, n2);
      assert Addr(Now(), i, fbn) != 0 <==> fbn * 1024 < n;
    }

    /**
     The block for block number fbn of inode i, handed out if there was none.
     Reading a block past the end of the image makes the program exit.
     */
    method MapBlock(i: nat, fbn: nat) returns (x: nat, ok: bool)
      requires Core() && m.IsInode(i) && fbn < MAXFILE
      modifies this`m, this`own, this`freeblock
      ensures ok <==> old(freeblock + Missing(i, fbn)) <= size
      ensures ok ==> Core() && freeblock == old(freeblock + Missing(i, fbn)) && Wrote(old(Now()), Now(), i, 0, [])
      ensures ok ==> x == Addr(Now(), i, fbn) && 0 < x < freeblock && own[x].Data?
      ensures ok && Addr(old(Now()), i, fbn) == 0 ==> m.data[x] == ZeroBlock()
      ensures ok ==> (m.inodes[i].Indirect() != 0 <==> fbn >= NDIRECT || old(m).inodes[i].Indirect() != 0)
      ensures ok ==> forall f :: 0 <= f < MAXFILE && f != fbn ==> Addr(Now(), i, f) == Addr(old(Now()), i, f)
    {
      Unwritten(Now(), i);
      if fbn < NDIRECT {
        x := m.inodes[i].addrs[fbn];
        if x == 0 {
          if freeblock == size {
            return 0, false;
          }
          x := NewDirect(i, fbn);
        }
        BlockInUse(Now(), own, i, fbn);
        return x, true;
      }
      x, ok := MapEntry(i, fbn - NDIRECT);
    }

    /** The same for entry j of the indirect block. */
    method MapEntry(i: nat, j: nat) returns (x: nat, ok: bool)
      requires Core() && m.IsInode(i) && j < NINDIRECT
      modifies this`m, this`own, this`freeblock
      ensures ok <==> old(freeblock + Missing(i, NDIRECT + j)) <= size
      ensures ok ==> Core() && freeblock == old(freeblock + Missing(i, NDIRECT + j))
      ensures ok ==> Wrote(old(Now()), Now(), i, 0, [])
      ensures ok ==> x == Addr(Now(), i, NDIRECT + j) && 0 < x < freeblock && own[x].Data?
      ensures ok && Addr(old(Now()), i, NDIRECT + j) == 0 ==> m.data[x] == ZeroBlock()
      ensures ok ==> m.inodes[i].Indirect() != 0
      ensures ok ==> forall f :: 0 <= f < MAXFILE && f != NDIRECT + j ==> Addr(Now(), i, f) == Addr(old(Now()), i, f)
    {
      Unwritten(Now(), i);
      if m.inodes[i].Indirect() == 0 {
        if freeblock == size {
          return 0, false;
        }
        NewIndirect(i);
      }
      InUse(Now(), own, i);
      x := m.data[m.inodes[i].Indirect()].words[j];
      assert x == Addr(Now(), i, NDIRECT + j);
      if x == 0 {
        if freeblock == size {
          return 0, false;
        }
        ghost var now1 := Now();
        x := NewEntry(i, j);
        WroteTrans(old(Now()), now1, Now(), i, 0, [], []);
      }
      BlockInUse(Now(), own, i, NDIRECT + j);
      ok := true;
    }

    /** One turn of iappend()'s loop: chunk goes to position off, within one block. */
    method AppendTurn(i: nat, off: nat, chunk: seq<byte>) returns (ok: bool)
      requires Core() && m.IsInode(i) && WithinBlock(off, |chunk|) && off + |chunk| <= 274432 && chunk != []
      requires Exact(Now(), i, off)
      modifies this`m, this`own, this`freeblock
      ensures ok <==> old(freeblock) + Need(off + |chunk|) - Need(off) <= size
      ensures ok ==> Core() && freeblock == old(freeblock) + Need(off + |chunk|) - Need(off)
      ensures ok ==> Wrote(old(Now()), Now(), i, off, chunk) && Exact(Now(), i, off + |chunk|)
      ensures ok ==> SameFrom(old(Now()), Now(), i, off + |chunk|)
    {
      var f, j := off / 1024, off % 1024;
      assert off == f * 1024 + j;
      ghost var now0 := Now();
      BuiltIs(m, own, freeblock, size, nmeta);
      MissingIs(i, off, f, off + |chunk|);
      hide Built, OwnOk, Wrote, Need, SameFrom, SetBlockBytes, Exact, Addr, Missing;
      var x;
      x, ok := MapBlock(i, f);
      if !ok {
        return;
      }
      BuiltIs(m, own, freeblock, size, nmeta);
      Turned(now0, Now(), own, i, off, f, j, chunk);
      BuiltWrite(m, own, freeblock, size, nmeta, x, SetBlockBytes(m.data[x], j, chunk));
      m := WithBlock(m, x, SetBlockBytes(m.data[x], j, chunk));
    }

    /** The loop of iappend(). */
    method AppendLoop(i: nat, start: nat, src: seq<byte>) returns (ok: bool)
      requires Core() && m.IsInode(i) && start <= 274432 && Exact(Now(), i, start)
      modifies this`m, this`own, this`freeblock
      ensures ok <==> start + |src| <= 274432 && old(freeblock) + Need(start + |src|) - Need(start) <= size
      ensures ok ==> Core() && freeblock == old(freeblock) + Need(start + |src|) - Need(start)
      ensures ok ==> Wrote(old(Now()), Now(), i, start, src) && Exact(Now(), i, start + |src|)
      ensures ok ==> SameFrom(old(Now()), Now(), i, start + |src|)
    {
      hide *;
      ghost var now0 := Now();
      CoreIs(i);
      AppendingNone(now0, i, start, src);
      var off, n: nat := start, |src|;
      while n > 0
        invariant n <= |src| && off == start + |src| - n && off <= 274432
        invariant Core() && m.IsInode(i) && Appending(now0, Now(), i, start, src, |src| - n)
        invariant freeblock == old(freeblock) + Need(off) - Need(start)
      {
        if off / 1024 >= MAXFILE {
          TooLarge(off);
          return false;
        }
        var n1, done := ChunkLength(off, n), |src| - n;
        ghost var now1 := Now();
        ChunkFits(off, n);
        AppendingIs(now0, now1, i, start, src, done);
        NeedMore(off + n1, start + |src|);
        ok := AppendTurn(i, off, src[done..done + n1]);
        if !ok {
          return;
        }
        CoreIs(i);
        AppendingNext(now0, now1, Now(), i, start, src, done, n1);
        AppendingIs(now0, Now(), i, start, src, done + n1);
        n, off := n - n1, off + n1;
      }
      CoreIs(i);
      AppendingAll(now0, Now(), i, start, src);
      ok := true;
    }

    /** Append src to inode i. Fails exactly if the file would be too large or the image is full. */
    method Iappend(i: nat, src: seq<byte>) returns (ok: bool)
      requires Valid() && m.IsInode(i) && i < freeinode
      modifies this`m, this`own, this`freeblock
      ensures ok <==>
        var n := old(m).inodes[i].size; n + |src| <= 274432 && old(freeblock) + Need(n + |src|) - Need(n) <= size
      ensures ok ==> Valid() && Grown(old(Now()), Now(), i, src)
      ensures ok ==> freeblock == old(freeblock) + Need(old(m).inodes[i].size + |src|) - Need(old(m).inodes[i].size)
    {
      var off := m.inodes[i].size;
      ghost var now0 := Now();
      BuiltIs(m, own, freeblock, size, nmeta);
      assert Filled(now0, i);
      hide Built, OwnOk, Wrote, Need, SameFrom, Exact, ZeroFrom, Grown, AllFilled;
      ok := AppendLoop(i, off, src);
      if !ok {
        return;
      }
      ghost var now := Now();
      BuiltIs(m, own, freeblock, size, nmeta);
      WroteIs(now0, now, i, off, src);
      Appended(now0, now, own, i, src);
      BuiltSize(m, own, freeblock, size, nmeta, i, off + |src|);
      m := WithInode(m, i, m.inodes[i].(size := off + |src|));
    }

    /**
     "fix size of root inode dir": the size is rounded up, also if it was a whole
     number of blocks. Then the file has a hole, and this is the only way to one.
     */
    method RoundSize(i: nat)
      requires Valid() && m.IsInode(i)
      modifies this`m
      ensures Core() && m == Sized(old(m), i, (old(m).inodes[i].size / 1024 + 1) * 1024)
      ensures Sound(Now(), own) <==> old(m).inodes[i].size % 1024 != 0
      ensures Now().Ok() && RoundedUp(old(Now()), Now(), i)
    {
      ghost var now := Now();
      var off := m.inodes[i].size;
      off := (off / 1024 + 1) * 1024;
      BuiltSize(m, own, freeblock, size, nmeta, i, off);
      m := WithInode(m, i, m.inodes[i].(size := off));
      Rounded(now, own, i);
    }

    /** balloc(): the bitmap is written, one bit for each block handed out. */
    method WriteBitmap() returns (ok: bool)
      requires Core()
      modifies this`m
      ensures ok <==> freeblock < BPB
      ensures !ok ==> m == old(m)
      ensures ok ==> Core() && m == Now() == old(Now()) && OwnOk(m, own)
      ensures ok ==> forall b :: 0 <= b < size ==> !own[b].Held? && (own[b].Free? <==> b >= freeblock)
      ensures ok ==> (Sound(m, own) <==> old(Sound(Now(), own)))
    {
      if freeblock >= BPB {
        return false;
      }
      var bits := Used(|m.data|, 0);
      for i := 0 to freeblock
        invariant bits == Used(|m.data|, i) && m == old(m)
      {
        UsedNext(|m.data|, i);
        bits := bits[i := true];
      }
      m := m.(bits := bits);
      forall b | 0 <= b < size
        ensures own[b].Free? <==> b >= freeblock
      {
        assert BitOk(m, own, b);
      }
      ok := true;
    }
  }

  /** An indirect block is marked in use. */
  lemma InUse(now: Image, own: Owners, i: nat)
    requires OwnOk(now, own) && now.IsInode(i) && now.inodes[i].Indirect() != 0
    ensures now.IsBlock(now.inodes[i].Indirect()) && now.bits[now.inodes[i].Indirect()]
  {
    assert DownInd(now, own, i);
    assert BitOk(now, own, now.inodes[i].Indirect());
  }

  /** The next block in order is free, zero, and can be taken. */
  lemma NewBlock(now: Image, own: Owners, x: nat, i: nat)
    requires OwnOk(now, own) && x < |own| && !now.bits[x] && now.data[x] == ZeroBlock() && now.IsInode(i)
    ensures 0 < x && own[x].Free? && OwnOk(WithBit(now, x, true), own[x := Held])
    ensures Wrote(now, WithBit(now, x, true), i, 0, [])
    ensures forall k, f :: now.IsInode(k) && 0 <= f < MAXFILE ==> Addr(WithBit(now, x, true), k, f) == Addr(now, k, f)
  {
    assert BitOk(now, own, x) && BitOk(now, own, 0);
    FlipKeeps(now, own, x, true);
    ClaimWrote(now, own, x, i);
    assert now.data[x := ZeroBlock()] == now.data;
    assert WithBlock(WithBit(now, x, true), x, ZeroBlock()) == WithBit(now, x, true);
  }

  lemma BlockInUse(now: Image, own: Owners, i: nat, f: nat)
    requires OwnOk(now, own) && now.IsInode(i) && f < MAXFILE && Addr(now, i, f) != 0
    ensures now.IsBlock(Addr(now, i, f)) && now.bits[Addr(now, i, f)] && own[Addr(now, i, f)].Data?
  {
    assert DownOk(now, own, i, f);
    assert BitOk(now, own, Addr(now, i, f));
  }

  /** One turn of iappend() on values: block f was mapped, then written. */
  lemma Turned(now0: Image, now1: Image, own: Owners, i: nat, off: nat, f: nat, j: nat, chunk: seq<byte>)
    requires OwnOk(now1, own) && Wrote(now0, now1, i, 0, []) && Exact(now0, i, off)
    requires off == f * 1024 + j && chunk != [] && j + |chunk| <= 1024 && f < MAXFILE && Addr(now1, i, f) != 0
    requires now1.IsBlock(Addr(now1, i, f)) && own[Addr(now1, i, f)].Data?
    requires Addr(now0, i, f) == 0 ==> now1.data[Addr(now1, i, f)] == ZeroBlock()
    requires now1.inodes[i].Indirect() != 0 <==> f >= NDIRECT || now0.inodes[i].Indirect() != 0
    requires forall g :: 0 <= g < MAXFILE && g != f ==> Addr(now1, i, g) == Addr(now0, i, g)
    ensures var now := WithBlock(now1, Addr(now1, i, f), SetBlockBytes(now1.data[Addr(now1, i, f)], j, chunk));
      && OwnOk(now, own) && Wrote(now0, now, i, off, chunk)
      && Exact(now, i, off + |chunk|) && SameFrom(now0, now, i, off + |chunk|)
  {
    var x := Addr(now1, i, f);
    var now := WithBlock(now1, x, SetBlockBytes(now1.data[x], j, chunk));
    WroteNothing(now0, now1, i, off);
    WriteChunk(now1, own, i, f, j, chunk);
    WroteTrans(now0, now1, now, i, off, [], chunk);
    assert [] + chunk == chunk;
    WriteKeeps(now1, own, x, SetBlockBytes(now1.data[x], j, chunk));
    forall g | 0 <= g < MAXFILE
      ensures Addr(now, i, g) != 0 <==> g * 1024 < off + |chunk|
    {
      assert Addr(now, i, g) == Addr(now1, i, g);
    }
    forall g, k | 0 <= g < MAXFILE && 0 <= k < 1024 && g * 1024 + k >= off + |chunk|
      ensures ByteAt(now, i, g, k) == ByteAt(now0, i, g, k)
    {
      TurnedByte(now0, now1, own, i, off, f, j, chunk, g, k);
    }
  }

  lemma TurnedByte(now0: Image, now1: Image, own: Owners, i: nat, off: nat, f: nat, j: nat, chunk: seq<byte>,
                   g: nat, k: nat)
    requires OwnOk(now1, own) && Wrote(now0, now1, i, 0, [])
    requires off == f * 1024 + j && j + |chunk| <= 1024 && f < MAXFILE && Addr(now1, i, f) != 0
    requires now1.IsBlock(Addr(now1, i, f)) && own[Addr(now1, i, f)].Data?
    requires Addr(now0, i, f) == 0 ==> now1.data[Addr(now1, i, f)] == ZeroBlock()
    requires forall g :: 0 <= g < MAXFILE && g != f ==> Addr(now1, i, g) == Addr(now0, i, g)
    requires g < MAXFILE && k < 1024 && g * 1024 + k >= off + |chunk|
    ensures var now := WithBlock(now1, Addr(now1, i, f), SetBlockBytes(now1.data[Addr(now1, i, f)], j, chunk));
      ByteAt(now, i, g, k) == ByteAt(now0, i, g, k)
  {
    var x := Addr(now1, i, f);
    AddrOfBlock(now1, own, x, SetBlockBytes(now1.data[x], j, chunk), i, g);
    assert ByteAt(now1, i, g, k) == ByteAt(now0, i, g, k) by {
      var n := 0;
      assert !In(0, n, g, k);
      if Addr(now0, i, g) == 0 && g == f {
        ZeroByte(k);
      }
    }
    if Addr(now1, i, g) != 0 {
      ChunkByte(now1, own, i, f, j, chunk, i, g, k);
    }
  }

  lemma ZeroByte(k: nat)
    requires k < 1024
    ensures BlockByte(ZeroBlock(), k) == 0
  {
    assert ByteOf(0, 0) == 0 && ByteOf(0, 1) == ByteOf(0, 0);
    assert ByteOf(0, 2) == ByteOf(0, 1) && ByteOf(0, 3) == ByteOf(0, 2);
  }

  /** iappend() has done the first k bytes of src. */
  ghost predicate Appending(now0: Image, now: Image, i: nat, start: nat, src: seq<byte>, k: nat) {
    && now0.Ok() && now.Ok() && |now.inodes| == |now0.inodes| && now0.IsInode(i) && k <= |src|
    && Wrote(now0, now, i, start, src[..k]) && Exact(now, i, start + k) && SameFrom(now0, now, i, start + |src|)
  }

  lemma AppendingNone(now0: Image, i: nat, start: nat, src: seq<byte>)
    requires now0.Ok() && now0.IsInode(i) && start <= 274432 && Exact(now0, i, start)
    ensures Appending(now0, now0, i, start, src, 0)
  {
    Unwritten(now0, i);
    WroteNothing(now0, now0, i, start);
    assert src[..0] == [];
  }

  lemma AppendingIs(now0: Image, now: Image, i: nat, start: nat, src: seq<byte>, k: nat)
    requires Appending(now0, now, i, start, src, k)
    ensures now.Ok() && now.IsInode(i) && Exact(now, i, start + k)
  {
  }

  lemma AppendingNext(now0: Image, now1: Image, now: Image, i: nat, start: nat, src: seq<byte>, k: nat, n1: nat)
    requires Appending(now0, now1, i, start, src, k) && k + n1 <= |src|
    requires Wrote(now1, now, i, start + k, src[k..k + n1]) && Exact(now, i, start + k + n1)
    requires SameFrom(now1, now, i, start + k + n1)
    ensures Appending(now0, now, i, start, src, k + n1)
  {
    assert src[..k] + src[k..k + n1] == src[..k + n1];
    WroteTrans(now0, now1, now, i, start, src[..k], src[k..k + n1]);
    SameTrans(now0, now1, now, i, start + k + n1, start + |src|);
  }

  lemma AppendingAll(now0: Image, now: Image, i: nat, start: nat, src: seq<byte>)
    requires Appending(now0, now, i, start, src, |src|)
    ensures Wrote(now0, now, i, start, src) && Exact(now, i, start + |src|) && SameFrom(now0, now, i, start + |src|)
  {
    assert src[..|src|] == src;
  }

  lemma TooLarge(off: nat)
    requires off / 1024 >= MAXFILE
    ensures off >= 274432
  {
  }

  lemma ChunkFits(off: nat, n: nat)
    requires n > 0 && off / 1024 < MAXFILE
    ensures off + ChunkLength(off, n) <= 274432
  {
    assert off == off / 1024 * 1024 + off % 1024;
  }

  lemma WroteIs(m: Image, m': Image, i: nat, off: nat, bs: seq<byte>)
    requires Wrote(m, m', i, off, bs)
    ensures |m'.inodes| == |m.inodes| && (forall k :: m.IsInode(k) && k != i ==> m'.inodes[k] == m.inodes[k])
  {
  }

  lemma SameTrans(m0: Image, m1: Image, m2: Image, i: nat, p: nat, q: nat)
    requires m0.Ok() && m1.Ok() && m2.Ok() && m0.IsInode(i) && m1.IsInode(i) && m2.IsInode(i) && p <= q
    requires SameFrom(m0, m1, i, q) && SameFrom(m1, m2, i, p)
    ensures SameFrom(m0, m2, i, q)
  {
    forall f, j | 0 <= f < MAXFILE && 0 <= j < 1024 && f * 1024 + j >= q
      ensures ByteAt(m2, i, f, j) == ByteAt(m0, i, f, j)
    {
      assert ByteAt(m2, i, f, j) == ByteAt(m1, i, f, j);
    }
  }

  /** A file as iappend() leaves it has no hole. */
  lemma FilledWhole(m: Image, i: nat)
    requires m.Ok() && m.IsInode(i) && Filled(m, i)
    ensures NoHoles(m, i) && m.inodes[i].size <= 274432
  {
  }

  /** What iappend() has built once the size is set. */
  lemma Appended(now0: Image, now: Image, own: Owners, i: nat, src: seq<byte>)
    requires now0.Ok() && now0.IsInode(i) && OwnOk(now, own) && AllFilled(now0)
    requires Wrote(now0, now, i, now0.inodes[i].size, src)
    requires now0.inodes[i].size + |src| <= 274432 && Exact(now, i, now0.inodes[i].size + |src|)
    requires SameFrom(now0, now, i, now0.inodes[i].size + |src|)
    ensures var now2 := Sized(now, i, now0.inodes[i].size + |src|);
      OwnOk(now2, own) && AllFilled(now2) && Grown(now0, now2, i, src)
  {
    var off := now0.inodes[i].size;
    var now2 := Sized(now, i, off + |src|);
    assert Filled(now0, i);
    WroteIs(now0, now, i, off, src);
    SizeKeeps(now, own, i, off + |src|);
    AppendedFilled(now0, now, i, off, src);
    forall k | now2.IsInode(k) && k != i
      ensures Filled(now2, k) && now2.inodes[k] == now0.inodes[k] && KeptContents(now0, now2, k)
    {
      hide Filled, OwnOk, Wrote, Exact, SameFrom, KeptContents;
      assert Filled(now0, k);
      OtherFilled(now0, now, i, off, src, k);
    }
  }

  lemma AppendedFilled(now0: Image, now: Image, i: nat, off: nat, src: seq<byte>)
    requires Wrote(now0, now, i, off, src) && now0.inodes[i].size == off && off + |src| <= 274432
    requires Filled(now0, i) && Exact(now, i, off + |src|) && SameFrom(now0, now, i, off + |src|)
    ensures var now2 := Sized(now, i, off + |src|);
      Filled(now2, i) && Contents(now2, i) == Contents(now0, i) + src
  {
    var now2 := Sized(now, i, off + |src|);
    forall f | 0 <= f < MAXFILE
      ensures Addr(now2, i, f) == Addr(now, i, f)
    {
      SizedBytes(now, i, off + |src|, i, f);
    }
    forall f, j | 0 <= f < MAXFILE && 0 <= j < 1024 && f * 1024 + j >= off + |src|
      ensures ByteAt(now2, i, f, j) == 0
    {
      assert ByteAt(now2, i, f, j) == ByteAt(now, i, f, j) == ByteAt(now0, i, f, j);
    }
    FilledWhole(now0, i);
    WroteContents(now0, now, i, off, src, off + |src|);
    assert Overwrite(Contents(now0, i), off, src)[..off + |src|] == Contents(now0, i) + src;
  }

  lemma OtherFilled(now0: Image, now: Image, i: nat, off: nat, src: seq<byte>, k: nat)
    requires Wrote(now0, now, i, off, src) && now0.IsInode(k) && k != i && Filled(now0, k)
    ensures var now2 := Sized(now, i, off + |src|);
      Filled(now2, k) && now2.inodes[k] == now0.inodes[k] && KeptContents(now0, now2, k)
  {
    var now2 := Sized(now, i, off + |src|);
    forall f | 0 <= f < MAXFILE
      ensures Addr(now2, k, f) == Addr(now, k, f) == Addr(now0, k, f)
    {
      SizedBytes(now, i, off + |src|, k, f);
    }
    forall f, j | 0 <= f < MAXFILE && 0 <= j < 1024 && f * 1024 + j >= now0.inodes[k].size
      ensures ByteAt(now2, k, f, j) == 0
    {
      assert ByteAt(now2, k, f, j) == ByteAt(now, k, f, j);
      assert Addr(now0, k, f) != 0 ==> ByteAt(now, k, f, j) == ByteAt(now0, k, f, j);
    }
    FilledWhole(now0, k);
    OthersKept(now0, now, i, off, src, off + |src|, k);
  }

  // ----- Rounding a size -----

  function Zeros(n: nat): (bs: seq<byte>) {
    seq(n, _ => 0)
  }

  /** Inode i reads as before with zeros up to a block boundary; at a whole number of blocks a missing block follows. */
  ghost predicate RoundedUp(m: Image, m': Image, i: nat)
    requires m.Ok() && m'.Ok() && m.IsInode(i)
  {
    && |m'.inodes| == |m.inodes|
    && m.inodes[i].size <= 274432
    && m'.inodes[i].size == (m.inodes[i].size / 1024 + 1) * 1024
    && (m'.inodes[i].size <= 274432 ==>
          Contents(m', i) == Contents(m, i) + Zeros(1024 - m.inodes[i].size % 1024))
    && (m'.inodes[i].size <= 274432 && m.inodes[i].size % 1024 == 0 ==> Addr(m', i, m.inodes[i].size / 1024) == 0)
    && (forall k :: m.IsInode(k) && k != i ==> KeptContents(m, m', k))
  }

  lemma Rounded(m: Image, own: Owners, i: nat)
    requires m.Ok() && OwnOk(m, own) && AllFilled(m) && m.IsInode(i)
    requires forall b :: 0 <= b < |own| ==> !own[b].Held?
    requires OwnOk(Sized(m, i, (m.inodes[i].size / 1024 + 1) * 1024), own)
    ensures var m' := Sized(m, i, (m.inodes[i].size / 1024 + 1) * 1024);
      RoundedUp(m, m', i) && (Sound(m', own) <==> m.inodes[i].size % 1024 != 0)
  {
    hide OwnOk, Filled, NoHoles, Contents, KeptContents, Addr;
    var n := m.inodes[i].size;
    var n2 := (n / 1024 + 1) * 1024;
    var m' := Sized(m, i, n2);
    assert Filled(m, i);
    assert n <= 274432 by {
      FilledWhole(m, i);
    }
    forall k | m.IsInode(k) && k != i
      ensures NoHoles(m', k) && KeptContents(m, m', k)
    {
      assert Filled(m, k);
      OtherRounded(m, i, n2, k);
    }
    RoundedRoot(m, i);
    if n2 <= 274432 {
      assert n2 - n == 1024 - n % 1024;
      RoundedBytes(m, i, n2);
    }
  }

  lemma OtherRounded(m: Image, i: nat, size: nat, k: nat)
    requires m.Ok() && m.IsInode(i) && m.IsInode(k) && k != i && Filled(m, k)
    ensures NoHoles(Sized(m, i, size), k) && KeptContents(m, Sized(m, i, size), k)
  {
    SamePrefix(m, i, size, k, m.inodes[k].size);
    forall f | 0 <= f < MAXFILE
      ensures Addr(Sized(m, i, size), k, f) == Addr(m, k, f)
    {
      SizedBytes(m, i, size, k, f);
    }
  }

  lemma SamePrefix(m: Image, i: nat, size: nat, k: nat, n: nat)
    requires m.Ok() && m.IsInode(i) && m.IsInode(k) && n <= 274432
    ensures Prefix(Sized(m, i, size), k, n) == Prefix(m, k, n)
  {
    var m' := Sized(m, i, size);
    forall p | 0 <= p < n
      ensures Prefix(m', k, n)[p] == Prefix(m, k, n)[p]
    {
      SizedBytes(m, i, size, k, p / 1024);
    }
  }

  /** Rounding up leaves no hole exactly if the size was not a whole number of blocks. */
  lemma RoundedRoot(m: Image, i: nat)
    requires m.Ok() && m.IsInode(i) && Filled(m, i)
    ensures var n := m.inodes[i].size; var n2 := (n / 1024 + 1) * 1024; var m' := Sized(m, i, n2);
      && (NoHoles(m', i) <==> n % 1024 != 0)
      && (n2 <= 274432 && n % 1024 == 0 ==> Addr(m', i, n / 1024) == 0)
  {
    var n := m.inodes[i].size;
    var f, n2 := n / 1024, (n / 1024 + 1) * 1024;
    var m' := Sized(m, i, n2);
    forall g | 0 <= g < MAXFILE
      ensures Addr(m', i, g) == Addr(m, i, g)
    {
      SizedBytes(m, i, n2, i, g);
    }
    if n2 <= 274432 {
      assert Addr(m', i, f) != 0 <==> f * 1024 < n;
    }
  }

  /** Up to the block boundary the file reads as zero. */
  lemma RoundedBytes(m: Image, i: nat, n2: nat)
    requires m.Ok() && m.IsInode(i) && Filled(m, i) && m.inodes[i].size <= n2 <= 274432
    ensures Contents(Sized(m, i, n2), i) == Contents(m, i) + Zeros(n2 - m.inodes[i].size)
  {
    var n := m.inodes[i].size;
    SamePrefix(m, i, n2, i, n2);
    forall p | n <= p < n2
      ensures PosByte(m, i, p) == 0
    {
      PosIn(0, 0, p);
      assert p / 1024 * 1024 + p % 1024 == p;
      assert ByteAt(m, i, p / 1024, p % 1024) == 0;
    }
  }

  /** An image without files. */
  lemma Fresh(now: Image, own: Owners, nmeta: nat)
    requires now.Ok() && 0 < nmeta <= |now.data| && |own| == |now.data| && now.bits == Used(|now.data|, nmeta)
    requires forall b :: 0 <= b < |own| ==> own[b] == if b < nmeta then Meta else Free
    requires forall i :: now.IsInode(i) ==> now.inodes[i] == Inode(0, NoAddrs())
    ensures OwnOk(now, own)
    ensures AllFilled(now)
  {
    forall i, f | now.IsInode(i) && 0 <= f < MAXFILE
      ensures Addr(now, i, f) == 0 && DownOk(now, own, i, f)
    {
    }
  }
}
