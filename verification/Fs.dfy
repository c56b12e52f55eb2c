/**
 Blocks and file contents of kernel/fs.c on one image: balloc, bfree, bmap,
 itrunc, readi and writei. The image is what the buffer cache shows and, of an
 inode that is locked, what the inode table has; `view` is every block, bitmap bit
 and inode as it was when its block was last passed to log_write. `logged` collects
 the blocks passed to log_write since `start`. `own` is the label of every block.
 */
module Fs {
  import opened LogFormat
  import opened ByteWords
  import opened BlockOwner
  import opened FileData

  /** Bits per bitmap block, and inodes per inode block. */
  const BPB: nat := 8192
  const IPB: nat := 16

  /** What the code uses of the superblock. */
  datatype Super = Super(size: nat, inodestart: nat, bmapstart: nat) {
    function BBlock(b: nat): nat {
      b / 8192 + bmapstart
    }

    function IBlock(i: nat): nat {
      i / 16 + inodestart
    }

    /** The bitmap's blocks. */
    ghost predicate IsBitmap(b: nat) {
      exists c: nat :: c < size && b == BBlock(c)
    }
  }

  /** Every block in use is metadata or named by exactly one inode, and no file has a hole. */
  ghost predicate Sound(m: Image, own: Owners) {
    && OwnOk(m, own)
    && (forall b :: 0 <= b < |own| ==> !own[b].Held?)
    && (forall i :: m.IsInode(i) ==> NoHoles(m, i))
  }

  class FileSystem {
    const sb: Super
    var m: Image
    ghost var own: Owners
    ghost var logged: set<nat>
    ghost var view: Image
    ghost var start: Image

    /**
     Labels, bitmap and inodes agree. The bitmap is as last logged, and so is every
     other block but for what `logged` names.
     */
    ghost predicate Core()
      reads this
    {
      && OwnOk(m, own) && |m.data| == |view.data| == sb.size && sb.size < 0x1_0000_0000
      && view.bits == m.bits && |view.inodes| == |m.inodes| && Covers(sb, logged, start, view)
    }

    /** Between operations: the inodes, too, are as last logged. */
    ghost predicate Valid()
      reads this
    {
      Core() && Sound(m, own) && view.inodes == m.inodes
    }

    /** The file system of an image, with nothing in the log. */
    constructor (sb: Super, image: Image, ghost owners: Owners)
      requires OwnOk(image, owners) && |image.data| == sb.size < 0x1_0000_0000
      ensures Core() && (Valid() <==> Sound(image, owners))
      ensures this.sb == sb && m == image && own == owners && logged == {} && view == image
    {
      this.sb := sb;
      m := image;
      own := owners;
      logged := {};
      view := image;
      start := image;
    }

    lemma IsSound()
      requires Valid()
      ensures Sound(m, own) && m.Ok()
    {
    }

    // ----- Blocks -----

    /** begin_op() when no other operation is running: nothing is in the log. */
    ghost method Begin()
      requires Valid()
      modifies this`logged, this`start
      ensures Valid() && logged == {} && start == view
    {
      logged := {};
      start := view;
    }

    /** log_write(bp) of the bitmap block with the bit of block b. */
    method LogBit(b: nat)
      requires b < |m.bits| == |view.bits|
      modifies this`logged, this`view
      ensures logged == old(logged) + {sb.BBlock(b)}
      ensures view == old(view).(bits := old(view).bits[b := m.bits[b]])
      ensures old(Covers(sb, logged, start, view)) ==> Covers(sb, logged, start, view)
    {
      logged := logged + {sb.BBlock(b)};
      view := view.(bits := view.bits[b := m.bits[b]]);
    }

    /** iupdate(): inode i goes to its block, and the block to the log. */
    method Iupdate(i: nat)
      requires m.IsInode(i) && |view.inodes| == |m.inodes|
      modifies this`logged, this`view
      ensures logged == old(logged) + {sb.IBlock(i)}
      ensures view == old(view).(inodes := old(view).inodes[i := m.inodes[i]])
      ensures old(Covers(sb, logged, start, view)) ==> Covers(sb, logged, start, view)
    {
      logged := logged + {sb.IBlock(i)};
      view := view.(inodes := view.inodes[i := m.inodes[i]]);
    }

    /** log_write(bp) of block b. */
    method LogWrite(b: nat)
      requires b < |m.data| == |view.data|
      modifies this`logged, this`view
      ensures logged == old(logged) + {b} && view == old(view).(data := old(view).data[b := m.data[b]])
      ensures old(Covers(sb, logged, start, view)) ==> Covers(sb, logged, start, view)
    {
      logged := logged + {b};
      view := view.(data := view.data[b := m.data[b]]);
    }

    /** Mark block b, whose bit is clear, in use, and zero it. */
    method Claim(b: nat)
      requires Core() && b < |own| && !m.bits[b]
      modifies this`m, this`own, this`logged, this`view
      ensures Core() && old(own)[b].Free? && b > 0 && own == old(own)[b := Held]
      ensures m == WithBlock(WithBit(old(m), b, true), b, ZeroBlock())
      ensures logged == old(logged) + {sb.BBlock(b), b}
      ensures Follows(old(m), old(view), m, view)
    {
      assert BitOk(m, own, 0) && BitOk(m, own, b);
      FlipKeeps(m, own, b, true);
      WriteKeeps(WithBit(m, b, true), own[b := Held], b, ZeroBlock());
      m := WithBit(m, b, true);
      own := own[b := Held];
      LogBit(b);
      m := WithBlock(m, b, ZeroBlock());
      LogWrite(b);
    }

    /** The first free block, zeroed and marked in use; 0 exactly if every bit is set. */
    method Balloc() returns (r: nat)
      requires Core()
      modifies this`m, this`own, this`logged, this`view
      ensures Core()
      ensures r == 0 <==> forall c :: 0 <= c < |old(own)| ==> old(m).bits[c]
      ensures r == 0 ==> m == old(m) && own == old(own) && logged == old(logged) && view == old(view)
      ensures r != 0 ==> r < |own| && old(own)[r].Free? && (forall c :: 0 <= c < r ==> old(m).bits[c])
      ensures r != 0 ==> own == old(own)[r := Held] && m == WithBlock(WithBit(old(m), r, true), r, ZeroBlock())
      ensures r != 0 ==> logged == old(logged) + {sb.BBlock(r), r}
      ensures Follows(old(m), old(view), m, view)
    {
      var b := 0;
      while b < sb.size
        invariant forall c :: 0 <= c < b && c < |own| ==> m.bits[c]
        invariant Core() && m == old(m) && own == old(own) && logged == old(logged) && view == old(view)
        decreases sb.size - b
      {
        var bi := 0;
        while bi < BPB && b + bi < sb.size
          invariant 0 <= bi <= BPB && (bi > 0 ==> b + bi <= sb.size)
          invariant forall c :: 0 <= c < b + bi && c < |own| ==> m.bits[c]
          invariant Core() && m == old(m) && own == old(own) && logged == old(logged) && view == old(view)
        {
          if !m.bits[b + bi] {
            Claim(b + bi);
            assert !old(m).bits[b + bi];
            return b + bi;
          }
          bi := bi + 1;
        }
        b := b + BPB;
      }
      return 0;
    }

    /** Free a block; panics exactly if its bit is clear. */
    method Bfree(b: nat) returns (panic: bool)
      requires Core() && 0 < b < |own| && (own[b].Held? || own[b].Free?)
      modifies this`m, this`own, this`logged, this`view
      ensures panic <==> old(own)[b].Free?
      ensures Core() && view.data == old(view.data) && view.inodes == old(view.inodes)
      ensures panic ==> m == old(m) && own == old(own) && logged == old(logged) && view == old(view)
      ensures !panic ==>
        own == old(own)[b := Free] && m == WithBit(old(m), b, false) && logged == old(logged) + {sb.BBlock(b)}
    {
      assert BitOk(m, own, b);
      if !m.bits[b] {
        return true;
      }
      FlipKeeps(m, own, b, false);
      m := WithBit(m, b, false);
      own := own[b := Free];
      LogBit(b);
      return false;
    }

    // ----- Block map -----

    /** The labels of a slot that was empty: all as before but the block it now names. */
    ghost predicate Placed(own0: Owners, b: nat, o: Owner)
      reads this
    {
      b < |own0| && own0[b].Free? && own == own0[b := o]
    }

    /** ip->addrs[bn] = balloc() for a direct block, or nothing if the disk is full. */
    method AllocDirect(i: nat, k: nat) returns (b: nat)
      requires Core() && m.IsInode(i) && k < NDIRECT && m.inodes[i].addrs[k] == 0
      modifies this`m, this`own, this`logged, this`view
      ensures Core() && Wrote(old(m), m, i, 0, []) && Follows(old(m), old(view), m, view)
      ensures b == 0 ==> Full(m) && m == old(m) && own == old(own) && logged == old(logged) && view == old(view)
      ensures b != 0 ==>
        b == Addr(m, i, k) && Placed(old(own), b, Data(i, k)) && logged == old(logged) + {sb.BBlock(b), b}
    {
      hide Covers;
      b := Balloc();
      if b == 0 {
        Unwritten(m, i);
        return;
      }
      ClaimWrote(old(m), old(own), b, i);
      ghost var m1 := m;
      DirectPlaced(m, own, i, k, b);
      m := WithInode(m, i, m.inodes[i].WithAddr(k, b));
      own := own[b := Data(i, k)];
      WroteTrans(old(m), m1, m, i, 0, [], []);
    }

    /** ip->addrs[NDIRECT] = balloc(), or nothing if the disk is full. */
    method AllocIndirect(i: nat) returns (b: nat)
      requires Core() && m.IsInode(i) && m.inodes[i].Indirect() == 0
      modifies this`m, this`own, this`logged, this`view
      ensures Core() && Wrote(old(m), m, i, 0, []) && Follows(old(m), old(view), m, view)
      ensures b == 0 ==> Full(m) && m == old(m) && own == old(own) && logged == old(logged) && view == old(view)
      ensures b != 0 ==>
        b == m.inodes[i].Indirect() && Placed(old(own), b, Ind(i)) && logged == old(logged) + {sb.BBlock(b), b}
    {
      hide Covers;
      b := Balloc();
      if b == 0 {
        Unwritten(m, i);
        return;
      }
      ClaimWrote(old(m), old(own), b, i);
      ghost var m1 := m;
      IndPlaced(m, own, i, b);
      m := WithInode(m, i, m.inodes[i].WithAddr(NDIRECT, b));
      own := own[b := Ind(i)];
      WroteTrans(old(m), m1, m, i, 0, [], []);
    }

    /** a[bn] = balloc() for an entry of the indirect block, or nothing if the disk is full. */
    method AllocEntry(i: nat, j: nat) returns (b: nat)
      requires Core() && m.IsInode(i) && j < NINDIRECT && m.inodes[i].Indirect() != 0 && Entry(m, i, j) == 0
      modifies this`m, this`own, this`logged, this`view
      ensures Core() && Wrote(old(m), m, i, 0, []) && Follows(old(m), old(view), m, view)
      ensures m.inodes == old(m).inodes
      ensures b == 0 ==> Full(m) && m == old(m) && own == old(own) && logged == old(logged) && view == old(view)
      ensures b != 0 ==> b == Addr(m, i, NDIRECT + j) && Placed(old(own), b, Data(i, NDIRECT + j))
      ensures b != 0 ==> logged == old(logged) + {sb.BBlock(b), b, m.inodes[i].Indirect()}
    {
      hide Covers;
      b := Balloc();
      if b == 0 {
        Unwritten(m, i);
        return;
      }
      ClaimWrote(old(m), old(own), b, i);
      EntryStays(old(m), old(own), b, i, j);
      ghost var m1 := m;
      EntryPlaced(m, own, i, j, b);
      m := WithEntry(m, i, j, b);
      own := own[b := Data(i, NDIRECT + j)];
      LogWrite(m.inodes[i].Indirect());
      WroteTrans(old(m), m1, m, i, 0, [], []);
    }

    /**
     The block of block number bn of inode i, allocated if there was none; 0 if
     the disk is full. Panics exactly if bn is beyond the largest file.
     */
    method Bmap(i: nat, bn: nat) returns (panic: bool, addr: nat)
      requires Core() && m.IsInode(i)
      modifies this`m, this`own, this`logged, this`view
      ensures panic <==> bn >= MAXFILE
      ensures Core() && Wrote(old(m), m, i, 0, []) && Follows(old(m), old(view), m, view)
      ensures panic ==> m == old(m) && own == old(own) && logged == old(logged) && view == old(view)
      ensures !panic && addr != 0 ==> addr == Addr(m, i, bn) && addr < |own|
      ensures !panic && addr == 0 ==> Full(m)
      ensures !panic && Addr(old(m), i, bn) != 0 ==>
        addr == Addr(old(m), i, bn) && m == old(m) && own == old(own) && logged == old(logged) && view == old(view)
      ensures forall b :: 0 <= b < |own| ==>
        own[b] == old(own)[b] || (old(own)[b].Free? && (own[b].Data? || own[b].Ind?) && own[b].inum == i)
      ensures forall b :: b in logged ==>
        b in old(logged) || sb.IsBitmap(b) || b == addr || b == m.inodes[i].Indirect() != 0
    {
      hide Covers;
      Unwritten(m, i);
      panic, addr := false, 0;
      if bn < NDIRECT {
        addr := m.inodes[i].addrs[bn];
        if addr == 0 {
          addr := AllocDirect(i, bn);
        } else {
          assert DownOk(m, own, i, bn);
        }
        return;
      }
      if bn - NDIRECT < NINDIRECT {
        addr := IndirectMap(i, bn - NDIRECT);
        return;
      }
      panic := true;
    }

    /** The indirect half of bmap(). */
    method IndirectMap(i: nat, j: nat) returns (addr: nat)
      requires Core() && m.IsInode(i) && j < NINDIRECT
      modifies this`m, this`own, this`logged, this`view
      ensures Core() && Wrote(old(m), m, i, 0, []) && Follows(old(m), old(view), m, view)
      ensures addr != 0 ==> addr == Addr(m, i, NDIRECT + j) && addr < |own|
      ensures addr == 0 ==> Full(m)
      ensures Addr(old(m), i, NDIRECT + j) != 0 ==>
        && addr == Addr(old(m), i, NDIRECT + j)
        && m == old(m) && own == old(own) && logged == old(logged) && view == old(view)
      ensures forall b :: 0 <= b < |own| ==>
        own[b] == old(own)[b] || (old(own)[b].Free? && (own[b].Data? || own[b].Ind?) && own[b].inum == i)
      ensures forall b :: b in logged ==>
        b in old(logged) || sb.IsBitmap(b) || b == addr || b == m.inodes[i].Indirect() != 0
    {
      hide Covers;
      Unwritten(m, i);
      addr := m.inodes[i].Indirect();
      if addr == 0 {
        addr := AllocIndirect(i);
        if addr == 0 {
          return;
        }
      }
      assert DownInd(m, own, i);
      ghost var m1 := m;
      var a := m.data[addr].words;
      addr := a[j];
      assert addr == Entry(m, i, j) == Addr(m, i, NDIRECT + j);
      if addr == 0 {
        addr := AllocEntry(i, j);
        WroteTrans(old(m), m1, m, i, 0, [], []);
      } else {
        assert DownOk(m, own, i, NDIRECT + j);
      }
    }

    // ----- itrunc -----

    /** The blocks of direct slots below k of inode i were freed, those from k on are still named. */
    ghost predicate DirectFreed(own0: Owners, i: nat, k: nat)
      reads this
    {
      && |own| == |own0|
      && forall b :: 0 <= b < |own| ==>
           own[b] == if own0[b].Data? && own0[b].inum == i && own0[b].fbn < k then Free else own0[b]
    }

    /** Free direct slot k, if it names a block. Its bit is set, so this does not panic. */
    method TruncDirect(i: nat, k: nat, ghost own0: Owners) returns (panic: bool)
      requires Core() && m.IsInode(i) && k < NDIRECT && DirectFreed(own0, i, k)
      requires forall f :: 0 <= f < k ==> m.inodes[i].addrs[f] == 0
      modifies this`m, this`own, this`logged, this`view
      ensures !panic && Core() && DirectFreed(own0, i, k + 1)
      ensures m.data == old(m).data && m.inodes == old(m).inodes[i := old(m).inodes[i].WithAddr(k, 0)]
      ensures view.data == old(view.data) && view.inodes == old(view.inodes)
      ensures forall b :: b in logged ==> b in old(logged) || sb.IsBitmap(b)
    {
      hide Covers;
      var b := m.inodes[i].addrs[k];
      if b != 0 {
        RemoveDirect(m, own, i, k);
        UniqueLabel(m, own, i, k);
        m := WithInode(m, i, m.inodes[i].WithAddr(k, 0));
        own := own[b := Held];
        panic := Bfree(b);
      } else {
        panic := false;
        NoLabel(m, own, i, k);
        assert m.inodes[i].addrs == m.inodes[i].addrs[k := 0];
      }
    }

    /** Entries below j of the list a, once inode i's, were freed; the rest are held. */
    ghost predicate EntriesFreed(own0: Owners, i: nat, j: nat)
      reads this
    {
      && |own| == |own0|
      && forall b :: 0 <= b < |own| ==>
           own[b] == if own0[b].Data? && own0[b].inum == i && NDIRECT <= own0[b].fbn < NDIRECT + j then Free
                     else if Below(own0[b], i) then Held else own0[b]
    }

    /**
     The indirect half of itrunc(): free every entry, then the indirect block.
     The source clears the inode's slot last; here it is cleared first, which
     nobody can see, as the inode is locked throughout.
     */
    method TruncIndirect(i: nat, ghost own0: Owners) returns (panic: bool)
      requires Core() && m.IsInode(i) && own == own0
      modifies this`m, this`own, this`logged, this`view
      ensures !panic && Core() && |own| == |own0| && m.data == old(m).data
      ensures view.data == old(view.data) && view.inodes == old(view.inodes)
      ensures forall b :: 0 <= b < |own| ==> own[b] == if Below(own0[b], i) then Free else own0[b]
      ensures m.inodes == old(m).inodes[i := old(m).inodes[i].WithAddr(NDIRECT, 0)]
      ensures forall b :: b in logged ==> b in old(logged) || sb.IsBitmap(b)
    {
      hide Covers;
      var ind := m.inodes[i].Indirect();
      if ind == 0 {
        NothingBelow(m, own, i);
        return false;
      }
      assert DownInd(m, own, i);
      var a := m.data[ind].words;
      ghost var m0 := m;
      Detach(m, own, i);
      own := Loosened(own, i);
      m := Detached(m, i);
      for j := 0 to NINDIRECT
        invariant Core() && EntriesFreed(own0, i, j) && OwnOk(m0, own0)
        invariant m.inodes == Detached(m0, i).inodes && m.data == m0.data
        invariant view.data == old(view.data) && view.inodes == old(view.inodes)
        invariant forall b :: b in logged ==> b in old(logged) || sb.IsBitmap(b)
      {
        EntryLabel(m0, own0, i, j);
        if a[j] != 0 {
          panic := Bfree(a[j]);
          if panic {
            return;
          }
        }
      }
      NoOtherInd(m0, own0, i);
      panic := Bfree(ind);
    }

    /** Discard the contents of inode i: every block it named is free. "freeing free block" is out of reach. */
    method Itrunc(i: nat) returns (panic: bool)
      requires Valid() && m.IsInode(i)
      modifies this`m, this`own, this`logged, this`view
      ensures !panic && Valid() && m.data == old(m).data && |own| == |old(own)| && sb.IBlock(i) in logged
      ensures view.data == old(view.data)
      ensures m.inodes == old(m).inodes[i := Inode(0, NoAddrs())]
      ensures forall b :: 0 <= b < |own| ==> own[b] == if Names(old(own)[b], i) then Free else old(own)[b]
      ensures forall b :: b in logged ==> b in old(logged) || sb.IsBitmap(b) || b == sb.IBlock(i)
      ensures forall k :: m.IsInode(k) && k != i ==> Contents(m, k) == old(Contents(m, k))
    {
      hide Covers;
      ghost var m0, own0 := m, own;
      for k := 0 to NDIRECT
        invariant Core() && DirectFreed(own0, i, k) && view.data == old(view.data) && view.inodes == old(view.inodes)
        invariant m.data == m0.data && |m.inodes| == |m0.inodes| && m.IsInode(i)
        invariant m.inodes == m0.inodes[i := m.inodes[i]] && m.inodes[i].Indirect() == m0.inodes[i].Indirect()
        invariant forall f :: 0 <= f < k ==> m.inodes[i].addrs[f] == 0
        invariant forall b :: b in logged ==> b in old(logged) || sb.IsBitmap(b)
      {
        panic := TruncDirect(i, k, own0);
        if panic {
          return;
        }
      }
      panic := TruncIndirect(i, own);
      assert m.inodes[i].addrs == NoAddrs();
      SizeKeeps(m, own, i, 0);
      m := Sized(m, i, 0);
      Iupdate(i);
      Truncated(m0, own0, m, own, i);
    }

    // ----- readi and writei -----

    /** One turn of readi()'s loop: len bytes at position off, within one block. */
    method ReadTurn(i: nat, off: nat, len: nat) returns (bs: seq<byte>)
      requires Valid() && m.IsInode(i) && off + len <= m.inodes[i].size && WithinBlock(off, len) && len > 0
      modifies this`m, this`own, this`logged, this`view
      ensures m == old(m) && own == old(own) && logged == old(logged) && view == old(view)
      ensures bs == Contents(m, i)[off..off + len]
    {
      var f, j := off / 1024, off % 1024;
      assert off == f * 1024 + j;
      ChunkIsContents(m, i, f, j, len);
      assert DownOk(m, own, i, f);
      var panic, addr := Bmap(i, f);
      bs := BlockBytes(m.data[addr], j, len);
    }

    /** dst is the first tot bytes at off of inode i. */
    ghost predicate Reading(i: nat, off: nat, tot: nat, dst: seq<byte>)
      reads this
    {
      && m.Ok() && m.IsInode(i) && NoHoles(m, i) && off + tot <= m.inodes[i].size
      && |dst| == tot && dst == Contents(m, i)[off..off + tot]
    }

    lemma ReadingNone(i: nat, off: nat)
      requires Valid() && m.IsInode(i) && off <= m.inodes[i].size
      ensures Reading(i, off, 0, [])
    {
      assert NoHoles(m, i) && Contents(m, i)[off..off] == [];
    }

    /** ReadTurn as a step of the loop of readi(): of the len bytes of a chunk the copy delivers got. */
    method ReadNext(i: nat, off: nat, tot: nat, len: nat, got: nat, dst: seq<byte>) returns (dst': seq<byte>)
      requires Valid() && Reading(i, off, tot, dst) && off + tot + len <= m.inodes[i].size
      requires WithinBlock(off + tot, len) && len > 0
      requires got <= len
      modifies this`m, this`own, this`logged, this`view
      ensures m == old(m) && own == old(own) && logged == old(logged) && view == old(view)
      ensures Reading(i, off, tot + got, dst')
    {
      assert m.inodes[i].size <= 274432;
      hide OwnOk, Sound, WithinBlock, Contents, NoHoles;
      var bs := ReadTurn(i, off + tot, len);
      Joined(Contents(m, i), off, off + tot, off + tot + len, got, dst, bs);
      dst' := dst + bs[..got];
    }

    /** The loop of readi(): want bytes at off, all below the size. The copy that fails delivers part of its bytes. */
    method ReadLoop(i: nat, off: nat, want: nat, good: nat, part: nat) returns (ok: bool, dst: seq<byte>)
      requires Valid() && m.IsInode(i) && off + want <= m.inodes[i].size
      modifies this`m, this`own, this`logged, this`view
      ensures m == old(m) && own == old(own) && logged == old(logged) && view == old(view)
      ensures Reading(i, off, Copied(off, want, good) + Delivered(off, want, good, part), dst)
      ensures ok <==> good >= BlocksTouched(off, want)
    {
      hide *;
      ReadingNone(i, off);
      CopiedNone(off, want);
      dst := [];
      var tot: nat, turns: nat := 0, 0;
      while tot < want
        invariant tot == Copied(off, want, turns) <= want && turns <= good
        invariant turns <= BlocksTouched(off, want) && (turns == BlocksTouched(off, want) <==> tot == want)
        invariant m == old(m) && own == old(own) && logged == old(logged) && view == old(view) && Valid()
        invariant Reading(i, off, tot, dst)
        decreases want - tot
      {
        var len := ChunkLength(off + tot, want - tot);
        CopiedNext(off, want, turns, len);
        dst := ReadNext(i, off, tot, len, if turns < good then len else Short(part, len), dst);
        if turns == good {
          CopiedAll(off, want, good);
          DeliveredIs(off, want, good, part);
          return false, dst;
        }
        tot, turns := tot + len, turns + 1;
      }
      CopiedAll(off, want, good);
      DeliveredIs(off, want, good, part);
      ok := true;
    }

    /**
     Read at most n bytes at off of inode i into dst; the first `good` copies to
     the reader succeed, and the next delivers `part` bytes before it fails. The
     result is the number of bytes there, or -1 exactly if a copy fails. Reading
     never allocates: nothing changes.
     */
    method Readi(i: nat, off: nat, n: nat, good: nat, part: nat) returns (r: int, dst: seq<byte>)
      requires Valid() && m.IsInode(i) && off < 0x1_0000_0000 && n < 0x1_0000_0000
      modifies this`m, this`own, this`logged, this`view
      ensures m == old(m) && own == old(own) && logged == old(logged) && view == old(view)
      ensures off > m.inodes[i].size || off + n >= 0x1_0000_0000 ==> r == 0 && dst == []
      ensures off <= m.inodes[i].size && off + n < 0x1_0000_0000 ==>
        var want := if off + n > m.inodes[i].size then m.inodes[i].size - off else n;
        && r == (if good >= BlocksTouched(off, want) then want else -1)
        && Reading(i, off, Copied(off, want, good) + Delivered(off, want, good, part), dst)
    {
      Wraps(off, n);
      if off > m.inodes[i].size || (off + n) % 0x1_0000_0000 < off {
        return 0, [];
      }
      var want := n;
      if off + n > m.inodes[i].size {
        want := m.inodes[i].size - off;
      }
      var ok;
      ok, dst := ReadLoop(i, off, want, good, part);
      r := if ok then want else -1;
    }

    /**
     One turn of writei()'s loop: chunk goes to position off, within one block.
     The copy from the writer delivers `got` bytes, straight into the cached
     block; if that is not all of the chunk the block is not logged. n is the
     number of bytes that reached the block.
     */
    method WriteTurn(i: nat, off: nat, chunk: seq<byte>, got: nat)
      returns (ok: bool, ghost b: nat, ghost n: nat, ghost clean: Image)
      requires Core() && m.IsInode(i) && chunk != [] && WithinBlock(off, |chunk|) && off + |chunk| <= 274432
      requires got <= |chunk|
      modifies this`m, this`own, this`logged, this`view
      ensures Core() && LabelsGrown(old(own), own, i) && m.Ok() && |m.inodes| == |old(m).inodes|
      ensures n <= |chunk| && Wrote(old(m), m, i, off, chunk[..n]) && (ok <==> n == |chunk|)
      ensures n == got || (n == 0 && Full(m) && Addr(old(m), i, off / 1024) == 0)
      ensures CleanOf(clean, m) && Wrote(old(m), clean, i, off, if ok then chunk else [])
      ensures ok || n == 0 ==> clean == m
      ensures Follows(old(m), old(view), clean, view)
      ensures LoggedOnly(sb, old(logged), logged, m.inodes[i].Indirect(), {b})
    {
      hide Covers;
      var f, j := off / 1024, off % 1024;
      assert off == f * 1024 + j && f < MAXFILE;
      var panic, addr := Bmap(i, f);
      b := addr;
      WroteNothing(old(m), m, i, off);
      clean, n := m, 0;
      if addr == 0 {
        return false, b, n, clean;
      }
      n := got;
      var sent := chunk[..got];
      WriteChunk(m, own, i, f, j, sent);
      WroteTrans(old(m), m, WithBlock(m, addr, SetBlockBytes(m.data[addr], j, sent)), i, off, [], sent);
      assert [] + sent == sent;
      m := WithBlock(m, addr, SetBlockBytes(m.data[addr], j, sent));
      if got < |chunk| {
        return false, b, n, clean;
      }
      assert sent == chunk;
      LogWrite(addr);
      clean, ok := m, true;
    }

    /** Write src at off of inode i. A short count means a full disk or a failed copy; -1 is a bad range. */
    method Writei(i: nat, off: nat, src: seq<byte>, good: nat, part: nat)
      returns (r: int, ghost p: nat, ghost touched: set<nat>)
      requires Valid() && m.IsInode(i) && off < 0x1_0000_0000 && |src| < 0x1_0000_0000
      modifies this`m, this`own, this`logged, this`view
      ensures r == -1 <==> off > old(m).inodes[i].size || off + |src| > 274432
      ensures r == -1 ==> p == 0 && m == old(m) && own == old(own) && logged == old(logged) && view == old(view)
      ensures Valid() && |m.inodes| == |old(m).inodes| && LabelsGrown(old(own), own, i)
      ensures r != -1 ==> r >= 0 && Written(old(m), old(view), m, view, i, off, src, good, part, r, p)
      ensures r != -1 ==> sb.IBlock(i) in logged
      ensures LoggedOnly(sb, old(logged), logged, m.inodes[i].Indirect(), touched + {sb.IBlock(i)})
      ensures |touched| <= BlocksTouched(off, |src|)
    {
      p, touched := 0, {};
      if off > m.inodes[i].size || (off + |src|) % 0x1_0000_0000 < off {
        Wraps(off, |src|);
        return -1, p, touched;
      }
      if off + |src| > MAXFILE * 1024 {
        return -1, p, touched;
      }
      Wraps(off, |src|);
      r, p, touched := WriteRange(i, off, src, good, part);
    }

    /** The file ends at end at least. */
    method Extend(i: nat, end: nat)
      requires m.Ok() && m.IsInode(i)
      modifies this`m
      ensures m == Sized(old(m), i, Max(old(m).inodes[i].size, end))
    {
      if end > m.inodes[i].size {
        m := Sized(m, i, end);
      }
    }

    /** The end of writei(), after the loop: the size, and iupdate(). */
    method FinishWrite(i: nat, off: nat, src: seq<byte>, tot: nat, ghost good: nat, ghost part: nat, ghost p: nat,
                       ghost touched: set<nat>, ghost clean: Image, ghost m0: Image, ghost own0: Owners,
                       ghost view0: Image, ghost logged0: set<nat>)
      requires m0.Ok() && m0.IsInode(i) && off <= m0.inodes[i].size && Sound(m0, own0) && view0.inodes == m0.inodes
      requires Writing(m0, own0, logged0, i, off, src, tot + p, touched) && view.inodes == view0.inodes
      requires CleanOf(clean, m) && tot + p <= |src| && Wrote(m0, clean, i, off, src[..tot])
      requires view0.data == m0.data ==> view.data == clean.data && (p == 0 ==> view.data == m.data)
      requires LoopStops(m0, i, off, |src|, good, part, tot, p, Full(m))
      modifies this`m, this`logged, this`view
      ensures Valid() && |m.inodes| == |m0.inodes| && sb.IBlock(i) in logged
      ensures Written(m0, view0, m, view, i, off, src, good, part, tot, p)
      ensures LoggedOnly(sb, logged0, logged, m.inodes[i].Indirect(), touched + {sb.IBlock(i)})
    {
      hide OwnOk, Sound, Wrote, LabelsGrown, LoggedOnly, LoopStops, Full, CleanOf, Copied, Written, Sized, Max, Covers;
      hide Super.IBlock, Inode.Indirect;
      ghost var m1 := m;
      SameSize(m0, m, i, off, src[..tot + p]);
      Extend(i, off + tot);
      SizedIs(m1, i, Max(m1.inodes[i].size, off + tot));
      UpdatedIs(m0, m1, i, off, src[..tot + p], Max(m1.inodes[i].size, off + tot));
      LoggedMore(sb, logged0, logged, m.inodes[i].Indirect(), touched, sb.IBlock(i));
      Iupdate(i);
      WriteResult(m0, own0, view0, m1, own, clean, view, m, i, off, src, good, part, tot, p);
    }

    /** writei() once the range is known to be good. */
    method WriteRange(i: nat, off: nat, src: seq<byte>, good: nat, part: nat)
      returns (r: nat, ghost p: nat, ghost touched: set<nat>)
      requires Valid() && m.IsInode(i) && off <= m.inodes[i].size && off + |src| <= 274432
      modifies this`m, this`own, this`logged, this`view
      ensures Valid() && |m.inodes| == |old(m).inodes| && LabelsGrown(old(own), own, i) && sb.IBlock(i) in logged
      ensures Written(old(m), old(view), m, view, i, off, src, good, part, r, p)
      ensures LoggedOnly(sb, old(logged), logged, m.inodes[i].Indirect(), touched + {sb.IBlock(i)})
      ensures |touched| <= BlocksTouched(off, |src|)
    {
      assert m.Ok();
      hide OwnOk, Sound, Wrote, LabelsGrown, LoggedOnly, LoopStops, BlocksTouched, Full, CleanOf, Copied, Written;
      hide Covers;
      ghost var clean;
      r, p, touched, clean := WriteLoop(i, off, src, good, part);
      FinishWrite(i, off, src, r, good, part, p, touched, clean, old(m), old(own), old(view), old(logged));
      WrittenOk(old(m), old(view), m, view, i, off, src, good, part, r, p);
    }

    /** Blocks, labels and log after tot bytes of src have been written by writei()'s loop, which began in m0. */
    ghost predicate Writing(m0: Image, own0: Owners, logged0: set<nat>, i: nat, off: nat, src: seq<byte>, tot: nat,
                            touched: set<nat>)
      reads this
    {
      && tot <= |src| && Core() && m.Ok() && m0.IsInode(i) && |m.inodes| == |m0.inodes| && LabelsGrown(own0, own, i)
      && Wrote(m0, m, i, off, src[..tot]) && LoggedOnly(sb, logged0, logged, m.inodes[i].Indirect(), touched)
    }

    lemma WritingNone(i: nat, off: nat, src: seq<byte>)
      requires Valid() && m.IsInode(i) && off <= 274432
      ensures m.Ok() && Writing(m, own, logged, i, off, src, 0, {}) && CleanOf(m, m) && Wrote(m, m, i, off, src[..0])
    {
      assert m.Ok() && src[..0] == [];
      hide OwnOk, Wrote;
      Unwritten(m, i);
      WroteNothing(m, m, i, off);
    }

    /** WriteTurn as a step of the loop of writei(): p of the bytes got are left in the cache alone. */
    method WriteNext(i: nat, off: nat, src: seq<byte>, tot: nat, len: nat, got: nat,
                     ghost m0: Image, ghost own0: Owners, ghost logged0: set<nat>, ghost touched: set<nat>)
      returns (ok: bool, ghost p: nat, ghost touched': set<nat>, ghost clean: Image)
      requires Writing(m0, own0, logged0, i, off, src, tot, touched) && off + |src| <= 274432
      requires tot < |src| && len == ChunkLength(off + tot, |src| - tot) && got <= len
      modifies this`m, this`own, this`logged, this`view
      ensures Writing(m0, own0, logged0, i, off, src, if ok then tot + len else tot + p, touched')
      ensures |touched'| <= |touched| + 1
      ensures CleanOf(clean, m) && Wrote(m0, clean, i, off, src[..if ok then tot + len else tot])
      ensures p == 0 ==> clean == m
      ensures Follows(old(m), old(view), clean, view)
      ensures if ok then got == len && p == 0
        else p <= got && (p == got < len || (p == 0 && Full(m) && Addr(m0, i, (off + tot) / 1024) == 0))
    {
      hide OwnOk, LabelsGrown, LoggedOnly, Wrote, ChunkLength, WithinBlock, Full, CleanOf, Follows, Addr;
      ghost var m1, own1, logged1 := m, own, logged;
      ghost var b, n;
      ghost var chunk := src[tot..tot + len];
      ok, b, n, clean := WriteTurn(i, off + tot, src[tot..tot + len], got);
      IndirectStays(m1, own1, m, own, i);
      TurnsAdd(sb, i, own0, own1, own, logged0, logged1, logged,
               m1.inodes[i].Indirect(), m.inodes[i].Indirect(), touched, b);
      touched' := touched + {b};
      assert src[..tot] + chunk[..n] == src[..tot + n];
      WroteTrans(m0, m1, m, i, off, src[..tot], chunk[..n]);
      assert src[..tot] + chunk == src[..tot + len] && src[..tot] + [] == src[..tot];
      WroteTrans(m0, m1, clean, i, off, src[..tot], if ok then chunk else []);
      NoBlockBefore(m0, m1, i, off, src[..tot], (off + tot) / 1024);
      p := if ok then 0 else n;
    }

    /** The loop of writei(). */
    method WriteLoop(i: nat, off: nat, src: seq<byte>, good: nat, part: nat)
      returns (tot: nat, ghost p: nat, ghost touched: set<nat>, ghost clean: Image)
      requires Valid() && m.IsInode(i) && off + |src| <= 274432
      modifies this`m, this`own, this`logged, this`view
      ensures Writing(old(m), old(own), old(logged), i, off, src, tot + p, touched)
      ensures CleanOf(clean, m) && Wrote(old(m), clean, i, off, src[..tot])
      ensures old(view.data == m.data) ==> view.data == clean.data && (p == 0 ==> view.data == m.data)
      ensures view.inodes == old(view.inodes)
      ensures LoopStops(old(m), i, off, |src|, good, part, tot, p, Full(m))
      ensures |touched| <= BlocksTouched(off, |src|)
    {
      hide *;
      CopiedNone(off, |src|);
      WritingNone(i, off, src);
      var turns: nat := 0;
      tot, p, touched, clean := 0, 0, {}, m;
      while tot < |src|
        invariant tot == Copied(off, |src|, turns) <= |src| && turns <= good && p == 0
        invariant turns <= BlocksTouched(off, |src|) && (turns == BlocksTouched(off, |src|) <==> tot == |src|)
        invariant Writing(old(m), old(own), old(logged), i, off, src, tot, touched) && |touched| <= turns
        invariant CleanOf(clean, m) && Wrote(old(m), clean, i, off, src[..tot]) && clean == m
        invariant (old(view.data == m.data) ==> view.data == m.data) && view.inodes == old(view.inodes)
        decreases |src| - tot
      {
        var len := ChunkLength(off + tot, |src| - tot);
        CopiedNext(off, |src|, turns, len);
        var ok;
        ghost var m1, view1 := m, view;
        var got := if turns < good then len else Short(part, len);
        ok, p, touched, clean := WriteNext(i, off, src, tot, len, got, old(m), old(own), old(logged), touched);
        FollowsSynced(m1, view1, clean, view);
        if !ok {
          StopsHere(old(m), i, off, |src|, good, part, turns, tot, p, len, Full(m));
          return;
        }
        tot, turns := tot + len, turns + 1;
      }
      StopsDone(old(m), i, off, |src|, good, part, turns, Full(m));
    }
  }

  /** An indirect block, once given, stays. */
  lemma IndirectStays(m0: Image, own0: Owners, m: Image, own: Owners, i: nat)
    requires OwnOk(m0, own0) && OwnOk(m, own) && m0.IsInode(i) && m.IsInode(i) && LabelsGrown(own0, own, i)
    ensures m0.inodes[i].Indirect() != 0 ==> m.inodes[i].Indirect() == m0.inodes[i].Indirect()
  {
    assert DownInd(m0, own0, i);
    if m0.inodes[i].Indirect() != 0 {
      assert UpOk(m, own, m0.inodes[i].Indirect());
    }
  }

  /** The end of writei(): the size counts r of the r + p bytes that reached the blocks. */
  lemma Finished(m0: Image, m: Image, own: Owners, i: nat, off: nat, src: seq<byte>, r: nat, p: nat)
    requires m0.Ok() && m0.IsInode(i) && off <= m0.inodes[i].size && (forall k :: m0.IsInode(k) ==> NoHoles(m0, k))
    requires OwnOk(m, own) && r + p <= |src| && Wrote(m0, m, i, off, src[..r + p])
    ensures var m2 := Sized(m, i, Max(m0.inodes[i].size, off + r));
      && OwnOk(m2, own)
      && (forall k :: m2.IsInode(k) ==> NoHoles(m2, k))
      && NoHoles(m0, i)
      && Contents(m2, i) == Overwrite(Contents(m0, i), off, src[..r + p])[..Max(m0.inodes[i].size, off + r)]
      && (forall k :: m2.IsInode(k) && k != i ==> NoHoles(m0, k) && Contents(m2, k) == Contents(m0, k))
  {
    var size := Max(m0.inodes[i].size, off + r);
    var m2 := Sized(m, i, size);
    SizeKeeps(m, own, i, size);
    assert NoHoles(m0, i);
    WroteContents(m0, m, i, off, src[..r + p], size);
    forall k | m2.IsInode(k) && k != i
      ensures NoHoles(m2, k) && NoHoles(m0, k) && Contents(m2, k) == Contents(m0, k)
    {
      assert NoHoles(m0, k);
      OthersKept(m0, m, i, off, src[..r + p], size, k);
    }
  }

  /** The same for the image without what the failing copy left. */
  lemma CleanFinished(m0: Image, clean: Image, i: nat, off: nat, src: seq<byte>, r: nat)
    requires m0.Ok() && m0.IsInode(i) && off <= m0.inodes[i].size && NoHoles(m0, i)
    requires r <= |src| && Wrote(m0, clean, i, off, src[..r])
    ensures var size := Max(m0.inodes[i].size, off + r);
      size <= 274432 && Contents(Sized(clean, i, size), i) == Overwrite(Contents(m0, i), off, src[..r])
  {
    var c := Contents(m0, i);
    WroteContents(m0, clean, i, off, src[..r], Max(m0.inodes[i].size, off + r));
    assert Overwrite(c, off, src[..r])[..|Overwrite(c, off, src[..r])|] == Overwrite(c, off, src[..r]);
  }

  /**
   What writei() makes of image m0 when it returns r after the first `good`
   copies from the writer succeeded and the next, if there is one, delivered
   `part` bytes before it failed. r bytes are counted and logged; p more are left
   in the cached block, unlogged, and show below the size of the file. Nothing
   else of any file changed.
   */
  ghost predicate Written(m0: Image, view0: Image, m: Image, view: Image, i: nat, off: nat, src: seq<byte>,
                          good: nat, part: nat, r: nat, p: nat) {
    && m0.Ok() && m.Ok() && m0.IsInode(i) && |m.inodes| == |m0.inodes| && off <= m0.inodes[i].size
    && view.bits == m.bits && view.inodes == m.inodes && |view.data| == |m.data|
    && (forall k :: m0.IsInode(k) ==> NoHoles(m0, k) && NoHoles(m, k))
    && WriteStops(m0.inodes[i].size, off, |src|, good, part, r, p, Full(m))
    && Shows(m0, m, i, off, src, good, part, r, p)
    && (view0.data == m0.data ==> ShowsLogged(m0, view, i, off, src, r) && (p == 0 ==> view == m))
    && (forall k :: m0.IsInode(k) && k != i ==> m.inodes[k] == m0.inodes[k] && SameFile(m0, m, k))
  }

  /**
   The file shows the r bytes counted, and p that are not, as far as the size
   reaches. It shows just the r bytes counted if and only if what the failing
   copy delivers is what the file has there already.
   */
  ghost predicate Shows(m0: Image, m: Image, i: nat, off: nat, src: seq<byte>, good: nat, part: nat, r: nat, p: nat)
    requires m0.Ok() && m.Ok() && m0.IsInode(i) && m.IsInode(i) && NoHoles(m0, i) && NoHoles(m, i)
    requires off <= m0.inodes[i].size && r + p <= |src|
  {
    var c, g, d := Contents(m0, i), Copied(off, |src|, good), Delivered(off, |src|, good, part);
    && g + d <= |src|
    && Contents(m, i) == Overwrite(c, off, src[..r + p])[..Max(|c|, off + r)]
    && (Contents(m, i) == Overwrite(c, off, src[..r]) <==> NoStray(c, off, src, g, d))
  }

  /** As last logged, inode and blocks, the file has just the bytes counted. */
  ghost predicate ShowsLogged(m0: Image, view: Image, i: nat, off: nat, src: seq<byte>, r: nat)
    requires m0.Ok() && m0.IsInode(i) && NoHoles(m0, i) && off <= m0.inodes[i].size && r <= |src|
  {
    HasContents(view, i) && Contents(view, i) == Overwrite(Contents(m0, i), off, src[..r])
  }

  predicate HasContents(m: Image, i: nat) {
    m.Ok() && m.IsInode(i) && m.inodes[i].size <= 274432
  }

  ghost predicate SameFile(m0: Image, m: Image, k: nat)
    requires m0.Ok() && m.Ok() && m0.IsInode(k) && m.IsInode(k) && NoHoles(m0, k) && NoHoles(m, k)
  {
    Contents(m, k) == Contents(m0, k)
  }

  /** The end of writei(), on values. */
  lemma WriteResult(m0: Image, own0: Owners, view0: Image, m1: Image, own: Owners, clean: Image, view: Image,
                    m: Image,
                    i: nat, off: nat, src: seq<byte>, good: nat, part: nat, r: nat, p: nat)
    requires m0.Ok() && m0.IsInode(i) && off <= m0.inodes[i].size && Sound(m0, own0) && LabelsGrown(own0, own, i)
    requires OwnOk(m1, own) && r + p <= |src| && Wrote(m0, m1, i, off, src[..r + p]) && m1.IsInode(i)
    requires m1.Ok() && m == Sized(m1, i, Max(m0.inodes[i].size, off + r))
    requires view.bits == m.bits && view.inodes == m.inodes && |view.data| == |m.data|
    requires CleanOf(clean, m1) && Wrote(m0, clean, i, off, src[..r])
    requires view0.data == m0.data ==> view.data == clean.data && (p == 0 ==> view.data == m1.data)
    requires LoopStops(m0, i, off, |src|, good, part, r, p, Full(m1))
    ensures Sound(m, own) && OwnOk(m, own) && |m.data| == |m1.data| && |m.inodes| == |m0.inodes|
    ensures Written(m0, view0, m, view, i, off, src, good, part, r, p)
  {
    assert NoHoles(m0, i);
    Finished(m0, m1, own, i, off, src, r, p);
    ShowsBytes(m0, m1, m, i, off, src, good, part, r, p);
    ShowsInLog(m0, m1, clean, m, i, off, src, r);
    assert view0.data == m0.data ==> view == m.(data := clean.data);
    assert Full(m) == Full(m1) && m.data == m1.data && m.IsInode(i);
    hide OwnOk, CleanOf, Wrote, NoHoles, Sized, LoopStops, WriteStops, NoStray, Shows, ShowsLogged, Contents;
    Stops(m0, i, off, |src|, good, part, r, p, Full(m1));
  }

  lemma ShowsBytes(m0: Image, m1: Image, m: Image, i: nat, off: nat, src: seq<byte>, good: nat, part: nat, r: nat,
                   p: nat)
    requires m0.Ok() && m0.IsInode(i) && off <= m0.inodes[i].size && NoHoles(m0, i)
    requires r + p <= |src| && Wrote(m0, m1, i, off, src[..r + p]) && m1.IsInode(i)
    requires m1.Ok() && m == Sized(m1, i, Max(m0.inodes[i].size, off + r))
    requires LoopStops(m0, i, off, |src|, good, part, r, p, Full(m1))
    ensures m.IsInode(i) && NoHoles(m, i) && Shows(m0, m, i, off, src, good, part, r, p)
  {
    assert m.IsInode(i);
    hide Wrote, NoHoles, Sized, LoopStops, NoStray, Contents, Overwrite, WriteStops;
    WroteContents(m0, m1, i, off, src[..r + p], Max(m0.inodes[i].size, off + r));
    Stops(m0, i, off, |src|, good, part, r, p, Full(m1));
    DeliveredIs(off, |src|, good, part);
    StopsIs(m0.inodes[i].size, off, |src|, good, part, r, p, Full(m1));
    StrayIff(Contents(m0, i), off, src, Copied(off, |src|, good), Delivered(off, |src|, good, part), r, p);
  }

  lemma ShowsInLog(m0: Image, m1: Image, clean: Image, m: Image, i: nat, off: nat, src: seq<byte>, r: nat)
    requires m0.Ok() && m0.IsInode(i) && off <= m0.inodes[i].size && NoHoles(m0, i) && r <= |src|
    requires m1.Ok() && m1.IsInode(i) && m == Sized(m1, i, Max(m0.inodes[i].size, off + r)) && m.IsInode(i)
    requires NoHoles(m, i)
    requires CleanOf(clean, m1) && Wrote(m0, clean, i, off, src[..r])
    ensures |clean.data| == |m.data| && ShowsLogged(m0, m.(data := clean.data), i, off, src, r)
  {
    assert |clean.data| == |m.data|;
    CleanSized(clean, m1, i, Max(m0.inodes[i].size, off + r));
    hide Wrote, CleanOf, Sized, Contents, Overwrite;
    CleanFinished(m0, clean, i, off, src, r);
  }

  lemma {:induction false} WrittenOk(m0: Image, view0: Image, m: Image, view: Image, i: nat, off: nat,
                                     src: seq<byte>, good: nat, part: nat, r: nat, p: nat)
    requires Written(m0, view0, m, view, i, off, src, good, part, r, p)
    ensures m.Ok() && m.IsInode(i)
  {
  }

  lemma {:induction false} SameSize(m0: Image, m: Image, i: nat, off: nat, bs: seq<byte>)
    requires Wrote(m0, m, i, off, bs)
    ensures m0.Ok() && m0.IsInode(i) && m.Ok() && m.IsInode(i) && m.inodes[i].size == m0.inodes[i].size
  {
  }

  lemma {:induction false} SizedIs(m: Image, i: nat, size: nat)
    requires m.Ok() && m.IsInode(i)
    ensures Sized(m, i, size).IsInode(i) && Sized(m, i, size).inodes[i].Ok()
    ensures Sized(m, i, size).inodes[i].Indirect() == m.inodes[i].Indirect() && |Sized(m, i, size).data| == |m.data|
  {
  }

  /** Once inode i is written back, all inodes are as last logged. */
  lemma {:induction false} UpdatedIs(m0: Image, m1: Image, i: nat, off: nat, bs: seq<byte>, size: nat)
    requires Wrote(m0, m1, i, off, bs) && m1.Ok() && m1.IsInode(i)
    ensures var m := Sized(m1, i, size);
      |m.inodes| == |m0.inodes| && m0.inodes[i := m.inodes[i]] == m.inodes && m.bits == m1.bits
  {
  }

  lemma CleanSized(clean: Image, m: Image, i: nat, size: nat)
    requires CleanOf(clean, m) && m.Ok() && m.IsInode(i)
    ensures Sized(m, i, size).(data := clean.data) == Sized(clean, i, size)
  {
  }

  /** clean is m but for the contents of blocks. */
  ghost predicate CleanOf(clean: Image, m: Image) {
    clean.Ok() && clean.inodes == m.inodes && clean.bits == m.bits && |clean.data| == |m.data|
  }

  /** Every block that changed was logged afterwards; no inode was. */
  ghost predicate Follows(m0: Image, view0: Image, m: Image, view: Image) {
    && |m.data| == |m0.data| == |view0.data| == |view.data| && view.inodes == view0.inodes
    && forall b :: 0 <= b < |m.data| ==>
         view.data[b] == m.data[b] || (view.data[b] == view0.data[b] && m.data[b] == m0.data[b])
  }

  lemma FollowsSynced(m0: Image, view0: Image, m: Image, view: Image)
    requires Follows(m0, view0, m, view)
    ensures view0.data == m0.data ==> view.data == m.data
    ensures view.inodes == view0.inodes
  {
  }

  /** What is logged has every block in which the file system as last logged differs from what it was at the start. */
  ghost predicate Covers(sb: Super, logged: set<nat>, start: Image, view: Image) {
    && |view.bits| == |start.bits| && |view.inodes| == |start.inodes| && |view.data| == |start.data|
    && (forall b :: 0 <= b < |view.bits| && view.bits[b] != start.bits[b] ==> sb.BBlock(b) in logged)
    && (forall i :: 0 <= i < |view.inodes| && view.inodes[i] != start.inodes[i] ==> sb.IBlock(i) in logged)
    && (forall b :: 0 <= b < |view.data| && view.data[b] != start.data[b] ==> b in logged)
  }

  lemma NoBlockBefore(m0: Image, m1: Image, i: nat, off: nat, bs: seq<byte>, f: nat)
    requires Wrote(m0, m1, i, off, bs) && f < MAXFILE
    ensures Addr(m1, i, f) == 0 ==> Addr(m0, i, f) == 0
  {
    assert Addr(m0, i, f) != 0 ==> Addr(m1, i, f) == Addr(m0, i, f);
  }

  /** What a copy of len bytes delivers if it fails after `part`: not all. */
  function Short(part: nat, len: nat): (p: nat)
    requires len > 0
    ensures p < len
  {
    if part < len then part else len - 1
  }

  /** What the copy that fails, if any, delivers. */
  function Delivered(off: nat, n: nat, good: nat, part: nat): (d: nat) {
    var g := Copied(off, n, good);
    if g >= n then 0 else Short(part, ChunkLength(off + g, n - g))
  }

  lemma DeliveredIs(off: nat, n: nat, good: nat, part: nat)
    ensures Copied(off, n, good) + Delivered(off, n, good, part) <= n
    ensures Copied(off, n, good) == n ==> Delivered(off, n, good, part) == 0
    ensures Copied(off, n, good) < n ==>
      Delivered(off, n, good, part) == Short(part, ChunkLength(off + Copied(off, n, good), n - Copied(off, n, good)))
  {
    CopiedAll(off, n, good);
  }

  /** Where the loop of writei() stops: where a copy fails, or before that at a block the full disk does not have. */
  ghost predicate LoopStops(m0: Image, i: nat, off: nat, n: nat, good: nat, part: nat, tot: nat, p: nat, full: bool)
    requires m0.Ok() && m0.IsInode(i)
  {
    var g := Copied(off, n, good);
    && tot <= g <= n && tot + p <= n && off + n <= 274432
    && ((p == Delivered(off, n, good, part) && tot == g)
        || (p == 0 && full && tot < n && Addr(m0, i, (off + tot) / 1024) == 0))
  }

  lemma StopsHere(m0: Image, i: nat, off: nat, n: nat, good: nat, part: nat, turns: nat, tot: nat, p: nat, len: nat,
                  full: bool)
    requires m0.Ok() && m0.IsInode(i) && off + n <= 274432 && turns <= good && tot == Copied(off, n, turns) < n
    requires len == ChunkLength(off + tot, n - tot)
    requires
      || p == (if turns < good then len else Short(part, len)) < len
      || (p == 0 && full && Addr(m0, i, (off + tot) / 1024) == 0)
    ensures LoopStops(m0, i, off, n, good, part, tot, p, full)
  {
    CopiedAll(off, n, good);
    DeliveredIs(off, n, good, part);
  }

  lemma StopsDone(m0: Image, i: nat, off: nat, n: nat, good: nat, part: nat, turns: nat, full: bool)
    requires m0.Ok() && m0.IsInode(i) && off + n <= 274432 && turns <= good && Copied(off, n, turns) == n
    ensures LoopStops(m0, i, off, n, good, part, n, 0, full)
  {
    CopiedAll(off, n, good);
    DeliveredIs(off, n, good, part);
  }

  /** The same for the whole call, on a file of size0 bytes without holes. */
  ghost predicate WriteStops(size0: nat, off: nat, n: nat, good: nat, part: nat, r: nat, p: nat, full: bool) {
    var g := Copied(off, n, good);
    && r <= g <= n && r + p <= n
    && ((p == Delivered(off, n, good, part) && r == g) || (p == 0 && full && off + r >= size0))
  }

  lemma StopsIs(size0: nat, off: nat, n: nat, good: nat, part: nat, r: nat, p: nat, full: bool)
    requires WriteStops(size0, off, n, good, part, r, p, full)
    ensures r <= Copied(off, n, good) <= n && r + p <= n
    ensures (r == Copied(off, n, good) && p == Delivered(off, n, good, part)) || (p == 0 && full && off + r >= size0)
  {
  }

  lemma Stops(m0: Image, i: nat, off: nat, n: nat, good: nat, part: nat, r: nat, p: nat, full: bool)
    requires m0.Ok() && m0.IsInode(i) && NoHoles(m0, i) && LoopStops(m0, i, off, n, good, part, r, p, full)
    ensures WriteStops(m0.inodes[i].size, off, n, good, part, r, p, full)
  {
    var f := (off + r) / 1024;
    assert f * 1024 <= off + r;
    if r < n {
      assert f < MAXFILE;
      assert Addr(m0, i, f) == 0 ==> f * 1024 >= m0.inodes[i].size;
    }
  }

  /** The d bytes after the first g of src agree with what the file c has there already. */
  ghost predicate NoStray(c: seq<byte>, off: nat, src: seq<byte>, g: nat, d: nat)
    requires g + d <= |src|
  {
    forall k :: g <= k < g + d && off + k < |c| ==> src[k] == c[off + k]
  }

  /** Bytes that were delivered but not counted show exactly if they differ from what the file has there. */
  lemma ClippedIs(c: seq<byte>, off: nat, src: seq<byte>, r: nat, p: nat)
    requires off <= |c| && r + p <= |src|
    ensures Overwrite(c, off, src[..r + p])[..Max(|c|, off + r)] == Overwrite(c, off, src[..r]) <==>
      NoStray(c, off, src, r, p)
  {
    var a, b := Overwrite(c, off, src[..r + p])[..Max(|c|, off + r)], Overwrite(c, off, src[..r]);
    assert |a| == |b|;
    forall x | 0 <= x < |a|
      ensures a[x] == if off <= x < off + r + p then src[x - off] else c[x]
      ensures b[x] == if off <= x < off + r then src[x - off] else c[x]
    {
    }
    if a == b {
      forall k | r <= k < r + p && off + k < |c|
        ensures src[k] == c[off + k]
      {
        assert a[off + k] == b[off + k];
      }
    }
  }

  /**
   The same in terms of what goes in, if the write stops where a copy fails, g bytes
   in, or beyond the file on a full disk.
   */
  lemma StrayIff(c: seq<byte>, off: nat, src: seq<byte>, g: nat, d: nat, r: nat, p: nat)
    requires off <= |c| && g + d <= |src| && r + p <= |src| && r <= g
    requires (r == g && p == d) || (p == 0 && off + r >= |c|)
    ensures Overwrite(c, off, src[..r + p])[..Max(|c|, off + r)] == Overwrite(c, off, src[..r]) <==>
      NoStray(c, off, src, g, d)
  {
    ClippedIs(c, off, src, r, p);
  }

  /** Number of blocks that n bytes at off lie in. */
  function BlocksTouched(off: nat, n: nat): (k: nat) {
    if n == 0 then 0 else (off + n - 1) / 1024 - off / 1024 + 1
  }

  /** How many of n bytes at off the first k copies of readi() or writei() carry: one copy for each block. */
  function Copied(off: nat, n: nat, k: nat): (c: nat) {
    if k >= BlocksTouched(off, n) then n else if k == 0 then 0 else (off / 1024 + k) * 1024 - off
  }

  lemma CopiedNone(off: nat, n: nat)
    ensures Copied(off, n, 0) == 0 && (BlocksTouched(off, n) == 0 <==> n == 0)
  {
  }

  lemma CopiedNext(off: nat, n: nat, k: nat, len: nat)
    requires Copied(off, n, k) < n && len == ChunkLength(off + Copied(off, n, k), n - Copied(off, n, k))
    ensures Copied(off, n, k + 1) == Copied(off, n, k) + len && k + 1 <= BlocksTouched(off, n)
    ensures k + 1 == BlocksTouched(off, n) <==> Copied(off, n, k) + len == n
  {
  }

  lemma CopiedAll(off: nat, n: nat, k: nat)
    ensures Copied(off, n, k) <= n && (Copied(off, n, k) == n <==> k >= BlocksTouched(off, n))
    ensures forall j: nat :: j <= k ==> Copied(off, n, j) <= Copied(off, n, k)
  {
  }

  /** New blocks may have gone to inode i; no label was lost. */
  ghost predicate LabelsGrown(own0: Owners, own: Owners, i: nat) {
    && |own| == |own0|
    && forall b :: 0 <= b < |own| ==>
         own[b] == own0[b] || (own0[b].Free? && (own[b].Data? || own[b].Ind?) && own[b].inum == i)
  }

  /** log_write was called for nothing but bitmap blocks, the indirect block ind and those in bs. */
  ghost predicate LoggedOnly(sb: Super, logged0: set<nat>, logged: set<nat>, ind: nat, bs: set<nat>) {
    forall b :: b in logged ==> b in logged0 || sb.IsBitmap(b) || b == ind != 0 || b in bs
  }

  lemma LoggedMore(sb: Super, logged0: set<nat>, logged: set<nat>, ind: nat, bs: set<nat>, b: nat)
    requires LoggedOnly(sb, logged0, logged, ind, bs)
    ensures LoggedOnly(sb, logged0, logged + {b}, ind, bs + {b})
  {
  }

  lemma TurnsAdd(sb: Super, i: nat, own0: Owners, own1: Owners, own2: Owners,
                 logged0: set<nat>, logged1: set<nat>, logged2: set<nat>, ind1: nat, ind2: nat, bs: set<nat>, b: nat)
    requires LabelsGrown(own0, own1, i) && LabelsGrown(own1, own2, i)
    requires LoggedOnly(sb, logged0, logged1, ind1, bs) && LoggedOnly(sb, logged1, logged2, ind2, {b})
    requires ind1 != 0 ==> ind2 == ind1
    ensures LabelsGrown(own0, own2, i) && LoggedOnly(sb, logged0, logged2, ind2, bs + {b})
  {
  }

  /** len bytes at off lie in one block. */
  predicate WithinBlock(off: nat, len: nat) {
    off % 1024 + len <= 1024
  }

  /** min(n - tot, BSIZE - off % BSIZE) */
  function ChunkLength(off: nat, rest: nat): (len: nat)
    requires rest > 0
    ensures 0 < len <= rest && WithinBlock(off, len)
  {
    if rest < 1024 - off % 1024 then rest else 1024 - off % 1024
  }

  lemma Joined(c: seq<byte>, a: nat, b: nat, d: nat, got: nat, x: seq<byte>, y: seq<byte>)
    requires a <= b <= d <= |c| && x == c[a..b] && y == c[b..d] && b + got <= d
    ensures |y| == d - b && x + y[..got] == c[a..b + got]
  {
    assert c[b..d][..got] == c[b..b + got];
  }

  /** The overflow test of readi() and writei(). */
  lemma Wraps(off: nat, n: nat)
    requires off < 0x1_0000_0000 && n < 0x1_0000_0000
    ensures (off + n) % 0x1_0000_0000 < off <==> off + n >= 0x1_0000_0000
  {
  }

  /** ip->addrs all zero. */
  function NoAddrs(): (a: seq<nat>)
    ensures |a| == NDIRECT + 1 && forall k :: 0 <= k < |a| ==> a[k] == 0
  {
    seq(NDIRECT + 1, _ => 0)
  }

  predicate Names(o: Owner, i: nat) {
    (o.Data? || o.Ind?) && o.inum == i
  }

  /** Every bit is set. */
  ghost predicate Full(m: Image) {
    forall b :: 0 <= b < |m.bits| ==> m.bits[b]
  }

  lemma Unwritten(m: Image, i: nat)
    requires m.Ok() && m.IsInode(i)
    ensures Wrote(m, m, i, 0, [])
  {
    HoldsNothing(m, i);
  }

  /** Claiming a free block changes no entry of an indirect block. */
  lemma EntryStays(m: Image, own: Owners, b: nat, i: nat, j: nat)
    requires OwnOk(m, own) && 0 < b < |own| && own[b].Free? && m.IsInode(i) && j < NINDIRECT
    ensures Entry(WithBlock(WithBit(m, b, true), b, ZeroBlock()), i, j) == Entry(m, i, j)
  {
    assert DownInd(m, own, i);
  }

  /** One block is labelled with a slot that names a block. */
  lemma UniqueLabel(m: Image, own: Owners, i: nat, f: nat)
    requires OwnOk(m, own) && m.IsInode(i) && f < MAXFILE
    ensures forall b :: 0 <= b < |own| && own[b] == Data(i, f) ==> b == Addr(m, i, f)
  {
    forall b | 0 <= b < |own| && own[b] == Data(i, f)
      ensures b == Addr(m, i, f)
    {
      assert UpOk(m, own, b);
    }
  }

  /** No block is labelled with a slot that names none. */
  lemma NoLabel(m: Image, own: Owners, i: nat, f: nat)
    requires OwnOk(m, own) && m.IsInode(i) && f < MAXFILE && Addr(m, i, f) == 0
    ensures forall b :: 0 <= b < |own| ==> own[b] != Data(i, f)
  {
    forall b | 0 <= b < |own|
      ensures own[b] != Data(i, f)
    {
      assert UpOk(m, own, b);
    }
  }

  lemma NothingBelow(m: Image, own: Owners, i: nat)
    requires OwnOk(m, own) && m.IsInode(i) && m.inodes[i].Indirect() == 0
    ensures forall b :: 0 <= b < |own| ==> !Below(own[b], i)
    ensures m.inodes == m.inodes[i := m.inodes[i].WithAddr(NDIRECT, 0)]
  {
    forall b | 0 <= b < |own|
      ensures !Below(own[b], i)
    {
      assert UpOk(m, own, b);
    }
    assert m.inodes[i].addrs == m.inodes[i].addrs[NDIRECT := 0];
  }

  /** Entry j of the indirect block names the one block labelled so. */
  lemma EntryLabel(m: Image, own: Owners, i: nat, j: nat)
    requires OwnOk(m, own) && m.IsInode(i) && m.inodes[i].Indirect() != 0 && j < NINDIRECT
    ensures m.IsBlock(m.inodes[i].Indirect())
    ensures var e := m.data[m.inodes[i].Indirect()].words[j];
      && (e != 0 ==> e < |own| && own[e] == Data(i, NDIRECT + j))
      && (forall b :: 0 <= b < |own| && own[b] == Data(i, NDIRECT + j) ==> b == e)
  {
    assert DownInd(m, own, i);
    assert DownOk(m, own, i, NDIRECT + j);
    forall b | 0 <= b < |own| && own[b] == Data(i, NDIRECT + j)
      ensures b == m.data[m.inodes[i].Indirect()].words[j]
    {
      assert UpOk(m, own, b);
    }
  }

  lemma NoOtherInd(m: Image, own: Owners, i: nat)
    requires OwnOk(m, own) && m.IsInode(i)
    ensures forall b :: 0 <= b < |own| && own[b] == Ind(i) ==> b == m.inodes[i].Indirect()
    ensures forall b :: 0 <= b < |own| && own[b].Data? && own[b].inum == i ==> own[b].fbn < MAXFILE
  {
    forall b | 0 <= b < |own|
      ensures own[b] == Ind(i) ==> b == m.inodes[i].Indirect()
      ensures own[b].Data? && own[b].inum == i ==> own[b].fbn < MAXFILE
    {
      assert UpOk(m, own, b);
    }
  }

  /** The size of an inode is no concern of the labels. */
  lemma SizeKeeps(m: Image, own: Owners, i: nat, size: nat)
    requires OwnOk(m, own) && m.IsInode(i)
    ensures OwnOk(Sized(m, i, size), own)
  {
    var m' := Sized(m, i, size);
    forall k, f | m.IsInode(k) && 0 <= f < MAXFILE
      ensures DownOk(m', own, k, f)
    {
      assert DownOk(m, own, k, f);
    }
    forall k | m.IsInode(k)
      ensures DownInd(m', own, k)
    {
      assert DownInd(m, own, k);
    }
    forall c | 0 <= c < |own|
      ensures UpOk(m', own, c) && BitOk(m', own, c)
    {
      assert UpOk(m, own, c) && BitOk(m, own, c);
    }
  }

  /** Truncating one file touches no other. */
  lemma Truncated(m0: Image, own0: Owners, m: Image, own: Owners, i: nat)
    requires OwnOk(m0, own0) && OwnOk(m, own) && m0.IsInode(i) && m.data == m0.data
    requires m.inodes == m0.inodes[i := Inode(0, NoAddrs())]
    requires forall k :: m0.IsInode(k) ==> NoHoles(m0, k)
    ensures forall k :: m.IsInode(k) ==> NoHoles(m, k)
    ensures forall k :: m.IsInode(k) && k != i ==> NoHoles(m0, k) && Contents(m, k) == Contents(m0, k)
  {
    forall k | m.IsInode(k)
      ensures NoHoles(m, k) && NoHoles(m0, k)
      ensures k != i ==> Contents(m, k) == Contents(m0, k)
    {
      assert NoHoles(m0, k);
      if k != i {
        forall f | 0 <= f < MAXFILE
          ensures Addr(m, k, f) == Addr(m0, k, f)
        {
        }
        SameContents(m0, m, k, m.inodes[k].size);
      }
    }
  }

  lemma {:induction false} SameContents(m: Image, m': Image, k: nat, n: nat)
    requires m.Ok() && m'.Ok() && m.IsInode(k) && m'.IsInode(k) && n <= 274432
    requires m'.data == m.data && forall f :: 0 <= f < MAXFILE ==> Addr(m', k, f) == Addr(m, k, f)
    ensures Prefix(m', k, n) == Prefix(m, k, n)
  {
    if n > 0 {
      SameContents(m, m', k, n - 1);
      assert Addr(m', k, (n - 1) / 1024) == Addr(m, k, (n - 1) / 1024);
    }
  }
}
