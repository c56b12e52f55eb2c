/**
 The main program of mkfs/mkfs.c: the layout of the disk, a root directory with
 an entry for every file given, the files, and the file system the kernel then
 finds.
 */
module MkfsImage {
  import opened LogFormat
  import opened ByteWords
  import opened BlockOwner
  import opened FileData
  import opened Fs
  import opened Mkfs

  const FSSIZE: nat := 2000
  const LOGSIZE: nat := 30
  const NINODES: nat := 200
  const ROOTINO: nat := 1

  // ----- Layout -----

  /** boot block, superblock, log, inode blocks, bitmap, data blocks */
  datatype DiskLayout = DiskLayout(size: nat, nlog: nat, ninodes: nat) {
    function Ninodeblocks(): nat {
      ninodes / IPB + 1
    }

    function Nbitmap(): nat {
      size / BPB + 1
    }

    function Nmeta(): nat {
      2 + nlog + Ninodeblocks() + Nbitmap()
    }

    function Sb(): Super {
      Super(size, 2 + nlog, 2 + nlog + Ninodeblocks())
    }
  }

  function Disk(): DiskLayout {
    DiskLayout(FSSIZE, LOGSIZE, NINODES)
  }

  /** Inode blocks and bitmap blocks lie one after the other behind the log and before the first data block. */
  lemma LayoutOrder(l: DiskLayout, i: nat, b: nat)
    requires i < l.ninodes && b < l.size
    ensures 2 + l.nlog <= l.Sb().IBlock(i) < l.Sb().bmapstart <= l.Sb().BBlock(b) < l.Nmeta()
    ensures l.Sb().IsBitmap(l.Sb().BBlock(b))
  {
  }

  lemma BitmapIsMeta(l: DiskLayout, x: nat)
    requires l.Sb().IsBitmap(x)
    ensures l.Sb().bmapstart <= x < l.Nmeta()
  {
    var c: nat :| c < l.size && x == l.Sb().BBlock(c);
  }

  // ----- Directory entries -----

  /** A file to be put on the disk, with the name its entry gets. */
  datatype File = File(name: seq<byte>, data: seq<byte>)

  /** struct dirent: the inode number and DIRSIZ bytes of name, as strncpy() leaves them. */
  function Dirent(inum: nat, name: seq<byte>): (bs: seq<byte>)
    requires inum < 0x1_0000
    ensures |bs| == 16
  {
    [inum % 256, inum / 256] + seq(14, j requires 0 <= j < 14 => if j < |name| then name[j] else 0)
  }

  /** "." and ".." and the entries of the first k files. */
  function Entries(files: seq<File>, k: nat): (bs: seq<byte>)
    requires k <= |files| && k + 2 < 0x1_0000
    ensures |bs| == 16 * (k + 2)
  {
    if k == 0 then
      Dirent(ROOTINO, [46]) + Dirent(ROOTINO, [46, 46])
    else
      Entries(files, k - 1) + Dirent(k + 1, files[k - 1].name)
  }

  // ----- What fits -----

  /** Blocks for the data of the first k files. */
  function DataBlocks(files: seq<File>, k: nat): (n: nat)
    requires k <= |files|
  {
    if k == 0 then 0 else DataBlocks(files, k - 1) + Need(|files[k - 1].data|)
  }

  /** Every file can have its size, and there are blocks for all of them and for the root directory. */
  predicate Fits(files: seq<File>, k: nat)
    requires k <= |files|
  {
    && (forall j :: 0 <= j < k ==> |files[j].data| <= 274432)
    && Disk().Nmeta() + Need(16 * (k + 2)) + DataBlocks(files, k) <= FSSIZE
  }

  lemma {:induction false} FitsFewer(files: seq<File>, k: nat, n: nat)
    requires k <= n <= |files|
    ensures DataBlocks(files, k) <= DataBlocks(files, n) && (Fits(files, n) ==> Fits(files, k))
  {
    if k < n {
      FitsFewer(files, k, n - 1);
      NeedMore(16 * (n + 1), 16 * (n + 2));
    }
  }

  // ----- The state between files -----

  /** Inode i is a file with contents c. */
  ghost predicate Holds(m: Image, i: nat, c: seq<byte>) {
    m.Ok() && m.IsInode(i) && m.inodes[i].size <= 274432 && Contents(m, i) == c
  }

  /** The first k files and their entries are on the disk. */
  ghost predicate Done(m: Image, files: seq<File>, k: nat) {
    && k <= |files| && k + 2 < 0x1_0000
    && Holds(m, ROOTINO, Entries(files, k))
    && forall j :: 0 <= j < k ==> Holds(m, 2 + j, files[j].data)
  }

  lemma {:induction false} GrownHolds(m: Image, m': Image, i: nat, src: seq<byte>, k: nat, c: seq<byte>)
    requires Grown(m, m', i, src) && Holds(m, k, c)
    ensures Holds(m', k, if k == i then c + src else c)
  {
    if k != i {
      assert KeptContents(m, m', k);
    }
  }

  /** The entry of the next file is in the root directory. */
  lemma {:induction false} EntryAdded(m: Image, m': Image, files: seq<File>, k: nat)
    requires Done(m, files, k) && k < |files| && k + 3 < 0x1_0000 && Holds(m, 2 + k, [])
    requires Grown(m, m', ROOTINO, Dirent(2 + k, files[k].name))
    ensures Holds(m', ROOTINO, Entries(files, k + 1)) && Holds(m', 2 + k, [])
    ensures forall j :: 0 <= j < k ==> Holds(m', 2 + j, files[j].data)
  {
    hide Grown, Holds, Dirent;
    GrownHolds(m, m', ROOTINO, Dirent(2 + k, files[k].name), ROOTINO, Entries(files, k));
    GrownHolds(m, m', ROOTINO, Dirent(2 + k, files[k].name), 2 + k, []);
    forall j | 0 <= j < k
      ensures Holds(m', 2 + j, files[j].data)
    {
      GrownHolds(m, m', ROOTINO, Dirent(2 + k, files[k].name), 2 + j, files[j].data);
    }
  }

  lemma GrownNone(m: Image, i: nat)
    requires m.Ok() && m.IsInode(i) && AllFilled(m)
    ensures Grown(m, m, i, [])
  {
    forall k | m.IsInode(k)
      ensures KeptContents(m, m, k)
    {
      assert Filled(m, k);
    }
    assert Contents(m, i) + [] == Contents(m, i);
  }

  lemma GrownIs(m: Image, m': Image, i: nat, src: seq<byte>)
    requires Grown(m, m', i, src)
    ensures m.Ok() && m'.Ok() && |m'.inodes| == |m.inodes| && i < |m.inodes| && m.IsInode(i) && m'.IsInode(i)
    ensures m'.inodes[i].size == m.inodes[i].size + |src| <= 274432
    ensures forall k :: 0 <= k < |m.inodes| && k != i ==> m'.inodes[k] == m.inodes[k]
  {
  }

  lemma NeedNone()
    ensures Need(0) == 0
  {
  }

  lemma GrownTrans(m0: Image, m1: Image, m2: Image, i: nat, a: seq<byte>, b: seq<byte>)
    requires Grown(m0, m1, i, a) && Grown(m1, m2, i, b)
    ensures Grown(m0, m2, i, a + b)
  {
    forall k | m0.IsInode(k) && k != i
      ensures m2.inodes[k] == m0.inodes[k] && KeptContents(m0, m2, k)
    {
      assert KeptContents(m0, m1, k) && KeptContents(m1, m2, k);
    }
    assert Contents(m0, i) + (a + b) == Contents(m0, i) + a + b;
  }

  /** The data of a file is read and appended a block at a time. */
  method AppendData(b: Builder, i: nat, data: seq<byte>) returns (ok: bool)
    requires b.Valid() && b.m.IsInode(i) && i < b.freeinode && b.m.inodes[i].size == 0
    modifies b`m, b`own, b`freeblock
    ensures ok <==> |data| <= 274432 && old(b.freeblock) + Need(|data|) <= b.size
    ensures ok ==> b.Valid() && b.freeblock == old(b.freeblock) + Need(|data|)
    ensures ok ==> Grown(old(b.Now()), b.Now(), i, data)
  {
    hide *;
    ghost var now0 := b.Now();
    b.ValidIs(i);
    GrownNone(now0, i);
    NeedNone();
    var n: nat := 0;
    assert data[..0] == [];
    while n < |data|
      invariant n <= |data| && b.Valid() && b.m.IsInode(i) && i < |b.m.inodes| && b.m.inodes[i].size == n
      invariant Grown(now0, b.Now(), i, data[..n]) && b.freeblock == old(b.freeblock) + Need(n)
    {
      var cc := if |data| - n < 1024 then |data| - n else 1024;
      ghost var now1 := b.Now();
      NeedMore(n + cc, |data|);
      ok := b.Iappend(i, data[n..n + cc]);
      if !ok {
        return;
      }
      assert data[..n] + data[n..n + cc] == data[..n + cc];
      b.ValidIs(i);
      GrownIs(now1, b.Now(), i, data[n..n + cc]);
      GrownTrans(now0, now1, b.Now(), i, data[..n], data[n..n + cc]);
      n := n + cc;
    }
    assert data[..|data|] == data;
    b.ValidIs(i);
    GrownIs(now0, b.Now(), i, data);
    ok := true;
  }

  /** The disk once the first k files have been added. */
  ghost predicate At(b: Builder, files: seq<File>, k: nat)
    reads b
  {
    && b.Valid() && b.size == FSSIZE && b.nmeta == Disk().Nmeta() && |b.m.inodes| == NINODES && b.freeinode == 2 + k
    && Done(b.Now(), files, k)
    && b.freeblock == Disk().Nmeta() + Need(16 * (k + 2)) + DataBlocks(files, k)
  }

  /** The root directory with its first two entries. */
  method StartRoot(ghost files: seq<File>) returns (b: Builder)
    ensures fresh(b) && At(b, files, 0)
  {
    b := new Builder(FSSIZE, Disk().Nmeta(), NINODES);
    var root := b.Ialloc();
    ghost var m0 := b.Now();
    assert Holds(m0, ROOTINO, []);
    var ok := b.Iappend(root, Dirent(root, [46]));
    ghost var m1 := b.Now();
    GrownHolds(m0, m1, ROOTINO, Dirent(ROOTINO, [46]), ROOTINO, []);
    ok := b.Iappend(root, Dirent(root, [46, 46]));
    GrownHolds(m1, b.Now(), ROOTINO, Dirent(ROOTINO, [46, 46]), ROOTINO, Dirent(ROOTINO, [46]));
  }

  /** ialloc(), the entry in the root directory, and the data of one file. */
  method AddFile(b: Builder, files: seq<File>, k: nat) returns (ok: bool)
    requires k < |files| && 2 + k < NINODES && At(b, files, k)
    modifies b
    ensures ok <==> Fits(files, k + 1)
    ensures ok ==> At(b, files, k + 1)
  {
    hide OwnOk, Entries, Dirent, Grown, AllFilled, ZeroBlock, Need, Built;
    var inum := b.Ialloc();
    ghost var m0 := b.Now();
    ok := b.Iappend(ROOTINO, Dirent(inum, files[k].name));
    if !ok {
      return;
    }
    ghost var m1 := b.Now();
    EntryAdded(m0, m1, files, k);
    GrownIs(m0, m1, ROOTINO, Dirent(inum, files[k].name));
    ok := AppendData(b, inum, files[k].data);
    if !ok {
      return;
    }
    DataAdded(m1, b.Now(), files, k);
    GrownIs(m1, b.Now(), inum, files[k].data);
  }

  lemma {:induction false} DataAdded(m: Image, m': Image, files: seq<File>, k: nat)
    requires k < |files| && k + 3 < 0x1_0000 && Holds(m, ROOTINO, Entries(files, k + 1)) && Holds(m, 2 + k, [])
    requires forall j :: 0 <= j < k ==> Holds(m, 2 + j, files[j].data)
    requires Grown(m, m', 2 + k, files[k].data)
    ensures Done(m', files, k + 1)
  {
    hide Grown, Holds, Entries;
    GrownHolds(m, m', 2 + k, files[k].data, ROOTINO, Entries(files, k + 1));
    GrownHolds(m, m', 2 + k, files[k].data, 2 + k, []);
    assert [] + files[k].data == files[k].data;
    forall j | 0 <= j < k
      ensures Holds(m', 2 + j, files[j].data)
    {
      GrownHolds(m, m', 2 + k, files[k].data, 2 + j, files[j].data);
    }
  }

  // ----- The finished image -----

  /**
   The files have their data. The root directory has its entries and zeros up to
   a block boundary; if the entries were a whole number of blocks, it ends in a
   block that is missing.
   */
  ghost predicate ImageOf(m: Image, files: seq<File>) {
    && |files| + 2 < 0x1_0000
    && Holds(m, ROOTINO, Entries(files, |files|) + Zeros(1024 - 16 * (|files| + 2) % 1024))
    && (forall j :: 0 <= j < |files| ==> Holds(m, 2 + j, files[j].data))
    && ((|files| + 2) % 64 == 0 ==> (|files| + 2) / 64 < MAXFILE && Addr(m, ROOTINO, (|files| + 2) / 64) == 0)
  }

  /** No inode block and no bitmap block is ever given to a file. */
  ghost predicate LaidOut(sb: Super, own: Owners) {
    && (forall i: nat :: i < NINODES ==> sb.IBlock(i) < |own| && own[sb.IBlock(i)].Meta?)
    && (forall b: nat :: sb.IsBitmap(b) ==> b < |own| && own[b].Meta?)
  }

  lemma DoneIs(m: Image, files: seq<File>, k: nat)
    requires Done(m, files, k)
    ensures m.Ok() && m.IsInode(ROOTINO)
  {
  }

  lemma {:induction false} RoundedImage(m: Image, m': Image, files: seq<File>)
    requires |files| + 2 <= NINODES && Done(m, files, |files|) && m'.Ok() && RoundedUp(m, m', ROOTINO)
    ensures m.inodes[ROOTINO].size == 16 * (|files| + 2) && ImageOf(m', files)
  {
    hide Entries, Dirent, Addr, Zeros;
    var n := 16 * (|files| + 2);
    assert m.inodes[ROOTINO].size == n;
    assert n / 1024 == (|files| + 2) / 64 && n % 1024 == 16 * ((|files| + 2) % 64);
    forall j | 0 <= j < |files|
      ensures Holds(m', 2 + j, files[j].data)
    {
      assert Holds(m, 2 + j, files[j].data);
      assert KeptContents(m, m', 2 + j);
    }
  }

  lemma MetaLaidOut(own: Owners)
    requires |own| == FSSIZE && forall b :: 0 <= b < |own| ==> (own[b].Meta? <==> b < Disk().Nmeta())
    ensures LaidOut(Disk().Sb(), own)
  {
    forall i: nat | i < NINODES
      ensures Disk().Sb().IBlock(i) < |own| && own[Disk().Sb().IBlock(i)].Meta?
    {
      LayoutOrder(Disk(), i, 0);
    }
    forall b: nat | Disk().Sb().IsBitmap(b)
      ensures b < |own| && own[b].Meta?
    {
      BitmapIsMeta(Disk(), b);
    }
  }

  /** The root size is rounded, the bitmap written, and the kernel mounts what it finds. */
  method Finish(b: Builder, ghost files: seq<File>) returns (ok: bool, fs: FileSystem?)
    requires |files| + 2 <= NINODES && At(b, files, |files|)
    modifies b
    ensures ok && fs != null && fresh(fs) && fs.sb == Disk().Sb() && fs.Core() && LaidOut(fs.sb, fs.own)
    ensures ImageOf(fs.m, files) && (fs.Valid() <==> (|files| + 2) % 64 != 0)
  {
    hide OwnOk, Done, Holds, ImageOf, RoundedUp, Sound, AllFilled, LaidOut, DataBlocks, ZeroBlock;
    ghost var now := b.Now();
    DoneIs(now, files, |files|);
    b.RoundSize(ROOTINO);
    RoundedImage(now, b.Now(), files);
    assert 16 * (|files| + 2) % 1024 == 16 * ((|files| + 2) % 64);
    ok := b.WriteBitmap();
    MetaLaidOut(b.own);
    fs := new FileSystem(Disk().Sb(), b.m, b.own);
  }

  /**
   mkfs: the program ends well exactly if everything fits, and then the kernel
   finds every file as it was given. The file system is as the kernel relies on,
   unless the entries of the root directory fill a whole number of blocks.
   */
  method MakeImage(files: seq<File>) returns (ok: bool, fs: FileSystem?)
    requires |files| + 2 <= NINODES
    ensures ok <==> Fits(files, |files|)
    ensures ok ==> fs != null && fresh(fs) && fs.sb == Disk().Sb() && fs.Core() && LaidOut(fs.sb, fs.own)
    ensures ok ==> ImageOf(fs.m, files) && (fs.Valid() <==> (|files| + 2) % 64 != 0)
  {
    hide *;
    var b := StartRoot(files);
    var k: nat := 0;
    while k < |files|
      invariant k <= |files| && fresh(b) && At(b, files, k)
    {
      FitsFewer(files, k + 1, |files|);
      ok := AddFile(b, files, k);
      if !ok {
        return false, null;
      }
      k := k + 1;
    }
    AtFits(b, files);
    ok, fs := Finish(b, files);
  }

  lemma AtFits(b: Builder, files: seq<File>)
    requires At(b, files, |files|)
    ensures Fits(files, |files|)
  {
    assert forall j :: 0 <= j < |files| ==> Holds(b.Now(), 2 + j, files[j].data);
  }

  /** Sixty-two empty files: the 64 entries fill a block, and the root directory ends in a hole. */
  method WholeBlockOfEntries() returns (fs: FileSystem)
    ensures fresh(fs) && fs.Core() && !fs.Valid()
    ensures fs.m.IsInode(ROOTINO) && fs.m.inodes[ROOTINO].size == 2048 && Addr(fs.m, ROOTINO, 1) == 0
  {
    var files := seq(62, _ => File([], []));
    NoData(files, 62);
    var ok, x := MakeImage(files);
    fs := x;
  }

  lemma {:induction false} NoData(files: seq<File>, k: nat)
    requires k <= |files| && forall j :: 0 <= j < |files| ==> files[j].data == []
    ensures DataBlocks(files, k) == 0
  {
    if k > 0 {
      NoData(files, k - 1);
    }
  }
}
