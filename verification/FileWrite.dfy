/**
 filewrite() of kernel/file.c for inodes: a long write becomes a sequence of
 file system operations, each small enough for the log.
 */
module FileWrite {
  import opened LogFormat
  import opened ByteWords
  import opened BlockOwner
  import opened FileData
  import opened Fs

  /** The bytes written by one operation at most: ((MAXOPBLOCKS-1-1-2) / 2) * BSIZE. */
  const CHUNK: nat := (MAXOPBLOCKS - 1 - 1 - 2) / 2 * 1024

  lemma {:induction false} SubsetSize(a: set<nat>, b: set<nat>)
    requires a <= b
    ensures |a| <= |b|
  {
    if a != {} {
      var x :| x in a;
      SubsetSize(a - {x}, b - {x});
    }
  }

  /** A chunk lies in at most four blocks, wherever it starts. */
  lemma ChunkBlocks(off: nat, n: nat)
    requires n <= CHUNK
    ensures BlocksTouched(off, n) <= 4
  {
  }

  /** With one bitmap block, what an operation logs is the data, an inode, an indirect and a bitmap block. */
  lemma LoggedCount(sb: Super, logged: set<nat>, ind: nat, touched: set<nat>, ib: nat)
    requires sb.size <= BPB && LoggedOnly(sb, {}, logged, ind, touched + {ib})
    ensures |logged| <= |touched| + 3
  {
    var all := touched + {ib} + {ind} + {sb.bmapstart};
    forall b | b in logged
      ensures b in all
    {
    }
    SubsetSize(logged, all);
  }

  lemma OverwriteTwice(c: seq<byte>, off: nat, a: seq<byte>, b: seq<byte>)
    requires off <= |c|
    ensures off + |a| <= |Overwrite(c, off, a)|
    ensures Overwrite(Overwrite(c, off, a), off + |a|, b) == Overwrite(c, off, a + b)
  {
  }

  /** Every operation logged few enough blocks. */
  ghost predicate OpsFit(ops: seq<set<nat>>, n: nat) {
    forall k :: 0 <= k < |ops| ==> |ops[k]| <= n
  }

  /** One operation: begin_op(), writei() of n1 bytes, end_op(). Its log_write calls are `op`. */
  method WriteOp(fs: FileSystem, i: nat, off: nat, src: seq<byte>, good: nat, part: nat)
    returns (r: int, ghost p: nat, ghost op: set<nat>)
    requires fs.Valid() && fs.m.IsInode(i) && off < 0x1_0000_0000 && |src| <= CHUNK && fs.sb.size <= BPB
    modifies fs
    ensures fs.Valid() && |fs.m.inodes| == |old(fs.m).inodes| && |op| <= 7
    ensures Covers(fs.sb, op, old(fs.view), fs.view) && (r != -1 ==> fs.sb.IBlock(i) in op)
    ensures r == -1 <==> off > old(fs.m).inodes[i].size || off + |src| > 274432
    ensures r == -1 ==> p == 0 && fs.m == old(fs.m) && fs.view == old(fs.view)
    ensures r != -1 ==> r >= 0 && Written(old(fs.m), old(fs.view), fs.m, fs.view, i, off, src, good, part, r, p)
  {
    fs.Begin();
    ghost var touched;
    r, p, touched := fs.Writei(i, off, src, good, part);
    op := fs.logged;
    ChunkBlocks(off, |src|);
    LoggedCount(fs.sb, op, fs.m.inodes[i].Indirect(), touched, fs.sb.IBlock(i));
  }

  function Least(a: nat, b: nat): (r: nat)
    ensures r <= a && r <= b && (r == a || r == b)
  {
    if a <= b then a else b
  }

  /**
   How many of n bytes at off are copied before a copy fails, from operation k on, in
   a file that is not too large.
   */
  function Reach(off: nat, n: nat, good: nat -> nat, k: nat): (g: nat)
    decreases n
  {
    var n1 := Least(n, CHUNK);
    if n == 0 || off + n1 > 274432 then 0
    else if Copied(off, n1, good(k)) < n1 then Copied(off, n1, good(k))
    else n1 + Reach(off + n1, n - n1, good, k + 1)
  }

  /** What the copy that fails delivers. */
  function Last(off: nat, n: nat, good: nat -> nat, part: nat -> nat, k: nat): (d: nat)
    decreases n
  {
    var n1 := Least(n, CHUNK);
    if n == 0 || off + n1 > 274432 then 0
    else if Copied(off, n1, good(k)) < n1 then Delivered(off, n1, good(k), part(k))
    else Last(off + n1, n - n1, good, part, k + 1)
  }

  lemma {:induction false} ReachIs(off: nat, n: nat, good: nat -> nat, part: nat -> nat, k: nat)
    ensures Reach(off, n, good, k) + Last(off, n, good, part, k) <= n
    decreases n
  {
    var n1 := Least(n, CHUNK);
    if n > 0 {
      DeliveredIs(off, n1, good(k), part(k));
      ReachIs(off + n1, n - n1, good, part, k + 1);
    }
  }

  /** If every copy succeeds, all of a file that is not too large is copied. */
  lemma {:induction false} AllReached(off: nat, n: nat, good: nat -> nat, k: nat)
    requires (forall j: nat :: good(j) >= 4) && off + n <= 274432
    ensures Reach(off, n, good, k) == n
    decreases n
  {
    var n1 := Least(n, CHUNK);
    if n > 0 {
      ChunkBlocks(off, n1);
      CopiedAll(off, n1, good(k));
      AllReached(off + n1, n - n1, good, k + 1);
    }
  }

  /** Reading on after n bytes, with operation k. */
  predicate At(off: nat, len: nat, good: nat -> nat, part: nat -> nat, n: nat, k: nat) {
    && n <= len
    && n + Reach(off + n, len - n, good, k) == Reach(off, len, good, 0)
    && Last(off + n, len - n, good, part, k) == Last(off, len, good, part, 0)
  }

  lemma ReachStep(off: nat, n: nat, good: nat -> nat, part: nat -> nat, k: nat)
    requires n > 0 && off + Least(n, CHUNK) <= 274432
    ensures var n1 := Least(n, CHUNK);
      var c := Copied(off, n1, good(k));
      && Reach(off, n, good, k) == (if c < n1 then c else n1 + Reach(off + n1, n - n1, good, k + 1))
      && Last(off, n, good, part, k) ==
           if c < n1 then Delivered(off, n1, good(k), part(k)) else Last(off + n1, n - n1, good, part, k + 1)
  {
  }

  /** A whole operation more. */
  lemma AtNext(off: nat, len: nat, good: nat -> nat, part: nat -> nat, n: nat, k: nat)
    requires At(off, len, good, part, n, k) && n < len
    requires var n1 := Least(len - n, CHUNK); off + n + n1 <= 274432 && Copied(off + n, n1, good(k)) >= n1
    ensures At(off, len, good, part, n + Least(len - n, CHUNK), k + 1)
  {
    hide Reach, Last, Copied;
    ReachStep(off + n, len - n, good, part, k);
  }

  /** Where filewrite() stops: where a copy fails, or beyond the file, which had size0 bytes, on a full disk. */
  ghost predicate FileStops(size0: nat, off: nat, n: nat,
                            good: nat -> nat, part: nat -> nat, w: nat, p: nat, full: bool) {
    var g, d := Reach(off, n, good, 0), Last(off, n, good, part, 0);
    w <= g && g + d <= n && w + p <= n && ((w == g && p == d) || (p == 0 && full && off + w >= size0))
  }

  /** The operation that falls short, on a file that has size1 bytes by now. */
  lemma StopsShort(size0: nat, size1: nat, off: nat, len: nat,
                   good: nat -> nat, part: nat -> nat, n: nat, k: nat, r: nat, p: nat, full: bool)
    requires At(off, len, good, part, n, k) && n < len && size0 <= size1
    requires var n1 := Least(len - n, CHUNK);
      off + n + n1 <= 274432 && r < n1 && WriteStops(size1, off + n, n1, good(k), part(k), r, p, full)
    ensures FileStops(size0, off, len, good, part, n + r, p, full)
  {
    hide Reach, Last, Copied, Delivered, WriteStops;
    var n1 := Least(len - n, CHUNK);
    StopsIs(size1, off + n, n1, good(k), part(k), r, p, full);
    ReachIs(off, len, good, part, 0);
    ReachStep(off + n, len - n, good, part, k);
  }

  /** Nothing is left to write, or the file would be too large. */
  lemma StopsWhole(size0: nat, off: nat, len: nat, good: nat -> nat, part: nat -> nat, n: nat, k: nat, full: bool)
    requires At(off, len, good, part, n, k) && (n == len || off + n + Least(len - n, CHUNK) > 274432)
    ensures FileStops(size0, off, len, good, part, n, 0, full)
  {
    ReachIs(off, len, good, part, 0);
  }

  // ----- What the file holds -----

  /** Of src the first w bytes have been written at off, and p more as far as the size reaches. */
  ghost predicate Has(m0: Image, m: Image, i: nat, off: nat, src: seq<byte>, w: nat, p: nat) {
    && m0.Ok() && m.Ok() && m0.IsInode(i) && m.IsInode(i) && NoHoles(m0, i) && NoHoles(m, i)
    && off <= m0.inodes[i].size <= 274432 && m.inodes[i].size <= 274432 && w + p <= |src|
    && HasBytes(Contents(m0, i), off, src, w, p, Contents(m, i))
  }

  ghost predicate HasBytes(c: seq<byte>, off: nat, src: seq<byte>, w: nat, p: nat, c': seq<byte>)
    requires off <= |c| && w + p <= |src|
  {
    c' == Overwrite(c, off, src[..w + p])[..Max(|c|, off + w)]
  }

  /** How the bytes of a chunk join the n bytes written before. */
  lemma Joins(c: seq<byte>, off: nat, src: seq<byte>, n: nat, n1: nat, r: nat, p: nat, c1: seq<byte>, c2: seq<byte>)
    requires off <= |c| && r + p <= n1 && n + n1 <= |src| && HasBytes(c, off, src, n, 0, c1)
    requires off + n <= |c1| && HasBytes(c1, off + n, src[n..n + n1], r, p, c2)
    ensures HasBytes(c, off, src, n + r, p, c2)
  {
    var chunk := src[n..n + n1];
    assert src[..n + 0] == src[..n] && c1 == Overwrite(c, off, src[..n]);
    OverwriteTwice(c, off, src[..n], chunk[..r + p]);
    assert src[..n] + chunk[..r + p] == src[..n + r + p];
  }

  lemma HasNext(m0: Image, m1: Image, m: Image, i: nat, off: nat, src: seq<byte>, n: nat, n1: nat, r: nat, p: nat)
    requires Has(m0, m1, i, off, src, n, 0) && n + n1 <= |src| && Has(m1, m, i, off + n, src[n..n + n1], r, p)
    ensures Has(m0, m, i, off, src, n + r, p)
  {
    hide HasBytes, Contents, NoHoles;
    Joins(Contents(m0, i), off, src, n, n1, r, p, Contents(m1, i), Contents(m, i));
  }

  lemma HasSize(m0: Image, m: Image, i: nat, off: nat, src: seq<byte>, n: nat)
    requires Has(m0, m, i, off, src, n, 0)
    ensures m0.IsInode(i) && m.IsInode(i) && off <= m0.inodes[i].size <= m.inodes[i].size <= 274432
    ensures off + n <= m.inodes[i].size
  {
  }

  lemma HasNone(m: Image, i: nat, off: nat, src: seq<byte>)
    requires m.Ok() && m.IsInode(i) && NoHoles(m, i) && off <= m.inodes[i].size
    ensures Has(m, m, i, off, src, 0, 0)
  {
    var c := Contents(m, i);
    assert Overwrite(c, off, src[..0]) == c && c[..|c|] == c;
  }

  /** In the logged blocks just the first w bytes of src have been written. */
  ghost predicate LogHas(m0: Image, view: Image, i: nat, off: nat, src: seq<byte>, w: nat) {
    && m0.Ok() && m0.IsInode(i) && NoHoles(m0, i) && off <= m0.inodes[i].size && w <= |src|
    && ShowsLogged(m0, view, i, off, src, w)
  }

  lemma LogHasNext(m0: Image, m1: Image, view: Image, i: nat, off: nat, src: seq<byte>, n: nat, n1: nat,
                   r: nat)
    requires Has(m0, m1, i, off, src, n, 0) && n + n1 <= |src| && LogHas(m1, view, i, off + n, src[n..n + n1], r)
    ensures LogHas(m0, view, i, off, src, n + r)
  {
    hide Contents, NoHoles, HasBytes, Overwrite;
    LogJoins(Contents(m0, i), off, src, n, n1, r, Contents(m1, i));
  }

  lemma LogJoins(c: seq<byte>, off: nat, src: seq<byte>, n: nat, n1: nat, r: nat, c1: seq<byte>)
    requires off <= |c| && r <= n1 && n + n1 <= |src| && HasBytes(c, off, src, n, 0, c1)
    ensures off + n <= |c1| && Overwrite(c1, off + n, src[n..n + n1][..r]) == Overwrite(c, off, src[..n + r])
  {
    var chunk := src[n..n + n1];
    assert src[..n + 0] == src[..n] && c1 == Overwrite(c, off, src[..n]);
    OverwriteTwice(c, off, src[..n], chunk[..r]);
    assert src[..n] + chunk[..r] == src[..n + r];
  }

  lemma LogHasAll(m0: Image, m: Image, i: nat, off: nat, src: seq<byte>, n: nat)
    requires Has(m0, m, i, off, src, n, 0)
    ensures LogHas(m0, m, i, off, src, n)
  {
    assert src[..n + 0] == src[..n];
  }

  /** Every other file is as it was. */
  ghost predicate Others(m0: Image, m: Image, i: nat) {
    && m0.Ok() && m.Ok() && |m.inodes| == |m0.inodes|
    && forall j :: m0.IsInode(j) && j != i ==> NoHoles(m0, j) && NoHoles(m, j) && SameFile(m0, m, j)
  }

  lemma OthersNext(m0: Image, m1: Image, m: Image, i: nat)
    requires Others(m0, m1, i) && Others(m1, m, i)
    ensures Others(m0, m, i)
  {
    forall j | m0.IsInode(j) && j != i
      ensures NoHoles(m0, j) && NoHoles(m, j) && SameFile(m0, m, j)
    {
      assert m1.IsInode(j);
      assert SameFile(m0, m1, j) && SameFile(m1, m, j);
    }
  }

  lemma OthersNone(m: Image, own: Owners, i: nat)
    requires Sound(m, own)
    ensures Others(m, m, i)
  {
  }

  /** What writei() has done, in these terms. */
  lemma WrittenIs(m0: Image, view0: Image, m: Image, view: Image, i: nat, off: nat, src: seq<byte>,
                  good: nat, part: nat, r: nat, p: nat)
    requires Written(m0, view0, m, view, i, off, src, good, part, r, p)
    ensures WriteStops(m0.inodes[i].size, off, |src|, good, part, r, p, Full(m))
    ensures Has(m0, m, i, off, src, r, p) && Others(m0, m, i)
    ensures view0 == m0 ==> LogHas(m0, view, i, off, src, r) && (p == 0 ==> view == m)
  {
    hide Contents, WriteStops, NoStray, Copied, Delivered, Overwrite, Addr, SameFile, Full;
    StopsIs(m0.inodes[i].size, off, |src|, good, part, r, p, Full(m));
    assert NoHoles(m0, i) && NoHoles(m, i);
  }

  // ----- filewrite() -----

  /**
   What filewrite() has done when it returns. The file shows the w bytes counted
   and p that are not, as far as the size reaches; it shows just the w bytes if
   and only if what the failing copy delivers is what the file has there already.
   In the logged blocks just the w bytes show, and no other file changed.
   */
  ghost predicate FileWritten(m0: Image, view0: Image, m: Image, view: Image, i: nat, off: nat,
                              src: seq<byte>,
                              good: nat -> nat, part: nat -> nat, w: nat, p: nat) {
    && Has(m0, m, i, off, src, w, p) && Others(m0, m, i)
    && FileStops(m0.inodes[i].size, off, |src|, good, part, w, p, Full(m))
    && (Contents(m, i) == Overwrite(Contents(m0, i), off, src[..w]) <==>
          NoStray(Contents(m0, i), off, src, Reach(off, |src|, good, 0), Last(off, |src|, good, part, 0)))
    && (view0 == m0 ==> LogHas(m0, view, i, off, src, w))
  }

  lemma FileDone(m0: Image, view0: Image, m: Image, view: Image, i: nat, off: nat, src: seq<byte>,
                 good: nat -> nat, part: nat -> nat, w: nat, p: nat)
    requires Has(m0, m, i, off, src, w, p) && Others(m0, m, i)
    requires view0 == m0 ==> LogHas(m0, view, i, off, src, w)
    requires FileStops(m0.inodes[i].size, off, |src|, good, part, w, p, Full(m))
    ensures FileWritten(m0, view0, m, view, i, off, src, good, part, w, p)
  {
    hide Contents, NoHoles, Others, LogHas, Reach, Last, Overwrite, NoStray;
    StrayIff(Contents(m0, i), off, src, Reach(off, |src|, good, 0), Last(off, |src|, good, part, 0), w, p);
  }

  /**
   Write src at the file offset off; in operation k the first good(k) copies
   from the writer succeed and the next delivers part(k) bytes before it fails.
   w bytes are counted, and the offset moves by w; the result is |src| exactly if
   all are. No operation logs more than 7 distinct blocks.
   */
  method Filewrite(fs: FileSystem, i: nat, off: nat, src: seq<byte>, good: nat -> nat, part: nat -> nat)
    returns (ret: int, off': nat, ghost w: nat, ghost p: nat, ghost ops: seq<set<nat>>)
    requires fs.Valid() && fs.m.IsInode(i) && off < 0x1_0000_0000 && |src| < 0x8000_0000 && fs.sb.size <= BPB
    modifies fs
    ensures fs.Valid() && |fs.m.inodes| == |old(fs.m).inodes| && OpsFit(ops, 7)
    ensures w <= |src| && off' == off + w && ret == if w == |src| then |src| else -1
    ensures off > old(fs.m).inodes[i].size ==> w == p == 0 && fs.m == old(fs.m) && fs.view == old(fs.view)
    ensures off <= old(fs.m).inodes[i].size ==>
      FileWritten(old(fs.m), old(fs.view), fs.m, fs.view, i, off, src, good, part, w, p)
  {
    hide *;
    InodeIs(fs.m, i);
    ChunkIs();
    ghost var m0, view0 := fs.m, fs.view;
    ghost var inside := off <= m0.inodes[i].size;
    fs.IsSound();
    if inside {
      FileBegins(m0, fs.own, i, off, src);
    }
    FileAt(off, |src|, good, part);
    off', w, p, ops := off, 0, 0, [];
    var n: nat, turn: nat := 0, 0;
    while n < |src|
      invariant w == n <= |src| && p == 0 && off' == off + n && OpsFit(ops, 7)
      invariant fs.Valid() && |fs.m.inodes| == |m0.inodes| && fs.m.IsInode(i)
      invariant !inside ==> n == 0 && fs.m == m0 && fs.view == view0
      invariant inside ==>
        Has(m0, fs.m, i, off, src, n, 0) && Others(m0, fs.m, i) && At(off, |src|, good, part, n, turn)
      invariant inside && view0 == m0 ==> fs.view == fs.m
      decreases |src| - n
    {
      var n1 := Least(|src| - n, CHUNK);
      ghost var m1, view1 := fs.m, fs.view;
      if inside {
        HasSize(m0, m1, i, off, src, n);
      }
      var r;
      ghost var op;
      r, p, op := WriteOp(fs, i, off', src[n..n + n1], good(turn), part(turn));
      InodeIs(fs.m, i);
      OpsMore(ops, op);
      ops := ops + [op];
      if inside {
        if r == -1 {
          Turned(m0, view0, fs.m, fs.view, i, off, src, good, part, n, turn);
        } else {
          WrittenFits(m1, view1, fs.m, fs.view, i, off + n, src[n..n + n1], good(turn), part(turn), r, p);
          if r == n1 {
            TurnWhole(m0, view0, m1, view1, fs.m, fs.view, i, off, src, good, part, n, turn, p);
          } else {
            TurnShort(m0, view0, m1, view1, fs.m, fs.view, i, off, src, good, part, n, turn, r, p);
          }
        }
      }
      if r > 0 {
        off' := off' + r;
      }
      w := if r > 0 then n + r else n;
      if r != n1 {
        break;
      }
      n := n + n1;
      turn := turn + 1;
    }
    if inside && n == |src| {
      Turned(m0, view0, fs.m, fs.view, i, off, src, good, part, n, turn);
    }
    ret := if n == |src| then |src| else -1;
  }

  lemma InodeIs(m: Image, i: nat)
    ensures m.IsInode(i) <==> i < |m.inodes|
  {
  }

  lemma ChunkIs()
    ensures CHUNK == 3072
  {
  }

  lemma FileBegins(m: Image, own: Owners, i: nat, off: nat, src: seq<byte>)
    requires Sound(m, own) && m.IsInode(i) && off <= m.inodes[i].size
    ensures Has(m, m, i, off, src, 0, 0) && Others(m, m, i)
  {
    assert NoHoles(m, i);
    HasNone(m, i, off, src);
    OthersNone(m, own, i);
  }

  lemma FileAt(off: nat, n: nat, good: nat -> nat, part: nat -> nat)
    ensures At(off, n, good, part, 0, 0) && OpsFit([], 7)
  {
  }

  /** filewrite() after its loop has run to the end, or met a file that is too large. */
  lemma Turned(m0: Image, view0: Image, m: Image, view: Image, i: nat, off: nat, src: seq<byte>,
               good: nat -> nat, part: nat -> nat, n: nat, k: nat)
    requires Has(m0, m, i, off, src, n, 0) && Others(m0, m, i) && At(off, |src|, good, part, n, k) && n <= |src|
    requires (view0 == m0 ==> view == m) && (n == |src| || off + n + Least(|src| - n, CHUNK) > 274432)
    ensures FileWritten(m0, view0, m, view, i, off, src, good, part, n, 0)
  {
    assert m0.IsInode(i);
    hide Has, Others, At, FileWritten, LogHas, Full, FileStops;
    StopsWhole(m0.inodes[i].size, off, |src|, good, part, n, k, Full(m));
    LogHasAll(m0, m, i, off, src, n);
    FileDone(m0, view0, m, view, i, off, src, good, part, n, 0);
  }

  lemma WrittenFits(m1: Image, view1: Image, m: Image, view: Image, i: nat, off: nat, src: seq<byte>,
                    good: nat, part: nat, r: nat, p: nat)
    requires Written(m1, view1, m, view, i, off, src, good, part, r, p)
    ensures r + p <= |src| && m1.IsInode(i)
  {
  }

  /** An operation of filewrite() that wrote its whole chunk. */
  lemma TurnWhole(m0: Image, view0: Image, m1: Image, view1: Image, m: Image, view: Image,
                  i: nat, off: nat, src: seq<byte>, good: nat -> nat, part: nat -> nat, n: nat, k: nat, p: nat)
    requires Has(m0, m1, i, off, src, n, 0) && Others(m0, m1, i) && At(off, |src|, good, part, n, k) && n < |src|
    requires view0 == m0 ==> view1 == m1
    requires var n1 := Least(|src| - n, CHUNK);
      off + n + n1 <= 274432 && Written(m1, view1, m, view, i, off + n, src[n..n + n1], good(k), part(k), n1, p)
    ensures var n1 := Least(|src| - n, CHUNK);
      && p == 0 && Has(m0, m, i, off, src, n + n1, 0) && Others(m0, m, i) && At(off, |src|, good, part, n + n1, k + 1)
      && (view0 == m0 ==> view == m)
  {
    hide *;
    var n1 := Least(|src| - n, CHUNK);
    WrittenFits(m1, view1, m, view, i, off + n, src[n..n + n1], good(k), part(k), n1, p);
    WrittenIs(m1, view1, m, view, i, off + n, src[n..n + n1], good(k), part(k), n1, p);
    StopsIs(m1.inodes[i].size, off + n, n1, good(k), part(k), n1, p, Full(m));
    HasNext(m0, m1, m, i, off, src, n, n1, n1, p);
    OthersNext(m0, m1, m, i);
    AtNext(off, |src|, good, part, n, k);
  }

  /** An operation of filewrite() that wrote less. */
  lemma TurnShort(m0: Image, view0: Image, m1: Image, view1: Image, m: Image, view: Image,
                  i: nat, off: nat, src: seq<byte>, good: nat -> nat, part: nat -> nat, n: nat, k: nat, r: nat, p: nat)
    requires Has(m0, m1, i, off, src, n, 0) && Others(m0, m1, i) && At(off, |src|, good, part, n, k) && n < |src|
    requires view0 == m0 ==> view1 == m1
    requires var n1 := Least(|src| - n, CHUNK);
      && off + n + n1 <= 274432 && r < n1
      && Written(m1, view1, m, view, i, off + n, src[n..n + n1], good(k), part(k), r, p)
    ensures FileWritten(m0, view0, m, view, i, off, src, good, part, n + r, p)
  {
    hide *;
    var n1 := Least(|src| - n, CHUNK);
    HasSize(m0, m1, i, off, src, n);
    WrittenFits(m1, view1, m, view, i, off + n, src[n..n + n1], good(k), part(k), r, p);
    WrittenIs(m1, view1, m, view, i, off + n, src[n..n + n1], good(k), part(k), r, p);
    HasNext(m0, m1, m, i, off, src, n, n1, r, p);
    OthersNext(m0, m1, m, i);
    StopsShort(m0.inodes[i].size, m1.inodes[i].size, off, |src|, good, part, n, k, r, p, Full(m));
    if view0 == m0 {
      LogHasNext(m0, m1, view, i, off, src, n, n1, r);
    }
    FileDone(m0, view0, m, view, i, off, src, good, part, n + r, p);
  }

  lemma OpsMore(ops: seq<set<nat>>, op: set<nat>)
    requires OpsFit(ops, 7) && |op| <= 7
    ensures OpsFit(ops + [op], 7)
  {
  }

  /** With every copy good, a file that is not too large and a disk that is not full, all of src is written. */
  lemma AllWritten(m0: Image, view0: Image, m: Image, view: Image, i: nat, off: nat, src: seq<byte>,
                   good: nat -> nat, part: nat -> nat, w: nat, p: nat)
    requires FileWritten(m0, view0, m, view, i, off, src, good, part, w, p)
    requires (forall k: nat :: good(k) >= 4) && off + |src| <= 274432 && !Full(m)
    ensures w == |src| && Contents(m, i) == Overwrite(Contents(m0, i), off, src)
  {
    hide Contents, NoHoles, Others, LogHas, NoStray;
    AllReached(off, |src|, good, 0);
    assert src[..|src|] == src;
  }

  /**
   A write that fails and shows: two bytes for the start of a file of at least
   two, from a buffer whose second byte is not mapped. The first byte is
   delivered, write() returns -1, and the next read() sees that byte.
   */
  method FailedWriteShows(fs: FileSystem, i: nat, src: seq<byte>) returns (ret: int, r: int, dst: seq<byte>)
    requires fs.Valid() && fs.m.IsInode(i) && fs.m.inodes[i].size >= 2 && |src| == 2 && fs.sb.size <= BPB
    modifies fs
    ensures fs.Valid() && ret == -1 && r == 1 && dst == src[..1]
  {
    fs.IsSound();
    ghost var m0, view0 := fs.m, fs.view;
    InodeIs(m0, i);
    var off;
    ghost var w, p, ops;
    ret, off, w, p, ops := Filewrite(fs, i, 0, src, _ => 0, _ => 1);
    FailedWrite(m0, view0, fs.m, fs.view, i, src, w, p);
    hide *;
    InodeIs(fs.m, i);
    r, dst := fs.Readi(i, 0, 1, 1, 0);
    ReadsOne(fs, i, src, dst);
  }

  lemma ReadsOne(fs: FileSystem, i: nat, src: seq<byte>, dst: seq<byte>)
    requires fs.m.Ok() && fs.m.IsInode(i) && 2 <= fs.m.inodes[i].size <= 274432 && |src| == 2
    requires Contents(fs.m, i)[0] == src[0]
    ensures BlocksTouched(0, 1) == 1
    ensures fs.Reading(i, 0, Copied(0, 1, 1) + Delivered(0, 1, 1, 0), dst) ==> dst == src[..1]
  {
    hide Contents;
  }

  lemma FailedWrite(m0: Image, view0: Image, m: Image, view: Image, i: nat, src: seq<byte>, w: nat, p: nat)
    requires |src| == 2 && FileWritten(m0, view0, m, view, i, 0, src, _ => 0, _ => 1, w, p)
    requires m0.IsInode(i) && m0.inodes[i].size >= 2
    ensures w == 0 && m.Ok() && m.IsInode(i) && 2 <= m.inodes[i].size <= 274432 && Contents(m, i)[0] == src[0]
  {
    assert Reach(0, 2, _ => 0, 0) == 0 && Last(0, 2, _ => 0, _ => 1, 0) == 1;
    hide Contents, NoHoles, Others, LogHas, NoStray, Reach, Last;
    assert w == 0 && p == 1;
  }
}
