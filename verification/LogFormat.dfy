/**
 The on-disk redo log of kernel/log.c: how the header block is laid out, which
 blocks belong to the log and which are home blocks, and what it means for a
 disk image to be recoverable to a given set of home contents.
 */
module LogFormat {

  const MAXOPBLOCKS: nat := 10
  const LOGSIZE: nat := MAXOPBLOCKS * 3

  // BSIZE / sizeof(int): a block is seen as little-endian 32-bit words.
  const BLOCK_WORDS: nat := 256

  type Word = w: int | 0 <= w < 0x1_0000_0000
  type WordArray = b: seq<Word> | |b| == BLOCK_WORDS witness seq(BLOCK_WORDS, _ => 0)

  /** The contents of one disk block. */
  datatype Block = Block(words: WordArray)

  type Disk = seq<Block>

  /** log.start and log.size from the superblock, and the size of the disk. */
  datatype Layout = Layout(start: nat, size: nat, total: nat) {
    predicate Valid() {
      && 1 <= size
      && start + size <= total < 0x1_0000_0000
    }

    predicate InLog(b: int) {
      start <= b < start + size
    }

    predicate Home(b: int) {
      0 <= b < total && !InLog(b)
    }

    /** The log block that holds the copy of the i-th block of a transaction. */
    function Slot(i: int): int {
      start + 1 + i
    }

    /** A list of block numbers that fits in the header and in the log. */
    predicate HeadOk(lh: seq<nat>) {
      && |lh| <= LOGSIZE
      && |lh| < size
      && forall i :: 0 <= i < |lh| ==> Home(lh[i])
    }
  }

  /** The block list that read_head takes out of a header block. */
  function Head(b: Block): (lh: seq<nat>)
  {
    if b.words[0] <= LOGSIZE then Words(b.words, b.words[0]) else []
  }

  /** Words 1 to n of a block: the loop of read_head. */
  function Words(b: WordArray, n: nat): (lh: seq<nat>)
    requires n <= LOGSIZE
    ensures |lh| == n
  {
    if n == 0 then [] else Words(b, n - 1) + [b[n]]
  }

  /** What write_head stores: only n and the first n entries are overwritten. */
  function SetHead(l: Layout, b: Block, lh: seq<nat>): (r: Block)
    requires l.Valid() && l.HeadOk(lh)
  {
    Block(SetWords(l, b.words[0 := |lh|], lh, |lh|))
  }

  /** The loop of write_head: words 1 to n are overwritten with lh. */
  function SetWords(l: Layout, b: WordArray, lh: seq<nat>, n: nat): (r: WordArray)
    requires l.Valid() && l.HeadOk(lh) && n <= |lh|
    ensures r[0] == b[0]
  {
    if n == 0 then b else SetWords(l, b, lh, n - 1)[n := lh[n - 1]]
  }

  lemma {:induction false} WordsUnchanged(b: WordArray, k: nat, w: Word, n: nat)
    requires n < k < BLOCK_WORDS && n <= LOGSIZE
    ensures Words(b[k := w], n) == Words(b, n)
  {
    if n > 0 {
      WordsUnchanged(b, k, w, n - 1);
    }
  }

  lemma {:induction false} WordsRoundTrip(l: Layout, b: WordArray, lh: seq<nat>, n: nat)
    requires l.Valid() && l.HeadOk(lh) && n <= |lh|
    ensures Words(SetWords(l, b, lh, n), n) == lh[..n]
  {
    if n > 0 {
      WordsRoundTrip(l, b, lh, n - 1);
      WordsUnchanged(SetWords(l, b, lh, n - 1), n, lh[n - 1], n - 1);
      assert lh[..n] == lh[..n - 1] + [lh[n - 1]];
    }
  }

  /** A header that was written is read back exactly, whatever was in the block before. */
  lemma HeadRoundTrip(l: Layout, b: Block, lh: seq<nat>)
    requires l.Valid() && l.HeadOk(lh)
    ensures Head(SetHead(l, b, lh)) == lh
  {
    WordsRoundTrip(l, b.words[0 := |lh|], lh, |lh|);
    assert lh[..|lh|] == lh;
  }

  /** Two images agree on every home block. */
  ghost predicate SameHome(l: Layout, a: Disk, b: Disk) {
    && |a| == |b| == l.total
    && forall i :: l.Home(i) ==> a[i] == b[i]
  }

  /**
   Recovery from image d, run to its end, produces the home contents `home`:
   every block named by the header has its copy in the log, and every other
   home block is already in place.
   */
  ghost predicate RecoversTo(l: Layout, d: Disk, home: Disk)
    requires l.Valid()
  {
    && |d| == |home| == l.total
    && var lh := Head(d[l.start]);
    && l.HeadOk(lh)
    && (forall i {:trigger lh[i]} :: 0 <= i < |lh| ==> d[l.Slot(i)] == home[lh[i]])
    && (forall b :: l.Home(b) && b !in lh ==> d[b] == home[b])
  }

  /** The image that recovers to given home contents is never ambiguous. */
  lemma RecoversToUnique(l: Layout, d: Disk, h1: Disk, h2: Disk)
    requires l.Valid() && RecoversTo(l, d, h1) && RecoversTo(l, d, h2)
    ensures SameHome(l, h1, h2)
  {
    var lh := Head(d[l.start]);
    forall b | l.Home(b)
      ensures h1[b] == h2[b]
    {
      if b in lh {
        var i :| 0 <= i < |lh| && lh[i] == b;
        assert d[l.Slot(i)] == h1[lh[i]] == h2[lh[i]];
      }
    }
  }
}
