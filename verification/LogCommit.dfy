/**
 commit() and recover_from_log() of kernel/log.c as the block writes they issue.
 A crash can expose the disk between any two of these writes, so the predicates
 below describe the disk after every number of writes, and a device class keeps
 the list of all images the disk went through.
 */
module LogCommit {
  import opened LogFormat

  datatype Write = Write(b: nat, data: Block)

  /** Number of block writes commit() issues for a transaction of n blocks. */
  function CommitLength(n: nat): (r: nat) {
    if n == 0 then 0 else 2 * n + 2
  }

  /**
   The k-th write of commit(): n copies into the log, the header, n installs
   that read the copies back, and the cleared header.
   */
  function CommitWrite(l: Layout, cache: Disk, lh: seq<nat>, k: nat): (w: Write)
    requires l.Valid() && |cache| == l.total && l.HeadOk(lh) && k < CommitLength(|lh|)
    ensures w.b < l.total
  {
    var n := |lh|;
    if k < n then Write(l.Slot(k), cache[lh[k]])
    else if k == n then Write(l.start, SetHead(l, cache[l.start], lh))
    else if k <= 2 * n then Write(lh[k - n - 1], cache[l.Slot(k - n - 1)])
    else Write(l.start, SetHead(l, cache[l.start], []))
  }

  /** How many home blocks have been installed after k writes of commit(). */
  function Installs(n: nat, k: nat): (r: nat)
    requires k <= CommitLength(n)
    ensures r <= n
  {
    if k <= n then 0 else if k <= 2 * n + 1 then k - n - 1 else n
  }

  /** The cache holds the blocks of the transaction as image has them. */
  ghost predicate CacheHas(image: Disk, lh: seq<nat>, cache: Disk) {
    forall b :: b in lh ==> b < |cache| && b < |image| && cache[b] == image[b]
  }

  /**
   The disk and the buffer cache after k writes of commit(): `before` holds the
   home contents when it began, `image` the transaction's blocks as the cache has
   them. Other cached blocks may differ from the disk.
   */
  ghost predicate CommitAt(l: Layout, before: Disk, image: Disk, lh: seq<nat>, k: nat, disk: Disk, cache: Disk)
    requires l.Valid() && l.HeadOk(lh)
  {
    var n := |lh|;
    && 0 < n && k <= CommitLength(n)
    && |before| == |image| == |disk| == |cache| == l.total
    && CacheHas(image, lh, cache)
    && cache[l.start] == disk[l.start]
    && Head(disk[l.start]) == (if n < k < CommitLength(n) then lh else [])
    && CopiesAt(l, image, lh, k, disk, cache)
    && HomeAt(l, before, image, lh, Installs(n, k), disk)
  }

  ghost predicate CopiesAt(l: Layout, image: Disk, lh: seq<nat>, k: nat, disk: Disk, cache: Disk)
    requires l.Valid() && l.HeadOk(lh) && |image| == |disk| == |cache| == l.total
  {
    forall i {:trigger lh[i]} :: 0 <= i < |lh| && i < k ==>
      disk[l.Slot(i)] == image[lh[i]] && cache[l.Slot(i)] == image[lh[i]]
  }

  ghost predicate HomeAt(l: Layout, before: Disk, image: Disk, lh: seq<nat>, m: nat, disk: Disk)
    requires m <= |lh| && |image| == |before| == |disk| == l.total
  {
    forall b :: l.Home(b) ==> disk[b] == if b in lh[..m] then image[b] else before[b]
  }

  /** The home contents once the transaction lh has been installed. */
  function Installed(l: Layout, before: Disk, image: Disk, lh: seq<nat>): (d: Disk)
    requires |before| == |image| == l.total
  {
    seq(l.total, b requires 0 <= b < l.total => if b in lh then image[b] else before[b])
  }

  /** Writing a log block, or a block of the transaction with its contents. */
  lemma CacheKeeps(l: Layout, image: Disk, lh: seq<nat>, cache: Disk, w: Write)
    requires l.HeadOk(lh) && |image| == |cache| == l.total && CacheHas(image, lh, cache)
    requires w.b < l.total && (l.InLog(w.b) || w.data == image[w.b])
    ensures CacheHas(image, lh, cache[w.b := w.data])
  {
    forall b | b in lh
      ensures cache[w.b := w.data][b] == image[b]
    {
      var i :| 0 <= i < |lh| && lh[i] == b;
      assert l.Home(lh[i]);
    }
  }

  lemma CommitCopies(l: Layout, before: Disk, image: Disk, lh: seq<nat>, k: nat, disk: Disk, cache: Disk)
    requires l.Valid() && l.HeadOk(lh) && k < |lh|
    requires CommitAt(l, before, image, lh, k, disk, cache)
    ensures var w := CommitWrite(l, cache, lh, k);
      CommitAt(l, before, image, lh, k + 1, disk[w.b := w.data], cache[w.b := w.data])
  {
    var w := CommitWrite(l, cache, lh, k);
    assert l.Home(lh[k]);
    CacheKeeps(l, image, lh, cache, w);
    assert HomeAt(l, before, image, lh, 0, disk[w.b := w.data]);
  }

  /** Writing outside the log's data blocks leaves the copies alone. */
  lemma CopiesFrame(l: Layout, image: Disk, lh: seq<nat>, k: nat, disk: Disk, cache: Disk, w: Write)
    requires l.Valid() && l.HeadOk(lh) && |image| == |disk| == |cache| == l.total
    requires w.b < l.total && !(l.start < w.b <= l.start + |lh|)
    requires CopiesAt(l, image, lh, k, disk, cache)
    ensures CopiesAt(l, image, lh, k, disk[w.b := w.data], cache[w.b := w.data])
  {
  }

  lemma CommitWritesHead(l: Layout, before: Disk, image: Disk, lh: seq<nat>, k: nat, disk: Disk, cache: Disk)
    requires l.Valid() && l.HeadOk(lh) && k == |lh|
    requires CommitAt(l, before, image, lh, k, disk, cache)
    ensures var w := CommitWrite(l, cache, lh, k);
      CommitAt(l, before, image, lh, k + 1, disk[w.b := w.data], cache[w.b := w.data])
  {
    HeadRoundTrip(l, cache[l.start], lh);
    var w := CommitWrite(l, cache, lh, k);
    CacheKeeps(l, image, lh, cache, w);
    assert HomeAt(l, before, image, lh, 0, disk[w.b := w.data]);
    CopiesFrame(l, image, lh, k, disk, cache, w);
  }

  lemma CommitClearsHead(l: Layout, before: Disk, image: Disk, lh: seq<nat>, k: nat, disk: Disk, cache: Disk)
    requires l.Valid() && l.HeadOk(lh) && k == 2 * |lh| + 1
    requires CommitAt(l, before, image, lh, k, disk, cache)
    ensures var w := CommitWrite(l, cache, lh, k);
      CommitAt(l, before, image, lh, k + 1, disk[w.b := w.data], cache[w.b := w.data])
  {
    HeadRoundTrip(l, cache[l.start], []);
    var w := CommitWrite(l, cache, lh, k);
    CacheKeeps(l, image, lh, cache, w);
    assert HomeAt(l, before, image, lh, |lh|, disk[w.b := w.data]);
    CopiesFrame(l, image, lh, k, disk, cache, w);
  }

  lemma CommitInstalls(l: Layout, before: Disk, image: Disk, lh: seq<nat>, k: nat, disk: Disk, cache: Disk)
    requires l.Valid() && l.HeadOk(lh) && |lh| < k <= 2 * |lh|
    requires CommitAt(l, before, image, lh, k, disk, cache)
    ensures var w := CommitWrite(l, cache, lh, k);
      CommitAt(l, before, image, lh, k + 1, disk[w.b := w.data], cache[w.b := w.data])
  {
    var w := CommitWrite(l, cache, lh, k);
    var m := k - |lh| - 1;
    assert l.Home(lh[m]) && w.b == lh[m];
    assert w.data == image[w.b] by {
      assert cache[l.Slot(m)] == image[lh[m]];
    }
    HomeInstall(l, before, image, lh, m, disk);
    CacheKeeps(l, image, lh, cache, w);
    CopiesFrame(l, image, lh, k, disk, cache, w);
  }

  lemma HomeInstall(l: Layout, before: Disk, image: Disk, lh: seq<nat>, m: nat, disk: Disk)
    requires m < |lh| && |image| == |before| == |disk| == l.total && lh[m] < l.total
    requires HomeAt(l, before, image, lh, m, disk)
    ensures HomeAt(l, before, image, lh, m + 1, disk[lh[m] := image[lh[m]]])
  {
    assert lh[..m + 1] == lh[..m] + [lh[m]];
  }

  /** Every write of commit() moves the disk one step along CommitAt. */
  lemma CommitAdvances(l: Layout, before: Disk, image: Disk, lh: seq<nat>, k: nat, disk: Disk, cache: Disk)
    requires l.Valid() && l.HeadOk(lh) && k < CommitLength(|lh|)
    requires CommitAt(l, before, image, lh, k, disk, cache)
    ensures var w := CommitWrite(l, cache, lh, k);
      CommitAt(l, before, image, lh, k + 1, disk[w.b := w.data], cache[w.b := w.data])
  {
    if k < |lh| {
      CommitCopies(l, before, image, lh, k, disk, cache);
    } else if k == |lh| {
      CommitWritesHead(l, before, image, lh, k, disk, cache);
    } else if k == 2 * |lh| + 1 {
      CommitClearsHead(l, before, image, lh, k, disk, cache);
    } else {
      CommitInstalls(l, before, image, lh, k, disk, cache);
    }
  }

  /** Before the header names the transaction, recovery leaves the old contents. */
  lemma AtomicBeforeHead(l: Layout, before: Disk, image: Disk, lh: seq<nat>, k: nat, disk: Disk, cache: Disk)
    requires l.Valid() && l.HeadOk(lh) && k <= |lh|
    requires CommitAt(l, before, image, lh, k, disk, cache)
    ensures RecoversTo(l, disk, before)
  {
    assert Head(disk[l.start]) == [];
  }

  /** While the header names the transaction, recovery completes it. */
  lemma AtomicUnderHead(l: Layout, before: Disk, image: Disk, lh: seq<nat>, k: nat, disk: Disk, cache: Disk)
    requires l.Valid() && l.HeadOk(lh) && |lh| < k < CommitLength(|lh|)
    requires CommitAt(l, before, image, lh, k, disk, cache)
    ensures RecoversTo(l, disk, Installed(l, before, image, lh))
  {
    var home := Installed(l, before, image, lh);
    assert Head(disk[l.start]) == lh;
    forall i | 0 <= i < |lh|
      ensures disk[l.Slot(i)] == home[lh[i]]
    {
      assert l.Home(lh[i]);
    }
    forall b | l.Home(b) && b !in lh
      ensures disk[b] == home[b]
    {
      assert b !in lh[..Installs(|lh|, k)];
    }
  }

  /** After the header is cleared, every home block is in place. */
  lemma AtomicAfterClear(l: Layout, before: Disk, image: Disk, lh: seq<nat>, disk: Disk, cache: Disk)
    requires l.Valid() && l.HeadOk(lh)
    requires CommitAt(l, before, image, lh, 2 * |lh| + 2, disk, cache)
    ensures RecoversTo(l, disk, Installed(l, before, image, lh))
    ensures SameHome(l, disk, Installed(l, before, image, lh))
  {
    var home := Installed(l, before, image, lh);
    assert Head(disk[l.start]) == [];
    assert lh[..|lh|] == lh;
    forall b | l.Home(b)
      ensures disk[b] == home[b]
    {
    }
  }

  /**
   Crash atomicity of commit(): the image after any number of its writes
   recovers to the old contents until the header is written, and to the new
   contents from then on. There is no third outcome.
   */
  lemma CommitIsAtomic(l: Layout, before: Disk, image: Disk, lh: seq<nat>, k: nat, disk: Disk, cache: Disk)
    requires l.Valid() && l.HeadOk(lh)
    requires CommitAt(l, before, image, lh, k, disk, cache)
    ensures RecoversTo(l, disk, if k <= |lh| then before else Installed(l, before, image, lh))
  {
    if k <= |lh| {
      AtomicBeforeHead(l, before, image, lh, k, disk, cache);
    } else if k < CommitLength(|lh|) {
      AtomicUnderHead(l, before, image, lh, k, disk, cache);
    } else {
      AtomicAfterClear(l, before, image, lh, disk, cache);
    }
  }

  // Recovery.

  /** The k-th write of recover_from_log(): n installs and the cleared header. */
  function RecoverWrite(l: Layout, disk: Disk, lh: seq<nat>, k: nat): (w: Write)
    requires l.Valid() && |disk| == l.total && l.HeadOk(lh) && k <= |lh|
    ensures w.b < l.total
  {
    if k < |lh| then Write(lh[k], disk[l.Slot(k)]) else Write(l.start, SetHead(l, disk[l.start], []))
  }

  /** The disk after k writes of a recovery that is to produce `home` from header lh. */
  ghost predicate RecoverAt(l: Layout, home: Disk, lh: seq<nat>, k: nat, disk: Disk)
    requires l.Valid()
  {
    && l.HeadOk(lh) && k <= |lh| + 1
    && RecoversTo(l, disk, home)
    && Head(disk[l.start]) == (if k <= |lh| then lh else [])
    && (forall b :: l.Home(b) && (b !in lh || b in lh[..if k <= |lh| then k else |lh|]) ==> disk[b] == home[b])
  }

  /** Installing one block from its copy does not change what recovery produces. */
  lemma InstallKeepsRecovery(l: Layout, d: Disk, home: Disk, i: nat)
    requires l.Valid() && RecoversTo(l, d, home) && i < |Head(d[l.start])|
    ensures var lh := Head(d[l.start]);
      && d[l.Slot(i)] == home[lh[i]]
      && RecoversTo(l, d[lh[i] := d[l.Slot(i)]], home)
  {
    var lh := Head(d[l.start]);
    var e := d[lh[i] := d[l.Slot(i)]];
    assert l.Home(lh[i]);
    assert e[l.start] == d[l.start];
    forall j | 0 <= j < |lh|
      ensures e[l.Slot(j)] == home[lh[j]]
    {
      assert d[l.Slot(j)] == home[lh[j]];
    }
    forall b | l.Home(b) && b !in lh
      ensures e[b] == home[b]
    {
      assert d[b] == home[b];
    }
  }

  /** Clearing the header of a fully installed image does not change it either. */
  lemma ClearKeepsRecovery(l: Layout, d: Disk, home: Disk, b: Block)
    requires l.Valid() && SameHome(l, d, home)
    ensures RecoversTo(l, d[l.start := SetHead(l, b, [])], home)
    ensures Head(SetHead(l, b, [])) == []
  {
    HeadRoundTrip(l, b, []);
  }

  /** Writing log blocks under an empty header is invisible to recovery. */
  lemma CopyKeepsRecovery(l: Layout, d: Disk, home: Disk, b: nat, data: Block)
    requires l.Valid() && RecoversTo(l, d, home) && Head(d[l.start]) == []
    requires l.InLog(b) && b != l.start
    ensures RecoversTo(l, d[b := data], home)
  {
  }

  lemma RecoverInstalls(l: Layout, home: Disk, lh: seq<nat>, k: nat, disk: Disk)
    requires l.Valid() && RecoverAt(l, home, lh, k, disk) && k < |lh|
    ensures RecoverAt(l, home, lh, k + 1, disk[lh[k] := disk[l.Slot(k)]])
  {
    InstallKeepsRecovery(l, disk, home, k);
    var e := disk[lh[k] := disk[l.Slot(k)]];
    assert l.Home(lh[k]) && e[l.start] == disk[l.start];
    forall b | l.Home(b) && (b !in lh || b in lh[..k + 1])
      ensures e[b] == home[b]
    {
      if b != lh[k] {
        assert b !in lh || b in lh[..k];
      }
    }
  }

  lemma RecoverClears(l: Layout, home: Disk, lh: seq<nat>, disk: Disk)
    requires l.Valid() && RecoverAt(l, home, lh, |lh|, disk)
    ensures RecoverAt(l, home, lh, |lh| + 1, disk[l.start := SetHead(l, disk[l.start], [])])
  {
    assert lh[..|lh|] == lh;
    assert SameHome(l, disk, home);
    ClearKeepsRecovery(l, disk, home, disk[l.start]);
  }

  /** Every write of recovery moves the disk one step along RecoverAt. */
  lemma RecoverAdvances(l: Layout, home: Disk, lh: seq<nat>, k: nat, disk: Disk)
    requires l.Valid() && RecoverAt(l, home, lh, k, disk) && k <= |lh|
    ensures var w := RecoverWrite(l, disk, lh, k);
      RecoverAt(l, home, lh, k + 1, disk[w.b := w.data])
  {
    if k < |lh| {
      RecoverInstalls(l, home, lh, k, disk);
    } else {
      RecoverClears(l, home, lh, disk);
    }
  }

  lemma RecoverBegins(l: Layout, home: Disk, disk: Disk)
    requires l.Valid() && RecoversTo(l, disk, home)
    ensures RecoverAt(l, home, Head(disk[l.start]), 0, disk)
  {
  }

  /** A recovery that ran to its end leaves the home contents and an empty log. */
  lemma RecoverEnds(l: Layout, home: Disk, lh: seq<nat>, disk: Disk)
    requires l.Valid() && RecoverAt(l, home, lh, |lh| + 1, disk)
    ensures SameHome(l, disk, home) && Head(disk[l.start]) == []
  {
    assert lh[..|lh|] == lh;
  }
}
