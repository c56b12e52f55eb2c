/**
 The code of kernel/log.c on its state: the in-memory header, the counters, the
 buffer cache through which every block is read and modified, and the disk.
 `trace` lists every image the disk has gone through since the device was
 created, which is every image a crash could leave behind.
 */
module LogDevice {
  import opened LogFormat
  import opened LogCommit
  import opened GroupCommit

  datatype Outcome = Done | MustSleep | Panic(msg: string)

  class Log {
    const l: Layout
    var disk: Disk
    var cache: Disk
    var lh: seq<nat>
    var outstanding: int
    var committing: bool
    ghost var trace: seq<Disk>

    ghost predicate Valid()
      reads this
    {
      && l.Valid() && l.HeadOk(lh)
      && |disk| == |cache| == l.total
    }

    /** Nothing is being committed: the log on disk is empty. The cache may differ from the disk in any home block. */
    ghost predicate Quiet()
      reads this
    {
      Valid() && Head(disk[l.start]) == [] && cache[l.start] == disk[l.start]
    }

    /** A machine that has just booted from a disk image; the cache holds nothing of its own. */
    constructor (l: Layout, image: Disk)
      requires l.Valid() && |image| == l.total
      ensures this.l == l && disk == cache == image && lh == [] && trace == [image]
      ensures outstanding == 0 && !committing
    {
      this.l := l;
      disk, cache, lh, outstanding, committing := image, image, [], 0, false;
      trace := [image];
    }

    /** memmove into a locked buffer followed by bwrite: one atomic block write. */
    method Bwrite(b: nat, data: Block)
      requires Valid() && b < l.total
      modifies this`disk, this`cache, this`trace
      ensures disk == old(disk)[b := data] && cache == old(cache)[b := data]
      ensures trace == old(trace) + [disk]
    {
      disk, cache := disk[b := data], cache[b := data];
      trace := trace + [disk];
    }

    /** The blocks of the transaction, as the cache has them by now, go to the log. */
    method WriteLog(ghost home: Disk)
      requires Valid() && RecoversTo(l, disk, home) && Head(disk[l.start]) == []
      modifies this`disk, this`cache, this`trace
      ensures |disk| == |cache| == l.total
      ensures CopiesAt(l, old(cache), lh, |lh|, disk, cache)
      ensures forall b :: 0 <= b < l.total && !(l.start < b < l.start + l.size) ==>
        disk[b] == old(disk)[b] && cache[b] == old(cache)[b]
      ensures old(trace) <= trace && |trace| == |old(trace)| + |lh|
      ensures forall j :: |old(trace)| <= j < |trace| ==> RecoversTo(l, trace[j], home)
    {
      for tail := 0 to |lh|
        invariant |disk| == |cache| == l.total
        invariant CopiesAt(l, old(cache), lh, tail, disk, cache)
        invariant forall b :: 0 <= b < l.total && !(l.start < b < l.start + l.size) ==>
          disk[b] == old(disk)[b] && cache[b] == old(cache)[b]
        invariant RecoversTo(l, disk, home) && Head(disk[l.start]) == []
        invariant old(trace) <= trace && |trace| == |old(trace)| + tail
        invariant forall j :: |old(trace)| <= j < |trace| ==> RecoversTo(l, trace[j], home)
      {
        assert l.Home(lh[tail]);
        CopyKeepsRecovery(l, disk, home, l.Slot(tail), cache[lh[tail]]);
        CopiesGrow(l, old(cache), lh, tail, disk, cache);
        Bwrite(l.Slot(tail), cache[lh[tail]]);
      }
    }

    /** Write the in-memory header to disk. */
    method WriteHead()
      requires Valid()
      modifies this`disk, this`cache, this`trace
      ensures disk == old(disk)[l.start := SetHead(l, old(cache)[l.start], lh)]
      ensures cache == old(cache)[l.start := SetHead(l, old(cache)[l.start], lh)]
      ensures trace == old(trace) + [disk]
    {
      Bwrite(l.start, SetHead(l, cache[l.start], lh));
    }

    /**
     Copy committed blocks from the log to their home locations. Every image on
     the way recovers to the same contents, so the loop may be cut anywhere.
     */
    method InstallTrans(ghost home: Disk)
      requires Valid() && RecoversTo(l, disk, home) && Head(disk[l.start]) == lh
      requires CopiesAt(l, home, lh, |lh|, disk, cache)
      modifies this`disk, this`cache, this`trace
      ensures |cache| == l.total && SameHome(l, disk, home)
      ensures forall b :: l.Home(b) ==> cache[b] == if b in lh then home[b] else old(cache)[b]
      ensures disk[l.start] == old(disk)[l.start] && cache[l.start] == old(cache)[l.start]
      ensures old(trace) <= trace && |trace| == |old(trace)| + |lh|
      ensures forall j :: |old(trace)| <= j < |trace| ==> RecoversTo(l, trace[j], home)
    {
      ghost var cache0 := cache;
      for tail := 0 to |lh|
        invariant RecoverAt(l, home, lh, tail, disk) && disk[l.start] == old(disk)[l.start]
        invariant CacheAt(l, home, lh, tail, cache, cache0)
        invariant CopiesAt(l, home, lh, |lh|, disk, cache)
        invariant old(trace) <= trace && |trace| == |old(trace)| + tail
        invariant forall j :: |old(trace)| <= j < |trace| ==> RecoversTo(l, trace[j], home)
      {
        InstallStep(l, home, lh, tail, disk, cache, cache0);
        Bwrite(lh[tail], cache[l.Slot(tail)]);
      }
      assert lh[..|lh|] == lh;
    }

    /** The end of commit() and of recovery: install, set n to 0, write the header. */
    method InstallAndClear(ghost home: Disk)
      requires Valid() && RecoversTo(l, disk, home) && Head(disk[l.start]) == lh && cache[l.start] == disk[l.start]
      requires CopiesAt(l, home, lh, |lh|, disk, cache)
      modifies this`disk, this`cache, this`trace, this`lh
      ensures Quiet() && lh == [] && SameHome(l, disk, home)
      ensures forall b :: l.Home(b) ==> cache[b] == if b in old(lh) then home[b] else old(cache)[b]
      ensures old(trace) <= trace && |trace| == |old(trace)| + |old(lh)| + 1
      ensures forall j :: |old(trace)| <= j < |trace| ==> RecoversTo(l, trace[j], home)
    {
      InstallTrans(home);
      lh := [];
      ClearKeepsRecovery(l, disk, home, cache[l.start]);
      WriteHead();
    }

    /**
     Recovery at boot: whatever image the crash left, if it recovers to `home`
     then the home blocks end up being exactly `home`, the log ends up empty,
     and a crash during recovery leaves an image that recovers to `home` again.
     */
    method RecoverFromLog(ghost home: Disk)
      requires Valid() && cache == disk && RecoversTo(l, disk, home)
      modifies this
      ensures Valid() && lh == [] && SameHome(l, disk, home) && SameHome(l, cache, home) && Quiet()
      ensures old(trace) <= trace
      ensures forall j :: |old(trace)| <= j < |trace| ==> RecoversTo(l, trace[j], home)
      ensures outstanding == old(outstanding) && committing == old(committing)
    {
      lh := Head(disk[l.start]);
      InstallAndClear(home);
    }

    /** The start of commit(): copy the blocks to the log and write the header, the commit point. */
    method LogAndSeal(ghost home: Disk)
      requires Quiet() && |lh| > 0 && home == Installed(l, disk, cache, lh)
      modifies this`disk, this`cache, this`trace
      ensures Valid() && RecoversTo(l, disk, home) && Head(disk[l.start]) == lh && cache[l.start] == disk[l.start]
      ensures CopiesAt(l, home, lh, |lh|, disk, cache)
      ensures SameHome(l, cache, old(cache))
      ensures old(trace) <= trace && |trace| == |old(trace)| + |lh| + 1 && trace[|trace| - 1] == disk
      ensures forall j :: |old(trace)| <= j < |trace| - 1 ==> RecoversTo(l, trace[j], old(disk))
    {
      ghost var before, image := disk, cache;
      assert RecoversTo(l, disk, before);
      WriteLog(before);
      HeadIsCommitPoint(l, before, image, lh, disk, cache);
      WriteHead();
    }

    /**
     commit(): each of the disk images it produces recovers either to the home
     contents before or to the home contents after the transaction, the first
     |lh| of them to the former and all later ones to the latter.
     */
    method Commit()
      requires Quiet()
      modifies this`disk, this`cache, this`trace, this`lh
      ensures Quiet() && lh == []
      ensures SameHome(l, cache, old(cache))
      ensures SameHome(l, disk, Installed(l, old(disk), old(cache), old(lh)))
      ensures old(trace) <= trace && |trace| == |old(trace)| + CommitLength(|old(lh)|)
      ensures forall j :: |old(trace)| <= j < |trace| ==>
        RecoversTo(l, trace[j],
          if j - |old(trace)| < |old(lh)| then old(disk) else Installed(l, old(disk), old(cache), old(lh)))
    {
      if |lh| > 0 {
        ghost var home := Installed(l, disk, cache, lh);
        LogAndSeal(home);
        InstallAndClear(home);
      }
    }

    /** One turn of begin_op's loop: sleep, or reserve and go. */
    method TryBegin() returns (r: Outcome)
      requires Valid()
      modifies this`outstanding
      ensures r == (if MustWait(|lh|, old(outstanding), committing) then MustSleep else Done)
      ensures outstanding == old(outstanding) + (if r.Done? then 1 else 0)
    {
      if committing {
        r := MustSleep;
      } else if |lh| + (outstanding + 1) * MAXOPBLOCKS > LOGSIZE {
        r := MustSleep;
      } else {
        outstanding := outstanding + 1;
        r := Done;
      }
    }

    /**
     log_write of a locked buffer whose new contents are `data`: the header
     gains the block unless it already names it, and a panic changes nothing.
     */
    method LogWrite(b: nat, data: Block) returns (r: Outcome)
      requires Quiet() && l.Home(b)
      modifies this`cache, this`lh
      ensures r.Done? <==> !TooBig(l, |old(lh)|) && outstanding >= 1
      ensures r.Done? ==> Quiet() && cache == old(cache)[b := data] && lh == Absorb(old(lh), b)
      ensures !r.Done? ==> r.Panic? && cache == old(cache) && lh == old(lh)
    {
      if |lh| >= LOGSIZE || |lh| >= l.size - 1 {
        return Panic("too big a transaction");
      }
      if outstanding < 1 {
        return Panic("log_write outside of trans");
      }
      var i := 0;
      while i < |lh| && lh[i] != b
        invariant 0 <= i <= |lh|
        invariant forall j :: 0 <= j < i ==> lh[j] != b
      {
        i := i + 1;
      }
      if i == |lh| {
        lh := lh + [b];
      } else {
        lh := lh[i := b];
        assert lh == old(lh);
      }
      cache := cache[b := data];
      r := Done;
    }

    /** What a commit would make durable now. */
    ghost function Committed(): (d: Disk)
      requires Valid()
      reads this
    {
      Installed(l, disk, cache, lh)
    }

    /** A cached home block is changed and released without log_write. */
    method Change(b: nat, data: Block)
      requires Quiet() && l.Home(b)
      modifies this`cache
      ensures Quiet() && cache == old(cache)[b := data]
      ensures Committed() == if b in lh then old(Committed())[b := data] else old(Committed())
    {
      cache := cache[b := data];
      CommittedChange(l, disk, old(cache), lh, b, data);
    }

    /**
     end_op: the last operation out commits the blocks logged so far, as the cache
     has them, in one transaction; otherwise nothing reaches the disk.
     */
    method EndOp() returns (r: Outcome)
      requires Quiet()
      modifies this
      ensures old(committing) ==> r.Panic? && disk == old(disk) && trace == old(trace)
      ensures !old(committing) ==> r.Done? && outstanding == old(outstanding) - 1 && !committing
      ensures !old(committing) ==> Quiet() && SameHome(l, cache, old(cache))
      ensures r.Done? && outstanding != 0 ==> disk == old(disk) && lh == old(lh) && trace == old(trace)
      ensures r.Done? && outstanding == 0 ==>
        lh == [] && SameHome(l, disk, Installed(l, old(disk), old(cache), old(lh)))
      ensures old(trace) <= trace
      ensures forall j :: |old(trace)| <= j < |trace| ==>
        RecoversTo(l, trace[j],
          if j - |old(trace)| < |old(lh)| then old(disk) else Installed(l, old(disk), old(cache), old(lh)))
    {
      outstanding := outstanding - 1;
      if committing {
        return Panic("log.committing");
      }
      if outstanding == 0 {
        committing := true;
        Commit();
        committing := false;
      }
      r := Done;
    }
  }

  /** A change of the cache matters to the next commit exactly in the blocks of the header. */
  lemma CommittedChange(l: Layout, disk: Disk, cache: Disk, lh: seq<nat>, b: nat, data: Block)
    requires |disk| == |cache| == l.total && b < l.total
    ensures Installed(l, disk, cache[b := data], lh) ==
      if b in lh then Installed(l, disk, cache, lh)[b := data] else Installed(l, disk, cache, lh)
  {
  }

  /** The cache after m installs. */
  ghost predicate CacheAt(l: Layout, home: Disk, lh: seq<nat>, m: nat, cache: Disk, cache0: Disk)
  {
    && m <= |lh| && |cache| == |cache0| == |home| == l.total && l.start < l.total
    && cache[l.start] == cache0[l.start]
    && forall b :: l.Home(b) ==> cache[b] == if b in lh[..m] then home[b] else cache0[b]
  }

  /** One turn of the loop of install_trans. */
  lemma InstallStep(l: Layout, home: Disk, lh: seq<nat>, m: nat, disk: Disk, cache: Disk, cache0: Disk)
    requires l.Valid() && RecoverAt(l, home, lh, m, disk) && m < |lh|
    requires CacheAt(l, home, lh, m, cache, cache0) && CopiesAt(l, home, lh, |lh|, disk, cache)
    ensures l.Home(lh[m])
    ensures var w := Write(lh[m], cache[l.Slot(m)]);
      && w == RecoverWrite(l, disk, lh, m)
      && RecoverAt(l, home, lh, m + 1, disk[w.b := w.data])
      && CacheAt(l, home, lh, m + 1, cache[w.b := w.data], cache0)
      && CopiesAt(l, home, lh, |lh|, disk[w.b := w.data], cache[w.b := w.data])
  {
    var w := Write(lh[m], cache[l.Slot(m)]);
    assert l.Home(lh[m]);
    assert w.data == home[lh[m]] && disk[l.Slot(m)] == home[lh[m]];
    RecoverInstalls(l, home, lh, m, disk);
    CopiesFrame(l, home, lh, |lh|, disk, cache, w);
    CacheInstall(l, home, lh, m, cache, cache0);
  }

  lemma CacheInstall(l: Layout, home: Disk, lh: seq<nat>, m: nat, cache: Disk, cache0: Disk)
    requires CacheAt(l, home, lh, m, cache, cache0) && m < |lh| && lh[m] < l.total && lh[m] != l.start
    ensures CacheAt(l, home, lh, m + 1, cache[lh[m] := home[lh[m]]], cache0)
  {
    assert lh[..m + 1] == lh[..m] + [lh[m]];
  }

  lemma CopiesGrow(l: Layout, image: Disk, lh: seq<nat>, k: nat, disk: Disk, cache: Disk)
    requires l.Valid() && l.HeadOk(lh) && |image| == |disk| == |cache| == l.total && k < |lh|
    requires CopiesAt(l, image, lh, k, disk, cache)
    requires cache[lh[k]] == image[lh[k]]
    ensures CopiesAt(l, image, lh, k + 1, disk[l.Slot(k) := cache[lh[k]]], cache[l.Slot(k) := cache[lh[k]]])
  {
    assert l.Home(lh[k]);
  }

  /** Writing the header over complete copies switches recovery from `before` to the new contents. */
  lemma HeadIsCommitPoint(l: Layout, before: Disk, image: Disk, lh: seq<nat>, disk: Disk, cache: Disk)
    requires l.Valid() && l.HeadOk(lh) && |before| == |image| == |disk| == |cache| == l.total
    requires CopiesAt(l, image, lh, |lh|, disk, cache)
    requires SameHome(l, disk, before)
    ensures var b, home := SetHead(l, cache[l.start], lh), Installed(l, before, image, lh);
      && Head(b) == lh
      && RecoversTo(l, disk[l.start := b], home)
      && CopiesAt(l, home, lh, |lh|, disk[l.start := b], cache[l.start := b])
  {
    HeadRoundTrip(l, cache[l.start], lh);
    var b, home := SetHead(l, cache[l.start], lh), Installed(l, before, image, lh);
    forall i | 0 <= i < |lh|
      ensures disk[l.Slot(i)] == cache[l.Slot(i)] == home[lh[i]]
    {
      assert l.Home(lh[i]);
    }
    CopiesFrame(l, home, lh, |lh|, disk, cache, Write(l.start, b));
  }
}
