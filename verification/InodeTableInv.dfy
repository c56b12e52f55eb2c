/** What every step of the inode table keeps. */
module InodeTableInv {
  import opened ProcTypes
  import opened InodeTable

  /** References to e held by all threads. */
  function Refs(ts: seq<Thread>, e: nat): (n: nat) {
    if ts == [] then 0 else Refs(ts[..|ts| - 1], e) + ts[|ts| - 1].refs[e]
  }

  lemma {:induction false} RefsUpdate(ts: seq<Thread>, t: nat, x: Thread, e: nat)
    requires t < |ts|
    ensures Refs(ts[t := x], e) == Refs(ts, e) - ts[t].refs[e] + x.refs[e]
  {
    var n := |ts| - 1;
    if t == n {
      assert ts[t := x][..n] == ts[..n];
    } else {
      RefsUpdate(ts[..n], t, x, e);
      assert ts[t := x][..n] == ts[..n][t := x];
    }
  }

  lemma {:induction false} RefsOne(ts: seq<Thread>, t: nat, e: nat)
    requires t < |ts|
    ensures Refs(ts, e) >= ts[t].refs[e]
  {
    if t < |ts| - 1 {
      RefsOne(ts[..|ts| - 1], t, e);
    }
  }

  lemma {:induction false} RefsTwo(ts: seq<Thread>, t: nat, u: nat, e: nat)
    requires t < u < |ts|
    ensures Refs(ts, e) >= ts[t].refs[e] + ts[u].refs[e]
  {
    if u < |ts| - 1 {
      RefsTwo(ts[..|ts| - 1], t, u, e);
    } else {
      RefsOne(ts[..u], t, e);
    }
  }

  /** References to open file f, of all threads. */
  function Fds(ts: seq<Thread>, f: nat): (n: nat) {
    if ts == [] then 0 else Fds(ts[..|ts| - 1], f) + ts[|ts| - 1].fds[f]
  }

  lemma {:induction false} FdsUpdate(ts: seq<Thread>, t: nat, x: Thread, f: nat)
    requires t < |ts|
    ensures Fds(ts[t := x], f) == Fds(ts, f) - ts[t].fds[f] + x.fds[f]
  {
    var n := |ts| - 1;
    if t == n {
      assert ts[t := x][..n] == ts[..n];
    } else {
      FdsUpdate(ts[..n], t, x, f);
      assert ts[t := x][..n] == ts[..n][t := x];
    }
  }

  lemma {:induction false} FdsOne(ts: seq<Thread>, t: nat, f: nat)
    requires t < |ts|
    ensures Fds(ts, f) >= ts[t].fds[f]
  {
    if t < |ts| - 1 {
      FdsOne(ts[..|ts| - 1], t, f);
    }
  }

  /** References to e kept by open files. */
  function FileRefs(fs: seq<File>, e: nat): (n: nat) {
    if fs == [] then 0 else FileRefs(fs[..|fs| - 1], e) + (if fs[|fs| - 1].ip == Some(e) then 1 else 0)
  }

  lemma {:induction false} FileRefsUpdate(fs: seq<File>, f: nat, x: File, e: nat)
    requires f < |fs|
    ensures FileRefs(fs[f := x], e) ==
      FileRefs(fs, e) - (if fs[f].ip == Some(e) then 1 else 0) + (if x.ip == Some(e) then 1 else 0)
  {
    var n := |fs| - 1;
    if f == n {
      assert fs[f := x][..n] == fs[..n];
    } else {
      FileRefsUpdate(fs[..n], f, x, e);
      assert fs[f := x][..n] == fs[..n][f := x];
    }
  }

  lemma {:induction false} FileRefsOne(fs: seq<File>, f: nat, e: nat)
    requires f < |fs| && fs[f].ip == Some(e)
    ensures FileRefs(fs, e) > 0
  {
    if f < |fs| - 1 {
      FileRefsOne(fs[..|fs| - 1], f, e);
    }
  }

  /** How far the holder of e's lock has freed it; 0 if it is not being freed. */
  function Stage(s: State, e: nat): (k: nat)
    requires s.IsInode(e)
  {
    var l := s.inodes[e].lock;
    if l.Some? && s.IsThread(l.value) && s.threads[l.value].pc.Freeing? && s.threads[l.value].pc.e == e
    then s.threads[l.value].pc.stage else 0
  }

  /**
   A referenced entry agrees with the disk, unless its holder has changed it or is
   freeing it. What is being freed has no links, and no content once truncated.
   */
  predicate Content(s: State, e: nat)
    requires s.IsInode(e)
  {
    var x, k := s.inodes[e], Stage(s, e);
    && x.key in s.disk
    && (x.valid && k <= 2 ==> x.d.kind != 0 && s.disk[x.key].kind != 0 && (!x.dirty ==> x.d == s.disk[x.key]))
    && (x.valid && k == 3 ==> x.d.kind == 0 && s.disk[x.key].kind != 0)
    && (1 <= k <= 3 ==> x.d.nlink == 0 && s.disk[x.key].nlink == 0)
    && (2 <= k <= 3 ==> x.d.content == 0 && s.disk[x.key].content == 0)
  }

  ghost predicate InodeOk(s: State, e: nat)
    requires s.IsInode(e)
  {
    var x := s.inodes[e];
    && x.ref == Refs(s.threads, e) + FileRefs(s.files, e)
    && (x.lock.Some? ==> s.IsThread(x.lock.value) && Has(s, x.lock.value, e))
    && Shape(s, e)
  }

  /** The flags of an entry fit what its holder is doing. */
  ghost predicate Shape(s: State, e: nat)
    requires s.IsInode(e)
  {
    var x, k := s.inodes[e], Stage(s, e);
    && (x.dirty ==> x.lock.Some? && x.valid && k == 0)
    && (1 <= k <= 4 ==> x.valid) && (k == 5 ==> !x.valid)
    && (x.ref > 0 ==> Content(s, e))
  }

  predicate ThreadOk(s: State, t: nat)
    requires s.IsThread(t)
  {
    var pc := s.threads[t].pc;
    && (pc.Allocated? ==> pc.key in s.disk)
    && (pc.Freeing? ==>
          && s.IsInode(pc.e) && s.threads[t].refs[pc.e] > 0 && 1 <= pc.stage <= 6
          && (s.inodes[pc.e].lock == Some(t) <==> pc.stage <= 5))
  }

  /** A struct file counts the processes that have it open, and names an inode as long as there are any. */
  predicate FileOk(s: State, f: nat)
    requires s.IsFile(f)
  {
    && s.files[f].ref == Fds(s.threads, f)
    && (s.files[f].ip.Some? <==> s.files[f].ref > 0) && (s.files[f].ip.Some? ==> s.IsInode(s.files[f].ip.value))
  }

  /** At most one referenced entry per inode. */
  predicate KeysDiffer(s: State, e: nat, f: nat)
    requires s.IsInode(e) && s.IsInode(f)
  {
    s.inodes[e].ref > 0 && s.inodes[f].ref > 0 && s.inodes[e].key == s.inodes[f].key ==> e == f
  }

  ghost predicate Inv(s: State) {
    && (forall e {:trigger InodeOk(s, e)} :: s.IsInode(e) ==> InodeOk(s, e))
    && (forall t {:trigger ThreadOk(s, t)} :: s.IsThread(t) ==> ThreadOk(s, t))
    && (forall f {:trigger FileOk(s, f)} :: s.IsFile(f) ==> FileOk(s, f))
    && (forall e, f {:trigger KeysDiffer(s, e, f)} :: s.IsInode(e) && s.IsInode(f) ==> KeysDiffer(s, e, f))
  }

  // ----- References -----

  /** Whoever may use an entry keeps it referenced. */
  lemma HasCounts(s: State, t: nat, e: nat)
    requires Inv(s) && s.IsThread(t) && s.IsInode(e)
    ensures s.inodes[e].ref >= s.threads[t].refs[e]
    ensures HasFile(s, t, e) ==> s.inodes[e].ref > s.threads[t].refs[e]
  {
    assert InodeOk(s, e);
    RefsOne(s.threads, t, e);
    if HasFile(s, t, e) {
      var f: nat :| s.IsFile(f) && s.threads[t].fds[f] > 0 && s.files[f].ip == Some(e);
      FileRefsOne(s.files, f, e);
    }
  }

  /** An entry that has a lock or whose thread is freeing it is referenced. */
  lemma Referenced(s: State, t: nat, e: nat)
    requires Inv(s) && s.IsThread(t) && s.IsInode(e)
    ensures s.inodes[e].ref >= s.threads[t].refs[e]
    ensures s.inodes[e].lock.Some? ==> s.inodes[e].ref > 0
  {
    HasCounts(s, t, e);
    assert InodeOk(s, e);
    if s.inodes[e].lock.Some? {
      HasCounts(s, s.inodes[e].lock.value, e);
    }
  }

  /** Nobody has locked e if the only reference is one that t may put. */
  lemma OnlyOne(s: State, t: nat, e: nat)
    requires Inv(s) && s.IsThread(t) && s.IsInode(e) && s.inodes[e].ref == 1 && MayPut(s, t, e)
    ensures s.inodes[e].lock.None?
  {
    assert InodeOk(s, e);
    HasCounts(s, t, e);
    if s.inodes[e].lock.Some? {
      var u := s.inodes[e].lock.value;
      if u != t {
        RefsTwo(s.threads, if t < u then t else u, if t < u then u else t, e);
        if HasFile(s, u, e) {
          var f: nat :| s.IsFile(f) && s.threads[u].fds[f] > 0 && s.files[f].ip == Some(e);
          FileRefsOne(s.files, f, e);
          RefsOne(s.threads, t, e);
        }
      }
    }
  }

  /** How a step on references changes the count of e. */
  lemma CountRef(s: State, a: Label, e: nat)
    requires Inv(s) && IsRef(a) && RefEnabled(s, a) && s.IsInode(e)
    ensures RefNext(s, a).inodes[e].ref == Refs(RefNext(s, a).threads, e) + FileRefs(s.files, e)
  {
    assert InodeOk(s, e);
    var r := RefNext(s, a);
    RefsUpdate(s.threads, a.t, r.threads[a.t], e);
    assert r.threads == s.threads[a.t := r.threads[a.t]];
    hide Refs, FileRefs, Inv, Content, Stage, Has;
  }

  /** A step on inode references leaves every thread's files alone, and who had a lock may keep it. */
  lemma HasRef(s: State, a: Label, e: nat)
    requires Inv(s) && IsRef(a) && RefEnabled(s, a) && s.IsInode(e) && s.inodes[e].lock.Some?
    requires s.IsThread(s.inodes[e].lock.value) && Has(s, s.inodes[e].lock.value, e)
    ensures Has(RefNext(s, a), s.inodes[e].lock.value, e)
  {
    hide Inv;
    var r, u := RefNext(s, a), s.inodes[e].lock.value;
    assert r.files == s.files && r.threads[u].fds == s.threads[u].fds;
    assert HasFile(s, u, e) ==> HasFile(r, u, e);
  }

  lemma InodeRef(s: State, a: Label, e: nat)
    requires Inv(s) && IsRef(a) && RefEnabled(s, a) && s.IsInode(e)
    ensures InodeOk(RefNext(s, a), e)
  {
    hide Shape, Refs, FileRefs, HasFile;
    assert InodeOk(s, e) && ThreadOk(s, a.t);
    Referenced(s, a.t, e);
    CountRef(s, a, e);
    ShapeRef(s, a, e);
    if s.inodes[e].lock.Some? {
      HasRef(s, a, e);
    }
  }

  lemma ShapeRef(s: State, a: Label, e: nat)
    requires IsRef(a) && RefEnabled(s, a) && s.IsInode(e) && Shape(s, e) && ThreadOk(s, a.t)
    requires s.inodes[e].ref >= s.threads[a.t].refs[e] && (s.inodes[e].lock.Some? ==> s.inodes[e].ref > 0)
    ensures Shape(RefNext(s, a), e)
  {
    hide HasFile;
    var r := RefNext(s, a);
    if a.FreeBegin? {
      assert Stage(r, e) == if e == a.e then 1 else Stage(s, e);
    } else {
      assert Stage(r, e) == Stage(s, e);
    }
  }

  /** Threads and files are as before, so whoever may use e still may. */
  lemma HasSame(s: State, r: State, e: nat)
    requires r.threads == s.threads && r.files == s.files
    ensures forall t: nat :: s.IsThread(t) ==> (Has(r, t, e) <==> Has(s, t, e))
  {
    forall t: nat | s.IsThread(t)
      ensures Has(r, t, e) <==> Has(s, t, e)
    {
      assert HasFile(r, t, e) <==> HasFile(s, t, e);
    }
  }

  lemma InodeHold(s: State, a: Label, e: nat)
    requires Inv(s) && IsHold(a) && HoldEnabled(s, a) && s.IsInode(e)
    ensures InodeOk(HoldNext(s, a), e)
  {
    assert InodeOk(s, e) && InodeOk(s, a.e) && KeysDiffer(s, e, a.e);
    HasCounts(s, a.t, a.e);
    HasSame(s, HoldNext(s, a), e);
    hide Refs, FileRefs, Inv, Has, HasFile;
  }

  /** The steps of iput() and ialloc() leave files alone, and who had a lock may keep it. */
  lemma HasRest(s: State, a: Label, e: nat)
    requires Inv(s) && IsRest(a) && RestEnabled(s, a) && s.IsInode(e) && s.inodes[e].lock.Some?
    requires s.IsThread(s.inodes[e].lock.value) && Has(s, s.inodes[e].lock.value, e)
    ensures Has(RestNext(s, a), s.inodes[e].lock.value, e)
  {
    assert ThreadOk(s, a.t);
    hide Inv;
    var r, u := RestNext(s, a), s.inodes[e].lock.value;
    assert r.files == s.files && r.threads[u].fds == s.threads[u].fds;
    assert HasFile(s, u, e) ==> HasFile(r, u, e);
  }

  lemma InodeAlloc(s: State, a: Label, e: nat)
    requires Inv(s) && a.Alloc? && RestEnabled(s, a) && s.IsInode(e)
    ensures InodeOk(RestNext(s, a), e)
  {
    assert InodeOk(s, e);
    var r := RestNext(s, a);
    RefsUpdate(s.threads, a.t, r.threads[a.t], e);
    if s.inodes[e].lock.Some? {
      HasRest(s, a, e);
    }
    hide Refs, FileRefs, Inv, Has, HasFile;
  }

  lemma CountFree(s: State, a: Label, e: nat)
    requires Inv(s) && a.FreeNext? && RestEnabled(s, a) && s.IsInode(e)
    ensures RestNext(s, a).inodes[e].ref == Refs(RestNext(s, a).threads, e) + FileRefs(s.files, e)
  {
    assert InodeOk(s, e);
    var r := RestNext(s, a);
    RefsUpdate(s.threads, a.t, r.threads[a.t], e);
    assert r.threads == s.threads[a.t := r.threads[a.t]];
    hide Refs, FileRefs, Inv, Content, Stage, Has;
  }

  lemma InodeFree(s: State, a: Label, e: nat)
    requires Inv(s) && a.FreeNext? && RestEnabled(s, a) && s.IsInode(e)
    ensures InodeOk(RestNext(s, a), e)
  {
    hide Shape, Refs, FileRefs, Has;
    var f := s.threads[a.t].pc.e;
    assert ThreadOk(s, a.t) && InodeOk(s, e) && InodeOk(s, f) && KeysDiffer(s, e, f);
    Referenced(s, a.t, f);
    Referenced(s, a.t, e);
    CountFree(s, a, e);
    ShapeFree(s, a, e, f);
    if s.inodes[e].lock.Some? {
      HasRest(s, a, e);
    }
  }

  lemma ShapeFree(s: State, a: Label, e: nat, f: nat)
    requires a.FreeNext? && RestEnabled(s, a) && f == s.threads[a.t].pc.e && s.IsInode(e)
    requires Shape(s, e) && Shape(s, f) && ThreadOk(s, a.t) && KeysDiffer(s, e, f)
    requires s.inodes[f].ref >= s.threads[a.t].refs[f] && (s.inodes[e].lock.Some? ==> s.inodes[e].ref > 0)
    ensures Shape(RestNext(s, a), e)
  {
    var r, k := RestNext(s, a), s.threads[a.t].pc.stage;
    assert Stage(r, e) == if e == f && k <= 5 then (if k == 5 then 0 else k + 1) else Stage(s, e);
  }

  // ----- Files -----

  lemma {:induction false} FdsTwo(ts: seq<Thread>, t: nat, u: nat, f: nat)
    requires t < |ts| && u < |ts| && t != u
    ensures Fds(ts, f) >= ts[t].fds[f] + ts[u].fds[f]
  {
    var n := |ts| - 1;
    if t == n {
      FdsOne(ts[..n], u, f);
    } else if u == n {
      FdsOne(ts[..n], t, f);
    } else {
      FdsTwo(ts[..n], t, u, f);
    }
  }

  lemma CountFiles(s: State, a: Label, e: nat)
    requires Inv(s) && IsFiles(a) && FilesEnabled(s, a) && s.IsInode(e)
    ensures FilesNext(s, a).inodes[e].ref == Refs(FilesNext(s, a).threads, e) + FileRefs(FilesNext(s, a).files, e)
  {
    assert InodeOk(s, e);
    assert !a.DupFor? ==> FileOk(s, a.f);
    var r, u := FilesNext(s, a), if a.DupFile? || a.DupFor? then a.u else a.t;
    RefsUpdate(s.threads, u, r.threads[u], e);
    assert r.threads == s.threads[u := r.threads[u]];
    if !a.DupFor? {
      FileRefsUpdate(s.files, a.f, r.files[a.f], e);
      assert r.files == s.files[a.f := r.files[a.f]];
    }
    hide Refs, FileRefs, Inv, Content, Stage, Has;
  }

  /** Who had a lock may keep it: its file is still open for it, or it has the reference back. */
  lemma HasFiles(s: State, a: Label, e: nat, u: nat)
    requires Inv(s) && IsFiles(a) && FilesEnabled(s, a) && s.IsInode(e) && s.inodes[e].lock == Some(u)
    requires s.IsThread(u) && Has(s, u, e)
    ensures Has(FilesNext(s, a), u, e)
  {
    var r := FilesNext(s, a);
    if s.threads[u].refs[e] > 0 {
      if a.OpenFile? && a.t == u && a.e == e {
        assert r.files[a.f].ip == Some(e) && r.threads[u].fds[a.f] > 0;
      }
    } else {
      var f: nat :| s.IsFile(f) && s.threads[u].fds[f] > 0 && s.files[f].ip == Some(e);
      StillOpen(s, a, e, u, f);
    }
  }

  lemma StillOpen(s: State, a: Label, e: nat, u: nat, f: nat)
    requires Inv(s) && IsFiles(a) && FilesEnabled(s, a) && s.IsInode(e) && s.inodes[e].lock == Some(u)
    requires s.IsThread(u) && s.IsFile(f) && s.threads[u].fds[f] > 0 && s.files[f].ip == Some(e)
    ensures FilesNext(s, a).IsFile(f) && FilesNext(s, a).threads[u].fds[f] > 0 && FilesNext(s, a).files[f].ip == Some(e)
  {
    assert FileOk(s, f);
    if a.LastClose? && a.t != u {
      FdsTwo(s.threads, a.t, u, f);
    }
    hide Inv, Fds;
  }

  lemma InodeFiles(s: State, a: Label, e: nat)
    requires Inv(s) && IsFiles(a) && FilesEnabled(s, a) && s.IsInode(e)
    ensures InodeOk(FilesNext(s, a), e)
  {
    hide Shape, Refs, FileRefs, Has;
    assert InodeOk(s, e) && ThreadOk(s, a.t);
    CountFiles(s, a, e);
    Referenced(s, a.t, e);
    ShapeFiles(s, a, e);
    if s.inodes[e].lock.Some? {
      HasFiles(s, a, e, s.inodes[e].lock.value);
    }
  }

  lemma ShapeFiles(s: State, a: Label, e: nat)
    requires IsFiles(a) && FilesEnabled(s, a) && s.IsInode(e) && Shape(s, e) && ThreadOk(s, a.t)
    requires s.inodes[e].ref >= s.threads[a.t].refs[e]
    ensures Shape(FilesNext(s, a), e)
  {
    assert Stage(FilesNext(s, a), e) == Stage(s, e);
  }

  /** The thread whose descriptors such a step changes. */
  function Whose(a: Label): (u: nat)
    requires IsFiles(a)
  {
    if a.DupFile? || a.DupFor? then a.u else a.t
  }

  /** A step moves the count of a file and the descriptors for it together. */
  lemma {:induction false} FilesTogether(s: State, a: Label, f: nat)
    requires IsFiles(a) && FilesEnabled(s, a) && s.IsFile(f)
    ensures var r, u := FilesNext(s, a), Whose(a);
      && s.IsThread(u) && r.IsFile(f) && |r.threads| == |s.threads| && r.threads == s.threads[u := r.threads[u]]
      && r.files[f].ref + s.threads[u].fds[f] == s.files[f].ref + r.threads[u].fds[f]
  {
    assert FilesNext(s, a).threads == s.threads[Whose(a) := FilesNext(s, a).threads[Whose(a)]];
  }

  lemma {:induction false} FilesIp(s: State, a: Label, f: nat)
    requires IsFiles(a) && FilesEnabled(s, a) && s.IsFile(f) && FileOk(s, f) && s.files[f].ref >= s.threads[a.t].fds[f]
    ensures var r := FilesNext(s, a);
      && r.IsFile(f) && (r.files[f].ip.Some? <==> r.files[f].ref > 0)
      && (r.files[f].ip.Some? ==> r.IsInode(r.files[f].ip.value))
  {
    hide Fds;
  }

  lemma {:induction false} FileFiles(s: State, a: Label, f: nat)
    requires Inv(s) && IsFiles(a) && FilesEnabled(s, a) && s.IsFile(f)
    ensures FileOk(FilesNext(s, a), f)
  {
    assert FileOk(s, f);
    hide Inv, Fds, FilesEnabled, FilesNext, Whose;
    FilesTogether(s, a, f);
    FilesThread(s, a);
    FdsOne(s.threads, a.t, f);
    FilesIp(s, a, f);
    FdsUpdate(s.threads, Whose(a), FilesNext(s, a).threads[Whose(a)], f);
  }

  lemma {:induction false} FilesThread(s: State, a: Label)
    requires IsFiles(a) && FilesEnabled(s, a)
    ensures s.IsThread(a.t)
  {
  }

  /** The other steps change no open file. */
  ghost predicate FilesAlone(s: State, r: State) {
    && r.files == s.files && |r.inodes| == |s.inodes| && |r.threads| == |s.threads|
    && forall t {:trigger r.threads[t]} :: 0 <= t < |s.threads| ==> r.threads[t].fds == s.threads[t].fds
  }

  lemma AloneRef(s: State, a: Label)
    requires IsRef(a) && RefEnabled(s, a)
    ensures FilesAlone(s, RefNext(s, a))
  {
  }

  lemma AloneHold(s: State, a: Label)
    requires IsHold(a) && HoldEnabled(s, a)
    ensures FilesAlone(s, HoldNext(s, a))
  {
  }

  lemma AloneRest(s: State, a: Label)
    requires IsRest(a) && RestEnabled(s, a)
    ensures FilesAlone(s, RestNext(s, a))
  {
  }

  lemma {:induction false} FdsSame(ts: seq<Thread>, us: seq<Thread>, f: nat)
    requires |us| == |ts| && forall t {:trigger us[t]} :: 0 <= t < |ts| ==> us[t].fds == ts[t].fds
    ensures Fds(us, f) == Fds(ts, f)
  {
    if ts != [] {
      FdsSame(ts[..|ts| - 1], us[..|us| - 1], f);
    }
  }

  lemma FileKept(s: State, a: Label, f: nat)
    requires Inv(s) && Enabled(s, a) && !IsFiles(a) && s.IsFile(f)
    ensures Next(s, a).IsFile(f) && FileOk(Next(s, a), f)
  {
    assert FileOk(s, f);
    hide Inv, RefEnabled, RefNext, HoldEnabled, HoldNext, RestEnabled, RestNext;
    if IsRef(a) {
      AloneRef(s, a);
    } else if IsHold(a) {
      AloneHold(s, a);
    } else {
      AloneRest(s, a);
    }
    FdsSame(s.threads, Next(s, a).threads, f);
  }

  // ----- Threads and keys -----

  lemma ThreadFiles(s: State, a: Label, t: nat)
    requires Inv(s) && IsFiles(a) && FilesEnabled(s, a) && s.IsThread(t)
    ensures ThreadOk(FilesNext(s, a), t)
  {
    assert ThreadOk(s, t);
    hide Inv;
  }

  lemma ThreadRef(s: State, a: Label, t: nat)
    requires Inv(s) && IsRef(a) && RefEnabled(s, a) && s.IsThread(t)
    ensures ThreadOk(RefNext(s, a), t)
  {
    assert ThreadOk(s, t) && ThreadOk(s, a.t);
    if s.threads[t].pc.Freeing? {
      Referenced(s, t, s.threads[t].pc.e);
    }
    hide Inv;
  }

  lemma ThreadHold(s: State, a: Label, t: nat)
    requires Inv(s) && IsHold(a) && HoldEnabled(s, a) && s.IsThread(t)
    ensures ThreadOk(HoldNext(s, a), t)
  {
    assert ThreadOk(s, t);
    hide Inv;
  }

  lemma ThreadRest(s: State, a: Label, t: nat)
    requires Inv(s) && IsRest(a) && RestEnabled(s, a) && s.IsThread(t)
    ensures ThreadOk(RestNext(s, a), t)
  {
    assert ThreadOk(s, t) && ThreadOk(s, a.t);
    hide Inv;
  }

  /** Only iget() gives an entry a key or its first reference. */
  lemma NoNewEntry(s: State, a: Label, e: nat)
    requires Inv(s) && Enabled(s, a) && !IsRef(a) && s.IsInode(e)
    ensures var r := Next(s, a);
      r.IsInode(e) && r.inodes[e].key == s.inodes[e].key && (r.inodes[e].ref > 0 ==> s.inodes[e].ref > 0)
  {
    if a.DupFor? {
      Referenced(s, a.t, a.e);
    }
    hide Inv, Has, HasFile;
  }

  lemma KeysRef(s: State, a: Label, e: nat, f: nat)
    requires Inv(s) && IsRef(a) && RefEnabled(s, a) && s.IsInode(e) && s.IsInode(f)
    ensures KeysDiffer(RefNext(s, a), e, f)
  {
    assert KeysDiffer(s, e, f);
    Referenced(s, a.t, a.e);
    hide Inv, HasFile;
  }

  lemma KeysStep(s: State, a: Label, e: nat, f: nat)
    requires Inv(s) && Enabled(s, a) && s.IsInode(e) && s.IsInode(f)
    ensures Next(s, a).IsInode(e) && Next(s, a).IsInode(f) && KeysDiffer(Next(s, a), e, f)
  {
    hide RefNext, HoldEnabled, HoldNext, FilesEnabled, FilesNext, RestEnabled, RestNext;
    if IsRef(a) {
      SameSizes(s, a);
      KeysRef(s, a, e, f);
    } else {
      assert KeysDiffer(s, e, f);
      NoNewEntry(s, a, e);
      NoNewEntry(s, a, f);
    }
  }

  lemma SameSizes(s: State, a: Label)
    requires Enabled(s, a)
    ensures var r := Next(s, a); |r.inodes| == |s.inodes| && |r.threads| == |s.threads| && |r.files| == |s.files|
  {
  }

  lemma InodeStep(s: State, a: Label, e: nat)
    requires Inv(s) && Enabled(s, a) && s.IsInode(e)
    ensures Next(s, a).IsInode(e) && InodeOk(Next(s, a), e)
  {
    hide InodeOk, Inv, RefEnabled, RefNext, HoldEnabled, HoldNext, FilesEnabled, FilesNext, RestEnabled, RestNext;
    SameSizes(s, a);
    if IsRef(a) {
      InodeRef(s, a, e);
    } else if IsHold(a) {
      InodeHold(s, a, e);
    } else if IsFiles(a) {
      InodeFiles(s, a, e);
    } else if a.Alloc? {
      InodeAlloc(s, a, e);
    } else {
      InodeFree(s, a, e);
    }
  }

  lemma ThreadStep(s: State, a: Label, t: nat)
    requires Inv(s) && Enabled(s, a) && s.IsThread(t)
    ensures Next(s, a).IsThread(t) && ThreadOk(Next(s, a), t)
  {
    hide ThreadOk, Inv, RefEnabled, RefNext, HoldEnabled, HoldNext, FilesEnabled, FilesNext, RestEnabled, RestNext;
    SameSizes(s, a);
    if IsRef(a) {
      ThreadRef(s, a, t);
    } else if IsHold(a) {
      ThreadHold(s, a, t);
    } else if IsFiles(a) {
      ThreadFiles(s, a, t);
    } else {
      ThreadRest(s, a, t);
    }
  }

  lemma FileStep(s: State, a: Label, f: nat)
    requires Inv(s) && Enabled(s, a) && s.IsFile(f)
    ensures Next(s, a).IsFile(f) && FileOk(Next(s, a), f)
  {
    hide FileOk, Inv, FilesEnabled, FilesNext;
    SameSizes(s, a);
    if IsFiles(a) {
      FileFiles(s, a, f);
    } else {
      FileKept(s, a, f);
    }
  }

  lemma InvStep(s: State, a: Label)
    requires Inv(s) && Enabled(s, a)
    ensures Inv(Next(s, a))
  {
    hide Next, Enabled, InodeOk, ThreadOk, FileOk, KeysDiffer;
    var r := Next(s, a);
    SameSizes(s, a);
    forall e | r.IsInode(e)
      ensures InodeOk(r, e)
    {
      InodeStep(s, a, e);
    }
    forall t | r.IsThread(t)
      ensures ThreadOk(r, t)
    {
      ThreadStep(s, a, t);
    }
    forall f | r.IsFile(f)
      ensures FileOk(r, f)
    {
      FileStep(s, a, f);
    }
    forall e, f | r.IsInode(e) && r.IsInode(f)
      ensures KeysDiffer(r, e, f)
    {
      KeysStep(s, a, e, f);
    }
  }

  lemma {:induction false} NoRefs(ts: seq<Thread>, e: nat)
    requires forall t :: 0 <= t < |ts| ==> ts[t].refs == multiset{} && ts[t].fds == multiset{}
    ensures Refs(ts, e) == 0 && Fds(ts, e) == 0
  {
    if ts != [] {
      NoRefs(ts[..|ts| - 1], e);
    }
  }

  lemma {:induction false} NoFileRefs(fs: seq<File>, e: nat)
    requires forall f :: 0 <= f < |fs| ==> fs[f].ip.None?
    ensures FileRefs(fs, e) == 0
  {
    if fs != [] {
      NoFileRefs(fs[..|fs| - 1], e);
    }
  }

  lemma InvInit(s: State)
    requires Init(s)
    ensures Inv(s)
  {
    forall e | s.IsInode(e)
      ensures InodeOk(s, e)
    {
      NoRefs(s.threads, e);
      NoFileRefs(s.files, e);
    }
    forall f | s.IsFile(f)
      ensures FileOk(s, f)
    {
      NoRefs(s.threads, f);
    }
  }
}
