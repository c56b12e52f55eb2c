/** What iput() frees, and what ends up on disk, over every run of the inode table. */
module InodeTableFree {
  import opened ProcTypes
  import opened InodeTable
  import opened InodeTableInv
  import opened InodeTableRuns

  /**
   iput() frees the inode if and only if it puts the last reference and the inode has
   been read and has no links; otherwise it only gives the reference up.
   */
  lemma IputFreesIff(ss: seq<State>, labels: seq<Label>, k: nat, t: nat, e: nat)
    requires IsRun(ss, labels) && k <= |labels| && ss[k].IsThread(t) && ss[k].IsInode(e)
    requires ss[k].threads[t].pc.Idle? && MayPut(ss[k], t, e)
    ensures var x := ss[k].inodes[e];
      && (Enabled(ss[k], FreeBegin(t, e)) <==> x.ref == 1 && x.valid && x.d.nlink == 0)
      && (Enabled(ss[k], Drop(t, e)) <==> !(x.ref == 1 && x.valid && x.d.nlink == 0))
  {
    InvAt(ss, labels, k);
    HasCounts(ss[k], t, e);
    if ss[k].inodes[e].ref == 1 {
      OnlyOne(ss[k], t, e);
    }
    hide Inv;
  }

  /** Freeing begins only for an inode that has no links, in the table and on disk. */
  lemma FreedHasNoLinks(ss: seq<State>, labels: seq<Label>, k: nat)
    requires IsRun(ss, labels) && k < |labels|
    ensures labels[k].FreeBegin? ==>
      && ss[k].IsInode(labels[k].e)
      && var x := ss[k].inodes[labels[k].e];
      x.ref == 1 && x.valid && x.d.nlink == 0 && x.key in ss[k].disk && ss[k].disk[x.key] == x.d && x.d.kind != 0
    ensures labels[k].Drop? ==>
      && ss[k].IsInode(labels[k].e)
      && var x := ss[k].inodes[labels[k].e];
      x.ref > 0 && (x.ref == 1 && x.valid ==> x.d.nlink != 0)
  {
    InvAt(ss, labels, k);
    assert IsStep(ss[k], labels[k], ss[k + 1]);
    if labels[k].FreeBegin? {
      assert InodeOk(ss[k], labels[k].e);
    }
    hide Inv;
  }

  // ----- The disk -----

  /** The stages of freeing that write the inode: after truncation, and with its type cleared. */
  predicate FreeWrites(s: State, t: nat, key: Key, d0: Dinode, d1: Dinode) {
    && s.IsThread(t) && s.threads[t].pc.Freeing? && s.IsInode(s.threads[t].pc.e)
    && var x, stage := s.inodes[s.threads[t].pc.e], s.threads[t].pc.stage;
    && x.key == key && x.lock == Some(t) && x.valid && x.d.nlink == d0.nlink == 0 && d0.kind != 0
    && ((stage == 1 && d1 == d0.(content := 0))
        || (stage == 3 && d0.content == x.d.content == 0 && d1 == Dinode(0, 0, 0)))
  }

  /** Why the inode with this key changes on disk from one state to the next. */
  predicate DiskChange(s: State, a: Label, key: Key, d0: Dinode, d1: Dinode) {
    match a
    case Alloc(_, k, kind) => k == key && d0.kind == 0 && kind != 0 && d1 == Dinode(kind, 0, 0)
    case Update(t, e) =>
      && s.IsInode(e) && s.inodes[e].key == key && s.inodes[e].lock == Some(t) && s.inodes[e].valid
      && d0.kind != 0 && d1 == s.inodes[e].d && d1.kind != 0
    case FreeNext(t) => FreeWrites(s, t, key, d0, d1)
    case _ => false
  }

  lemma {:induction false} DiskHold(s: State, a: Label, key: Key)
    requires IsHold(a) && HoldEnabled(s, a) && key in s.disk
    requires Shape(s, a.e) && s.inodes[a.e].ref > 0 && ThreadOk(s, a.t)
    ensures var r := HoldNext(s, a);
      key in r.disk && (r.disk[key] == s.disk[key] || DiskChange(s, a, key, s.disk[key], r.disk[key]))
  {
    hide HasFile;
  }

  lemma {:induction false} DiskRest(s: State, a: Label, key: Key)
    requires IsRest(a) && RestEnabled(s, a) && key in s.disk && ThreadOk(s, a.t)
    requires a.FreeNext? ==> Shape(s, s.threads[a.t].pc.e) && s.inodes[s.threads[a.t].pc.e].ref > 0
    ensures var r := RestNext(s, a);
      key in r.disk && (r.disk[key] == s.disk[key] || DiskChange(s, a, key, s.disk[key], r.disk[key]))
  {
  }

  lemma {:induction false} DiskKept(s: State, a: Label)
    requires (IsRef(a) && RefEnabled(s, a)) || (IsFiles(a) && FilesEnabled(s, a))
    ensures Enabled(s, a) && Next(s, a).disk == s.disk
  {
    hide HasFile;
  }

  lemma {:induction false} DiskStep(s: State, a: Label, key: Key)
    requires Inv(s) && Enabled(s, a) && key in s.disk
    ensures var r := Next(s, a);
      key in r.disk && (r.disk[key] == s.disk[key] || DiskChange(s, a, key, s.disk[key], r.disk[key]))
  {
    if IsHold(a) {
      assert ThreadOk(s, a.t) && InodeOk(s, a.e);
      HasCounts(s, a.t, a.e);
      Referenced(s, a.t, a.e);
      HoldRefs(s, a);
    } else if a.FreeNext? {
      assert ThreadOk(s, a.t) && InodeOk(s, s.threads[a.t].pc.e);
      HasCounts(s, a.t, s.threads[a.t].pc.e);
    } else {
      assert a.Alloc? ==> ThreadOk(s, a.t);
    }
    hide Inv, RefEnabled, RefNext, HoldEnabled, HoldNext, FilesEnabled, FilesNext, RestEnabled, RestNext;
    hide DiskChange, Shape, ThreadOk, InodeOk;
    if IsHold(a) {
      DiskHold(s, a, key);
    } else if IsRest(a) {
      DiskRest(s, a, key);
    } else {
      DiskKept(s, a);
    }
  }

  lemma {:induction false} HoldRefs(s: State, a: Label)
    requires IsHold(a) && HoldEnabled(s, a) && Inv(s) && s.IsThread(a.t) && s.IsInode(a.e)
    ensures s.inodes[a.e].ref > 0
  {
    HasCounts(s, a.t, a.e);
    Referenced(s, a.t, a.e);
    hide Inv;
  }

  /**
   An inode on disk changes only when ialloc() takes a free one, when the holder of its
   lock writes it, or when iput() frees it; and it is freed, its type going to 0, only
   without links and, in the table and on disk, without content.
   */
  lemma DiskChanges(ss: seq<State>, labels: seq<Label>, k: nat, key: Key)
    requires IsRun(ss, labels) && k < |labels| && key in ss[k].disk
    ensures key in ss[k + 1].disk
    ensures ss[k + 1].disk[key] == ss[k].disk[key]
      || DiskChange(ss[k], labels[k], key, ss[k].disk[key], ss[k + 1].disk[key])
    ensures ss[k].disk[key].kind != 0 && ss[k + 1].disk[key].kind == 0 ==>
      && labels[k].FreeNext? && ss[k].disk[key].nlink == 0 && ss[k].disk[key].content == 0
      && exists e: nat ::
           && ss[k].IsInode(e) && ss[k].inodes[e].key == key && ss[k].inodes[e].lock == Some(labels[k].t)
           && ss[k].inodes[e].d == Dinode(0, 0, 0)
  {
    InvAt(ss, labels, k);
    assert IsStep(ss[k], labels[k], ss[k + 1]);
    DiskStep(ss[k], labels[k], key);
    hide Inv, Enabled, Next;
    if ss[k].disk[key].kind != 0 && ss[k + 1].disk[key].kind == 0 {
      var e := ss[k].threads[labels[k].t].pc.e;
      InodeCleared(ss, labels, k, e);
    }
  }

  lemma {:induction false} InodeCleared(ss: seq<State>, labels: seq<Label>, k: nat, e: nat)
    requires IsRun(ss, labels) && k < |labels| && labels[k].FreeNext? && ss[k].IsThread(labels[k].t)
    requires ss[k].threads[labels[k].t].pc == Freeing(e, 3)
    ensures ss[k].IsInode(e) && ss[k].inodes[e].d == Dinode(0, 0, 0) && ss[k].inodes[e].lock == Some(labels[k].t)
  {
    InvAt(ss, labels, k);
    assert ThreadOk(ss[k], labels[k].t);
    assert InodeOk(ss[k], e);
    HasCounts(ss[k], labels[k].t, e);
    hide Inv;
  }

  // ----- The holder of a lock -----

  /** t has changed inode e, which has this key, to d, and has not written it yet. */
  predicate Changed(s: State, t: nat, e: nat, key: Key, d: Dinode) {
    s.IsInode(e) && s.inodes[e] == Inode(key, s.inodes[e].ref, true, Some(t), d, true)
  }

  lemma {:induction false} ChangedRef(s: State, a: Label, t: nat, e: nat, key: Key, d: Dinode)
    requires IsRef(a) && RefEnabled(s, a) && Changed(s, t, e, key, d) && s.inodes[e].ref > 0
    ensures Changed(RefNext(s, a), t, e, key, d)
  {
    hide HasFile;
  }

  lemma {:induction false} ChangedHold(s: State, a: Label, t: nat, e: nat, key: Key, d: Dinode)
    requires IsHold(a) && HoldEnabled(s, a) && Changed(s, t, e, key, d)
    requires !(a.Modify? && a.e == e) && a != Update(t, e)
    ensures Changed(HoldNext(s, a), t, e, key, d)
  {
    hide HasFile;
  }

  lemma {:induction false} ChangedFiles(s: State, a: Label, t: nat, e: nat, key: Key, d: Dinode)
    requires IsFiles(a) && FilesEnabled(s, a) && Changed(s, t, e, key, d)
    ensures Changed(FilesNext(s, a), t, e, key, d)
  {
  }

  lemma {:induction false} ChangedRest(s: State, a: Label, t: nat, e: nat, key: Key, d: Dinode)
    requires IsRest(a) && RestEnabled(s, a) && Changed(s, t, e, key, d) && ThreadOk(s, a.t) && Shape(s, e)
    ensures Changed(RestNext(s, a), t, e, key, d)
  {
  }

  /** Nobody but t touches the inode meanwhile. */
  lemma {:induction false} ChangedStep(s: State, a: Label, t: nat, e: nat, key: Key, d: Dinode)
    requires Inv(s) && Enabled(s, a) && Changed(s, t, e, key, d)
    requires !(a.Modify? && a.e == e) && a != Update(t, e)
    ensures Changed(Next(s, a), t, e, key, d)
  {
    assert InodeOk(s, e);
    Referenced(s, t, e);
    assert IsRest(a) ==> ThreadOk(s, a.t);
    hide Inv, RefEnabled, RefNext, HoldEnabled, HoldNext, FilesEnabled, FilesNext, RestEnabled, RestNext;
    if IsRef(a) {
      ChangedRef(s, a, t, e, key, d);
    } else if IsHold(a) {
      ChangedHold(s, a, t, e, key, d);
    } else if IsFiles(a) {
      ChangedFiles(s, a, t, e, key, d);
    } else {
      ChangedRest(s, a, t, e, key, d);
    }
  }

  /** From step j on, up to step k, nothing was written to e but by step j. */
  ghost predicate Quiet(labels: seq<Label>, j: nat, k: nat, t: nat, e: nat)
    requires k <= |labels|
  {
    forall i :: j < i < k ==> !(labels[i].Modify? && labels[i].e == e) && labels[i] != Update(t, e)
  }

  lemma {:induction false} ChangedLasts(ss: seq<State>, labels: seq<Label>, j: nat, k: nat, t: nat, e: nat, d: Dinode)
    requires IsRun(ss, labels) && j < k <= |labels| && labels[j] == Modify(t, e, d) && Quiet(labels, j, k, t, e)
    ensures ss[j].IsInode(e) && Changed(ss[k], t, e, ss[j].inodes[e].key, d)
  {
    assert IsStep(ss[k - 1], labels[k - 1], ss[k]);
    if k > j + 1 {
      InvAt(ss, labels, k - 1);
      hide Inv, Enabled, Next, Changed, Init;
      ChangedLasts(ss, labels, j, k - 1, t, e, d);
      ChangedStep(ss[k - 1], labels[k - 1], t, e, ss[j].inodes[e].key, d);
    }
  }

  /** What the holder of an inode's lock has made of it is what its next iupdate() puts on disk. */
  lemma HolderWrites(ss: seq<State>, labels: seq<Label>, j: nat, k: nat, t: nat, e: nat, d: Dinode)
    requires IsRun(ss, labels) && j < k < |labels| && labels[j] == Modify(t, e, d) && labels[k] == Update(t, e)
    requires Quiet(labels, j, k, t, e)
    ensures ss[j].IsInode(e) && ss[j].inodes[e].key in ss[k + 1].disk && ss[k + 1].disk[ss[j].inodes[e].key] == d
  {
    ChangedLasts(ss, labels, j, k, t, e, d);
    assert IsStep(ss[k], labels[k], ss[k + 1]);
  }
}
