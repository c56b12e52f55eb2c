/** What holds of the inode table over every run. */
module InodeTableRuns {
  import opened ProcTypes
  import opened InodeTable
  import opened InodeTableInv

  lemma {:induction false} InvAt(ss: seq<State>, labels: seq<Label>, k: nat)
    requires IsRun(ss, labels) && k <= |labels|
    ensures Inv(ss[k])
  {
    if k == 0 {
      InvInit(ss[0]);
    } else {
      InvAt(ss, labels, k - 1);
      assert IsStep(ss[k - 1], labels[k - 1], ss[k]);
      InvStep(ss[k - 1], labels[k - 1]);
    }
  }

  // ----- Theorems -----

  /** At most one referenced entry per inode. */
  lemma OneEntryPerInode(ss: seq<State>, labels: seq<Label>, k: nat, e: nat, f: nat)
    requires IsRun(ss, labels) && k <= |labels| && ss[k].IsInode(e) && ss[k].IsInode(f)
    requires ss[k].inodes[e].ref > 0 && ss[k].inodes[f].ref > 0 && ss[k].inodes[e].key == ss[k].inodes[f].key
    ensures e == f
  {
    InvAt(ss, labels, k);
    assert KeysDiffer(ss[k], e, f);
  }

  /** ref is the number of references that threads hold, plus one for every open file on the inode. */
  lemma RefCountsReferences(ss: seq<State>, labels: seq<Label>, k: nat, e: nat)
    requires IsRun(ss, labels) && k <= |labels| && ss[k].IsInode(e)
    ensures ss[k].inodes[e].ref == Refs(ss[k].threads, e) + FileRefs(ss[k].files, e)
  {
    InvAt(ss, labels, k);
    assert InodeOk(ss[k], e);
  }

  /** A struct file's ref is the number of descriptors on it, and it keeps its inode until the last is closed. */
  lemma FileCountsDescriptors(ss: seq<State>, labels: seq<Label>, k: nat, f: nat, t: nat)
    requires IsRun(ss, labels) && k <= |labels| && ss[k].IsFile(f) && ss[k].IsThread(t)
    ensures ss[k].files[f].ref == Fds(ss[k].threads, f) && (ss[k].files[f].ip.Some? <==> ss[k].files[f].ref > 0)
    ensures ss[k].threads[t].fds[f] > 0 ==>
      ss[k].files[f].ip.Some? && ss[k].IsInode(ss[k].files[f].ip.value) && ss[k].inodes[ss[k].files[f].ip.value].ref > 0
  {
    InvAt(ss, labels, k);
    var s := ss[k];
    assert FileOk(s, f);
    FdsOne(s.threads, t, f);
    if s.threads[t].fds[f] > 0 {
      HasCounts(s, t, s.files[f].ip.value);
    }
  }

  /**
   When iput() finds the last reference, nobody has the sleep lock, so acquiresleep()
   under the spinlock does not block.
   */
  lemma IputNeverBlocks(ss: seq<State>, labels: seq<Label>, k: nat, t: nat, e: nat)
    requires IsRun(ss, labels) && k <= |labels| && ss[k].IsThread(t) && ss[k].IsInode(e)
    requires ss[k].threads[t].pc.Idle? && MayPut(ss[k], t, e) && ss[k].inodes[e].ref == 1
    ensures ss[k].inodes[e].lock.None?
    ensures ss[k].inodes[e].valid && ss[k].inodes[e].d.nlink == 0 ==> RefEnabled(ss[k], FreeBegin(t, e))
  {
    InvAt(ss, labels, k);
    Referenced(ss[k], t, e);
    OnlyOne(ss[k], t, e);
  }

  /**
   Whoever has locked an inode and not changed it since sees the inode on disk,
   although the number may have been freed and allocated again meanwhile.
   */
  lemma LockedInodeMatchesDisk(ss: seq<State>, labels: seq<Label>, k: nat, t: nat, e: nat)
    requires IsRun(ss, labels) && k <= |labels| && ss[k].IsThread(t) && ss[k].IsInode(e)
    requires ss[k].threads[t].pc.Idle? && ss[k].inodes[e].lock == Some(t) && ss[k].inodes[e].valid
    requires !ss[k].inodes[e].dirty
    ensures var x := ss[k].inodes[e]; x.ref > 0 && x.key in ss[k].disk && x.d == ss[k].disk[x.key] && x.d.kind != 0
  {
    InvAt(ss, labels, k);
    Referenced(ss[k], t, e);
    assert InodeOk(ss[k], e);
  }

  /** A cached inode that nobody has locked is the inode on disk, and is allocated there. */
  lemma UnlockedInodeMatchesDisk(ss: seq<State>, labels: seq<Label>, k: nat, e: nat)
    requires IsRun(ss, labels) && k <= |labels| && ss[k].IsInode(e)
    requires ss[k].inodes[e].lock.None? && ss[k].inodes[e].valid && ss[k].inodes[e].ref > 0
    ensures var x := ss[k].inodes[e]; x.key in ss[k].disk && x.d == ss[k].disk[x.key] && x.d.kind != 0
  {
    InvAt(ss, labels, k);
    assert InodeOk(ss[k], e);
  }

  /**
   ialloc() never takes a number that a valid entry caches, except one whose holder
   has just freed it and keeps it locked.
   */
  lemma AllocSparesCached(ss: seq<State>, labels: seq<Label>, k: nat, e: nat)
    requires IsRun(ss, labels) && k < |labels| && labels[k].Alloc? && ss[k].IsInode(e)
    requires ss[k].inodes[e].key == labels[k].key && ss[k].inodes[e].ref > 0 && ss[k].inodes[e].valid
    ensures var l := ss[k].inodes[e].lock;
      l.Some? && ss[k].IsThread(l.value) && ss[k].threads[l.value].pc == Freeing(e, 4)
  {
    InvAt(ss, labels, k);
    assert IsStep(ss[k], labels[k], ss[k + 1]);
    assert InodeOk(ss[k], e);
    var l := ss[k].inodes[e].lock;
    if l.Some? {
      assert ThreadOk(ss[k], l.value);
    }
  }

  /** What a thread is freeing is locked by it until its type is cleared on disk and in the table. */
  lemma FreedWhileLocked(ss: seq<State>, labels: seq<Label>, k: nat, t: nat)
    requires IsRun(ss, labels) && k <= |labels| && ss[k].IsThread(t) && ss[k].threads[t].pc.Freeing?
    ensures var pc := ss[k].threads[t].pc;
      && ss[k].IsInode(pc.e) && ss[k].inodes[pc.e].ref > 0
      && (pc.stage <= 5 <==> ss[k].inodes[pc.e].lock == Some(t))
      && (pc.stage == 5 ==> !ss[k].inodes[pc.e].valid)
  {
    InvAt(ss, labels, k);
    assert ThreadOk(ss[k], t);
    var e := ss[k].threads[t].pc.e;
    assert InodeOk(ss[k], e);
    Referenced(ss[k], t, e);
  }
}
