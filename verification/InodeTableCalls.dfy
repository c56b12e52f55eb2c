/** What the callers of iget(), ialloc(), ilock() and iput() get, in terms of their calls. */
module InodeTableCalls {
  import opened ProcTypes
  import opened InodeTable
  import opened InodeTableInv
  import opened InodeTableRuns

  // ----- iget() -----

  /**
   iget() gives the caller one more reference to an entry for the inode asked for: the
   one that has it, or else the first free entry, which it does not believe to be read.
   */
  lemma IgetReturnsEntry(ss: seq<State>, labels: seq<Label>, k: nat)
    requires IsRun(ss, labels) && k < |labels| && (labels[k].Find? || labels[k].Recycle?)
    ensures var s, a, r := ss[k], labels[k], ss[k + 1];
      && s.IsThread(a.t) && r.IsThread(a.t) && s.IsInode(a.e) && r.IsInode(a.e)
      && r.inodes[a.e].key == a.key && r.inodes[a.e].ref == s.inodes[a.e].ref + 1
      && r.threads[a.t].refs[a.e] == s.threads[a.t].refs[a.e] + 1
      && (a.Find? ==> s.inodes[a.e].key == a.key && s.inodes[a.e].ref > 0)
      && (a.Recycle? ==>
            && s.inodes[a.e].ref == 0 && !r.inodes[a.e].valid
            && (forall f :: 0 <= f < a.e ==> s.inodes[f].ref > 0)
            && forall f :: 0 <= f < |s.inodes| && s.inodes[f].ref > 0 ==> s.inodes[f].key != a.key)
  {
    assert IsStep(ss[k], labels[k], ss[k + 1]);
  }

  /** A referenced entry stands for the same inode from one step to the next. */
  lemma ReferencedKeepsInode(ss: seq<State>, labels: seq<Label>, k: nat, e: nat)
    requires IsRun(ss, labels) && k < |labels| && ss[k].IsInode(e) && ss[k].inodes[e].ref > 0
    ensures ss[k + 1].IsInode(e) && ss[k + 1].inodes[e].key == ss[k].inodes[e].key
  {
    assert IsStep(ss[k], labels[k], ss[k + 1]);
    hide Has, HasFile, MayPut;
  }

  // ----- ialloc() -----

  lemma {:induction false} AllocatedStep(s: State, a: Label, t: nat, key: Key)
    requires Enabled(s, a) && s.IsThread(t) && s.threads[t].pc == Allocated(key)
    ensures a.t == t ==> (a.Find? || a.Recycle?) && a.key == key
    ensures a.t != t ==> Next(s, a).IsThread(t) && Next(s, a).threads[t].pc == Allocated(key)
  {
    hide Has, HasFile, MayPut;
  }

  lemma {:induction false} AllocatedLasts(ss: seq<State>, labels: seq<Label>, j: nat, k: nat)
    requires IsRun(ss, labels) && j < k <= |labels| && labels[j].Alloc?
    requires forall i :: j < i < k ==> labels[i].t != labels[j].t
    ensures ss[k].IsThread(labels[j].t) && ss[k].threads[labels[j].t].pc == Allocated(labels[j].key)
  {
    assert IsStep(ss[k - 1], labels[k - 1], ss[k]);
    if k > j + 1 {
      hide Init, Enabled, Next;
      AllocatedLasts(ss, labels, j, k - 1);
      AllocatedStep(ss[k - 1], labels[k - 1], labels[j].t, labels[j].key);
    }
  }

  /** ialloc() returns the inode that it has marked as allocated: its caller's next step is the iget() of it. */
  lemma IallocReturnsItsInode(ss: seq<State>, labels: seq<Label>, j: nat, k: nat)
    requires IsRun(ss, labels) && j < k < |labels| && labels[j].Alloc? && labels[k].t == labels[j].t
    requires forall i :: j < i < k ==> labels[i].t != labels[j].t
    ensures (labels[k].Find? || labels[k].Recycle?) && labels[k].key == labels[j].key
    ensures labels[j].key in ss[j + 1].disk && ss[j + 1].disk[labels[j].key] == Dinode(labels[j].kind, 0, 0)
  {
    AllocatedLasts(ss, labels, j, k);
    assert IsStep(ss[j], labels[j], ss[j + 1]);
    assert IsStep(ss[k], labels[k], ss[k + 1]);
    hide Init, Enabled;
    AllocatedStep(ss[k], labels[k], labels[j].t, labels[j].key);
  }

  // ----- Locks -----

  /** The step gives t the lock of e. */
  predicate Acquires(a: Label, t: nat, e: nat) {
    a == Lock(t, e) || a == FreeBegin(t, e)
  }

  /** The step makes t release the lock of e: iunlock(), or the releasesleep() of iput(). */
  predicate Releases(s: State, a: Label, t: nat, e: nat) {
    a == Unlock(t, e) || (a == FreeNext(t) && s.IsThread(t) && s.threads[t].pc == Freeing(e, 5))
  }

  lemma {:induction false} LockRef(s: State, a: Label, t: nat, e: nat)
    requires IsRef(a) && RefEnabled(s, a) && s.IsInode(e)
    ensures RefNext(s, a).inodes[e].lock == Some(t) <==>
      Acquires(a, t, e) || (s.inodes[e].lock == Some(t) && !Releases(s, a, t, e))
  {
    hide Has, HasFile, MayPut;
  }

  lemma {:induction false} LockHold(s: State, a: Label, t: nat, e: nat)
    requires IsHold(a) && HoldEnabled(s, a) && s.IsInode(e)
    ensures HoldNext(s, a).inodes[e].lock == Some(t) <==>
      Acquires(a, t, e) || (s.inodes[e].lock == Some(t) && !Releases(s, a, t, e))
  {
    hide Has, HasFile, MayPut;
  }

  lemma {:induction false} LockFiles(s: State, a: Label, t: nat, e: nat)
    requires IsFiles(a) && FilesEnabled(s, a) && s.IsInode(e)
    ensures FilesNext(s, a).inodes[e].lock == Some(t) <==>
      Acquires(a, t, e) || (s.inodes[e].lock == Some(t) && !Releases(s, a, t, e))
  {
    hide Has, HasFile, MayPut;
  }

  lemma {:induction false} LockRest(s: State, a: Label, t: nat, e: nat)
    requires IsRest(a) && RestEnabled(s, a) && s.IsInode(e) && ThreadOk(s, a.t)
    ensures RestNext(s, a).inodes[e].lock == Some(t) <==>
      Acquires(a, t, e) || (s.inodes[e].lock == Some(t) && !Releases(s, a, t, e))
  {
  }

  lemma {:induction false} LockStep(s: State, a: Label, t: nat, e: nat)
    requires Inv(s) && Enabled(s, a) && s.IsInode(e) && Next(s, a).IsInode(e)
    ensures Next(s, a).inodes[e].lock == Some(t) <==>
      Acquires(a, t, e) || (s.inodes[e].lock == Some(t) && !Releases(s, a, t, e))
  {
    assert IsRest(a) ==> ThreadOk(s, a.t);
    hide Inv, RefEnabled, RefNext, HoldEnabled, HoldNext, FilesEnabled, FilesNext, RestEnabled, RestNext;
    hide ThreadOk, Acquires, Releases;
    if IsRef(a) {
      LockRef(s, a, t, e);
    } else if IsHold(a) {
      LockHold(s, a, t, e);
    } else if IsFiles(a) {
      LockFiles(s, a, t, e);
    } else {
      LockRest(s, a, t, e);
    }
  }

  /** t got the lock of e at step j and has not released it since. */
  ghost predicate LockedAt(ss: seq<State>, labels: seq<Label>, j: nat, k: nat, t: nat, e: nat)
    requires |ss| > |labels| >= k
  {
    j < k && Acquires(labels[j], t, e) && forall i :: j < i < k ==> !Releases(ss[i], labels[i], t, e)
  }

  ghost predicate Holds(ss: seq<State>, labels: seq<Label>, k: nat, t: nat, e: nat)
    requires |ss| > |labels| >= k
  {
    exists j: nat :: LockedAt(ss, labels, j, k, t, e)
  }

  lemma {:induction false} LockedNext(ss: seq<State>, labels: seq<Label>, k: nat, t: nat, e: nat)
    requires |ss| > |labels| >= k > 0
    ensures Holds(ss, labels, k, t, e) <==>
      Acquires(labels[k - 1], t, e)
      || (Holds(ss, labels, k - 1, t, e) && !Releases(ss[k - 1], labels[k - 1], t, e))
  {
    hide Acquires, Releases;
    var m := k - 1;
    if Acquires(labels[m], t, e) {
      assert LockedAt(ss, labels, m, k, t, e);
    } else if Holds(ss, labels, k, t, e) {
      var j: nat :| LockedAt(ss, labels, j, k, t, e);
      assert LockedAt(ss, labels, j, m, t, e);
    } else if j: nat :| LockedAt(ss, labels, j, m, t, e) {
      assert !LockedAt(ss, labels, j, k, t, e);
    }
  }

  /** A thread has the lock of an entry if and only if it has taken it and not released it since. */
  lemma {:induction false} LockIff(ss: seq<State>, labels: seq<Label>, k: nat, t: nat, e: nat)
    requires IsRun(ss, labels) && k <= |labels| && ss[k].IsThread(t) && ss[k].IsInode(e)
    ensures ss[k].inodes[e].lock == Some(t) <==> exists j: nat :: LockedAt(ss, labels, j, k, t, e)
  {
    if k > 0 {
      hide Inv, Init, Enabled, Next, LockedAt, Acquires, Releases;
      assert IsStep(ss[k - 1], labels[k - 1], ss[k]);
      InvAt(ss, labels, k - 1);
      SameSizes(ss[k - 1], labels[k - 1]);
      LockStep(ss[k - 1], labels[k - 1], t, e);
      LockIff(ss, labels, k - 1, t, e);
      LockedNext(ss, labels, k, t, e);
    }
  }

  // ----- iput() frees -----

  /** From FreeBegin(t, e) at j to state k thread t has been freeing e; m is the step that cleared its type on disk. */
  ghost predicate FreeingSince(ss: seq<State>, labels: seq<Label>, j: nat, k: nat, m: nat)
    requires |ss| > |labels| >= k > j && labels[j].FreeBegin? && ss[j].IsInode(labels[j].e)
  {
    var t, e, key := labels[j].t, labels[j].e, ss[j].inodes[labels[j].e].key;
    && ss[k].IsThread(t) && ss[k].threads[t].pc.Freeing? && ss[k].threads[t].pc.e == e
    && ss[k].IsInode(e) && ss[k].inodes[e].key == key
    && (ss[k].threads[t].pc.stage >= 4 ==>
          j < m < k && labels[m] == FreeNext(t) && key in ss[m + 1].disk && ss[m + 1].disk[key] == Dinode(0, 0, 0))
  }

  lemma {:induction false} FreeingRest(s: State, a: Label, t: nat, e: nat)
    requires IsRest(a) && RestEnabled(s, a) && s.IsThread(t) && s.threads[t].pc.Freeing? && s.threads[t].pc.e == e
    requires s.IsInode(e) && ThreadOk(s, t) && Shape(s, e) && s.inodes[e].ref > 0 && !Finishes(s, a, t)
    ensures var r, k := RestNext(s, a), s.threads[t].pc.stage;
      && r.inodes[e].key == s.inodes[e].key && r.threads[t].pc == Freeing(e, if a == FreeNext(t) then k + 1 else k)
      && (a == FreeNext(t) && k == 3 ==>
            s.inodes[e].key in r.disk && r.disk[s.inodes[e].key] == Dinode(0, 0, 0))
  {
  }

  lemma {:induction false} FreeingOther(s: State, a: Label, t: nat, e: nat)
    requires Enabled(s, a) && !IsRest(a) && s.IsThread(t) && s.threads[t].pc.Freeing? && s.threads[t].pc.e == e
    requires s.IsInode(e) && s.inodes[e].ref > 0
    ensures var r := Next(s, a);
      r.IsThread(t) && r.IsInode(e) && r.inodes[e].key == s.inodes[e].key && r.threads[t].pc == s.threads[t].pc
  {
    hide Has, HasFile, MayPut;
  }

  lemma {:induction false} FreeingStep(s: State, a: Label, t: nat, e: nat)
    requires Inv(s) && Enabled(s, a) && s.IsThread(t) && s.threads[t].pc.Freeing? && s.threads[t].pc.e == e
    requires !Finishes(s, a, t)
    ensures s.IsInode(e)
    ensures var r, k := Next(s, a), s.threads[t].pc.stage;
      && r.IsThread(t) && r.IsInode(e) && r.inodes[e].key == s.inodes[e].key
      && r.threads[t].pc == Freeing(e, if a == FreeNext(t) then k + 1 else k)
      && (a == FreeNext(t) && k == 3 ==>
            s.inodes[e].key in r.disk && r.disk[s.inodes[e].key] == Dinode(0, 0, 0))
  {
    assert ThreadOk(s, t) && InodeOk(s, e);
    HasCounts(s, t, e);
    SameSizes(s, a);
    hide Inv, RefEnabled, RefNext, HoldEnabled, HoldNext, FilesEnabled, FilesNext, RestEnabled, RestNext;
    hide Shape, Finishes;
    if IsRest(a) {
      FreeingRest(s, a, t, e);
    } else {
      FreeingOther(s, a, t, e);
    }
  }

  lemma {:induction false} FreeingNext(ss: seq<State>, labels: seq<Label>, j: nat, k: nat, m: nat) returns (n: nat)
    requires |ss| > |labels| > k > j && labels[j].FreeBegin? && ss[j].IsInode(labels[j].e)
    requires FreeingSince(ss, labels, j, k, m) && Inv(ss[k]) && IsStep(ss[k], labels[k], ss[k + 1])
    requires !Finishes(ss[k], labels[k], labels[j].t)
    ensures FreeingSince(ss, labels, j, k + 1, n)
  {
    hide Enabled, Next, Inv, Finishes;
    FreeingStep(ss[k], labels[k], labels[j].t, labels[j].e);
    n := if labels[k] == FreeNext(labels[j].t) && ss[k].threads[labels[j].t].pc.stage == 3 then k else m;
  }

  lemma {:induction false} FreeingFirst(ss: seq<State>, labels: seq<Label>, j: nat)
    requires |ss| > |labels| > j && labels[j].FreeBegin? && IsStep(ss[j], labels[j], ss[j + 1])
    ensures ss[j].IsInode(labels[j].e) && FreeingSince(ss, labels, j, j + 1, 0)
  {
    hide HasFile;
  }

  lemma {:induction false} FreeingLasts(ss: seq<State>, labels: seq<Label>, j: nat, k: nat) returns (m: nat)
    requires IsRun(ss, labels) && j < k <= |labels| && labels[j].FreeBegin?
    requires forall i :: j < i < k ==> !Finishes(ss[i], labels[i], labels[j].t)
    ensures ss[j].IsInode(labels[j].e) && FreeingSince(ss, labels, j, k, m)
  {
    hide Init, Enabled, Next, Inv, FreeingSince, Finishes;
    assert IsStep(ss[k - 1], labels[k - 1], ss[k]);
    if k == j + 1 {
      FreeingFirst(ss, labels, j);
      m := 0;
    } else {
      m := FreeingLasts(ss, labels, j, k - 1);
      InvAt(ss, labels, k - 1);
      m := FreeingNext(ss, labels, j, k - 1, m);
    }
  }

  /** The last step of iput() after freeing. */
  predicate Finishes(s: State, a: Label, t: nat) {
    a == FreeNext(t) && s.IsThread(t) && s.threads[t].pc.Freeing? && s.threads[t].pc.stage == 6
  }

  /** Every iput() that begins to free an inode and ends has, in between, written it to disk as free and empty. */
  lemma FreesItsInode(ss: seq<State>, labels: seq<Label>, j: nat, k: nat) returns (m: nat)
    requires IsRun(ss, labels) && j < k < |labels| && labels[j].FreeBegin? && Finishes(ss[k], labels[k], labels[j].t)
    requires forall i :: j < i < k ==> !Finishes(ss[i], labels[i], labels[j].t)
    ensures j < m < k && labels[m] == FreeNext(labels[j].t) && ss[j].IsInode(labels[j].e)
    ensures var key := ss[j].inodes[labels[j].e].key; key in ss[m + 1].disk && ss[m + 1].disk[key] == Dinode(0, 0, 0)
  {
    m := FreeingLasts(ss, labels, j, k);
  }
}
