/** What holds of every run of the buffer cache. */
module BufCacheRuns {
  import opened ProcTypes
  import opened BufCache
  import opened BufCacheInv

  lemma RingStep(s: State, a: Label)
    requires Inv(s) && Enabled(s, a)
    ensures RingOk(Next(s, a))
    ensures |Next(s, a).bufs| == |s.bufs| && |Next(s, a).threads| == |s.threads| && |Next(s, a).moved| == |s.moved|
  {
    hide BufOk, KeyOk, KeysDiffer, Sorted, ToFront;
    if a.Deref? {
      assert ThreadOk(s, a.t);
      FrontOk(s, s.threads[a.t].b);
    }
  }

  lemma InvStep(s: State, a: Label)
    requires Inv(s) && Enabled(s, a)
    ensures Inv(Next(s, a))
  {
    hide Inv, RingOk, ThreadOk, BufOk, KeysDiffer, KeyOk, GetNext, HoldNext, ReleaseNext;
    var r := Next(s, a);
    RingStep(s, a);
    forall t: nat | r.IsThread(t)
      ensures ThreadOk(r, t)
    {
      if IsGet(a) {
        ThreadGet(s, a, t);
      } else if IsHold(a) {
        ThreadHold(s, a, t);
      } else {
        ThreadRelease(s, a, t);
      }
    }
    forall b: nat | r.IsBuf(b)
      ensures BufOk(r, b)
    {
      if IsGet(a) {
        BufGet(s, a, b);
      } else if IsHold(a) {
        BufHold(s, a, b);
      } else {
        BufRelease(s, a, b);
      }
    }
    forall b: nat, c: nat | r.IsBuf(b) && r.IsBuf(c)
      ensures KeysDiffer(r, b, c)
    {
      if IsGet(a) {
        KeysGet(s, a, b, c);
      } else if IsHold(a) {
        KeysHold(s, a, b, c);
      } else {
        KeysRelease(s, a, b, c);
      }
    }
    forall k
      ensures KeyOk(r, k)
    {
      if IsGet(a) {
        KeyGet(s, a, k);
      } else if IsHold(a) {
        KeyHold(s, a, k);
      } else {
        KeyRelease(s, a, k);
      }
    }
    InvIs(r);
  }

  lemma InvIs(s: State)
    requires RingOk(s)
    requires forall t: nat {:trigger ThreadOk(s, t)} :: s.IsThread(t) ==> ThreadOk(s, t)
    requires forall b: nat {:trigger BufOk(s, b)} :: s.IsBuf(b) ==> BufOk(s, b)
    requires forall a: nat, b: nat {:trigger KeysDiffer(s, a, b)} :: s.IsBuf(a) && s.IsBuf(b) ==> KeysDiffer(s, a, b)
    requires forall k {:trigger KeyOk(s, k)} :: KeyOk(s, k)
    ensures Inv(s)
  {
  }

  lemma {:induction false} NoRefs(ts: seq<Pc>, b: nat)
    requires forall t :: 0 <= t < |ts| ==> ts[t].Idle?
    ensures Refs(ts, b) == 0
  {
    if ts != [] {
      NoRefs(ts[..|ts| - 1], b);
    }
  }

  lemma InvInit(s: State)
    requires Init(s)
    ensures Inv(s)
  {
    forall b: nat | s.IsBuf(b)
      ensures BufOk(s, b)
    {
      NoRefs(s.threads, b);
    }
    forall b | 0 <= b < |s.bufs|
      ensures b in s.ring
    {
      assert s.ring[|s.ring| - 1 - b] == b;
    }
  }

  lemma {:induction false} InvAt(ss: seq<State>, labels: seq<Label>, k: nat)
    requires IsRun(ss, labels) && k <= |labels|
    ensures Inv(ss[k])
  {
    if k == 0 {
      InvInit(ss[0]);
    } else {
      InvAt(ss, labels, k - 1);
      assert IsStep(ss[k - 1], labels[k - 1], ss[k]);
      InvStep(ss[k - 1], labels[k - 1]);
    }
  }

  // ----- Theorems -----

  /** At most one buffer caches a block of a real device. */
  lemma OneBufferPerBlock(ss: seq<State>, labels: seq<Label>, k: nat, a: nat, b: nat)
    requires IsRun(ss, labels) && k <= |labels| && ss[k].IsBuf(a) && ss[k].IsBuf(b)
    requires ss[k].bufs[a].key == ss[k].bufs[b].key && ss[k].bufs[a].key.dev != 0
    ensures a == b
  {
    InvAt(ss, labels, k);
    assert KeysDiffer(ss[k], a, b);
  }

  /** refcnt is the number of holders and waiters, plus one if the block is in the uncommitted log. */
  lemma RefcntCounts(ss: seq<State>, labels: seq<Label>, k: nat, b: nat)
    requires IsRun(ss, labels) && k <= |labels| && ss[k].IsBuf(b)
    ensures ss[k].bufs[b].refcnt == Refs(ss[k].threads, b) + One(ss[k].bufs[b].key in ss[k].pinned)
  {
    InvAt(ss, labels, k);
    var s := ss[k];
    assert BufOk(s, b) && KeyOk(s, s.bufs[b].key);
    assert s.bufs[b].key in s.pinned ==> KeysDiffer(s, s.pinned[s.bufs[b].key], b);
  }

  /** No changed buffer was released with contents other than those last logged or written. */
  ghost predicate NoStray(ss: seq<State>, labels: seq<Label>)
    requires |ss| >= |labels|
  {
    forall j {:trigger labels[j]} :: 0 <= j < |labels| ==> !StrayRelease(ss[j], labels[j])
  }

  /** The same for the installs of commits. */
  ghost predicate NoStrayInstall(ss: seq<State>, labels: seq<Label>)
    requires |ss| >= |labels|
  {
    forall j {:trigger labels[j]} :: 0 <= j < |labels| ==> !StrayInstall(ss[j], labels[j])
  }

  lemma BothStep(s: State, a: Label)
    requires Inv(s) && Latest(s) && Synced(s) && Enabled(s, a) && !StrayRelease(s, a)
    ensures Latest(Next(s, a)) && Synced(Next(s, a))
  {
    hide Inv, RingOk, LatestOk, SyncedOk, Next, StrayRelease, StrayInstall, Enabled;
    LatestInstalls(s, a);
    RingStep(s, a);
    forall b: nat | Next(s, a).IsBuf(b)
      ensures LatestOk(Next(s, a), b)
    {
      LatestStep(s, a, b);
    }
    forall k
      ensures SyncedOk(Next(s, a), k)
    {
      assert SyncedOk(s, k);
      SyncedStep(s, a, k);
    }
  }

  lemma {:induction false} BothAt(ss: seq<State>, labels: seq<Label>, k: nat)
    requires IsRun(ss, labels) && k <= |labels| && forall j :: 0 <= j < k ==> !StrayRelease(ss[j], labels[j])
    ensures Latest(ss[k]) && Synced(ss[k])
  {
    InvAt(ss, labels, k);
    if k > 0 {
      BothAt(ss, labels, k - 1);
      assert IsStep(ss[k - 1], labels[k - 1], ss[k]);
      InvAt(ss, labels, k - 1);
      BothStep(ss[k - 1], labels[k - 1]);
    }
  }

  /** What a stray release leaves in the cache. */
  lemma StrayStays(s: State, a: Label)
    requires Inv(s) && StrayRelease(s, a)
    ensures !Latest(ReleaseNext(s, a))
  {
    hide RingOk, CountOk;
    var r := ReleaseNext(s, a);
    assert ThreadOk(s, a.t);
    assert r.IsBuf(s.threads[a.t].b) && !LatestOk(r, s.threads[a.t].b);
  }

  /** Every cached block is the latest in every state exactly if there was no stray release. */
  lemma LatestIffNoStray(ss: seq<State>, labels: seq<Label>)
    requires IsRun(ss, labels)
    ensures (forall k {:trigger Latest(ss[k])} :: 0 <= k <= |labels| ==> Latest(ss[k])) <==> NoStray(ss, labels)
  {
    if NoStray(ss, labels) {
      forall k | 0 <= k <= |labels|
        ensures Latest(ss[k])
      {
        BothAt(ss, labels, k);
      }
    } else {
      var j :| 0 <= j < |labels| && StrayRelease(ss[j], labels[j]);
      InvAt(ss, labels, j);
      assert IsStep(ss[j], labels[j], ss[j + 1]);
      StrayStays(ss[j], labels[j]);
      assert !Latest(ss[j + 1]);
    }
  }

  /** The thread holds a valid buffer it has not changed, and sees contents other than the latest. */
  ghost predicate SeesOther(s: State, t: nat) {
    && s.IsThread(t) && s.threads[t].Holding? && !s.threads[t].dirty
    && var pc := s.threads[t];
    s.IsBuf(pc.b) && s.bufs[pc.b].valid && pc.key in s.view && s.bufs[pc.b].data != s.view[pc.key]
  }

  /**
   bread() returns the latest contents as long as there was no stray release:
   whoever holds a valid buffer it has not changed since sees what was last
   logged or written for the block it asked for.
   */
  lemma HolderSeesLatest(ss: seq<State>, labels: seq<Label>, k: nat, t: nat)
    requires IsRun(ss, labels) && k <= |labels| && ss[k].IsThread(t) && ss[k].threads[t].Holding?
    ensures var pc := ss[k].threads[t];
      && ss[k].IsBuf(pc.b) && ss[k].bufs[pc.b].key == pc.key && pc.key in ss[k].view
      && ((forall j :: 0 <= j < k ==> !StrayRelease(ss[j], labels[j])) ==> !SeesOther(ss[k], t))
  {
    InvAt(ss, labels, k);
    assert ThreadOk(ss[k], t) && BufOk(ss[k], ss[k].threads[t].b);
    if forall j :: 0 <= j < k ==> !StrayRelease(ss[j], labels[j]) {
      BothAt(ss, labels, k);
      assert LatestOk(ss[k], ss[k].threads[t].b);
    }
  }

  // ----- After a stray release -----

  /** The first buffer in the ring that caches the block of buffer b. */
  lemma Found(s: State, b: nat) returns (i: nat)
    requires Inv(s) && s.IsBuf(b) && s.bufs[b].key.dev != 0
    ensures i < |s.ring| && s.ring[i] == b
    ensures forall j :: 0 <= j < i && s.IsBuf(s.ring[j]) ==> s.bufs[s.ring[j]].key != s.bufs[b].key
  {
    assert b in s.ring;
    i :| 0 <= i < |s.ring| && s.ring[i] == b;
    forall j | 0 <= j < i && s.IsBuf(s.ring[j])
      ensures s.bufs[s.ring[j]].key != s.bufs[b].key
    {
      assert KeysDiffer(s, s.ring[j], b);
    }
  }

  lemma Referenced(s: State, t: nat)
    requires Inv(s) && s.IsThread(t) && s.threads[t].Releasing?
    ensures ReleaseEnabled(s, Deref(t))
  {
    assert ThreadOk(s, t) && BufOk(s, s.threads[t].b);
    RefsPositive(s.threads, t, s.threads[t].b);
  }

  /** brelse() changes neither contents nor blocks. */
  lemma AfterRelease(s: State, s1: State, s2: State, t: nat)
    requires Inv(s) && s.IsThread(t) && s.threads[t].Holding?
    requires ReleaseEnabled(s, Unlock(t)) && s1 == ReleaseNext(s, Unlock(t))
    requires ReleaseEnabled(s1, Deref(t)) && s2 == ReleaseNext(s1, Deref(t))
    ensures var b := s.threads[t].b;
      && s2.IsBuf(b) && s2.IsThread(t) && s2.threads[t].Idle? && s2.bufs[b].lock.None?
      && s2.bufs[b] == s.bufs[b].(lock := None, refcnt := s2.bufs[b].refcnt)
      && s2.view == s.view && s2.disk == s.disk && s2.pinned == s.pinned
  {
    hide RingOk, ToFront, Refs;
    assert ThreadOk(s, t);
  }

  /** brelse(), both sections. */
  lemma Released(s: State, t: nat) returns (s1: State, s2: State)
    requires Inv(s) && s.IsThread(t) && s.threads[t].Holding? && ReleaseEnabled(s, Unlock(t))
    ensures IsStep(s, Unlock(t), s1) && IsStep(s1, Deref(t), s2) && Inv(s2)
    ensures var b := s.threads[t].b;
      && s2.IsBuf(b) && s2.IsThread(t) && s2.threads[t].Idle? && s2.bufs[b].lock.None?
      && s2.bufs[b] == s.bufs[b].(lock := None, refcnt := s2.bufs[b].refcnt)
      && s2.view == s.view && s2.disk == s.disk && s2.pinned == s.pinned
  {
    hide Inv;
    s1 := Next(s, Unlock(t));
    InvStep(s, Unlock(t));
    Referenced(s1, t);
    s2 := Next(s1, Deref(t));
    InvStep(s1, Deref(t));
    AfterRelease(s, s1, s2, t);
  }

  /** bread() of a block that is cached in an unlocked buffer. */
  lemma Reread(s: State, t: nat, b: nat) returns (i: nat, s1: State, s2: State)
    requires Inv(s) && s.IsThread(t) && s.threads[t].Idle? && s.IsBuf(b) && s.bufs[b].key.dev != 0
    requires s.bufs[b].lock.None?
    ensures IsStep(s, Hit(t, s.bufs[b].key, i), s1) && IsStep(s1, Lock(t), s2)
    ensures s2.IsBuf(b) && s2.bufs[b] == s.bufs[b].(lock := Some(t), refcnt := s2.bufs[b].refcnt) && s2.view == s.view
    ensures s2.IsThread(t) && s2.threads[t] == Holding(b, s.bufs[b].key, false)
  {
    assert BufOk(s, b);
    i := Found(s, b);
    hide Inv, RingOk;
    s1 := Next(s, Hit(t, s.bufs[b].key, i));
    s2 := Next(s1, Lock(t));
  }

  /** A stray release can be seen: this continuation of the run has a holder that does not see the latest contents. */
  lemma StrayIsSeen(ss: seq<State>, labels: seq<Label>, t: nat) returns (more: seq<State>, steps: seq<Label>)
    requires IsRun(ss, labels) && StrayRelease(ss[|labels|], Unlock(t))
    ensures |more| == |steps| == 4 && IsRun(ss + more, labels + steps)
    ensures steps[0] == Unlock(t) && steps[1] == Deref(t) && steps[3] == Lock(t)
    ensures steps[2].Hit? && steps[2].t == t && steps[2].key == ss[|labels|].threads[t].key
    ensures SeesOther(more[3], t) && more[3].view == ss[|labels|].view
    ensures var b := ss[|labels|].threads[t].b;
      more[3].threads[t].b == b && more[3].bufs[b].data == ss[|labels|].bufs[b].data
  {
    var s := ss[|labels|];
    InvAt(ss, labels, |labels|);
    assert ThreadOk(s, t);
    hide Inv, IsStep;
    var s1, s2 := Released(s, t);
    var i, s3, s4 := Reread(s2, t, s.threads[t].b);
    more, steps := [s1, s2, s3, s4], [Unlock(t), Deref(t), Hit(t, s.threads[t].key, i), Lock(t)];
    Continued(ss, labels, more, steps);
  }

  lemma Continued(ss: seq<State>, labels: seq<Label>, more: seq<State>, steps: seq<Label>)
    requires IsRun(ss, labels) && |more| == |steps| == 4
    requires IsStep(ss[|labels|], steps[0], more[0]) && IsStep(more[0], steps[1], more[1])
    requires IsStep(more[1], steps[2], more[2]) && IsStep(more[2], steps[3], more[3])
    ensures IsRun(ss + more, labels + steps)
  {
    hide IsStep;
    var all, ls := ss + more, labels + steps;
    var n := |labels|;
    forall k | 0 <= k < |ls|
      ensures IsStep(all[k], ls[k], all[k + 1])
    {
      if k < n {
        assert IsStep(ss[k], labels[k], ss[k + 1]);
      }
    }
  }

  /** After the first j steps of a run, the steps go on from there, without a stray release among them. */
  ghost predicate Continues(ss: seq<State>, labels: seq<Label>, j: nat, more: seq<State>, steps: seq<Label>) {
    && |ss| == |labels| + 1 && j <= |labels| && IsRun(ss[..j + 1] + more, labels[..j] + steps)
    && forall i :: 0 <= i < |steps| ==> !StrayRelease((ss[..j + 1] + more)[j + i], steps[i])
  }

  function Final(ss: seq<State>, j: nat, more: seq<State>): State
    requires j < |ss|
  {
    (ss[..j + 1] + more)[j + |more|]
  }

  /**
   Whoever reads a block sees its latest contents, during the run and however it
   could go on from any of its states, exactly if the run has no stray release.
   */
  lemma HoldersIffNoStray(ss: seq<State>, labels: seq<Label>)
    requires IsRun(ss, labels)
    ensures NoStray(ss, labels) <==>
      forall j: nat, more, steps, t: nat
        {:trigger Continues(ss, labels, j, more, steps), SeesOther(Final(ss, j, more), t)} ::
        Continues(ss, labels, j, more, steps) ==> !SeesOther(Final(ss, j, more), t)
  {
    if NoStray(ss, labels) {
      forall j: nat, more, steps, t: nat | Continues(ss, labels, j, more, steps)
        ensures !SeesOther(Final(ss, j, more), t)
      {
        NoneSees(ss, labels, j, more, steps, t);
      }
    } else {
      var j :| 0 <= j < |labels| && StrayRelease(ss[j], labels[j]);
      var more, steps := StrayContinues(ss, labels, j);
      assert SeesOther(Final(ss, j + 1, more), labels[j].t);
    }
  }

  lemma NoneSees(ss: seq<State>, labels: seq<Label>, j: nat, more: seq<State>, steps: seq<Label>, t: nat)
    requires IsRun(ss, labels) && NoStray(ss, labels) && Continues(ss, labels, j, more, steps)
    ensures !SeesOther(Final(ss, j, more), t)
  {
    var all, ls := ss[..j + 1] + more, labels[..j] + steps;
    var n := |ls|;
    forall i | 0 <= i < n
      ensures !StrayRelease(all[i], ls[i])
    {
      if i < j {
        assert all[i] == ss[i] && ls[i] == labels[i];
      } else {
        assert ls[i] == steps[i - j];
      }
    }
    if all[n].IsThread(t) && all[n].threads[t].Holding? {
      HolderSeesLatest(all, ls, n, t);
    }
  }

  lemma StrayContinues(ss: seq<State>, labels: seq<Label>, j: nat) returns (more: seq<State>, steps: seq<Label>)
    requires IsRun(ss, labels) && j < |labels| && StrayRelease(ss[j], labels[j])
    ensures Continues(ss, labels, j + 1, more, steps) && SeesOther(Final(ss, j + 1, more), labels[j].t)
  {
    hide StrayRelease, SeesOther, IsStep, Init;
    var ss1, ls1, t := ss[..j + 1], labels[..j], labels[j].t;
    Unlocks(ss[j], labels[j]);
    var more1, steps1 := StrayIsSeen(ss1, ls1, t);
    assert IsStep(ss[j], labels[j], ss[j + 1]);
    assert IsStep((ss1 + more1)[j], (ls1 + steps1)[j], (ss1 + more1)[j + 1]);
    OneNext(ss[j], labels[j], ss[j + 1], more1[0]);
    more, steps := more1[1..], steps1[1..];
    assert ss[..j + 2] + more == ss1 + more1;
    assert labels[..j + 1] + steps == ls1 + steps1;
    forall i | 0 <= i < |steps|
      ensures !StrayRelease((ss[..j + 2] + more)[j + 1 + i], steps[i])
    {
      NotUnlock((ss[..j + 2] + more)[j + 1 + i], steps[i]);
    }
  }

  lemma Unlocks(s: State, a: Label)
    requires StrayRelease(s, a)
    ensures a == Unlock(a.t)
  {
  }

  lemma OneNext(s: State, a: Label, r: State, r': State)
    requires IsStep(s, a, r) && IsStep(s, a, r')
    ensures r == r'
  {
  }

  lemma NotUnlock(s: State, a: Label)
    requires !a.Unlock?
    ensures !StrayRelease(s, a)
  {
  }

  /** Two threads never hold the same buffer. */
  lemma HoldersExclude(ss: seq<State>, labels: seq<Label>, k: nat, t: nat, u: nat)
    requires IsRun(ss, labels) && k <= |labels| && ss[k].IsThread(t) && ss[k].IsThread(u)
    requires ss[k].threads[t].Holding? && ss[k].threads[u].Holding? && ss[k].threads[t].b == ss[k].threads[u].b
    ensures t == u
  {
    InvAt(ss, labels, k);
    assert ThreadOk(ss[k], t) && ThreadOk(ss[k], u);
  }

  /**
   Every block outside the uncommitted log is on disk as last logged or written,
   in every state, exactly if no commit installed stray contents.
   */
  lemma SyncedIffNoStrayInstall(ss: seq<State>, labels: seq<Label>)
    requires IsRun(ss, labels)
    ensures (forall k {:trigger Synced(ss[k])} :: 0 <= k <= |labels| ==> Synced(ss[k])) <==> NoStrayInstall(ss, labels)
  {
    if NoStrayInstall(ss, labels) {
      forall k | 0 <= k <= |labels|
        ensures Synced(ss[k])
      {
        SyncedAt(ss, labels, k);
      }
    } else {
      var j :| 0 <= j < |labels| && StrayInstall(ss[j], labels[j]);
      var s, a := ss[j], labels[j];
      InvAt(ss, labels, j);
      assert IsStep(s, a, ss[j + 1]);
      assert ThreadOk(s, a.t) && KeyOk(s, s.threads[a.t].key);
      assert !SyncedOk(ss[j + 1], s.threads[a.t].key);
      assert !Synced(ss[j + 1]);
    }
  }

  lemma {:induction false} SyncedAt(ss: seq<State>, labels: seq<Label>, k: nat)
    requires IsRun(ss, labels) && k <= |labels| && forall j :: 0 <= j < k ==> !StrayInstall(ss[j], labels[j])
    ensures Synced(ss[k])
  {
    if k > 0 {
      SyncedAt(ss, labels, k - 1);
      assert IsStep(ss[k - 1], labels[k - 1], ss[k]);
      InvAt(ss, labels, k - 1);
      forall key
        ensures SyncedOk(ss[k], key)
      {
        assert SyncedOk(ss[k - 1], key);
        SyncedStep(ss[k - 1], labels[k - 1], key);
      }
    }
  }

  /** A stray release of a block of the uncommitted log reaches the disk: the commit installs what the cache has. */
  lemma StrayIsCommitted(s: State, t: nat)
    requires Inv(s) && SeesOther(s, t) && s.threads[t].key in s.pinned
    ensures HoldEnabled(s, Install(t)) && StrayInstall(s, Install(t))
    ensures !SyncedOk(HoldNext(s, Install(t)), s.threads[t].key)
  {
    var b, key := s.threads[t].b, s.threads[t].key;
    assert ThreadOk(s, t) && BufOk(s, b) && KeyOk(s, key);
    RefsPositive(s.threads, t, b);
  }

  /**
   Recycling is fair and takes nothing that is in use: the buffer taken is
   unlocked, its block is not in the uncommitted log, and no unreferenced buffer
   was released longer ago. It loses nothing: its block is on disk as last logged
   or written, if no commit had installed stray contents.
   */
  lemma RecycleIsSafeAndLru(ss: seq<State>, labels: seq<Label>, k: nat, b: nat)
    requires IsRun(ss, labels) && k < |labels| && labels[k].Recycle? && ss[k].IsBuf(b) && ss[k].bufs[b].refcnt == 0
    ensures labels[k].i < |ss[k].ring| && ss[k].IsBuf(ss[k].ring[labels[k].i])
    ensures var v := ss[k].ring[labels[k].i];
      && ss[k].bufs[v].refcnt == 0 && ss[k].bufs[v].lock.None? && ss[k].bufs[v].key !in ss[k].pinned
      && ss[k].moved[v] <= ss[k].moved[b]
      && ((forall j :: 0 <= j < k ==> !StrayInstall(ss[j], labels[j])) && ss[k].IsKey(ss[k].bufs[v].key) ==>
            ss[k].disk[ss[k].bufs[v].key] == ss[k].view[ss[k].bufs[v].key])
  {
    InvAt(ss, labels, k);
    var s, a := ss[k], labels[k];
    assert IsStep(s, a, ss[k + 1]);
    var v := s.ring[a.i];
    Unreferenced(s, v, a.t);
    assert b in s.ring;
    var j :| 0 <= j < |s.ring| && s.ring[j] == b;
    if j < a.i {
      assert s.moved[s.ring[j]] > s.moved[s.ring[a.i]];
    }
    if forall j :: 0 <= j < k ==> !StrayInstall(ss[j], labels[j]) {
      SyncedAt(ss, labels, k);
      assert SyncedOk(s, s.bufs[v].key);
    }
  }

  /** A logged block stays cached until it is installed, with the logged contents if there was no stray release. */
  lemma PinnedStaysCached(ss: seq<State>, labels: seq<Label>, k: nat, key: Key)
    requires IsRun(ss, labels) && k <= |labels| && key in ss[k].pinned
    ensures var b := ss[k].pinned[key];
      && ss[k].IsBuf(b) && ss[k].bufs[b].key == key && ss[k].bufs[b].valid && ss[k].bufs[b].refcnt > 0
      && key in ss[k].view
      && ((forall j :: 0 <= j < k ==> !StrayRelease(ss[j], labels[j])) && !Dirty(ss[k], b) ==>
            ss[k].bufs[b].data == ss[k].view[key])
  {
    InvAt(ss, labels, k);
    assert KeyOk(ss[k], key);
    assert BufOk(ss[k], ss[k].pinned[key]);
    if forall j :: 0 <= j < k ==> !StrayRelease(ss[j], labels[j]) {
      BothAt(ss, labels, k);
      assert LatestOk(ss[k], ss[k].pinned[key]);
    }
  }

  // ----- writei() whose copy fails -----

  function Start(): (s: State) {
    State([Buf(false, Key(0, 0), 0, None, 0)], [0], [0], 1, map[Key(1, 5) := 3], map[Key(1, 5) := 3], map[], [Idle])
  }

  /** One buffer and one thread: read block 5, change it, release it without log_write, and read it again. */
  lemma FailedCopyIsSeen() returns (ss: seq<State>, labels: seq<Label>)
    ensures IsRun(ss, labels) && ss[0] == Start() && |labels| == 8
    ensures labels[..5] == [Recycle(0, Key(1, 5), 0), Lock(0), Fill(0), Modify(0, 4), Unlock(0)]
    ensures SeesOther(ss[8], 0) && ss[8].threads[0].b == 0 && ss[8].bufs[0].data == 4
    ensures ss[8].view == map[Key(1, 5) := 3]
  {
    var key := Key(1, 5);
    var s0 := Start();
    var s1 := s0.(bufs := [Buf(false, key, 1, None, 0)], threads := [WantLock(0, key)]);
    var s2 := s0.(bufs := [Buf(false, key, 1, Some(0), 0)], threads := [Holding(0, key, false)]);
    var s3 := s0.(bufs := [Buf(true, key, 1, Some(0), 3)], threads := [Holding(0, key, false)]);
    var s4 := s0.(bufs := [Buf(true, key, 1, Some(0), 4)], threads := [Holding(0, key, true)]);
    assert IsStep(s0, Recycle(0, key, 0), s1);
    assert IsStep(s1, Lock(0), s2);
    assert IsStep(s2, Fill(0), s3);
    assert IsStep(s3, Modify(0, 4), s4);
    assert StrayRelease(s4, Unlock(0));
    ss, labels := [s0, s1, s2, s3, s4], [Recycle(0, key, 0), Lock(0), Fill(0), Modify(0, 4)];
    hide IsStep, StrayRelease;
    var more, steps := StrayIsSeen(ss, labels, 0);
    ss, labels := ss + more, labels + steps;
  }
}
