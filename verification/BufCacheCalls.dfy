/**
 What a user of the buffer cache gets and does, in terms of its calls: the block it
 asked for, and on its log_write() or bwrite() the contents it has put there.
 */
module BufCacheCalls {
  import opened ProcTypes
  import opened BufCache
  import opened BufCacheInv
  import opened BufCacheRuns

  // ----- The block asked for -----

  /** Thread t is between bget() and the end of brelse() of the block. */
  predicate InCall(s: State, t: nat, key: Key) {
    s.IsThread(t) && !s.threads[t].Idle? && s.threads[t].key == key
  }

  lemma {:induction false} CallStep(s: State, a: Label, t: nat, key: Key)
    requires Enabled(s, a) && InCall(s, t, key) && a != Deref(t)
    ensures InCall(Next(s, a), t, key)
  {
  }

  lemma {:induction false} CallLasts(ss: seq<State>, labels: seq<Label>, j: nat, k: nat)
    requires IsRun(ss, labels) && j < k <= |labels| && IsGet(labels[j])
    requires forall i :: j < i < k ==> labels[i] != Deref(labels[j].t)
    ensures InCall(ss[k], labels[j].t, labels[j].key)
  {
    assert IsStep(ss[k - 1], labels[k - 1], ss[k]);
    if k > j + 1 {
      hide Init, Enabled, Next, InCall;
      CallLasts(ss, labels, j, k - 1);
      CallStep(ss[k - 1], labels[k - 1], labels[j].t, labels[j].key);
    }
  }

  /** From bget() to brelse() a thread has a buffer for the block it asked for. */
  lemma GetsItsBlock(ss: seq<State>, labels: seq<Label>, j: nat, k: nat)
    requires IsRun(ss, labels) && j < k <= |labels| && IsGet(labels[j])
    requires forall i :: j < i < k ==> labels[i] != Deref(labels[j].t)
    ensures ss[k].IsThread(labels[j].t) && !ss[k].threads[labels[j].t].Idle?
    ensures var pc := ss[k].threads[labels[j].t];
      pc.key == labels[j].key && ss[k].IsBuf(pc.b) && ss[k].bufs[pc.b].key == labels[j].key
  {
    CallLasts(ss, labels, j, k);
    InvAt(ss, labels, k);
    assert ThreadOk(ss[k], labels[j].t);
    hide Inv;
  }

  // ----- The contents put there -----

  /** Thread t holds the block and has put d into its buffer. */
  predicate HasPut(s: State, t: nat, key: Key, d: Data) {
    && s.IsThread(t) && s.threads[t].Holding? && s.threads[t].key == key && s.IsBuf(s.threads[t].b)
    && s.bufs[s.threads[t].b].valid && s.bufs[s.threads[t].b].data == d
  }

  /** The step is the one that changes the buffer of t again, or gives it up. */
  predicate Ends(a: Label, t: nat) {
    a == Unlock(t) || (a.Modify? && a.t == t)
  }

  lemma {:induction false} PutGet(s: State, a: Label, t: nat, key: Key, d: Data)
    requires IsGet(a) && GetEnabled(s, a) && HasPut(s, t, key, d) && s.bufs[s.threads[t].b].refcnt > 0
    ensures HasPut(GetNext(s, a), t, key, d)
  {
  }

  lemma {:induction false} PutHold(s: State, a: Label, t: nat, key: Key, d: Data)
    requires IsHold(a) && HoldEnabled(s, a) && HasPut(s, t, key, d) && !Ends(a, t)
    requires ThreadOk(s, t) && ThreadOk(s, a.t)
    ensures HasPut(HoldNext(s, a), t, key, d)
  {
  }

  lemma {:induction false} PutRelease(s: State, a: Label, t: nat, key: Key, d: Data)
    requires (a.Unlock? || a.Deref?) && ReleaseEnabled(s, a) && HasPut(s, t, key, d) && !Ends(a, t)
    ensures HasPut(ReleaseNext(s, a), t, key, d)
  {
    hide ToFront;
  }

  lemma {:induction false} PutStep(s: State, a: Label, t: nat, key: Key, d: Data)
    requires Inv(s) && Enabled(s, a) && HasPut(s, t, key, d) && !Ends(a, t)
    ensures HasPut(Next(s, a), t, key, d)
  {
    assert ThreadOk(s, t) && BufOk(s, s.threads[t].b);
    RefsPositive(s.threads, t, s.threads[t].b);
    if IsHold(a) {
      assert ThreadOk(s, a.t);
    }
    hide Inv, GetEnabled, GetNext, HoldEnabled, HoldNext, ReleaseEnabled, ReleaseNext, Refs;
    if IsGet(a) {
      PutGet(s, a, t, key, d);
    } else if IsHold(a) {
      PutHold(s, a, t, key, d);
    } else {
      PutRelease(s, a, t, key, d);
    }
  }

  lemma {:induction false} PutLasts(ss: seq<State>, labels: seq<Label>, j: nat, k: nat, t: nat, d: Data)
    requires IsRun(ss, labels) && j < k <= |labels| && labels[j] == Modify(t, d)
    requires forall i :: j < i < k ==> !Ends(labels[i], t)
    ensures ss[j].IsThread(t) && ss[j].threads[t].Holding? && HasPut(ss[k], t, ss[j].threads[t].key, d)
  {
    assert IsStep(ss[k - 1], labels[k - 1], ss[k]);
    if k > j + 1 {
      hide Init, Enabled, Next, HasPut, Inv;
      InvAt(ss, labels, k - 1);
      PutLasts(ss, labels, j, k - 1, t, d);
      PutStep(ss[k - 1], labels[k - 1], t, ss[j].threads[t].key, d);
    }
  }

  /**
   What the holder of a block has put into its buffer is what its next log_write() makes
   the latest contents of that block, and what its next bwrite() writes to the disk.
   */
  lemma WritesWhatWasPut(ss: seq<State>, labels: seq<Label>, j: nat, k: nat, t: nat, d: Data)
    requires IsRun(ss, labels) && j < k < |labels| && labels[j] == Modify(t, d)
    requires labels[k] == LogWrite(t) || labels[k] == Bwrite(t)
    requires forall i :: j < i < k ==> !Ends(labels[i], t)
    ensures ss[j].IsThread(t) && ss[j].threads[t].Holding?
    ensures var key := ss[j].threads[t].key;
      && key in ss[k + 1].view && ss[k + 1].view[key] == d
      && (labels[k].Bwrite? ==> key in ss[k + 1].disk && ss[k + 1].disk[key] == d)
      && (labels[k].LogWrite? ==> key in ss[k + 1].pinned)
  {
    PutLasts(ss, labels, j, k, t, d);
    InvAt(ss, labels, k);
    assert IsStep(ss[k], labels[k], ss[k + 1]);
    assert ThreadOk(ss[k], t);
    hide Inv;
  }

  // ----- Nothing else -----

  /** A holder of the block whose buffer has these contents. */
  predicate HeldBy(s: State, t: nat, key: Key, d: Data) {
    && s.IsThread(t) && s.threads[t].Holding? && s.IsBuf(s.threads[t].b)
    && s.bufs[s.threads[t].b].key == key && s.bufs[s.threads[t].b].valid && s.bufs[s.threads[t].b].data == d
  }

  /**
   The latest contents of a block change only by a log_write() or bwrite() of its holder,
   the disk only by a bwrite() of its holder or by install_trans(), each to what is in
   the buffer; and a block leaves the log only when it is installed.
   */
  lemma OnlyHoldersWrite(ss: seq<State>, labels: seq<Label>, k: nat, key: Key)
    requires IsRun(ss, labels) && k < |labels| && key in ss[k].view && key in ss[k].disk
    ensures key in ss[k + 1].view && key in ss[k + 1].disk
    ensures var s, a, r := ss[k], labels[k], ss[k + 1];
      && (r.view[key] != s.view[key] ==> (a.LogWrite? || a.Bwrite?) && HeldBy(s, a.t, key, r.view[key]))
      && (r.disk[key] != s.disk[key] ==> (a.Bwrite? || a.Install?) && HeldBy(s, a.t, key, r.disk[key]))
      && (a.Install? && s.IsThread(a.t) && s.threads[a.t].Holding? && s.threads[a.t].key == key ==>
            HeldBy(s, a.t, key, r.disk[key]))
      && (key in s.pinned && key !in r.pinned ==> a.Install? && HeldBy(s, a.t, key, r.disk[key]))
  {
    assert IsStep(ss[k], labels[k], ss[k + 1]);
    InvAt(ss, labels, k);
    if IsHold(labels[k]) {
      assert ThreadOk(ss[k], labels[k].t);
    }
    hide Inv, ToFront;
  }

  /** The ring changes only when the last reference to a buffer is given up: that buffer then moves to the front. */
  lemma RingMovesOnLastRelease(ss: seq<State>, labels: seq<Label>, k: nat)
    requires IsRun(ss, labels) && k < |labels|
    ensures var s, a, r := ss[k], labels[k], ss[k + 1];
      if a.Deref? && s.IsThread(a.t) && !s.threads[a.t].Idle? && s.IsBuf(s.threads[a.t].b)
         && s.bufs[s.threads[a.t].b].refcnt == 1
      then r.ring == [s.threads[a.t].b] + Without(s.ring, s.threads[a.t].b)
      else r.ring == s.ring
  {
    assert IsStep(ss[k], labels[k], ss[k + 1]);
    hide Without;
  }
}
