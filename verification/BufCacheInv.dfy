/** What every step of the buffer cache keeps. */
module BufCacheInv {
  import opened ProcTypes
  import opened BufCache

  // ----- References -----

  /** The thread has a reference to buffer b. */
  predicate Uses(pc: Pc, b: nat) {
    !pc.Idle? && pc.b == b
  }

  function One(c: bool): (n: nat) {
    if c then 1 else 0
  }

  /** Holders of buffer b and threads waiting for it. */
  function Refs(ts: seq<Pc>, b: nat): (n: nat) {
    if ts == [] then 0 else Refs(ts[..|ts| - 1], b) + One(Uses(ts[|ts| - 1], b))
  }

  lemma {:induction false} RefsUpdate(ts: seq<Pc>, i: nat, pc: Pc, b: nat)
    requires i < |ts|
    ensures Refs(ts[i := pc], b) + One(Uses(ts[i], b)) == Refs(ts, b) + One(Uses(pc, b))
  {
    var n := |ts| - 1;
    if i == n {
      assert ts[i := pc][..n] == ts[..n];
    } else {
      assert ts[i := pc][..n] == ts[..n][i := pc];
      RefsUpdate(ts[..n], i, pc, b);
    }
  }

  lemma {:induction false} RefsPositive(ts: seq<Pc>, i: nat, b: nat)
    requires i < |ts| && Uses(ts[i], b)
    ensures Refs(ts, b) > 0
  {
    if i < |ts| - 1 {
      RefsPositive(ts[..|ts| - 1], i, b);
    }
  }

  // ----- The facts -----

  predicate ThreadOk(s: State, t: nat)
    requires s.IsThread(t)
  {
    var pc := s.threads[t];
    !pc.Idle? ==>
      && s.IsBuf(pc.b) && s.bufs[pc.b].key == pc.key && s.IsKey(pc.key)
      && (pc.Holding? ==> s.bufs[pc.b].lock == Some(t) && (pc.dirty ==> s.bufs[pc.b].valid))
  }

  /** The reference that the log holds on buffer b. */
  function Pins(s: State, b: nat): (n: nat)
    requires s.IsBuf(b)
  {
    One(s.bufs[b].key in s.pinned && s.pinned[s.bufs[b].key] == b)
  }

  /** The holder of the buffer is about to log or write what it changed. */
  predicate Dirty(s: State, b: nat)
    requires s.IsBuf(b)
  {
    && s.bufs[b].lock.Some? && s.IsThread(s.bufs[b].lock.value)
    && s.threads[s.bufs[b].lock.value] == Holding(b, s.bufs[b].key, true)
  }

  predicate LockOk(s: State, b: nat)
    requires s.IsBuf(b)
  {
    s.bufs[b].lock.Some? ==>
      && s.IsThread(s.bufs[b].lock.value)
      && s.threads[s.bufs[b].lock.value].Holding? && s.threads[s.bufs[b].lock.value].b == b
  }

  predicate CountOk(s: State, b: nat)
    requires s.IsBuf(b)
  {
    s.bufs[b].refcnt == Refs(s.threads, b) + Pins(s, b)
  }

  predicate KnownOk(s: State, b: nat)
    requires s.IsBuf(b)
  {
    s.bufs[b].key.dev != 0 ==> s.IsKey(s.bufs[b].key)
  }

  /** A valid buffer that its holder has not changed has the contents last logged or written. */
  predicate LatestOk(s: State, b: nat)
    requires s.IsBuf(b)
  {
    var x := s.bufs[b];
    x.key.dev != 0 && x.valid && !Dirty(s, b) && x.key in s.view ==> x.data == s.view[x.key]
  }

  ghost predicate Latest(s: State) {
    forall b: nat {:trigger LatestOk(s, b)} :: s.IsBuf(b) ==> LatestOk(s, b)
  }

  /** A block that is not in the uncommitted log is on disk as it was last logged or written. */
  predicate SyncedOk(s: State, k: Key) {
    k in s.disk && k in s.view && k !in s.pinned ==> s.disk[k] == s.view[k]
  }

  ghost predicate Synced(s: State) {
    forall k {:trigger SyncedOk(s, k)} :: SyncedOk(s, k)
  }

  predicate KeysDiffer(s: State, a: nat, b: nat)
    requires s.IsBuf(a) && s.IsBuf(b)
  {
    a != b && s.bufs[a].key == s.bufs[b].key ==> s.bufs[a].key.dev == 0
  }

  predicate KeyOk(s: State, k: Key) {
    && (k in s.disk <==> k in s.view)
    && (k in s.pinned ==>
          k.dev != 0 && s.IsBuf(s.pinned[k]) && s.bufs[s.pinned[k]].key == k && s.bufs[s.pinned[k]].valid)
  }

  ghost predicate RingOk(s: State) {
    && |s.ring| == |s.bufs| == |s.moved|
    && (forall i :: 0 <= i < |s.ring| ==> 0 <= s.ring[i] < |s.bufs|)
    && (forall b :: 0 <= b < |s.bufs| ==> b in s.ring)
    && (forall i, j :: 0 <= i < j < |s.ring| ==> s.ring[i] != s.ring[j])
    && (forall b :: 0 <= b < |s.moved| ==> s.moved[b] < s.now)
    && Sorted(s.ring, s.moved)
  }

  /** Later in the ring is longer ago. */
  ghost predicate Sorted(ring: seq<nat>, moved: seq<nat>) {
    forall i, j :: 0 <= i < j < |ring| && ring[i] < |moved| && ring[j] < |moved| ==> moved[ring[i]] > moved[ring[j]]
  }

  ghost predicate BufOk(s: State, b: nat)
    requires s.IsBuf(b)
  {
    LockOk(s, b) && CountOk(s, b) && KnownOk(s, b)
  }

  ghost predicate Inv(s: State) {
    && RingOk(s)
    && (forall t: nat {:trigger ThreadOk(s, t)} :: s.IsThread(t) ==> ThreadOk(s, t))
    && (forall b: nat {:trigger BufOk(s, b)} :: s.IsBuf(b) ==> BufOk(s, b))
    && (forall a: nat, b: nat {:trigger KeysDiffer(s, a, b)} :: s.IsBuf(a) && s.IsBuf(b) ==> KeysDiffer(s, a, b))
    && (forall k {:trigger KeyOk(s, k)} :: KeyOk(s, k))
  }

  // ----- The ring -----

  lemma {:induction false} WithoutOk(ring: seq<nat>, b: nat)
    requires forall i, j :: 0 <= i < j < |ring| ==> ring[i] != ring[j]
    ensures forall x :: x in Without(ring, b) <==> x in ring && x != b
    ensures forall i, j :: 0 <= i < j < |Without(ring, b)| ==> Without(ring, b)[i] != Without(ring, b)[j]
    ensures |Without(ring, b)| == |ring| - One(b in ring)
  {
    if ring != [] {
      WithoutOk(ring[1..], b);
      var w := Without(ring[1..], b);
      forall j | 0 <= j < |w|
        ensures w[j] != ring[0]
      {
        assert w[j] in w && w[j] in ring[1..];
      }
    }
  }

  lemma SortedTail(ring: seq<nat>, moved: seq<nat>)
    requires ring != [] && (forall i :: 0 <= i < |ring| ==> ring[i] < |moved|) && Sorted(ring, moved)
    ensures Sorted(ring[1..], moved)
    ensures forall x :: x in ring[1..] ==> x < |moved| && moved[ring[0]] > moved[x]
  {
    forall x | x in ring[1..]
      ensures x < |moved| && moved[ring[0]] > moved[x]
    {
      var i :| 0 <= i < |ring[1..]| && ring[1..][i] == x;
      assert ring[i + 1] == x;
    }
  }

  lemma SortedCons(x: nat, ring: seq<nat>, moved: seq<nat>)
    requires x < |moved| && Sorted(ring, moved)
    requires forall y :: y in ring ==> y < |moved| && moved[x] > moved[y]
    ensures Sorted([x] + ring, moved)
  {
  }

  lemma {:induction false} WithoutSorted(ring: seq<nat>, moved: seq<nat>, b: nat)
    requires (forall i :: 0 <= i < |ring| ==> ring[i] < |moved|) && Sorted(ring, moved)
    requires forall i, j :: 0 <= i < j < |ring| ==> ring[i] != ring[j]
    ensures Sorted(Without(ring, b), moved)
  {
    if ring != [] {
      SortedTail(ring, moved);
      WithoutSorted(ring[1..], moved, b);
      WithoutOk(ring[1..], b);
      if ring[0] != b {
        SortedCons(ring[0], Without(ring[1..], b), moved);
      }
    }
  }

  lemma FrontSorted(ring: seq<nat>, moved: seq<nat>, b: nat, now: nat)
    requires (forall i :: 0 <= i < |ring| ==> ring[i] < |moved|) && Sorted(ring, moved) && b < |moved|
    requires forall i, j :: 0 <= i < j < |ring| ==> ring[i] != ring[j]
    requires forall x :: 0 <= x < |moved| ==> moved[x] < now
    ensures Sorted(ToFront(ring, b), moved[b := now])
  {
    var rest := Without(ring, b);
    WithoutOk(ring, b);
    WithoutSorted(ring, moved, b);
    forall i | 0 <= i < |rest|
      ensures rest[i] < |moved| && rest[i] != b
    {
      assert rest[i] in rest && rest[i] in ring;
    }
  }

  /** Moving the buffer released last to the head keeps the order. */
  lemma FrontOk(s: State, b: nat)
    requires RingOk(s) && s.IsBuf(b)
    ensures RingOk(s.(ring := ToFront(s.ring, b), moved := s.moved[b := s.now], now := s.now + 1))
  {
    hide Sorted;
    var rest := Without(s.ring, b);
    WithoutOk(s.ring, b);
    FrontSorted(s.ring, s.moved, b, s.now);
    forall x | 0 <= x < |s.bufs|
      ensures x in ToFront(s.ring, b)
    {
      assert x == b || x in rest;
    }
    forall i | 0 <= i < |rest|
      ensures 0 <= rest[i] < |s.bufs| && rest[i] != b
    {
      assert rest[i] in rest && rest[i] in s.ring;
    }
  }

  // ----- Getting a buffer -----

  /** An unreferenced buffer is used by no thread and not pinned. */
  lemma Unreferenced(s: State, b: nat, t: nat)
    requires Inv(s) && s.IsBuf(b) && s.bufs[b].refcnt == 0 && s.IsThread(t)
    ensures !Uses(s.threads[t], b) && s.bufs[b].key !in s.pinned && s.bufs[b].lock.None?
  {
    assert BufOk(s, b);
    if Uses(s.threads[t], b) {
      RefsPositive(s.threads, t, b);
    }
    assert KeyOk(s, s.bufs[b].key);
    assert s.bufs[b].key in s.pinned ==> KeysDiffer(s, s.pinned[s.bufs[b].key], b);
    if s.bufs[b].lock.Some? {
      RefsPositive(s.threads, s.bufs[b].lock.value, b);
    }
  }

  /** A block that no buffer in the ring caches is cached by none. */
  lemma NotCached(s: State, a: Label, b: nat)
    requires Inv(s) && a.Recycle? && GetEnabled(s, a) && s.IsBuf(b)
    ensures s.bufs[b].key != a.key
  {
    assert b in s.ring;
  }

  lemma ThreadGet(s: State, a: Label, u: nat)
    requires IsGet(a) && Inv(s) && GetEnabled(s, a) && s.IsThread(u)
    ensures ThreadOk(GetNext(s, a), u)
  {
    assert ThreadOk(s, u);
    if a.Recycle? {
      Unreferenced(s, s.ring[a.i], u);
    }
  }

  lemma BufGet(s: State, a: Label, b: nat)
    requires IsGet(a) && Inv(s) && GetEnabled(s, a) && s.IsBuf(b)
    ensures BufOk(GetNext(s, a), b)
  {
    assert BufOk(s, b) && KeyOk(s, a.key);
    RefsUpdate(s.threads, a.t, WantLock(s.ring[a.i], a.key), b);
    if a.Recycle? {
      Unreferenced(s, s.ring[a.i], a.t);
      NotCached(s, a, b);
      if a.key in s.pinned {
        NotCached(s, a, s.pinned[a.key]);
      }
    }
  }

  lemma KeysGet(s: State, a: Label, b: nat, c: nat)
    requires IsGet(a) && Inv(s) && GetEnabled(s, a) && s.IsBuf(b) && s.IsBuf(c)
    ensures KeysDiffer(GetNext(s, a), b, c)
  {
    assert KeysDiffer(s, b, c);
    if a.Recycle? {
      NotCached(s, a, b);
      NotCached(s, a, c);
    }
  }

  lemma KeyGet(s: State, a: Label, k: Key)
    requires IsGet(a) && Inv(s) && GetEnabled(s, a)
    ensures KeyOk(GetNext(s, a), k)
  {
    assert KeyOk(s, k);
    if a.Recycle? {
      Unreferenced(s, s.ring[a.i], a.t);
    }
  }

  // ----- Holding a buffer -----

  lemma ThreadHold(s: State, a: Label, u: nat)
    requires IsHold(a) && Inv(s) && HoldEnabled(s, a) && s.IsThread(u)
    ensures ThreadOk(HoldNext(s, a), u)
  {
    assert ThreadOk(s, u) && ThreadOk(s, a.t);
    assert BufOk(s, s.threads[a.t].b) && KeyOk(s, s.threads[a.t].key);
  }

  lemma CountHold(s: State, a: Label, b: nat)
    requires IsHold(a) && Inv(s) && HoldEnabled(s, a) && s.IsBuf(b)
    ensures CountOk(HoldNext(s, a), b)
  {
    hide KnownOk, LockOk;
    assert ThreadOk(s, a.t);
    var c, key := s.threads[a.t].b, s.threads[a.t].key;
    assert BufOk(s, b) && BufOk(s, c) && KeysDiffer(s, b, c) && KeyOk(s, key);
    RefsUpdate(s.threads, a.t, HoldNext(s, a).threads[a.t], b);
    assert s.threads[a.t := HoldNext(s, a).threads[a.t]] == HoldNext(s, a).threads;
    if key in s.pinned {
      assert KeysDiffer(s, s.pinned[key], c);
    }
  }

  lemma BufHold(s: State, a: Label, b: nat)
    requires IsHold(a) && Inv(s) && HoldEnabled(s, a) && s.IsBuf(b)
    ensures BufOk(HoldNext(s, a), b)
  {
    hide CountOk;
    assert ThreadOk(s, a.t);
    var c, key := s.threads[a.t].b, s.threads[a.t].key;
    assert BufOk(s, b) && BufOk(s, c) && KeysDiffer(s, b, c) && KeyOk(s, key);
    assert key in s.pinned ==> KeysDiffer(s, s.pinned[key], c);
    CountHold(s, a, b);
  }

  lemma KeysHold(s: State, a: Label, b: nat, c: nat)
    requires IsHold(a) && Inv(s) && HoldEnabled(s, a) && s.IsBuf(b) && s.IsBuf(c)
    ensures KeysDiffer(HoldNext(s, a), b, c)
  {
    assert KeysDiffer(s, b, c);
  }

  lemma KeyHold(s: State, a: Label, k: Key)
    requires IsHold(a) && Inv(s) && HoldEnabled(s, a)
    ensures KeyOk(HoldNext(s, a), k)
  {
    assert ThreadOk(s, a.t) && BufOk(s, s.threads[a.t].b) && KeyOk(s, k);
  }

  // ----- Releasing a buffer -----

  lemma ThreadRelease(s: State, a: Label, u: nat)
    requires (a.Unlock? || a.Deref?) && Inv(s) && ReleaseEnabled(s, a) && s.IsThread(u)
    ensures ThreadOk(ReleaseNext(s, a), u)
  {
    assert ThreadOk(s, u) && ThreadOk(s, a.t);
  }

  lemma BufRelease(s: State, a: Label, b: nat)
    requires (a.Unlock? || a.Deref?) && Inv(s) && ReleaseEnabled(s, a) && s.IsBuf(b)
    ensures BufOk(ReleaseNext(s, a), b)
  {
    hide RingOk, ToFront, KeyOk, KeysDiffer;
    assert ThreadOk(s, a.t) && BufOk(s, b) && BufOk(s, s.threads[a.t].b);
    RefsUpdate(s.threads, a.t, ReleaseNext(s, a).threads[a.t], b);
    assert s.threads[a.t := ReleaseNext(s, a).threads[a.t]] == ReleaseNext(s, a).threads;
  }

  lemma KeysRelease(s: State, a: Label, b: nat, c: nat)
    requires (a.Unlock? || a.Deref?) && Inv(s) && ReleaseEnabled(s, a) && s.IsBuf(b) && s.IsBuf(c)
    ensures KeysDiffer(ReleaseNext(s, a), b, c)
  {
    assert KeysDiffer(s, b, c);
  }

  lemma KeyRelease(s: State, a: Label, k: Key)
    requires (a.Unlock? || a.Deref?) && Inv(s) && ReleaseEnabled(s, a)
    ensures KeyOk(ReleaseNext(s, a), k)
  {
    assert KeyOk(s, k);
  }

  // ----- Contents -----

  /** Without stray releases a buffer that is not being changed stays the latest. */
  lemma LatestStep(s: State, a: Label, b: nat)
    requires Inv(s) && Latest(s) && Synced(s) && Enabled(s, a) && !StrayRelease(s, a) && s.IsBuf(b)
    requires Next(s, a).IsBuf(b)
    ensures LatestOk(Next(s, a), b)
  {
    assert LatestOk(s, b) && BufOk(s, b);
    if IsGet(a) {
      if a.Recycle? {
        Unreferenced(s, s.ring[a.i], a.t);
      }
    } else {
      LatestHeld(s, a, b);
    }
  }

  lemma LatestHeld(s: State, a: Label, b: nat)
    requires Inv(s) && s.IsBuf(b) && LatestOk(s, b) && Synced(s)
    requires Enabled(s, a) && !IsGet(a) && !StrayRelease(s, a) && Next(s, a).IsBuf(b)
    ensures LatestOk(Next(s, a), b)
  {
    hide RingOk, CountOk, ToFront;
    assert ThreadOk(s, a.t);
    var c, key := s.threads[a.t].b, s.threads[a.t].key;
    assert BufOk(s, b) && BufOk(s, c) && KeysDiffer(s, b, c) && KeyOk(s, key) && SyncedOk(s, key);
    assert key in s.pinned ==> KeysDiffer(s, s.pinned[key], c);
  }

  /** Without stray installs the disk stays in step with what was logged. */
  lemma SyncedStep(s: State, a: Label, k: Key)
    requires Inv(s) && SyncedOk(s, k) && Enabled(s, a) && !StrayInstall(s, a)
    ensures SyncedOk(Next(s, a), k)
  {
    hide RingOk, CountOk, ToFront;
    assert KeyOk(s, k);
    if IsHold(a) {
      assert ThreadOk(s, a.t);
    }
  }

  /** Where the buffers are the latest, an install writes what was logged. */
  lemma LatestInstalls(s: State, a: Label)
    requires Inv(s) && Latest(s) && Enabled(s, a)
    ensures !StrayInstall(s, a)
  {
    if a.Install? {
      assert ThreadOk(s, a.t) && LatestOk(s, s.threads[a.t].b);
    }
  }
}
