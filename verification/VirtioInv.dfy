/** What every step of driver and device keeps. */
module VirtioInv {
  import opened ProcTypes
  import opened Virtio

  // ----- The facts -----

  predicate Done(stage: Stage) {
    stage.Served? || stage.Used? || stage.Noted?
  }

  /** The three descriptors, the info entry and the thread of the chain that starts at h. */
  predicate ChainOk(s: State, h: nat)
    requires s.Sized() && s.IsDesc(h) && s.role[h].Head?
  {
    var t, h1, h2 := s.role[h].t, s.role[h].h1, s.role[h].h2;
    && s.IsThread(t) && s.IsDesc(h1) && s.IsDesc(h2) && h != h1 && h != h2 && h1 != h2
    && s.role[h1] == Mid(h) && s.role[h2] == Last(h)
    && s.desc[h] == Desc(OpOf(h), 16, true, false, h1)
    && s.desc[h1] == Desc(BufOf(t), 1024, true, !s.ops[h].out, h2)
    && s.desc[h2] == Desc(StatusOf(h), 1, false, true, 0)
    && s.info[h].owner == Some(t) && s.info[h].status == (if Done(s.role[h].stage) then 0 else 0xff)
    && s.threads[t] == Waiting(h, h1, h2, s.ops[h]) && s.ops[h].block in s.disk
  }

  /** A descriptor is free or part of exactly one chain, and a chain is in the place its stage says. */
  ghost predicate RoleOk(s: State, i: nat)
    requires s.Sized() && s.IsDesc(i)
  {
    && (s.free[i] <==> s.role[i].Free?) && (s.role[i].Free? ==> s.desc[i] == NODESC)
    && (!s.role[i].Head? ==> s.info[i].owner.None?)
    && (s.role[i].Head? ==> ChainOk(s, i))
    && (s.role[i].Mid? ==> s.IsDesc(s.role[i].h) && s.role[s.role[i].h].Head? && s.role[s.role[i].h].h1 == i)
    && (s.role[i].Last? ==> s.IsDesc(s.role[i].h) && s.role[s.role[i].h].Head? && s.role[s.role[i].h].h2 == i)
    && (i in s.availQ <==> s.role[i].Head? && s.role[i].stage.Avail?)
    && (i in s.taken <==> s.role[i].Head? && s.role[i].stage.Taken?)
    && (i in s.served <==> s.role[i].Head? && s.role[i].stage.Served?)
    && (i in s.usedQ <==> s.role[i].Head? && s.role[i].stage.Used?)
  }

  predicate ThreadOk(s: State, t: nat)
    requires s.Sized() && s.IsThread(t)
  {
    if s.threads[t].Idle? then s.made[t] == s.had[t]
    else
      var h := s.threads[t].h;
      && s.IsDesc(h) && s.role[h].Head? && s.role[h].t == t
      && (s.bufs[t].busy <==> !s.role[h].stage.Noted?)
      && s.made[t] == s.had[t] + if Done(s.role[h].stage) then 0 else 1
  }

  ghost predicate Distinct(q: seq<nat>) {
    && (forall k :: 0 <= k < |q| ==> q[k] < NUM)
    && (forall j, k :: 0 <= j < k < |q| ==> q[j] != q[k])
  }

  /** A ring holds the queue q from position n on; the indices are the positions' low 16 bits. */
  ghost predicate RingOk(ring: seq<nat>, q: seq<nat>, n: nat, first: nat, end: nat)
    requires |ring| == NUM
  {
    && Distinct(q)
    && (forall k {:trigger q[k]} :: 0 <= k < |q| ==> ring[(n + k) % 8] == q[k])
    && first == n % 0x1_0000 && end == (n + |q|) % 0x1_0000
  }

  ghost predicate QueuesOk(s: State)
    requires s.Sized()
  {
    && RingOk(s.availRing, s.availQ, s.nTaken, s.devSeen, s.availIdx)
    && RingOk(s.usedRing, s.usedQ, s.nSeen, s.usedSeen, s.usedIdx)
    && (forall h :: h in s.taken ==> h < NUM) && (forall h :: h in s.served ==> h < NUM)
  }

  ghost predicate Inv(s: State) {
    && s.Sized() && QueuesOk(s)
    && (forall i: nat {:trigger RoleOk(s, i)} :: s.IsDesc(i) ==> RoleOk(s, i))
    && (forall t: nat {:trigger ThreadOk(s, t)} :: s.IsThread(t) ==> ThreadOk(s, t))
  }

  // ----- Rings with 16-bit indices -----

  lemma {:induction false} DistinctBound(q: seq<nat>, n: nat)
    requires (forall k :: 0 <= k < |q| ==> q[k] < n) && (forall j, k :: 0 <= j < k < |q| ==> q[j] != q[k])
    ensures |q| <= n
  {
    if |q| > 0 {
      assert q[0] < n;
      if n - 1 in q {
        var k :| 0 <= k < |q| && q[k] == n - 1;
        DistinctBound(q[..k] + q[k + 1..], n - 1);
      } else {
        DistinctBound(q, n - 1);
      }
    }
  }

  lemma {:induction false} LowAdd(a: nat, r: nat, m: nat)
    requires m == 8 || m == 0x1_0000
    ensures (m * a + r) % m == r % m
  {
  }

  lemma {:induction false} Low16(n: nat)
    ensures n % 0x1_0000 % 8 == n % 8 && Inc16(n % 0x1_0000) == (n + 1) % 0x1_0000
  {
    var k := n / 0x1_0000;
    LowAdd(0x2000 * k, n % 0x1_0000, 8);
    if n % 0x1_0000 == 0xFFFF {
      LowAdd(k + 1, 0, 0x1_0000);
    } else {
      LowAdd(k, n % 0x1_0000 + 1, 0x1_0000);
    }
  }

  /** Two indices differ exactly if the queue between them is not empty, wrap or no wrap. */
  lemma IndicesDiffer(ring: seq<nat>, q: seq<nat>, n: nat, first: nat, end: nat)
    requires |ring| == NUM && RingOk(ring, q, n, first, end)
    ensures first != end <==> q != []
  {
    DistinctBound(q, NUM);
    if q != [] {
      SmallStep(n, |q|);
    }
  }

  lemma SmallStep(n: nat, k: nat)
    requires 0 < k <= 8
    ensures (n + k) % 0x1_0000 != n % 0x1_0000
  {
  }

  lemma SlotsDiffer(n: nat, j: nat, k: nat)
    requires j < k < j + 8
    ensures (n + j) % 8 != (n + k) % 8
  {
  }

  /** Putting an entry in, when there is room. */
  lemma RingPut(ring: seq<nat>, q: seq<nat>, n: nat, first: nat, end: nat, h: nat)
    requires |ring| == NUM && RingOk(ring, q, n, first, end) && h < NUM && h !in q && |q| < NUM
    ensures RingOk(ring[end % NUM := h], q + [h], n, first, Inc16(end))
  {
    Low16(n + |q|);
    var ring' := ring[end % NUM := h];
    forall k | 0 <= k < |q + [h]|
      ensures ring'[(n + k) % 8] == (q + [h])[k]
    {
      if k < |q| {
        SlotsDiffer(n, k, |q|);
        assert ring[(n + k) % 8] == q[k];
      }
    }
  }

  /** Taking the first entry out. */
  lemma RingTake(ring: seq<nat>, q: seq<nat>, n: nat, first: nat, end: nat)
    requires |ring| == NUM && RingOk(ring, q, n, first, end) && q != []
    ensures ring[first % NUM] == q[0] && RingOk(ring, q[1..], n + 1, Inc16(first), end) && q[0] !in q[1..]
  {
    Low16(n);
    assert ring[(n + 0) % 8] == q[0];
    forall k | 0 <= k < |q[1..]|
      ensures ring[(n + 1 + k) % 8] == q[1..][k]
    {
      assert ring[(n + (k + 1)) % 8] == q[k + 1];
    }
  }

  /** There is room for every chain that could still be started. */
  lemma RoomToSubmit(s: State, h: nat, h1: nat, h2: nat)
    requires Inv(s) && s.IsDesc(h) && s.IsDesc(h1) && s.IsDesc(h2) && h != h1 && h != h2 && h1 != h2
    requires s.free[h] && s.free[h1] && s.free[h2]
    ensures |s.availQ| < NUM && h !in s.availQ
  {
    assert RoleOk(s, h) && RoleOk(s, h1) && RoleOk(s, h2);
    DistinctBound(s.availQ + [h, h1, h2], NUM);
  }

  // ----- Steps -----

  lemma QueuesStep(s: State, a: Label)
    requires Inv(s) && Enabled(s, a)
    ensures Next(s, a).Sized() && QueuesOk(Next(s, a))
  {
    hide ChainOk;
    match a
    case Submit(t, op, data, h, h1, h2) =>
      RoomToSubmit(s, h, h1, h2);
      RingPut(s.availRing, s.availQ, s.nTaken, s.devSeen, s.availIdx, h);
    case DevTake =>
      IndicesDiffer(s.availRing, s.availQ, s.nTaken, s.devSeen, s.availIdx);
      RingTake(s.availRing, s.availQ, s.nTaken, s.devSeen, s.availIdx);
    case DevServe(h) =>
    case DevUse(h) =>
      assert RoleOk(s, h);
      DistinctBound(s.usedQ + [h], NUM);
      RingPut(s.usedRing, s.usedQ, s.nSeen, s.usedSeen, s.usedIdx, h);
    case Intr =>
      IndicesDiffer(s.usedRing, s.usedQ, s.nSeen, s.usedSeen, s.usedIdx);
      RingTake(s.usedRing, s.usedQ, s.nSeen, s.usedSeen, s.usedIdx);
    case Finish(t) =>
  }

  /** What the device or the driver finds in the entry it reads. */
  lemma Entries(s: State)
    requires Inv(s)
    ensures s.devSeen != s.availIdx ==>
      s.availQ != [] && s.availRing[s.devSeen % NUM] == s.availQ[0] < NUM && s.availQ[0] !in s.availQ[1..]
    ensures s.usedSeen != s.usedIdx ==>
      s.usedQ != [] && s.usedRing[s.usedSeen % NUM] == s.usedQ[0] < NUM && s.usedQ[0] !in s.usedQ[1..]
  {
    IndicesDiffer(s.availRing, s.availQ, s.nTaken, s.devSeen, s.availIdx);
    IndicesDiffer(s.usedRing, s.usedQ, s.nSeen, s.usedSeen, s.usedIdx);
    if s.availQ != [] {
      RingTake(s.availRing, s.availQ, s.nTaken, s.devSeen, s.availIdx);
    }
    if s.usedQ != [] {
      RingTake(s.usedRing, s.usedQ, s.nSeen, s.usedSeen, s.usedIdx);
    }
  }

  lemma RoleSubmit(s: State, a: Label, i: nat)
    requires a.Submit? && Inv(s) && Enabled(s, a) && s.IsDesc(i)
    ensures RoleOk(Next(s, a), i)
  {
    hide QueuesOk;
    assert RoleOk(s, i) && RoleOk(s, a.h) && RoleOk(s, a.h1) && RoleOk(s, a.h2);
    assert s.role[i].Head? ==> RoleOk(s, s.role[i].h1) && RoleOk(s, s.role[i].h2);
    assert ThreadOk(s, a.t);
  }

  lemma RoleTake(s: State, a: Label, i: nat)
    requires a.DevTake? && Inv(s) && Enabled(s, a) && s.IsDesc(i)
    ensures RoleOk(Next(s, a), i)
  {
    Entries(s);
    hide QueuesOk;
    assert RoleOk(s, i) && RoleOk(s, s.availQ[0]);
    assert s.role[i].Mid? || s.role[i].Last? ==> RoleOk(s, s.role[i].h);
    assert s.availQ == [s.availQ[0]] + s.availQ[1..];
  }

  lemma RoleServe(s: State, a: Label, i: nat)
    requires a.DevServe? && Inv(s) && Enabled(s, a) && s.IsDesc(i)
    ensures RoleOk(Next(s, a), i)
  {
    hide QueuesOk;
    assert RoleOk(s, i) && RoleOk(s, a.h);
    assert s.role[i].Mid? || s.role[i].Last? ==> RoleOk(s, s.role[i].h);
  }

  lemma RoleUse(s: State, a: Label, i: nat)
    requires a.DevUse? && Inv(s) && Enabled(s, a) && s.IsDesc(i)
    ensures RoleOk(Next(s, a), i)
  {
    assert a.h < NUM;
    hide QueuesOk;
    assert RoleOk(s, i) && RoleOk(s, a.h);
    assert s.role[i].Mid? || s.role[i].Last? ==> RoleOk(s, s.role[i].h);
  }

  lemma RoleIntr(s: State, a: Label, i: nat)
    requires a.Intr? && Inv(s) && Enabled(s, a) && s.IsDesc(i)
    ensures RoleOk(Next(s, a), i)
  {
    Entries(s);
    assert RoleOk(s, i) && RoleOk(s, s.usedQ[0]);
    assert s.role[i].Mid? || s.role[i].Last? ==> RoleOk(s, s.role[i].h);
    hide Inv, QueuesOk, RoleOk, Enabled, Next;
    IntrNext(s, a);
    RoleNoted(s, Next(s, a), i);
  }

  /** All that virtio_disk_intr() changes of the chains is the stage of the one at the head of the used ring. */
  ghost predicate Noting(s: State, r: State)
    requires s.usedQ != []
  {
    && s.Sized() && r.Sized() && s.IsDesc(s.usedQ[0]) && s.role[s.usedQ[0]].Head? && r.usedQ == s.usedQ[1..]
    && r.role == s.role[s.usedQ[0] := s.role[s.usedQ[0]].(stage := Noted)]
    && r.desc == s.desc && r.free == s.free && r.ops == s.ops && r.info == s.info && r.threads == s.threads
    && r.availQ == s.availQ && r.taken == s.taken && r.served == s.served && r.disk == s.disk
  }

  lemma {:induction false} IntrNext(s: State, a: Label)
    requires a.Intr? && s.Sized() && Enabled(s, a) && s.usedQ != []
    requires s.usedRing[s.usedSeen % NUM] == s.usedQ[0] < NUM && RoleOk(s, s.usedQ[0]) && s.usedQ[0] in s.usedQ
    ensures Noting(s, Next(s, a))
  {
  }

  lemma {:induction false} RoleNoted(s: State, r: State, i: nat)
    requires s.usedQ != [] && Noting(s, r) && s.IsDesc(i) && RoleOk(s, i) && RoleOk(s, s.usedQ[0])
    requires s.usedQ[0] !in s.usedQ[1..]
    requires s.role[i].Mid? || s.role[i].Last? ==> RoleOk(s, s.role[i].h)
    ensures r.IsDesc(i) && RoleOk(r, i)
  {
    assert s.usedQ == [s.usedQ[0]] + s.usedQ[1..];
  }

  lemma RoleFinish(s: State, a: Label, i: nat)
    requires a.Finish? && Inv(s) && Enabled(s, a) && s.IsDesc(i)
    ensures RoleOk(Next(s, a), i)
  {
    hide QueuesOk;
    assert RoleOk(s, i) && ThreadOk(s, a.t) && RoleOk(s, s.threads[a.t].h);
    assert s.role[i].Head? ==> RoleOk(s, s.role[i].h1) && RoleOk(s, s.role[i].h2);
    assert s.role[i].Mid? || s.role[i].Last? ==> RoleOk(s, s.role[i].h);
  }

  lemma ThreadDriver(s: State, a: Label, t: nat)
    requires (a.Submit? || a.Finish?) && Inv(s) && Enabled(s, a) && s.IsThread(t)
    ensures Next(s, a).Sized() && ThreadOk(Next(s, a), t)
  {
    hide QueuesOk;
    assert ThreadOk(s, t);
    assert s.threads[t].Waiting? ==> RoleOk(s, s.threads[t].h);
    if a.Submit? {
      assert RoleOk(s, a.h) && RoleOk(s, a.h1) && RoleOk(s, a.h2);
    } else {
      assert ThreadOk(s, a.t) && RoleOk(s, s.threads[a.t].h);
    }
  }

  lemma {:induction false} ThreadTake(s: State, a: Label, t: nat)
    requires a.DevTake? && Inv(s) && Enabled(s, a) && s.IsThread(t)
    ensures Next(s, a).Sized() && ThreadOk(Next(s, a), t)
  {
    Entries(s);
    hide QueuesOk;
    assert ThreadOk(s, t) && RoleOk(s, s.availQ[0]);
    assert s.threads[t].Waiting? ==> RoleOk(s, s.threads[t].h);
  }

  lemma {:induction false} ThreadServe(s: State, a: Label, t: nat)
    requires a.DevServe? && Inv(s) && Enabled(s, a) && s.IsThread(t)
    ensures Next(s, a).Sized() && ThreadOk(Next(s, a), t)
  {
    hide QueuesOk;
    assert ThreadOk(s, t) && RoleOk(s, a.h);
    assert s.threads[t].Waiting? ==> RoleOk(s, s.threads[t].h);
  }

  lemma {:induction false} ThreadUse(s: State, a: Label, t: nat)
    requires a.DevUse? && Inv(s) && Enabled(s, a) && s.IsThread(t)
    ensures Next(s, a).Sized() && ThreadOk(Next(s, a), t)
  {
    assert a.h < NUM;
    hide QueuesOk;
    assert ThreadOk(s, t) && RoleOk(s, a.h);
    assert s.threads[t].Waiting? ==> RoleOk(s, s.threads[t].h);
  }

  lemma ThreadIntr(s: State, a: Label, t: nat)
    requires a.Intr? && Inv(s) && Enabled(s, a) && s.IsThread(t)
    ensures Next(s, a).Sized() && ThreadOk(Next(s, a), t)
  {
    Entries(s);
    hide QueuesOk;
    assert ThreadOk(s, t) && RoleOk(s, s.usedQ[0]);
    assert s.threads[t].Waiting? ==> RoleOk(s, s.threads[t].h);
  }
}
