/** What holds of every run of the disk driver and its device. */
module VirtioRuns {
  import opened ProcTypes
  import opened Virtio
  import opened VirtioInv

  lemma RoleStep(s: State, a: Label, i: nat)
    requires Inv(s) && Enabled(s, a) && s.IsDesc(i)
    ensures Next(s, a).Sized() && RoleOk(Next(s, a), i)
  {
    hide Inv, RoleOk, QueuesOk;
    QueuesStep(s, a);
    match a
    case Submit(_, _, _, _, _, _) => RoleSubmit(s, a, i);
    case DevTake => RoleTake(s, a, i);
    case DevServe(_) => RoleServe(s, a, i);
    case DevUse(_) => RoleUse(s, a, i);
    case Intr => RoleIntr(s, a, i);
    case Finish(_) => RoleFinish(s, a, i);
  }

  lemma ThreadStep(s: State, a: Label, t: nat)
    requires Inv(s) && Enabled(s, a) && s.IsThread(t)
    ensures Next(s, a).Sized() && ThreadOk(Next(s, a), t)
  {
    hide Inv, ThreadOk;
    match a
    case Submit(_, _, _, _, _, _) => ThreadDriver(s, a, t);
    case DevTake => ThreadTake(s, a, t);
    case DevServe(_) => ThreadServe(s, a, t);
    case DevUse(_) => ThreadUse(s, a, t);
    case Intr => ThreadIntr(s, a, t);
    case Finish(_) => ThreadDriver(s, a, t);
  }

  lemma InvStep(s: State, a: Label)
    requires Inv(s) && Enabled(s, a)
    ensures Inv(Next(s, a))
  {
    hide RoleOk, ThreadOk, QueuesOk;
    var r := Next(s, a);
    QueuesStep(s, a);
    forall i: nat | r.IsDesc(i)
      ensures RoleOk(r, i)
    {
      RoleStep(s, a, i);
    }
    forall t: nat | r.IsThread(t)
      ensures ThreadOk(r, t)
    {
      ThreadStep(s, a, t);
    }
  }

  lemma InvInit(s: State)
    requires Init(s)
    ensures Inv(s)
  {
  }

  lemma {:induction false} InvAt(ss: seq<State>, labels: seq<Label>, k: nat)
    requires IsRun(ss, labels) && k <= |labels|
    ensures Inv(ss[k])
  {
    if k == 0 {
      InvInit(ss[0]);
    } else {
      InvAt(ss, labels, k - 1);
      assert IsStep(ss[k - 1], labels[k - 1], ss[k]);
      InvStep(ss[k - 1], labels[k - 1]);
    }
  }

  // ----- Theorems -----

  /** i is one of the three descriptors of the chain that thread t submitted. */
  predicate PartOf(s: State, t: nat, i: nat)
    requires s.IsThread(t)
  {
    s.threads[t].Waiting? && (i == s.threads[t].h || i == s.threads[t].h1 || i == s.threads[t].h2)
  }

  /** Free descriptors and the chains of unfinished requests partition the descriptors. */
  lemma DescriptorsPartitioned(ss: seq<State>, labels: seq<Label>, k: nat, i: nat)
    requires IsRun(ss, labels) && k <= |labels| && ss[k].IsDesc(i)
    ensures |ss[k].free| == |ss[k].desc| == |ss[k].info| == NUM
    ensures ss[k].free[i] <==> !exists t: nat :: ss[k].IsThread(t) && PartOf(ss[k], t, i)
    ensures ss[k].free[i] ==> ss[k].desc[i] == NODESC && ss[k].info[i].owner.None?
    ensures forall t: nat, u: nat ::
      ss[k].IsThread(t) && ss[k].IsThread(u) && PartOf(ss[k], t, i) && PartOf(ss[k], u, i) ==> t == u
  {
    InvAt(ss, labels, k);
    var s := ss[k];
    assert RoleOk(s, i);
    forall t: nat | s.IsThread(t) && PartOf(s, t, i)
      ensures !s.free[i] && t == (if s.role[i].Head? then s.role[i].t else s.role[s.role[i].h].t)
    {
      assert ThreadOk(s, t) && RoleOk(s, s.threads[t].h);
    }
    if !s.free[i] {
      var h := if s.role[i].Head? then i else s.role[i].h;
      assert RoleOk(s, h);
      assert PartOf(s, s.role[h].t, i);
    }
  }

  /** A request the device has taken: its three descriptors are well formed, and they are the thread's. */
  lemma DeviceFindsRequest(ss: seq<State>, labels: seq<Label>, k: nat, h: nat)
    requires IsRun(ss, labels) && k <= |labels| && h in ss[k].taken
    ensures ss[k].Sized() && ss[k].IsDesc(h) && CanServe(ss[k], h)
    ensures var t := ss[k].desc[ss[k].desc[h].next].addr.t;
      ss[k].IsThread(t) && ss[k].threads[t].Waiting? && ss[k].threads[t].h == h && ss[k].threads[t].op == ss[k].ops[h]
      && ss[k].made[t] == ss[k].had[t] + 1
  {
    InvAt(ss, labels, k);
    assert RoleOk(ss[k], h);
    assert ThreadOk(ss[k], ss[k].role[h].t);
  }

  /** Serving moves the right data: the thread's buffer to its block or its block to the buffer, and nothing else. */
  lemma ServedAsAsked(ss: seq<State>, labels: seq<Label>, k: nat)
    requires IsRun(ss, labels) && k < |labels| && labels[k].DevServe?
    ensures exists t: nat ::
      && ss[k].IsThread(t) && ss[k].threads[t].Waiting? && ss[k].threads[t].h == labels[k].h
      && Transferred(ss[k], ss[k + 1], t)
  {
    assert IsStep(ss[k], labels[k], ss[k + 1]);
    DeviceFindsRequest(ss, labels, k, labels[k].h);
    InvAt(ss, labels, k);
    var s, h := ss[k], labels[k].h;
    assert RoleOk(s, h);
    assert ThreadOk(s, s.role[h].t);
    assert Transferred(s, ss[k + 1], s.role[h].t);
  }

  ghost predicate Transferred(s: State, r: State, t: nat)
    requires s.IsThread(t) && s.threads[t].Waiting?
  {
    var op := s.threads[t].op;
    && |s.bufs| == |r.bufs| == |s.threads| && op.block in s.disk
    && (op.out ==> r.disk == s.disk[op.block := s.bufs[t].data] && r.bufs == s.bufs)
    && (!op.out ==> r.disk == s.disk && r.bufs == s.bufs[t := Buf(s.disk[op.block], s.bufs[t].busy)])
  }

  /**
   Each used entry completes exactly one request: it names the chain of one
   waiting thread whose request has been served and whose buffer was still
   busy, so the interrupt handler finds status 0 and never sees an entry twice.
   */
  lemma UsedEntryCompletesOne(ss: seq<State>, labels: seq<Label>, k: nat)
    requires IsRun(ss, labels) && k <= |labels| && ss[k].usedSeen != ss[k].usedIdx
    ensures ss[k].Sized()
    ensures var id := ss[k].usedRing[ss[k].usedSeen % NUM];
      && id < NUM && ss[k].info[id].status == 0
      && ss[k].info[id].owner.Some? && ss[k].IsThread(ss[k].info[id].owner.value)
      && var t := ss[k].info[id].owner.value;
      ss[k].threads[t].Waiting? && ss[k].threads[t].h == id && ss[k].bufs[t].busy && ss[k].had[t] == ss[k].made[t]
  {
    InvAt(ss, labels, k);
    var s := ss[k];
    Entries(s);
    assert RoleOk(s, s.usedQ[0]);
    assert ThreadOk(s, s.role[s.usedQ[0]].t);
  }

  /** virtio_disk_rw() returns only after its own request was served, once, and free_chain() never panics. */
  lemma ReturnsAfterServed(ss: seq<State>, labels: seq<Label>, k: nat, t: nat)
    requires IsRun(ss, labels) && k <= |labels| && ss[k].Sized() && ss[k].IsThread(t)
    requires ss[k].threads[t].Waiting? && !ss[k].bufs[t].busy
    ensures ss[k].had[t] == ss[k].made[t]
    ensures ss[k].IsDesc(ss[k].threads[t].h) && CanFree(ss[k], ss[k].threads[t].h)
  {
    InvAt(ss, labels, k);
    var s := ss[k];
    assert ThreadOk(s, t);
    assert RoleOk(s, s.threads[t].h);
    assert RoleOk(s, s.threads[t].h1) && RoleOk(s, s.threads[t].h2);
  }

  /**
   The 16-bit indices never skip or repeat an entry: each is the low 16 bits of
   the number of entries ever written or read, and the entries in between are
   exactly those written and not yet read, in order.
   */
  lemma IndicesCountEntries(ss: seq<State>, labels: seq<Label>, k: nat)
    requires IsRun(ss, labels) && k <= |labels|
    ensures var s := ss[k];
      && s.Sized()
      && s.devSeen == s.nTaken % 0x1_0000 && s.availIdx == (s.nTaken + |s.availQ|) % 0x1_0000
      && s.usedSeen == s.nSeen % 0x1_0000 && s.usedIdx == (s.nSeen + |s.usedQ|) % 0x1_0000
      && (s.devSeen == s.availIdx <==> s.availQ == []) && (s.usedSeen == s.usedIdx <==> s.usedQ == [])
      && |s.availQ| <= NUM && |s.usedQ| <= NUM
  {
    InvAt(ss, labels, k);
    var s := ss[k];
    IndicesDiffer(s.availRing, s.availQ, s.nTaken, s.devSeen, s.availIdx);
    IndicesDiffer(s.usedRing, s.usedQ, s.nSeen, s.usedSeen, s.usedIdx);
    DistinctBound(s.availQ, NUM);
    DistinctBound(s.usedQ, NUM);
  }
}
