/**
 The request protocol between kernel/virtio_disk.c and its device, as a state
 machine (sections 2.6 and 5.2 of VIRTIO 1.1). Driver steps are the sections
 under vdisk_lock; the device takes, serves and completes requests in any
 order it likes, reading only what the driver left in memory.
 */
module Virtio {
  import opened ProcTypes

  const NUM: nat := 8

  /** What a descriptor's address points to. */
  datatype Addr = Null | OpOf(i: nat) | BufOf(t: nat) | StatusOf(i: nat)

  /** flags holds VRING_DESC_F_NEXT and VRING_DESC_F_WRITE. */
  datatype Desc = Desc(addr: Addr, len: nat, more: bool, write: bool, next: nat)

  /** struct virtio_blk_req. */
  datatype Op = Op(out: bool, block: nat)

  /** disk.info[i]: whose request, and the status byte. */
  datatype Info = Info(owner: Option<nat>, status: nat)

  /** A thread in virtio_disk_rw() with its own buffer, waiting for the chain it submitted. */
  datatype Thread = Idle | Waiting(h: nat, h1: nat, h2: nat, op: Op)

  /** b->data and b->disk. */
  datatype Buf = Buf(data: nat, busy: bool)

  /** Where a request is. */
  datatype Stage = Avail | Taken | Served | Used | Noted

  /** What a descriptor is part of. */
  datatype Role = Free | Head(t: nat, h1: nat, h2: nat, stage: Stage) | Mid(h: nat) | Last(h: nat)

  /**
   Memory shared with the device, the driver's own records, and the device's.
   For the proofs only: the role of each descriptor; the queues that the two
   rings stand for, with the number of entries ever taken out of them; and how
   many requests each thread has made and had served.
   */
  datatype State = State(
    desc: seq<Desc>, ops: seq<Op>, availRing: seq<nat>, availIdx: nat, usedRing: seq<nat>, usedIdx: nat,
    free: seq<bool>, info: seq<Info>, usedSeen: nat, threads: seq<Thread>, bufs: seq<Buf>,
    devSeen: nat, taken: set<nat>, served: set<nat>, disk: map<nat, nat>,
    role: seq<Role>, availQ: seq<nat>, nTaken: nat, usedQ: seq<nat>, nSeen: nat, made: seq<nat>, had: seq<nat>)
  {
    predicate IsDesc(i: int) {
      0 <= i < NUM
    }

    predicate IsThread(t: int) {
      0 <= t < |threads|
    }

    predicate Sized() {
      && |desc| == |ops| == |availRing| == |usedRing| == |free| == |info| == |role| == NUM
      && |bufs| == |made| == |had| == |threads|
    }
  }

  /** An index of 16 bits, and its next value. */
  function Inc16(x: nat): (y: nat) {
    (x + 1) % 0x1_0000
  }

  datatype Label =
    | Submit(t: nat, op: Op, data: nat, h: nat, h1: nat, h2: nat) // virtio_disk_rw() up to the notification
    | DevTake                       // the device reads an entry of the avail ring
    | DevServe(h: nat)              // the device carries out a request and writes its status
    | DevUse(h: nat)                // the device writes an entry of the used ring
    | Intr                          // one turn of virtio_disk_intr()'s loop
    | Finish(t: nat)                // virtio_disk_rw() from the end of its wait

  ghost predicate Enabled(s: State, a: Label) {
    && s.Sized()
    && match a
       case Submit(t, op, data, h, h1, h2) =>
         && s.IsThread(t) && s.threads[t].Idle? && op.block in s.disk
         && s.IsDesc(h) && s.IsDesc(h1) && s.IsDesc(h2) && h != h1 && h != h2 && h1 != h2
         && s.free[h] && s.free[h1] && s.free[h2]
       case DevTake => s.devSeen != s.availIdx
       case DevServe(h) => h in s.taken && s.IsDesc(h) && CanServe(s, h)
       case DevUse(h) => h in s.served
       case Intr => s.usedSeen != s.usedIdx
       case Finish(t) => s.IsThread(t) && s.threads[t].Waiting? && !s.bufs[t].busy && s.IsDesc(s.threads[t].h)
                         && CanFree(s, s.threads[t].h)
  }

  /** The three descriptors the device finds from h, as it must find them for a block request. */
  predicate CanServe(s: State, h: nat)
    requires s.Sized() && s.IsDesc(h)
  {
    var d0 := s.desc[h];
    && d0.addr.OpOf? && s.IsDesc(d0.addr.i) && d0.more && s.IsDesc(d0.next)
    && var d1 := s.desc[d0.next];
    && d1.addr.BufOf? && s.IsThread(d1.addr.t) && d1.more && s.IsDesc(d1.next)
    && d1.write == !s.ops[d0.addr.i].out && d1.len == 1024 && s.ops[d0.addr.i].block in s.disk
    && var d2 := s.desc[d1.next];
    d2.addr.StatusOf? && s.IsDesc(d2.addr.i) && d2.write && !d2.more
  }

  /** free_chain(h) finds three descriptors in use and never a free one. */
  predicate CanFree(s: State, h: nat)
    requires s.Sized() && s.IsDesc(h)
  {
    && !s.free[h] && s.desc[h].more && s.IsDesc(s.desc[h].next)
    && var n := s.desc[h].next;
    && n != h && !s.free[n] && s.desc[n].more && s.IsDesc(s.desc[n].next)
    && var m := s.desc[n].next;
    m != n && m != h && !s.free[m] && !s.desc[m].more
  }

  const NODESC := Desc(Null, 0, false, false, 0)

  ghost function Next(s: State, a: Label): (r: State)
    requires Enabled(s, a)
  {
    match a
    case Submit(t, op, data, h, h1, h2) => Submitted(s, t, op, data, h, h1, h2)
    case DevTake =>
      var h := s.availRing[s.devSeen % NUM];
      s.(devSeen := Inc16(s.devSeen), taken := s.taken + {h},
         role := Staged(s.role, h, Taken), availQ := if s.availQ == [] then [] else s.availQ[1..],
         nTaken := s.nTaken + 1)
    case DevServe(h) => Served_(s, h)
    case DevUse(h) =>
      s.(usedRing := s.usedRing[s.usedIdx % NUM := h], usedIdx := Inc16(s.usedIdx), served := s.served - {h},
         role := Staged(s.role, h, Used), usedQ := s.usedQ + [h])
    case Intr =>
      var id := s.usedRing[s.usedSeen % NUM];
      var q := s.(usedSeen := Inc16(s.usedSeen), role := Staged(s.role, id, Noted),
                  usedQ := if s.usedQ == [] then [] else s.usedQ[1..], nSeen := s.nSeen + 1);
      if s.IsDesc(id) && s.info[id].owner.Some? && s.IsThread(s.info[id].owner.value) then
        q.(bufs := s.bufs[s.info[id].owner.value := s.bufs[s.info[id].owner.value].(busy := false)])
      else q
    case Finish(t) =>
      var h := s.threads[t].h;
      var n := s.desc[h].next;
      var m := s.desc[n].next;
      s.(info := s.info[h := s.info[h].(owner := None)],
         desc := s.desc[h := NODESC][n := NODESC][m := NODESC], free := s.free[h := true][n := true][m := true],
         role := s.role[h := Free][n := Free][m := Free], threads := s.threads[t := Idle])
  }

  /** The role of h with its stage changed, if it heads a chain. */
  function Staged(role: seq<Role>, h: nat, stage: Stage): (r: seq<Role>)
    ensures |r| == |role|
  {
    if h < |role| && role[h].Head? then role[h := role[h].(stage := stage)] else role
  }

  function Submitted(s: State, t: nat, op: Op, data: nat, h: nat, h1: nat, h2: nat): (r: State)
    requires s.Sized() && s.IsThread(t) && s.IsDesc(h) && s.IsDesc(h1) && s.IsDesc(h2)
  {
    s.(free := s.free[h := false][h1 := false][h2 := false],
       ops := s.ops[h := op],
       desc := s.desc[h := Desc(OpOf(h), 16, true, false, h1)][h1 := Desc(BufOf(t), 1024, true, !op.out, h2)]
                     [h2 := Desc(StatusOf(h), 1, false, true, 0)],
       info := s.info[h := Info(Some(t), 0xff)],
       bufs := s.bufs[t := Buf(data, true)],
       availRing := s.availRing[s.availIdx % NUM := h], availIdx := Inc16(s.availIdx),
       threads := s.threads[t := Waiting(h, h1, h2, op)],
       role := s.role[h := Head(t, h1, h2, Avail)][h1 := Mid(h)][h2 := Last(h)],
       availQ := s.availQ + [h], made := s.made[t := s.made[t] + 1])
  }

  /** The transfer between the disk and the buffer that the second descriptor names, and the status byte. */
  function Served_(s: State, h: nat): (r: State)
    requires s.Sized() && s.IsDesc(h) && CanServe(s, h)
  {
    var op := s.ops[s.desc[h].addr.i];
    var t := s.desc[s.desc[h].next].addr.t;
    var i := s.desc[s.desc[s.desc[h].next].next].addr.i;
    s.(disk := if op.out then s.disk[op.block := s.bufs[t].data] else s.disk,
       bufs := if op.out then s.bufs else s.bufs[t := s.bufs[t].(data := s.disk[op.block])],
       info := s.info[i := s.info[i].(status := 0)],
       taken := s.taken - {h}, served := s.served + {h}, role := Staged(s.role, h, Served),
       had := s.had[t := s.had[t] + 1])
  }

  /** virtio_disk_init() has run: all descriptors free, all indices zero. */
  ghost predicate Init(s: State) {
    && s.Sized()
    && (forall i :: 0 <= i < NUM ==> s.free[i] && s.role[i].Free? && s.info[i].owner.None? && s.desc[i] == NODESC)
    && (forall t :: 0 <= t < |s.threads| ==> s.threads[t].Idle? && s.made[t] == 0 && s.had[t] == 0)
    && s.availIdx == 0 && s.usedIdx == 0 && s.usedSeen == 0 && s.devSeen == 0 && s.taken == {} && s.served == {}
    && s.availQ == [] && s.usedQ == [] && s.nTaken == 0 && s.nSeen == 0
  }

  ghost predicate IsStep(s: State, a: Label, r: State) {
    Enabled(s, a) && r == Next(s, a)
  }

  ghost predicate IsRun(ss: seq<State>, labels: seq<Label>) {
    && |ss| == |labels| + 1
    && Init(ss[0])
    && forall k :: 0 <= k < |labels| ==> IsStep(ss[k], labels[k], ss[k + 1])
  }
}
