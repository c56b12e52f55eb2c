/**
 What a call of virtio_disk_rw() does, from its Submit to its Finish: its own
 request is served exactly once, as the call asked.
 */
module VirtioRequests {
  import opened ProcTypes
  import opened Virtio
  import opened VirtioInv
  import opened VirtioRuns

  /** Thread t waits for the request op, headed by h, whose buffer holds data; done: it has been served. */
  predicate Asked(s: State, t: nat, op: Op, h: nat, data: nat, done: bool) {
    && s.Sized() && s.IsThread(t) && s.IsDesc(h) && s.threads[t].Waiting? && s.threads[t].h == h
    && s.ops[h] == op && s.bufs[t].data == data && s.role[h].Head? && s.role[h].t == t
    && (Done(s.role[h].stage) <==> done)
  }

  /** Serving op for thread t, whose buffer holds data: the block gets the data, or the buffer the block. */
  predicate Serves(s: State, r: State, t: nat, op: Op, data: nat) {
    && s.IsThread(t) && t < |s.bufs| == |r.bufs| && op.block in s.disk
    && s.bufs[t].data == data
    && r.disk == (if op.out then s.disk[op.block := data] else s.disk)
    && r.bufs == s.bufs[t := Buf(if op.out then data else s.disk[op.block], s.bufs[t].busy)]
  }

  // ----- One step -----

  lemma {:induction false} AskedSubmit(s: State, a: Label, t: nat, op: Op, h: nat, data: nat, done: bool)
    requires a.Submit? && Enabled(s, a) && Asked(s, t, op, h, data, done) && RoleOk(s, a.h) && RoleOk(s, a.h1)
    requires RoleOk(s, a.h2)
    ensures Asked(Next(s, a), t, op, h, data, done)
  {
  }

  lemma {:induction false} AskedDevice(s: State, a: Label, t: nat, op: Op, h: nat, data: nat, done: bool)
    requires (a.DevTake? || a.DevUse?) && Inv(s) && Enabled(s, a) && Asked(s, t, op, h, data, done)
    ensures Asked(Next(s, a), t, op, h, data, done)
  {
    Entries(s);
    assert RoleOk(s, h);
    if a.DevTake? {
      assert RoleOk(s, s.availQ[0]);
    } else {
      assert a.h < NUM;
      assert RoleOk(s, a.h);
    }
    hide Inv, QueuesOk, Distinct;
  }

  lemma {:induction false} AskedServe(s: State, a: Label, t: nat, op: Op, h: nat, data: nat, done: bool)
    requires a.DevServe? && a.h != h && Inv(s) && Enabled(s, a) && Asked(s, t, op, h, data, done)
    ensures Asked(Next(s, a), t, op, h, data, done)
  {
    assert RoleOk(s, h) && RoleOk(s, a.h);
    hide Inv;
  }

  lemma {:induction false} AskedIntr(s: State, a: Label, t: nat, op: Op, h: nat, data: nat, done: bool)
    requires a.Intr? && Inv(s) && Enabled(s, a) && Asked(s, t, op, h, data, done)
    ensures Asked(Next(s, a), t, op, h, data, done)
  {
    Entries(s);
    assert RoleOk(s, s.usedQ[0]);
    hide Inv, QueuesOk;
  }

  lemma {:induction false} AskedFinish(s: State, a: Label, t: nat, op: Op, h: nat, data: nat, done: bool)
    requires a.Finish? && a.t != t && Inv(s) && Enabled(s, a) && Asked(s, t, op, h, data, done)
    ensures Asked(Next(s, a), t, op, h, data, done)
  {
    assert ThreadOk(s, a.t) && RoleOk(s, s.threads[a.t].h) && RoleOk(s, h);
    hide Inv;
  }

  /** No step but its own DevServe and Finish touches a request. */
  lemma {:induction false} AskedStep(s: State, a: Label, t: nat, op: Op, h: nat, data: nat, done: bool)
    requires Inv(s) && Enabled(s, a) && Asked(s, t, op, h, data, done) && a != Finish(t) && a != DevServe(h)
    ensures Asked(Next(s, a), t, op, h, data, done)
  {
    if a.Submit? {
      assert RoleOk(s, a.h) && RoleOk(s, a.h1) && RoleOk(s, a.h2);
    }
    hide Inv, Asked, Next;
    match a
    case Submit(_, _, _, _, _, _) => AskedSubmit(s, a, t, op, h, data, done);
    case DevTake => AskedDevice(s, a, t, op, h, data, done);
    case DevServe(_) => AskedServe(s, a, t, op, h, data, done);
    case DevUse(_) => AskedDevice(s, a, t, op, h, data, done);
    case Intr => AskedIntr(s, a, t, op, h, data, done);
    case Finish(_) => AskedFinish(s, a, t, op, h, data, done);
  }

  /** Its own DevServe serves it, and can happen only once. */
  lemma {:induction false} ServeOwn(s: State, t: nat, op: Op, h: nat, data: nat, done: bool)
    requires Inv(s) && Enabled(s, DevServe(h)) && Asked(s, t, op, h, data, done)
    ensures !done && Serves(s, Next(s, DevServe(h)), t, op, data)
    ensures Asked(Next(s, DevServe(h)), t, op, h, if op.out then data else s.disk[op.block], true)
  {
    assert RoleOk(s, h) && ThreadOk(s, t);
    hide Inv;
  }

  lemma {:induction false} SubmitAsks(s: State, a: Label)
    requires a.Submit? && Enabled(s, a)
    ensures Asked(Next(s, a), a.t, a.op, a.h, a.data, false)
  {
  }

  // ----- Theorem -----

  /** No step from `from` up to `to` serves h. */
  ghost predicate NotServed(labels: seq<Label>, from: nat, to: nat, h: nat)
    requires to <= |labels|
  {
    forall i :: from <= i < to ==> labels[i] != DevServe(h)
  }

  /** Where the request of step j stands in state i: not served, or served once, at step m. */
  ghost predicate Stands(ss: seq<State>, labels: seq<Label>, j: nat, i: nat, m: nat)
    requires |ss| > |labels| >= i > j && labels[j].Submit?
  {
    var a := labels[j];
    if m == j then NotServed(labels, j + 1, i, a.h) && Asked(ss[i], a.t, a.op, a.h, a.data, false)
    else
      && j < m < i && labels[m] == DevServe(a.h) && Serves(ss[m], ss[m + 1], a.t, a.op, a.data)
      && NotServed(labels, j + 1, m, a.h) && NotServed(labels, m + 1, i, a.h)
      && Asked(ss[i], a.t, a.op, a.h, if a.op.out then a.data else ss[m].disk[a.op.block], true)
  }

  lemma {:induction false} StandsFirst(ss: seq<State>, labels: seq<Label>, j: nat)
    requires |ss| > |labels| > j && labels[j].Submit? && IsStep(ss[j], labels[j], ss[j + 1])
    ensures Stands(ss, labels, j, j + 1, j)
  {
    hide Enabled, Next, Asked, Serves;
    SubmitAsks(ss[j], labels[j]);
  }

  lemma {:induction false} StandsServed(ss: seq<State>, labels: seq<Label>, j: nat, i: nat, m: nat)
    requires |ss| > |labels| > i > j && labels[j].Submit? && Inv(ss[i]) && IsStep(ss[i], labels[i], ss[i + 1])
    requires Stands(ss, labels, j, i, m) && labels[i] == DevServe(labels[j].h)
    ensures m == j && Stands(ss, labels, j, i + 1, i)
  {
    var a, done := labels[j], m != j;
    hide Inv, Enabled, Next, Asked, Serves;
    ServeOwn(ss[i], a.t, a.op, a.h, if !done || a.op.out then a.data else ss[m].disk[a.op.block], done);
  }

  lemma {:induction false} StandsOn(ss: seq<State>, labels: seq<Label>, j: nat, i: nat, m: nat)
    requires |ss| > |labels| > i > j && labels[j].Submit? && Inv(ss[i]) && IsStep(ss[i], labels[i], ss[i + 1])
    requires Stands(ss, labels, j, i, m) && labels[i] != DevServe(labels[j].h) && labels[i] != Finish(labels[j].t)
    ensures Stands(ss, labels, j, i + 1, m)
  {
    var a, done := labels[j], m != j;
    hide Inv, Enabled, Next, Asked, Serves;
    AskedStep(ss[i], labels[i], a.t, a.op, a.h, if !done || a.op.out then a.data else ss[m].disk[a.op.block], done);
  }

  lemma {:induction false} Follow(ss: seq<State>, labels: seq<Label>, j: nat, i: nat) returns (m: nat)
    requires IsRun(ss, labels) && j < i <= |labels| && labels[j].Submit?
    requires forall f :: j < f < i ==> labels[f] != Finish(labels[j].t)
    ensures Stands(ss, labels, j, i, m)
  {
    hide Inv, Init, Enabled, Next, Stands;
    InvAt(ss, labels, i - 1);
    assert IsStep(ss[i - 1], labels[i - 1], ss[i]);
    if i == j + 1 {
      StandsFirst(ss, labels, j);
      m := j;
    } else {
      m := Follow(ss, labels, j, i - 1);
      if labels[i - 1] == DevServe(labels[j].h) {
        StandsServed(ss, labels, j, i - 1, m);
        m := i - 1;
      } else {
        StandsOn(ss, labels, j, i - 1, m);
      }
    }
  }

  /**
   Between the Submit of a request and the Finish of its thread the device serves it
   exactly once. For a write the block then gets the data of the call; for a read the
   buffer gets what the block holds at that moment, and still has it at the end.
   */
  lemma ServedOnceAsAsked(ss: seq<State>, labels: seq<Label>, j: nat, k: nat) returns (m: nat)
    requires IsRun(ss, labels) && j < k < |labels| && labels[j].Submit? && labels[k] == Finish(labels[j].t)
    requires forall f :: j < f < k ==> labels[f] != Finish(labels[j].t)
    ensures j < m < k && labels[m] == DevServe(labels[j].h)
    ensures forall i :: j < i < k && labels[i] == DevServe(labels[j].h) ==> i == m
    ensures var a := labels[j];
      && a.op.block in ss[m].disk && a.op.block in ss[m + 1].disk && a.t < |ss[k + 1].bufs|
      && (a.op.out ==> ss[m + 1].disk == ss[m].disk[a.op.block := a.data] && ss[k + 1].bufs[a.t].data == a.data)
      && (!a.op.out ==> ss[m + 1].disk == ss[m].disk && ss[k + 1].bufs[a.t].data == ss[m].disk[a.op.block])
      && |ss[m + 1].bufs| == |ss[m].bufs|
      && forall u :: 0 <= u < |ss[m].bufs| && u != a.t ==> ss[m + 1].bufs[u] == ss[m].bufs[u]
  {
    m := Follow(ss, labels, j, k);
    InvAt(ss, labels, k);
    assert IsStep(ss[k], labels[k], ss[k + 1]);
    assert ThreadOk(ss[k], labels[j].t);
    hide Inv;
  }
}
