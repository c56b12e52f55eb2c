/** What one call of pipewrite() or piperead() does, from its start to its return. */
module PipeCalls {
  import opened ProcTypes
  import opened Pipe
  import opened PipeInv
  import opened PipeRuns

  // ----- pipewrite() -----

  /** p is in a call that writes `bytes`, and had put in `before` when it began. */
  predicate InWrite(s: State, p: nat, bytes: seq<Byte>, before: seq<Byte>) {
    && s.IsProc(p) && s.procs[p].pc.Writing() && s.procs[p].pc.bytes == bytes && s.procs[p].pc.i <= |bytes|
    && s.sent[p] == before + bytes[..s.procs[p].pc.i]
  }

  predicate EndsWrite(a: Label, p: nat) {
    a == WriteDone(p) || a == GiveUp(p) || a == Fault(p)
  }

  lemma {:induction false} WriteOwn(s: State, a: Label, p: nat, bytes: seq<Byte>, before: seq<Byte>)
    requires IsWrite(a) && WriteEnabled(s, a) && InWrite(s, p, bytes, before) && !EndsWrite(a, p)
    ensures InWrite(WriteNext(s, a), p, bytes, before)
  {
    if a == Put(p) {
      var i := s.procs[p].pc.i;
      assert bytes[..i + 1] == bytes[..i] + [bytes[i]];
    }
  }

  lemma {:induction false} WriteRead(s: State, a: Label, p: nat, bytes: seq<Byte>, before: seq<Byte>)
    requires IsRead(a) && ReadEnabled(s, a) && InWrite(s, p, bytes, before)
    ensures InWrite(ReadNext(s, a), p, bytes, before)
  {
  }

  lemma {:induction false} WriteOther(s: State, a: Label, p: nat, bytes: seq<Byte>, before: seq<Byte>)
    requires !IsWrite(a) && !IsRead(a) && OtherEnabled(s, a) && InWrite(s, p, bytes, before)
    ensures InWrite(OtherNext(s, a), p, bytes, before)
  {
  }

  lemma {:induction false} WriteStep(s: State, a: Label, p: nat, bytes: seq<Byte>, before: seq<Byte>)
    requires Enabled(s, a) && InWrite(s, p, bytes, before) && !EndsWrite(a, p)
    ensures InWrite(Next(s, a), p, bytes, before)
  {
    hide WriteEnabled, WriteNext, ReadEnabled, ReadNext, OtherEnabled, OtherNext, InWrite;
    if IsWrite(a) {
      WriteOwn(s, a, p, bytes, before);
    } else if IsRead(a) {
      WriteRead(s, a, p, bytes, before);
    } else {
      WriteOther(s, a, p, bytes, before);
    }
  }

  lemma {:induction false} WriteBegins(s: State, a: Label)
    requires a.CallWrite? && Enabled(s, a)
    ensures s.IsProc(a.p) && InWrite(Next(s, a), a.p, a.bytes, s.sent[a.p])
  {
    assert s.sent[a.p] + a.bytes[..0] == s.sent[a.p];
  }

  lemma {:induction false} WriteLasts(ss: seq<State>, labels: seq<Label>, j: nat, k: nat)
    requires IsRun(ss, labels) && j < k <= |labels| && labels[j].CallWrite?
    requires forall i :: j < i < k ==> !EndsWrite(labels[i], labels[j].p)
    ensures ss[j].IsProc(labels[j].p) && InWrite(ss[k], labels[j].p, labels[j].bytes, ss[j].sent[labels[j].p])
  {
    assert IsStep(ss[k - 1], labels[k - 1], ss[k]);
    hide Init, Enabled, Next, InWrite;
    if k == j + 1 {
      WriteBegins(ss[j], labels[j]);
    } else {
      WriteLasts(ss, labels, j, k - 1);
      WriteStep(ss[k - 1], labels[k - 1], labels[j].p, labels[j].bytes, ss[j].sent[labels[j].p]);
    }
  }

  /**
   A call of pipewrite() puts in the first n bytes it was given, once and in order: all
   of them if it returns normally, and fewer only after a fault, a kill or with no reader.
   */
  lemma WritePutsItsBytes(ss: seq<State>, labels: seq<Label>, j: nat, k: nat) returns (n: nat)
    requires IsRun(ss, labels) && j < k < |labels| && labels[j].CallWrite? && EndsWrite(labels[k], labels[j].p)
    requires forall i :: j < i < k ==> !EndsWrite(labels[i], labels[j].p)
    ensures ss[j].IsProc(labels[j].p) && ss[k].IsProc(labels[j].p) && n <= |labels[j].bytes|
    ensures By(ss[k].written, labels[j].p) == By(ss[j].written, labels[j].p) + labels[j].bytes[..n]
    ensures labels[k].WriteDone? ==> n == |labels[j].bytes|
    ensures labels[k].GiveUp? ==> !ss[k].readopen || ss[k].procs[labels[j].p].killed
  {
    var p := labels[j].p;
    WriteLasts(ss, labels, j, k);
    InvAt(ss, labels, j);
    InvAt(ss, labels, k);
    assert IsStep(ss[k], labels[k], ss[k + 1]);
    assert Streams(ss[j], p) && Streams(ss[k], p);
    hide Inv, By;
    n := ss[k].procs[p].pc.i;
  }

  // ----- piperead() -----

  /** p is in a call that asked for n bytes; it gets to copying from an empty pipe only if no writer is left. */
  predicate InRead(s: State, p: nat, n: nat) {
    && s.IsProc(p) && s.procs[p].pc.Reading() && s.procs[p].pc.n == n
    && (s.procs[p].pc.ReadCopy? ==>
          && |s.procs[p].pc.out| <= n
          && (s.procs[p].pc.out == [] && |s.written| == |s.taken| ==> !s.writeopen))
  }

  /** piperead() returns: the copy loop ends, a copy fails, or it was killed. */
  predicate EndsRead(a: Label, p: nat) {
    a == ReadDone(p) || a == Get(p, false) || a == ReadKilled(p)
  }

  lemma {:induction false} ReadWrite(s: State, a: Label, p: nat, n: nat)
    requires IsWrite(a) && WriteEnabled(s, a) && InRead(s, p, n) && |s.taken| <= |s.written|
    ensures InRead(WriteNext(s, a), p, n)
  {
  }

  lemma {:induction false} ReadOwn(s: State, a: Label, p: nat, n: nat)
    requires IsRead(a) && ReadEnabled(s, a) && InRead(s, p, n) && !EndsRead(a, p) && Local(s, p) && Local(s, a.p)
    requires s.Empty() <==> |s.written| == |s.taken|
    ensures InRead(ReadNext(s, a), p, n)
  {
  }

  lemma {:induction false} ReadOther(s: State, a: Label, p: nat, n: nat)
    requires !IsWrite(a) && !IsRead(a) && OtherEnabled(s, a) && InRead(s, p, n)
    ensures InRead(OtherNext(s, a), p, n)
  {
  }

  lemma {:induction false} ReadStep(s: State, a: Label, p: nat, n: nat)
    requires Inv(s) && Enabled(s, a) && InRead(s, p, n) && !EndsRead(a, p)
    ensures InRead(Next(s, a), p, n)
  {
    Tests(s);
    assert Local(s, p);
    if IsRead(a) {
      assert Local(s, a.p);
    }
    hide Inv, WriteEnabled, WriteNext, ReadEnabled, ReadNext, OtherEnabled, OtherNext, InRead, Local;
    if IsWrite(a) {
      ReadWrite(s, a, p, n);
    } else if IsRead(a) {
      ReadOwn(s, a, p, n);
    } else {
      ReadOther(s, a, p, n);
    }
  }

  lemma {:induction false} ReadLasts(ss: seq<State>, labels: seq<Label>, j: nat, k: nat)
    requires IsRun(ss, labels) && j < k <= |labels| && labels[j].CallRead?
    requires forall i :: j < i < k ==> !EndsRead(labels[i], labels[j].p)
    ensures InRead(ss[k], labels[j].p, labels[j].n)
  {
    assert IsStep(ss[k - 1], labels[k - 1], ss[k]);
    if k > j + 1 {
      hide Init, Enabled, Next, InRead, Inv;
      InvAt(ss, labels, k - 1);
      ReadLasts(ss, labels, j, k - 1);
      ReadStep(ss[k - 1], labels[k - 1], labels[j].p, labels[j].n);
    }
  }

  /**
   A call of piperead() for n bytes that returns normally returns n bytes, or fewer and
   leaves the pipe empty; they are the last that came out. It returns none only if n
   is 0 or no writer is left.
   */
  lemma ReadReturnsItsBytes(ss: seq<State>, labels: seq<Label>, j: nat, k: nat)
    requires IsRun(ss, labels) && j < k < |labels| && labels[j].CallRead? && labels[k] == ReadDone(labels[j].p)
    requires forall i :: j < i < k ==> !EndsRead(labels[i], labels[j].p)
    ensures ss[k].IsProc(labels[j].p) && ss[k].procs[labels[j].p].pc.ReadCopy?
    ensures var s, out := ss[k], ss[k].procs[labels[j].p].pc.out;
      && |out| <= labels[j].n && (|out| < labels[j].n ==> |s.written| == |s.taken|)
      && (out == [] && labels[j].n > 0 ==> !s.writeopen)
      && |out| <= |s.taken| && s.taken[|s.taken| - |out|..] == out
  {
    ReadLasts(ss, labels, j, k);
    InvAt(ss, labels, k);
    assert IsStep(ss[k], labels[k], ss[k + 1]);
    assert Streams(ss[k], labels[j].p);
    Tests(ss[k]);
    hide Inv, By;
  }

  // ----- Wakeups and ends -----

  /** The step wakes the readers: a writer leaves normally or waits for room, or the write end is closed. */
  predicate WakesReaders(a: Label) {
    a.FullSleep? || a.WriteDone? || a.Fault? || a.CloseWrite?
  }

  /** The step wakes the writers: a reader has done what it can, or the read end is closed. */
  predicate WakesWriters(a: Label) {
    a.ReadDone? || (a.Get? && !a.ok) || a.CloseRead?
  }

  /**
   A wakeup reaches every sleeper of its kind, a kill() the process it is for, and nothing
   else ends a sleep.
   */
  lemma WakeupsReachAll(ss: seq<State>, labels: seq<Label>, k: nat, q: nat)
    requires IsRun(ss, labels) && k < |labels| && ss[k].IsProc(q)
    ensures ss[k + 1].IsProc(q)
    ensures var pc, pc' := ss[k].procs[q].pc, ss[k + 1].procs[q].pc;
      && (pc.ReadSleeps? ==>
            pc' == if WakesReaders(labels[k]) || labels[k] == Kill(q) then ReadWants(pc.n) else pc)
      && (pc.WriteSleeps? ==>
            pc' == if WakesWriters(labels[k]) || labels[k] == Kill(q) then WriteWants(pc.bytes, pc.i) else pc)
      && (labels[k] == Kill(q) ==> ss[k + 1].procs[q].killed)
  {
    assert IsStep(ss[k], labels[k], ss[k + 1]);
    SleeperStep(ss[k], labels[k], q);
    hide Enabled, Next, WakesReaders, WakesWriters, Init;
  }

  /** What a step does to a sleeper, and to the flag of a killed process. */
  predicate Sleeper(s: State, a: Label, q: nat, t: State) {
    && s.IsProc(q) && t.IsProc(q) && t.procs[q].killed == (s.procs[q].killed || a == Kill(q))
    && var pc, pc' := s.procs[q].pc, t.procs[q].pc;
    && (pc.ReadSleeps? ==> pc' == if WakesReaders(a) || a == Kill(q) then ReadWants(pc.n) else pc)
    && (pc.WriteSleeps? ==> pc' == if WakesWriters(a) || a == Kill(q) then WriteWants(pc.bytes, pc.i) else pc)
    && (pc'.Sleeping() ==> pc' == pc || (pc.Staying() && (a == FullSleep(q) || a == EmptySleep(q))))
    && (pc'.Staying() ==> pc' == pc || ((a == FullTest(q) || a == EmptyTest(q)) && !s.procs[q].killed))
  }

  lemma {:induction false} SleeperWrite(s: State, a: Label, q: nat)
    requires IsWrite(a) && WriteEnabled(s, a) && s.IsProc(q)
    ensures Sleeper(s, a, q, WriteNext(s, a))
  {
  }

  lemma {:induction false} SleeperRead(s: State, a: Label, q: nat)
    requires IsRead(a) && ReadEnabled(s, a) && s.IsProc(q)
    ensures Sleeper(s, a, q, ReadNext(s, a))
  {
  }

  lemma {:induction false} SleeperOther(s: State, a: Label, q: nat)
    requires !IsWrite(a) && !IsRead(a) && OtherEnabled(s, a) && s.IsProc(q)
    ensures Sleeper(s, a, q, OtherNext(s, a))
  {
  }

  lemma {:induction false} SleeperStep(s: State, a: Label, q: nat)
    requires Enabled(s, a) && s.IsProc(q)
    ensures Sleeper(s, a, q, Next(s, a))
  {
    hide WriteEnabled, WriteNext, ReadEnabled, ReadNext, OtherEnabled, OtherNext, Sleeper;
    if IsWrite(a) {
      SleeperWrite(s, a, q);
    } else if IsRead(a) {
      SleeperRead(s, a, q);
    } else {
      SleeperOther(s, a, q);
    }
  }

  /** There are as many processes as at the start. */
  lemma {:induction false} ProcsBefore(ss: seq<State>, labels: seq<Label>, k: nat, p: nat)
    requires IsRun(ss, labels) && 0 < k <= |labels| && ss[k].IsProc(p)
    ensures ss[k - 1].IsProc(p) && Sleeper(ss[k - 1], labels[k - 1], p, ss[k])
  {
    InvAt(ss, labels, k - 1);
    assert IsStep(ss[k - 1], labels[k - 1], ss[k]);
    SleeperStep(ss[k - 1], labels[k - 1], p);
  }

  /** p was killed after step j and before step k. */
  ghost predicate KilledBetween(labels: seq<Label>, j: nat, k: nat, p: nat)
    requires k <= |labels|
  {
    exists i :: j < i < k && labels[i] == Kill(p)
  }

  /** Since the test at j, p is about to sleep; it has been killed if a kill() came since. */
  lemma {:induction false} StaysSince(ss: seq<State>, labels: seq<Label>, k: nat, p: nat) returns (j: nat)
    requires IsRun(ss, labels) && k <= |labels| && ss[k].IsProc(p) && ss[k].procs[p].pc.Staying()
    ensures j < k && (labels[j] == FullTest(p) || labels[j] == EmptyTest(p))
    ensures ss[k].procs[p].killed <==> KilledBetween(labels, j, k, p)
  {
    assert k > 0;
    ProcsBefore(ss, labels, k, p);
    if ss[k].procs[p].pc == ss[k - 1].procs[p].pc {
      j := StaysSince(ss, labels, k - 1, p);
    } else {
      j := k - 1;
    }
  }

  /**
   A process that sleeps in the pipe has been killed if and only if the kill() came
   between the test of its loop and its sleep(): kill() wakes every other sleeper.
   */
  lemma {:induction false} KilledAsleep(ss: seq<State>, labels: seq<Label>, k: nat, p: nat) returns (j: nat, m: nat)
    requires IsRun(ss, labels) && k <= |labels| && ss[k].IsProc(p) && ss[k].procs[p].pc.Sleeping()
    ensures j < m < k && (labels[j] == FullTest(p) || labels[j] == EmptyTest(p))
    ensures labels[m] == FullSleep(p) || labels[m] == EmptySleep(p)
    ensures ss[k].procs[p].killed <==> KilledBetween(labels, j, m, p)
  {
    assert k > 0;
    ProcsBefore(ss, labels, k, p);
    if ss[k].procs[p].pc == ss[k - 1].procs[p].pc {
      j, m := KilledAsleep(ss, labels, k - 1, p);
    } else {
      m := k - 1;
      j := StaysSince(ss, labels, m, p);
    }
  }

  /** An end of the pipe is open if and only if it has not been closed. */
  lemma {:induction false} OpenIff(ss: seq<State>, labels: seq<Label>, k: nat)
    requires IsRun(ss, labels) && k <= |labels|
    ensures ss[k].writeopen <==> forall i :: 0 <= i < k ==> !labels[i].CloseWrite?
    ensures ss[k].readopen <==> forall i :: 0 <= i < k ==> !labels[i].CloseRead?
  {
    if k > 0 {
      assert IsStep(ss[k - 1], labels[k - 1], ss[k]);
      OpenIff(ss, labels, k - 1);
      OpenStep(ss[k - 1], labels[k - 1]);
      hide Enabled, Next;
    }
  }

  lemma {:induction false} OpenStep(s: State, a: Label)
    requires Enabled(s, a)
    ensures Next(s, a).writeopen <==> s.writeopen && !a.CloseWrite?
    ensures Next(s, a).readopen <==> s.readopen && !a.CloseRead?
  {
  }
}
