/** What holds of the pipe over every run. */
module PipeRuns {
  import opened ProcTypes
  import opened Pipe
  import opened PipeInv

  lemma {:induction false} InvAt(ss: seq<State>, labels: seq<Label>, k: nat)
    requires IsRun(ss, labels) && k <= |labels|
    ensures Inv(ss[k])
  {
    if k == 0 {
      InvInit(ss[0]);
    } else {
      InvAt(ss, labels, k - 1);
      assert IsStep(ss[k - 1], labels[k - 1], ss[k]);
      InvStep(ss[k - 1], labels[k - 1]);
    }
  }

  /** No step up to k is a writer leaving sleeping readers behind. */
  ghost predicate NoneStrands(ss: seq<State>, labels: seq<Label>, k: nat)
    requires |ss| == |labels| + 1 && k <= |labels|
  {
    forall j :: 0 <= j < k ==> !Strands(ss[j], labels[j])
  }

  lemma {:induction false} ReadersAt(ss: seq<State>, labels: seq<Label>, k: nat)
    requires IsRun(ss, labels) && k <= |labels| && NoneStrands(ss, labels, k)
    ensures ReadersOk(ss[k])
  {
    if k == 0 {
      InvInit(ss[0]);
    } else {
      ReadersAt(ss, labels, k - 1);
      InvAt(ss, labels, k - 1);
      assert IsStep(ss[k - 1], labels[k - 1], ss[k]);
      ReadersStep(ss[k - 1], labels[k - 1]);
    }
  }

  // ----- Theorems -----

  /** First in, first out: what came out is what went in first, with at most 512 bytes in between. */
  lemma FifoOverRuns(ss: seq<State>, labels: seq<Label>, k: nat)
    requires IsRun(ss, labels) && k <= |labels|
    ensures |ss[k].taken| <= |ss[k].written| <= |ss[k].taken| + 512
    ensures forall i :: 0 <= i < |ss[k].taken| ==> ss[k].taken[i] == ss[k].written[i].ch
  {
    InvAt(ss, labels, k);
  }

  /**
   Every call's bytes go in whole, in order and once: the i bytes written so far are
   the last i that process put in.
   */
  lemma WritersBytesInOrder(ss: seq<State>, labels: seq<Label>, k: nat, p: nat)
    requires IsRun(ss, labels) && k <= |labels| && ss[k].IsProc(p) && ss[k].procs[p].pc.Writing()
    ensures var own, pc := By(ss[k].written, p), ss[k].procs[p].pc;
      pc.i <= |pc.bytes| && pc.i <= |own| && own[|own| - pc.i..] == pc.bytes[..pc.i]
  {
    InvAt(ss, labels, k);
    assert Streams(ss[k], p);
  }

  /** What a read has copied so far is one stretch of what went in, the stretch that came out last. */
  lemma ReadersGetOneStretch(ss: seq<State>, labels: seq<Label>, k: nat, p: nat, i: nat)
    requires IsRun(ss, labels) && k <= |labels| && ss[k].IsProc(p) && ss[k].procs[p].pc.ReadCopy?
    requires i < |ss[k].procs[p].pc.out|
    ensures var s, out := ss[k], ss[k].procs[p].pc.out;
      |out| <= |s.taken| <= |s.written| && out[i] == s.written[|s.taken| - |out| + i].ch
  {
    InvAt(ss, labels, k);
    var s := ss[k];
    assert Streams(s, p);
    var out := s.procs[p].pc.out;
    assert out[i] == s.taken[|s.taken| - |out|..][i] == s.taken[|s.taken| - |out| + i];
  }

  /** At most one process is inside the locked parts. */
  lemma OneInside(ss: seq<State>, labels: seq<Label>, k: nat, p: nat, q: nat)
    requires IsRun(ss, labels) && k <= |labels| && ss[k].IsProc(p) && ss[k].IsProc(q)
    requires ss[k].procs[p].pc.Locking() && ss[k].procs[q].pc.Locking()
    ensures p == q
  {
    InvAt(ss, labels, k);
    assert Local(ss[k], p) && Local(ss[k], q);
  }

  /** While nobody holds the lock, a sleeping writer means a full pipe with its read end open. */
  lemma SleepingWriterMeansFull(ss: seq<State>, labels: seq<Label>, k: nat, p: nat)
    requires IsRun(ss, labels) && k <= |labels| && ss[k].lock.None? && ss[k].IsProc(p) && ss[k].procs[p].pc.WriteSleeps?
    ensures ss[k].Full() && |ss[k].written| == |ss[k].taken| + 512 && ss[k].readopen
  {
    InvAt(ss, labels, k);
    assert Local(ss[k], p);
    Tests(ss[k]);
  }

  /**
   While nobody holds the lock, a sleeping reader means an empty pipe, in every run
   in which no writer strands readers.
   */
  lemma SleepingReaderMeansEmpty(ss: seq<State>, labels: seq<Label>, k: nat, p: nat)
    requires IsRun(ss, labels) && k <= |labels| && NoneStrands(ss, labels, k)
    requires ss[k].lock.None? && ss[k].IsProc(p) && ss[k].procs[p].pc.ReadSleeps?
    ensures ss[k].Empty() && |ss[k].written| == |ss[k].taken| && ss[k].writeopen
  {
    InvAt(ss, labels, k);
    ReadersAt(ss, labels, k);
    assert Local(ss[k], p);
    Tests(ss[k]);
  }

  /** It is a killed writer that strands readers: the read end is open as long as a reader sleeps. */
  lemma StrandedByKill(ss: seq<State>, labels: seq<Label>, k: nat)
    requires IsRun(ss, labels) && k < |labels| && Strands(ss[k], labels[k])
    ensures ss[k].IsProc(labels[k].p) && ss[k].procs[labels[k].p].killed && ss[k].readopen
  {
    InvAt(ss, labels, k);
    assert IsStep(ss[k], labels[k], ss[k + 1]);
    var p :| 0 <= p < |ss[k].procs| && ss[k].procs[p].pc.ReadSleeps?;
    assert Local(ss[k], p);
  }

  /** No process is in pipewrite() after it was killed, in any state before k. */
  ghost predicate NoKilledWriter(ss: seq<State>, k: nat)
    requires k <= |ss|
  {
    forall j, p :: 0 <= j < k && ss[j].IsProc(p) && ss[j].procs[p].killed ==> !ss[j].procs[p].pc.Writing()
  }

  /** As long as no process is killed while it writes, a sleeping reader means an empty pipe once the lock is free. */
  lemma EmptyWithoutKills(ss: seq<State>, labels: seq<Label>, k: nat, p: nat)
    requires IsRun(ss, labels) && k <= |labels| && NoKilledWriter(ss, k)
    requires ss[k].lock.None? && ss[k].IsProc(p) && ss[k].procs[p].pc.ReadSleeps?
    ensures ss[k].Empty() && |ss[k].written| == |ss[k].taken| && ss[k].writeopen
  {
    forall j | 0 <= j < k
      ensures !Strands(ss[j], labels[j])
    {
      if Strands(ss[j], labels[j]) {
        assert IsStep(ss[j], labels[j], ss[j + 1]);
        StrandedByKill(ss, labels, j);
      }
    }
    SleepingReaderMeansEmpty(ss, labels, k, p);
  }

  /**
   The first step that leaves a reader asleep with bytes to read is a killed writer's
   return, and such a step always does.
   */
  lemma StrandingIsExact(ss: seq<State>, labels: seq<Label>, k: nat)
    requires IsRun(ss, labels) && k < |labels| && NoneStrands(ss, labels, k)
    ensures ReadersOk(ss[k + 1]) <==> !Strands(ss[k], labels[k])
  {
    InvAt(ss, labels, k);
    ReadersAt(ss, labels, k);
    assert IsStep(ss[k], labels[k], ss[k + 1]);
    ReadersStep(ss[k], labels[k]);
  }

  /** Readers and writers never all wait for each other. */
  lemma NotBothAsleep(ss: seq<State>, labels: seq<Label>, k: nat, p: nat, q: nat)
    requires IsRun(ss, labels) && k <= |labels| && NoneStrands(ss, labels, k) && ss[k].lock.None?
    requires ss[k].IsProc(p) && ss[k].IsProc(q) && ss[k].procs[p].pc.WriteSleeps?
    ensures !ss[k].procs[q].pc.ReadSleeps?
  {
    InvAt(ss, labels, k);
    ReadersAt(ss, labels, k);
    assert Local(ss[k], p);
  }

  /** Once both ends are closed and the page is freed, no process is in the pipe, or ever enters it. */
  lemma FreedPipeUnused(ss: seq<State>, labels: seq<Label>, k: nat, p: nat)
    requires IsRun(ss, labels) && k <= |labels| && !ss[k].readopen && !ss[k].writeopen && ss[k].IsProc(p)
    ensures ss[k].procs[p].pc.Idle?
  {
    InvAt(ss, labels, k);
    assert Local(ss[k], p);
  }

  // ----- A killed writer does strand readers -----

  /** A pipe that nobody has used, between processes 0 and 1. */
  function Fresh(): (s: State)
    ensures Init(s)
  {
    State(seq(512, _ => 0), 0, 0, true, true, None, [Proc(Idle, false), Proc(Idle, false)], [], [], [[], []])
  }

  /** Process 0 goes to sleep reading; process 1 puts in one of two bytes, is killed and returns. */
  function Stranding(): (labels: seq<Label>) {
    [CallRead(0, 1), Acquire(0), EmptyTest(0), EmptySleep(0), CallWrite(1, [7, 8]), Acquire(1), Put(1), Kill(1),
     GiveUp(1)]
  }

  /** The fresh pipe with process 0 asleep and process 1 at pc. */
  function Asleep(pc: Pc, lock: Option<nat>): (s: State) {
    Fresh().(procs := [Proc(ReadSleeps(1), false), Proc(pc, false)], lock := lock)
  }

  lemma FallsAsleep() returns (s1: State, s2: State, s3: State)
    ensures IsStep(Fresh(), CallRead(0, 1), s1) && IsStep(s1, Acquire(0), s2) && IsStep(s2, EmptyTest(0), s3)
    ensures IsStep(s3, EmptySleep(0), Asleep(Idle, None))
  {
    hide WriteEnabled, WriteNext;
    s1 := Fresh().(procs := [Proc(ReadWants(1), false), Proc(Idle, false)]);
    s2 := Fresh().(procs := [Proc(ReadTest(1), false), Proc(Idle, false)], lock := Some(0));
    s3 := Fresh().(procs := [Proc(ReadStays(1), false), Proc(Idle, false)], lock := Some(0));
  }

  lemma StartsWriting()
    ensures IsStep(Asleep(Idle, None), CallWrite(1, [7, 8]), Asleep(WriteWants([7, 8], 0), None))
    ensures IsStep(Asleep(WriteWants([7, 8], 0), None), Acquire(1), Asleep(WriteLoop([7, 8], 0), Some(1)))
  {
    hide ReadEnabled, ReadNext;
  }

  lemma WritesOne() returns (s6: State, s7: State, s8: State)
    ensures IsStep(Asleep(WriteLoop([7, 8], 0), Some(1)), Put(1), s6) && IsStep(s6, Kill(1), s7)
    ensures IsStep(s7, GiveUp(1), s8)
    ensures |s8.procs| == 2 && s8.lock.None? && s8.procs[0].pc.ReadSleeps?
    ensures s8.written == [Sent(1, 7)] && s8.taken == [] && !s8.Empty()
  {
    hide ReadEnabled, ReadNext;
    s6 := Next(Asleep(WriteLoop([7, 8], 0), Some(1)), Put(1));
    s7 := Next(s6, Kill(1));
    s8 := Next(s7, GiveUp(1));
  }

  lemma KilledWriterStrands() returns (ss: seq<State>)
    ensures IsRun(ss, Stranding())
    ensures var s := ss[9];
      |s.procs| == 2 && s.lock.None? && s.procs[0].pc.ReadSleeps? && s.written == [Sent(1, 7)] && s.taken == []
  {
    hide IsStep, Asleep, Init;
    var s1, s2, s3 := FallsAsleep();
    StartsWriting();
    var s6, s7, s8 := WritesOne();
    var s4, s5 := Asleep(WriteWants([7, 8], 0), None), Asleep(WriteLoop([7, 8], 0), Some(1));
    ss := [Fresh(), s1, s2, s3, Asleep(Idle, None), s4, s5, s6, s7, s8];
  }
}
