/**
 The pipe of kernel/pipe.c as a state machine of concurrent readers and writers.
 A step is one test or one byte under pi->lock, a sleep(), which gives the lock
 up, or a kill() from outside, which may come between the two. The counters are 32 bits wide and wrap.
 */
module Pipe {
  import opened ProcTypes

  type Byte = b: int | 0 <= b < 256

  /** Where a process is. */
  datatype Pc =
    | Idle
    | WriteWants(bytes: seq<Byte>, i: nat)  // pipewrite(): waiting for the lock, at the start or after sleep()
    | WriteLoop(bytes: seq<Byte>, i: nat)   // at the head of the loop
    | WriteStays(bytes: seq<Byte>, i: nat)  // found the pipe full, and will sleep
    | WriteSleeps(bytes: seq<Byte>, i: nat) // on &pi->nwrite
    | ReadWants(n: nat)
    | ReadTest(n: nat)                      // at the head of the first loop of piperead()
    | ReadStays(n: nat)                     // found the pipe empty, and will sleep
    | ReadSleeps(n: nat)                    // on &pi->nread
    | ReadCopy(n: nat, out: seq<Byte>)      // at the head of the second loop
  {
    predicate Writing() {
      WriteWants? || WriteLoop? || WriteStays? || WriteSleeps?
    }

    predicate Reading() {
      ReadWants? || ReadTest? || ReadStays? || ReadSleeps? || ReadCopy?
    }

    predicate Locking() {
      WriteLoop? || WriteStays? || ReadTest? || ReadStays? || ReadCopy?
    }

    predicate Staying() {
      WriteStays? || ReadStays?
    }

    predicate Sleeping() {
      WriteSleeps? || ReadSleeps?
    }
  }

  datatype Proc = Proc(pc: Pc, killed: bool)

  /** A byte and the process that wrote it. */
  datatype Sent = Sent(p: nat, ch: Byte)

  /**
   written and taken are the bytes put in and taken out so far, sent the bytes
   each process put in.
   */
  datatype State = State(data: seq<Byte>, nread: nat, nwrite: nat, readopen: bool, writeopen: bool, lock: Option<nat>,
                         procs: seq<Proc>, written: seq<Sent>, taken: seq<Byte>, sent: seq<seq<Byte>>)
  {
    predicate IsProc(p: int) {
      0 <= p < |procs| && p < |sent|
    }

    function At(p: nat, pc: Pc): State
      requires IsProc(p)
    {
      this.(procs := procs[p := procs[p].(pc := pc)])
    }

    /** release(&pi->lock) and return */
    function Out(p: nat): State
      requires IsProc(p)
    {
      At(p, Idle).(lock := None)
    }

    predicate Full() {
      nwrite == (nread + 512) % 0x1_0000_0000
    }

    predicate Empty() {
      nread == nwrite
    }

    /** wakeup(&pi->nread) */
    function WakeReaders(): State {
      this.(procs := seq(|procs|, i requires 0 <= i < |procs| => ReaderUp(procs[i])))
    }

    /** wakeup(&pi->nwrite) */
    function WakeWriters(): State {
      this.(procs := seq(|procs|, i requires 0 <= i < |procs| => WriterUp(procs[i])))
    }
  }

  function ReaderUp(x: Proc): (y: Proc) {
    if x.pc.ReadSleeps? then x.(pc := ReadWants(x.pc.n)) else x
  }

  function WriterUp(x: Proc): (y: Proc) {
    if x.pc.WriteSleeps? then x.(pc := WriteWants(x.pc.bytes, x.pc.i)) else x
  }

  datatype Label =
    | CallWrite(p: nat, bytes: seq<Byte>) // the bytes at addr
    | Put(p: nat)                         // one byte goes in
    | Fault(p: nat)                       // copyin() fails
    | FullTest(p: nat)                    // the pipe is full
    | FullSleep(p: nat)
    | GiveUp(p: nat)                      // no reader, or killed
    | WriteDone(p: nat)
    | CallRead(p: nat, n: nat)
    | EmptyTest(p: nat)                   // the pipe is empty, and the reader not killed
    | EmptySleep(p: nat)
    | ReadKilled(p: nat)
    | ReadStart(p: nat)
    | Get(p: nat, ok: bool)               // one byte comes out; ok: copyout() succeeds
    | ReadDone(p: nat)
    | Acquire(p: nat)
    | Kill(p: nat)
    | CloseWrite                          // pipeclose(), when the last file for that end is closed
    | CloseRead

  predicate IsWrite(a: Label) {
    a.CallWrite? || a.Put? || a.Fault? || a.FullTest? || a.FullSleep? || a.GiveUp? || a.WriteDone?
  }

  predicate IsRead(a: Label) {
    a.CallRead? || a.EmptyTest? || a.EmptySleep? || a.ReadKilled? || a.ReadStart? || a.Get? || a.ReadDone?
  }

  // ----- Steps -----

  predicate WriteEnabled(s: State, a: Label)
    requires IsWrite(a)
  {
    && s.IsProc(a.p) && |s.data| == 512
    && var pc := s.procs[a.p].pc;
    if a.CallWrite? then pc.Idle? && s.writeopen
    else if a.FullSleep? then pc.WriteStays?
    else
      && pc.WriteLoop?
      && (if a.WriteDone? then pc.i >= |pc.bytes|
          else
            && pc.i < |pc.bytes|
            && (a.GiveUp? <==> !s.readopen || s.procs[a.p].killed)
            && (a.FullTest? ==> s.Full())
            && (a.Put? || a.Fault? ==> !s.Full()))
  }

  function WriteNext(s: State, a: Label): (r: State)
    requires IsWrite(a) && WriteEnabled(s, a)
  {
    var p, pc := a.p, s.procs[a.p].pc;
    match a
    case CallWrite(_, bytes) => s.At(p, WriteWants(bytes, 0))
    case Put(_) =>
      var ch := pc.bytes[pc.i];
      s.At(p, WriteLoop(pc.bytes, pc.i + 1)).(
        data := s.data[s.nwrite % 512 := ch], nwrite := (s.nwrite + 1) % 0x1_0000_0000,
        written := s.written + [Sent(p, ch)], sent := s.sent[p := s.sent[p] + [ch]])
    case FullTest(_) => s.At(p, WriteStays(pc.bytes, pc.i))
    case FullSleep(_) => s.WakeReaders().At(p, WriteSleeps(pc.bytes, pc.i)).(lock := None)
    case GiveUp(_) => s.Out(p)
    case _ => s.WakeReaders().Out(p)
  }

  predicate ReadEnabled(s: State, a: Label)
    requires IsRead(a)
  {
    && s.IsProc(a.p) && |s.data| == 512
    && var pc := s.procs[a.p].pc;
    match a
    case CallRead(_, n) => pc.Idle? && s.readopen
    case EmptyTest(_) => pc.ReadTest? && s.Empty() && s.writeopen && !s.procs[a.p].killed
    case EmptySleep(_) => pc.ReadStays?
    case ReadKilled(_) => pc.ReadTest? && s.Empty() && s.writeopen && s.procs[a.p].killed
    case ReadStart(_) => pc.ReadTest? && !(s.Empty() && s.writeopen)
    case Get(_, ok) => pc.ReadCopy? && |pc.out| < pc.n && !s.Empty()
    case ReadDone(_) => pc.ReadCopy? && (|pc.out| >= pc.n || s.Empty())
  }

  function ReadNext(s: State, a: Label): (r: State)
    requires IsRead(a) && ReadEnabled(s, a)
  {
    var p, pc := a.p, s.procs[a.p].pc;
    match a
    case CallRead(_, n) => s.At(p, ReadWants(n))
    case EmptyTest(_) => s.At(p, ReadStays(pc.n))
    case EmptySleep(_) => s.At(p, ReadSleeps(pc.n)).(lock := None)
    case ReadKilled(_) => s.Out(p)
    case ReadStart(_) => s.At(p, ReadCopy(pc.n, []))
    case Get(_, ok) =>
      var ch := s.data[s.nread % 512];
      var t := s.(nread := (s.nread + 1) % 0x1_0000_0000, taken := s.taken + [ch]);
      if ok then t.At(p, ReadCopy(pc.n, pc.out + [ch])) else t.WakeWriters().Out(p)
    case ReadDone(_) => s.WakeWriters().Out(p)
  }

  predicate OtherEnabled(s: State, a: Label)
    requires !IsWrite(a) && !IsRead(a)
  {
    match a
    case Acquire(p) => s.IsProc(p) && (s.procs[p].pc.WriteWants? || s.procs[p].pc.ReadWants?) && s.lock.None?
    case Kill(p) => s.IsProc(p)
    case CloseWrite => s.lock.None? && s.writeopen && forall p :: 0 <= p < |s.procs| ==> !s.procs[p].pc.Writing()
    case CloseRead => s.lock.None? && s.readopen && forall p :: 0 <= p < |s.procs| ==> !s.procs[p].pc.Reading()
  }

  function OtherNext(s: State, a: Label): (r: State)
    requires !IsWrite(a) && !IsRead(a) && OtherEnabled(s, a)
  {
    match a
    case Acquire(p) =>
      var pc := s.procs[p].pc;
      s.At(p, if pc.WriteWants? then WriteLoop(pc.bytes, pc.i) else ReadTest(pc.n)).(lock := Some(p))
    case Kill(p) => s.(procs := s.procs[p := WriterUp(ReaderUp(s.procs[p])).(killed := true)])
    case CloseWrite => s.(writeopen := false).WakeReaders()
    case CloseRead => s.(readopen := false).WakeWriters()
  }

  predicate Enabled(s: State, a: Label) {
    if IsWrite(a) then WriteEnabled(s, a) else if IsRead(a) then ReadEnabled(s, a) else OtherEnabled(s, a)
  }

  function Next(s: State, a: Label): (r: State)
    requires Enabled(s, a)
  {
    if IsWrite(a) then WriteNext(s, a) else if IsRead(a) then ReadNext(s, a) else OtherNext(s, a)
  }

  predicate Init(s: State) {
    && |s.data| == 512 && s.nread == s.nwrite == 0 && s.readopen && s.writeopen && s.lock.None?
    && s.written == [] && s.taken == [] && |s.sent| == |s.procs|
    && forall p :: 0 <= p < |s.procs| ==> s.procs[p].pc.Idle? && s.sent[p] == []
  }

  predicate IsStep(s: State, a: Label, t: State) {
    Enabled(s, a) && t == Next(s, a)
  }

  ghost predicate IsRun(ss: seq<State>, labels: seq<Label>) {
    && |ss| == |labels| + 1 && Init(ss[0])
    && forall k :: 0 <= k < |labels| ==> IsStep(ss[k], labels[k], ss[k + 1])
  }
}
