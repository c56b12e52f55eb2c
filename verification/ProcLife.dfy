/**
 The life of processes: fork, exit, wait and reparent of kernel/proc.c, as a
 state machine. A step is a stretch of code that runs under a lock held to its
 end; locks that are held from one step to the next (wait_lock, and a process's
 own lock on its way into the scheduler) show in the program counters.
 */
module ProcLife {
  import opened ProcTypes

  /** What a process sleeps on: the address of a process, or anything else. */
  datatype Chan = Nothing | ProcAddr(slot: nat) | Elsewhere

  /** Where a process is in the code below. */
  datatype Pc =
    | Gone                              // the slot has no thread
    | Fresh(forker: nat)                // allocated by the fork of a process, not started
    | Kernel                            // anywhere outside fork, exit and wait
    | Dozing                            // inside a sleep() on some other channel
    | ForkHolding(np: nat)              // fork: np allocated, its lock held
    | ForkUnlinked(np: nat)             // fork: before np->parent is set
    | ForkLinked(np: nat)               // fork: before np becomes RUNNABLE
    | ExitWant                          // exit: before acquire(&wait_lock)
    | Reparent(i: nat)                  // exit: in reparent(), at slot i
    | ReparentWake(i: nat, j: nat)      // exit: in reparent()'s wakeup(initproc), at slot j
    | ParentWake(j: nat)                // exit: in wakeup(p->parent), at slot j
    | ExitGoing                         // exit: ZOMBIE, own lock held until the scheduler releases it
    | WaitWant                          // wait: before acquire(&wait_lock)
    | WaitScan(i: nat, seen: Option<nat>) // wait: scanning, at slot i; a child seen so far
    | WaitStay(kid: nat)                // wait: tested killed, before sleep()
    | WaitGoing(kid: nat)               // wait: in sleep(), wait_lock released, own lock held
    | WaitAsleep(kid: nat)              // wait: in sleep(), own lock released

  /** arg is the argument of the exit() that the process has called. */
  datatype Proc = Proc(state: ProcState, parent: Option<nat>, pid: nat, killed: bool, chan: Chan, pc: Pc,
                       arg: int, xstate: int)

  /**
   waitLock is the holder of wait_lock. exited has the pids of processes that
   have exited; reaped has those that wait() has returned, in order, and told the
   status it has copied out with each.
   */
  datatype State = State(procs: seq<Proc>, init: nat, nextpid: nat, waitLock: Option<nat>,
                         exited: set<nat>, reaped: seq<nat>, told: seq<int>)
  {
    predicate Slot(p: int) {
      0 <= p < |procs|
    }

    function With(p: nat, x: Proc): State
      requires Slot(p)
    {
      this.(procs := procs[p := x])
    }

    function At(p: nat, pc: Pc): State
      requires Slot(p)
    {
      With(p, procs[p].(pc := pc))
    }
  }

  datatype Label =
    | Dispatch(p: nat)                  // scheduler(): RUNNABLE to RUNNING
    | Preempt(p: nat)                   // yield() from a timer interrupt
    | Doze(p: nat)                      // sleep() on another channel
    | RouseOne(p: nat)                  // a wakeup() of another channel reaches p
    | DozeEnd(p: nat)                   // return from that sleep()
    | Kill(p: nat)                      // kill() finds p's pid
    | ForkAlloc(p: nat, np: nat)        // allocproc() takes slot np
    | ForkFail(p: nat)                  // an allocation or uvmcopy() failed
    | ForkUnlock(p: nat)                // the copy is complete
    | ForkLink(p: nat)                  // np->parent = p, under wait_lock
    | ForkStart(p: nat)                 // np->state = RUNNABLE, under np->lock
    | ExitBegin(p: nat, status: int)
    | ExitLock(p: nat)                  // acquire(&wait_lock)
    | ReparentStep(p: nat)
    | WakeOne(p: nat)                   // one slot of a wakeup() in exit
    | WakeDone(p: nat)                  // wakeup(initproc) returns to reparent()
    | ExitZombie(p: nat)                // own lock, ZOMBIE, release(&wait_lock)
    | ExitGone(p: nat)                  // the scheduler releases the lock of the zombie
    | WaitBegin(p: nat)
    | WaitLock(p: nat)                  // acquire(&wait_lock), first or again after sleep
    | WaitStep(p: nat)                  // one slot of the scan, no zombie child
    | WaitReap(p: nat, copied: bool)    // one slot of the scan, a zombie child; copyout() succeeds or not
    | WaitNone(p: nat)                  // no children, or killed: return -1
    | WaitDecide(p: nat)                // children, and not killed
    | WaitSleep(p: nat)                 // sleep(): own lock, release(&wait_lock)
    | WaitSlept(p: nat)                 // SLEEPING, own lock released by the scheduler

  // ----- Locks -----

  predicate HoldsWaitLock(pc: Pc) {
    pc.Reparent? || pc.ReparentWake? || pc.ParentWake? || pc.WaitScan? || pc.WaitStay?
  }

  /** Process p holds its own lock from one step to the next. */
  predicate HoldsOwn(pc: Pc) {
    pc.ExitGoing? || pc.WaitGoing?
  }

  /** The lock of slot q can be acquired. */
  ghost predicate LockFree(s: State, q: nat)
    requires s.Slot(q)
  {
    !HoldsOwn(s.procs[q].pc) && forall p :: s.Slot(p) ==> s.procs[p].pc != ForkHolding(q)
  }

  // ----- Steps -----

  /** Process p is executing, at pc. */
  predicate Runs(s: State, p: nat) {
    s.Slot(p) && s.procs[p].state == RUNNING
  }

  /** The channel that process p is waking. */
  function WakeChan(s: State, p: nat): (c: Chan)
    requires s.Slot(p)
  {
    if s.procs[p].pc.ReparentWake? then ProcAddr(s.init)
    else if s.procs[p].parent.Some? then ProcAddr(s.procs[p].parent.value)
    else Nothing
  }

  predicate IsSched(a: Label) {
    || a.Dispatch? || a.Preempt? || a.Doze? || a.RouseOne? || a.DozeEnd?
    || a.Kill? || a.ExitBegin? || a.ExitGone? || a.WaitBegin?
  }

  predicate IsWake(a: Label) {
    a.WakeOne? || a.WakeDone?
  }

  predicate IsReap(a: Label) {
    a.WaitReap?
  }

  predicate IsFork(a: Label) {
    a.ForkAlloc? || a.ForkFail? || a.ForkUnlock? || a.ForkLink? || a.ForkStart?
  }

  predicate IsExit(a: Label) {
    a.ExitLock? || a.ReparentStep? || a.ExitZombie?
  }

  predicate IsWait(a: Label) {
    a.WaitLock? || a.WaitStep? || a.WaitNone? || a.WaitDecide? || a.WaitSleep? || a.WaitSlept?
  }

  /** wait() can look at the slot its scan has reached. */
  ghost predicate Scans(s: State, p: nat) {
    && Runs(s, p) && s.procs[p].pc.WaitScan? && s.Slot(s.procs[p].pc.i)
    && (s.procs[s.procs[p].pc.i].parent == Some(p) ==> LockFree(s, s.procs[p].pc.i))
  }

  ghost predicate SchedEnabled(s: State, a: Label)
    requires IsSched(a)
  {
    match a
    case Dispatch(p) => s.Slot(p) && s.procs[p].state == RUNNABLE
    case Preempt(p) =>
      Runs(s, p) && !HoldsWaitLock(s.procs[p].pc) && !HoldsOwn(s.procs[p].pc) && !s.procs[p].pc.ForkHolding?
    case Doze(p) => Runs(s, p) && s.procs[p].pc.Kernel?
    case RouseOne(p) => s.Slot(p) && s.procs[p].state == SLEEPING && s.procs[p].chan == Elsewhere
    case DozeEnd(p) => Runs(s, p) && s.procs[p].pc.Dozing?
    case Kill(p) => s.Slot(p) && LockFree(s, p)
    case ExitBegin(p, _) => Runs(s, p) && s.procs[p].pc.Kernel? && p != s.init
    case ExitGone(p) => s.Slot(p) && s.procs[p].pc.ExitGoing?
    case WaitBegin(p) => Runs(s, p) && s.procs[p].pc.Kernel?
  }

  ghost predicate WakeEnabled(s: State, a: Label)
    requires IsWake(a)
  {
    match a
    case WakeOne(p) =>
      && Runs(s, p) && (s.procs[p].pc.ReparentWake? || s.procs[p].pc.ParentWake?) && s.Slot(s.procs[p].pc.j)
      && (s.procs[p].pc.j != p ==> LockFree(s, s.procs[p].pc.j))
    case WakeDone(p) => Runs(s, p) && s.procs[p].pc.ReparentWake? && !s.Slot(s.procs[p].pc.j)
  }

  ghost predicate ReapEnabled(s: State, a: Label)
    requires IsReap(a)
  {
    Scans(s, a.p) && s.procs[s.procs[a.p].pc.i].parent == Some(a.p) && s.procs[s.procs[a.p].pc.i].state == ZOMBIE
  }

  ghost predicate ForkEnabled(s: State, a: Label)
    requires IsFork(a)
  {
    match a
    case ForkAlloc(p, np) =>
      Runs(s, p) && s.procs[p].pc.Kernel? && s.Slot(np) && s.procs[np].state == UNUSED && LockFree(s, np)
    case ForkFail(p) => Runs(s, p) && s.procs[p].pc.ForkHolding? && s.Slot(s.procs[p].pc.np)
    case ForkUnlock(p) => Runs(s, p) && s.procs[p].pc.ForkHolding?
    case ForkLink(p) => Runs(s, p) && s.procs[p].pc.ForkUnlinked? && s.waitLock.None? && s.Slot(s.procs[p].pc.np)
    case ForkStart(p) =>
      Runs(s, p) && s.procs[p].pc.ForkLinked? && s.Slot(s.procs[p].pc.np) && LockFree(s, s.procs[p].pc.np)
  }

  ghost predicate ExitEnabled(s: State, a: Label)
    requires IsExit(a)
  {
    match a
    case ExitLock(p) => Runs(s, p) && s.procs[p].pc.ExitWant? && s.waitLock.None?
    case ReparentStep(p) => Runs(s, p) && s.procs[p].pc.Reparent?
    case ExitZombie(p) => Runs(s, p) && s.procs[p].pc.ParentWake? && s.procs[p].pc.j >= |s.procs| && LockFree(s, p)
  }

  ghost predicate WaitEnabled(s: State, a: Label)
    requires IsWait(a)
  {
    match a
    case WaitLock(p) => Runs(s, p) && (s.procs[p].pc.WaitWant? || s.procs[p].pc.WaitAsleep?) && s.waitLock.None?
    case WaitStep(p) =>
      Scans(s, p) && (s.procs[s.procs[p].pc.i].parent == Some(p) ==> s.procs[s.procs[p].pc.i].state != ZOMBIE)
    case WaitNone(p) => Runs(s, p) && s.procs[p].pc.WaitScan? && s.procs[p].pc.i >= |s.procs|
                        && (s.procs[p].pc.seen.None? || s.procs[p].killed)
    case WaitDecide(p) => Runs(s, p) && s.procs[p].pc.WaitScan? && s.procs[p].pc.i >= |s.procs|
                          && s.procs[p].pc.seen.Some? && !s.procs[p].killed
    case WaitSleep(p) => Runs(s, p) && s.procs[p].pc.WaitStay? && LockFree(s, p)
    case WaitSlept(p) => Runs(s, p) && s.procs[p].pc.WaitGoing?
  }

  ghost predicate Enabled(s: State, a: Label) {
    if IsSched(a) then SchedEnabled(s, a)
    else if IsWake(a) then WakeEnabled(s, a)
    else if IsReap(a) then ReapEnabled(s, a)
    else if IsFork(a) then ForkEnabled(s, a)
    else if IsExit(a) then ExitEnabled(s, a)
    else WaitEnabled(s, a)
  }

  /** freeproc(). */
  function FreeProc(x: Proc): (r: Proc) {
    Proc(UNUSED, None, 0, false, Nothing, Gone, 0, 0)
  }

  /** One slot of a wakeup() on channel c. */
  function Woken(x: Proc, c: Chan): (r: Proc) {
    if x.state == SLEEPING && x.chan == c then x.(state := RUNNABLE) else x
  }

  /** Release wait_lock and go on outside. */
  function Leave(s: State, p: nat): (r: State)
    requires s.Slot(p)
  {
    s.At(p, Kernel).(waitLock := None)
  }

  function Reaped(s: State, p: nat, i: nat): (r: State)
    requires s.Slot(p) && s.Slot(i)
  {
    Leave(s.With(i, FreeProc(s.procs[i])), p).(
      reaped := s.reaped + [s.procs[i].pid], told := s.told + [s.procs[i].xstate])
  }

  /** Steps of scheduling and signals, and the doors of exit and wait. */
  ghost function SchedNext(s: State, a: Label): (t: State)
    requires IsSched(a) && SchedEnabled(s, a)
  {
    match a
    case Dispatch(p) => s.With(p, s.procs[p].(state := RUNNING))
    case Preempt(p) => s.With(p, s.procs[p].(state := RUNNABLE))
    case Doze(p) => s.With(p, s.procs[p].(state := SLEEPING, chan := Elsewhere, pc := Dozing))
    case RouseOne(p) => s.With(p, s.procs[p].(state := RUNNABLE))
    case DozeEnd(p) => s.With(p, s.procs[p].(chan := Nothing, pc := Kernel))
    case Kill(p) =>
      var x := s.procs[p];
      s.With(p, x.(killed := true, state := if x.state == SLEEPING then RUNNABLE else x.state))
    case ExitBegin(p, status) => s.With(p, s.procs[p].(pc := ExitWant, arg := status))
    case ExitGone(p) => s.At(p, Gone)
    case WaitBegin(p) => s.At(p, WaitWant)
  }

  /** Steps of the wakeup() calls in exit() and reparent(). */
  ghost function WakeNext(s: State, a: Label): (t: State)
    requires IsWake(a) && WakeEnabled(s, a)
  {
    match a
    case WakeOne(p) =>
      var j := s.procs[p].pc.j;
      var t := if j == p then s else s.With(j, Woken(s.procs[j], WakeChan(s, p)));
      t.At(p, if s.procs[p].pc.ParentWake? then ParentWake(j + 1) else ReparentWake(s.procs[p].pc.i, j + 1))
    case WakeDone(p) => s.At(p, Reparent(s.procs[p].pc.i + 1))
  }

  /** wait() finds a zombie: freeproc() unless copyout() of the status fails. */
  ghost function ReapNext(s: State, a: Label): (t: State)
    requires IsReap(a) && ReapEnabled(s, a)
  {
    if a.copied then Reaped(s, a.p, s.procs[a.p].pc.i) else Leave(s, a.p)
  }

  /** Steps of fork(). */
  ghost function ForkNext(s: State, a: Label): (t: State)
    requires IsFork(a) && ForkEnabled(s, a)
  {
    match a
    case ForkAlloc(p, np) =>
      var r := s.With(np, s.procs[np].(state := USED, pid := s.nextpid, pc := Fresh(p)));
      r.At(p, ForkHolding(np)).(nextpid := s.nextpid + 1)
    case ForkFail(p) => s.With(s.procs[p].pc.np, FreeProc(s.procs[s.procs[p].pc.np])).At(p, Kernel)
    case ForkUnlock(p) => s.At(p, ForkUnlinked(s.procs[p].pc.np))
    case ForkLink(p) => var np := s.procs[p].pc.np; s.With(np, s.procs[np].(parent := Some(p))).At(p, ForkLinked(np))
    case ForkStart(p) =>
      var np := s.procs[p].pc.np;
      s.With(np, s.procs[np].(state := RUNNABLE, pc := Kernel)).At(p, Kernel)
  }

  /** Steps of exit() and reparent(). */
  ghost function ExitNext(s: State, a: Label): (t: State)
    requires IsExit(a) && ExitEnabled(s, a)
  {
    match a
    case ExitLock(p) => s.At(p, Reparent(0)).(waitLock := Some(p))
    case ReparentStep(p) =>
      var i := s.procs[p].pc.i;
      if !s.Slot(i) then s.At(p, ParentWake(0))
      else if s.procs[i].parent == Some(p) then s.With(i, s.procs[i].(parent := Some(s.init))).At(p, ReparentWake(i, 0))
      else s.At(p, Reparent(i + 1))
    case ExitZombie(p) =>
      s.With(p, s.procs[p].(state := ZOMBIE, pc := ExitGoing, xstate := s.procs[p].arg)).(
        waitLock := None, exited := s.exited + {s.procs[p].pid})
  }

  /** Steps of wait(). */
  ghost function WaitNext(s: State, a: Label): (t: State)
    requires IsWait(a) && WaitEnabled(s, a)
  {
    match a
    case WaitLock(p) => s.With(p, s.procs[p].(chan := Nothing, pc := WaitScan(0, None))).(waitLock := Some(p))
    case WaitStep(p) =>
      var i := s.procs[p].pc.i;
      s.At(p, WaitScan(i + 1, if s.procs[i].parent == Some(p) then Some(i) else s.procs[p].pc.seen))
    case WaitNone(p) => Leave(s, p)
    case WaitDecide(p) => s.At(p, WaitStay(s.procs[p].pc.seen.value))
    case WaitSleep(p) => s.At(p, WaitGoing(s.procs[p].pc.kid)).(waitLock := None)
    case WaitSlept(p) =>
      s.With(p, s.procs[p].(state := SLEEPING, chan := ProcAddr(p), pc := WaitAsleep(s.procs[p].pc.kid)))
  }

  ghost function Next(s: State, a: Label): (t: State)
    requires Enabled(s, a)
  {
    if IsSched(a) then SchedNext(s, a)
    else if IsWake(a) then WakeNext(s, a)
    else if IsReap(a) then ReapNext(s, a)
    else if IsFork(a) then ForkNext(s, a)
    else if IsExit(a) then ExitNext(s, a)
    else WaitNext(s, a)
  }

  ghost predicate IsStep(s: State, a: Label, t: State) {
    Enabled(s, a) && t == Next(s, a)
  }

  /** userinit(): one process, in slot init with pid 1; all other slots unused. */
  ghost predicate Init(s: State) {
    && s.Slot(s.init)
    && s.procs[s.init] == Proc(RUNNABLE, None, 1, false, Nothing, Kernel, 0, 0)
    && (forall p :: s.Slot(p) && p != s.init ==> s.procs[p] == Proc(UNUSED, None, 0, false, Nothing, Gone, 0, 0))
    && s.nextpid == 2 && s.waitLock == None && s.exited == {} && s.reaped == [] && s.told == []
  }

  ghost predicate IsRun(ss: seq<State>, labels: seq<Label>) {
    && |ss| == |labels| + 1
    && Init(ss[0])
    && forall k :: 0 <= k < |labels| ==> IsStep(ss[k], labels[k], ss[k + 1])
  }
}
