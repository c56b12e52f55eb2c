/**
 Context switches, sleep() and wakeup() of kernel/proc.c on any number of CPUs,
 with the interrupt nesting of kernel/spinlock.c, as a state machine over the
 steps between lock operations. p->lock is handed from the scheduler to the
 process and back across swtch(); saving a context and jumping away from it are
 two steps. An interrupt can come wherever a CPU has interrupts on.
 */
module Switch {
  import opened ProcTypes

  /** The lock that exit() holds when it takes its own process lock. */
  const WAIT_LOCK: nat := 0

  /**
   Where a saved context goes on: the callers of sched(), and forkret() for a new
   process. A trap taken at the end of sleep(), when lk is wanted, may yield.
   */
  datatype Cont = AfterSleep(chan: nat, lk: nat) | AfterYield(trap: Option<nat>) | AfterExit | AtForkret

  /** p->context: saved, with the intena of the thread, or in the registers of a CPU. */
  datatype Context = Saved(cont: Cont, intena: bool) | Loaded

  datatype Proc = Proc(state: ProcState, chan: Option<nat>, context: Context)

  /** Where the code of a running process is. `trap` is the lock that is wanted where the trap was taken. */
  datatype At =
    | Run(trap: Option<nat>)            // anywhere else
    | Resumed(cont: Cont)               // back from swtch(), own lock held
    | Relock(lk: nat)                   // end of sleep(): own lock released, lk wanted
    | SleepWant(chan: nat, lk: nat)     // sleep(): own lock wanted
    | SleepBoth(chan: nat, lk: nat)     // sleep(): own lock and lk held
    | SleepOne(chan: nat, lk: nat)      // sleep(): lk released
    | Locked(cont: Cont)                // yield() or exit(): own lock held, state still RUNNING
    | Exiting                           // exit(): ZOMBIE, own lock and wait_lock held
    | InSched(cont: Cont)               // sched(): state changed, own lock held
    | Wake(chan: nat, i: nat, trap: Option<nat>)     // wakeup(): before slot i
    | WakeHold(chan: nat, i: nat, trap: Option<nat>) // wakeup(): lock of slot i held
    | Hold(i: nat, trap: Option<nat>)   // kill(), allocproc(), fork() or wait(): lock of slot i held

  /** Where a CPU is. */
  datatype Pc =
    | Scan                              // scheduler(): between two slots
    | Peek(p: nat)                      // scheduler(): lock of p held
    | On(p: nat, at: At)                // running process p
    | Leaving(p: nat)                   // swtch() out of p: context saved, scheduler's not yet loaded
    | Back(p: nat)                      // scheduler(): returned from swtch()
    | Handler(at: At)                   // an interrupt taken in scheduler(), without a process

  /** The interrupt state of a CPU: intr_get(), and struct cpu's noff and intena. */
  datatype Intr = Intr(on: bool, noff: int, intena: bool) {
    function PushOff(): Intr {
      Intr(false, noff + 1, if noff == 0 then on else intena)
    }

    function PopOff(): Intr {
      Intr(on || (noff == 1 && intena), noff - 1, intena)
    }
  }

  /**
   c->proc, and the spinlocks other than process locks that the CPU holds. others
   are those held when sleep(), yield() or exit() was last called here, but for
   the one that the call itself releases.
   */
  datatype Cpu = Cpu(pc: Pc, proc: Option<nat>, held: set<nat>, others: set<nat>, intr: Intr)

  /** plock[p] is the CPU holding p->lock; lock maps the other spinlocks that are held to their CPU. */
  datatype State = State(procs: seq<Proc>, cpus: seq<Cpu>, plock: seq<Option<nat>>, lock: map<nat, nat>) {
    predicate Slot(p: int) {
      0 <= p < |procs| && p < |plock|
    }

    predicate IsCpu(c: int) {
      0 <= c < |cpus|
    }

    function At(c: nat, pc: Pc): State
      requires IsCpu(c)
    {
      this.(cpus := cpus[c := cpus[c].(pc := pc)])
    }

    function With(p: nat, x: Proc): State
      requires Slot(p)
    {
      this.(procs := procs[p := x])
    }

    /** The code of CPU c goes on at `at`. */
    function Go(c: nat, at: At): State
      requires IsCpu(c)
    {
      this.At(c, if cpus[c].pc.On? then On(cpus[c].pc.p, at) else Handler(at))
    }

    function Take(p: nat, c: nat): State
      requires Slot(p) && IsCpu(c)
    {
      this.(plock := plock[p := Some(c)], cpus := cpus[c := cpus[c].(intr := cpus[c].intr.PushOff())])
    }

    function Drop(p: nat, c: nat): State
      requires Slot(p) && IsCpu(c)
    {
      this.(plock := plock[p := None], cpus := cpus[c := cpus[c].(intr := cpus[c].intr.PopOff())])
    }

    function TakeLock(lk: nat, c: nat): State
      requires IsCpu(c)
    {
      this.(lock := lock[lk := c],
            cpus := cpus[c := cpus[c].(held := cpus[c].held + {lk}, intr := cpus[c].intr.PushOff())])
    }

    function DropLock(lk: nat, c: nat): State
      requires IsCpu(c)
    {
      this.(lock := lock - {lk},
            cpus := cpus[c := cpus[c].(held := cpus[c].held - {lk}, intr := cpus[c].intr.PopOff())])
    }

    /** CPU c calls sleep(), yield() or exit() and holds `others` besides what the call releases. */
    function Calls(c: nat, others: set<nat>): State
      requires IsCpu(c)
    {
      this.(cpus := cpus[c := cpus[c].(others := others)])
    }

    /** Interrupts on or off, by the code or by the hardware at a trap. */
    function SetOn(c: nat, on: bool): State
      requires IsCpu(c)
    {
      this.(cpus := cpus[c := cpus[c].(intr := cpus[c].intr.(on := on))])
    }
  }

  datatype Label =
    // scheduler() and sched()
    | Look(c: nat, p: nat)              // acquire(&p->lock)
    | Skip(c: nat)                      // not RUNNABLE: release(&p->lock)
    | Pick(c: nat)                      // RUNNING, c->proc = p, swtch() into p
    | Save(c: nat)                      // swtch() stores the registers of p
    | Load(c: nat)                      // swtch() loads those of the scheduler
    | Put(c: nat)                       // c->proc = 0, release(&p->lock)
    // a process and its own lock
    | Resume(c: nat)                    // release(&p->lock) after swtch()
    | Relocked(c: nat)                  // acquire(lk) at the end of sleep()
    | SleepCall(c: nat, chan: nat, lk: nat)
    | SleepLock(c: nat)                 // acquire(&p->lock)
    | SleepUnlock(c: nat)               // release(lk)
    | SleepSet(c: nat)                  // p->chan, SLEEPING, sched()
    | SelfLock(c: nat, cont: Cont)      // acquire(&p->lock) in yield() or exit()
    | SelfSet(c: nat)                   // yield(): RUNNABLE, sched(); exit(): ZOMBIE
    | ExitUnlock(c: nat)                // exit(): release(&wait_lock), sched()
    | Acquire(c: nat, lk: nat)
    | Release(c: nat, lk: nat)
    // interrupts
    | TrapIn(c: nat)                    // taken in scheduler() or at the end of sleep()
    | TrapOut(c: nat)
    | SetIntr(c: nat, on: bool)         // intr_on(), intr_off(), or a trap in other code of a process
    // a process and the locks of others
    | WakeCall(c: nat, chan: nat)
    | WakeSkip(c: nat)                  // p == myproc()
    | WakeLock(c: nat)                  // acquire(&p->lock)
    | WakeSet(c: nat)                   // SLEEPING on chan becomes RUNNABLE, release(&p->lock)
    | WakeEnd(c: nat)
    | HoldLock(c: nat, i: nat)          // acquire(&p->lock) of slot i
    | HoldKill(c: nat)                  // kill(): SLEEPING becomes RUNNABLE
    | HoldAlloc(c: nat)                 // allocproc(): UNUSED becomes USED, context at forkret()
    | HoldStart(c: nat)                 // fork(): USED becomes RUNNABLE
    | HoldFree(c: nat)                  // freeproc(): USED or ZOMBIE becomes UNUSED
    | HoldDrop(c: nat)                  // release(&p->lock)

  predicate IsSched(a: Label) {
    a.Look? || a.Skip? || a.Pick? || a.Save? || a.Load? || a.Put?
  }

  predicate IsOwn(a: Label) {
    a.Resume? || a.SleepCall? || a.SleepLock? || a.SleepSet? || a.SelfLock? || a.SelfSet?
  }

  predicate IsSpin(a: Label) {
    a.Relocked? || a.SleepUnlock? || a.ExitUnlock? || a.Acquire? || a.Release?
  }

  predicate IsTrap(a: Label) {
    a.TrapIn? || a.TrapOut? || a.SetIntr?
  }

  predicate IsWake(a: Label) {
    a.WakeCall? || a.WakeSkip? || a.WakeLock? || a.WakeSet? || a.WakeEnd?
  }

  predicate IsHold(a: Label) {
    a.HoldLock? || a.HoldKill? || a.HoldAlloc? || a.HoldStart? || a.HoldFree? || a.HoldDrop?
  }

  // ----- What a step needs -----

  /** CPU c is running a process. */
  predicate Runs(s: State, c: nat) {
    s.IsCpu(c) && s.cpus[c].pc.On? && s.Slot(s.cpus[c].pc.p)
  }

  /** CPU c is running a process or handling an interrupt without one. */
  predicate Codes(s: State, c: nat) {
    Runs(s, c) || (s.IsCpu(c) && s.cpus[c].pc.Handler?)
  }

  /** myproc() */
  function Me(k: Cpu): Option<nat> {
    if k.pc.On? then Some(k.pc.p) else None
  }

  /** sched()'s four checks; it panics if one fails. */
  predicate SchedChecks(s: State, c: nat)
    requires Runs(s, c)
  {
    var k := s.cpus[c];
    s.plock[k.pc.p] == Some(c) && k.intr.noff == 1 && s.procs[k.pc.p].state != RUNNING && !k.intr.on
  }

  ghost predicate SchedEnabled(s: State, a: Label)
    requires IsSched(a)
  {
    && s.IsCpu(a.c)
    && var pc := s.cpus[a.c].pc;
    match a
    case Look(c, p) => pc.Scan? && s.Slot(p) && s.plock[p].None?
    case Skip(c) => pc.Peek? && s.Slot(pc.p) && s.procs[pc.p].state != RUNNABLE
    case Pick(c) => pc.Peek? && s.Slot(pc.p) && s.procs[pc.p].state == RUNNABLE
    case Save(c) => pc.On? && s.Slot(pc.p) && pc.at.InSched? && SchedChecks(s, c)
    case Load(c) => pc.Leaving?
    case Put(c) => pc.Back? && s.Slot(pc.p)
  }

  ghost predicate OwnEnabled(s: State, a: Label)
    requires IsOwn(a)
  {
    && Runs(s, a.c)
    && var p, at := s.cpus[a.c].pc.p, s.cpus[a.c].pc.at;
    match a
    case Resume(c) => at.Resumed?
    case SleepCall(c, chan, lk) => at == Run(None) && lk in s.cpus[c].held
    case SleepLock(c) => at.SleepWant? && s.plock[p].None?
    case SleepSet(c) => at.SleepOne?
    case SelfLock(c, cont) =>
      && s.plock[p].None?
      && (if cont.AfterYield? then at == Run(cont.trap)
          else cont.AfterExit? && at == Run(None) && WAIT_LOCK in s.cpus[c].held)
    case SelfSet(c) => at.Locked?
  }

  ghost predicate SpinEnabled(s: State, a: Label)
    requires IsSpin(a)
  {
    && Codes(s, a.c)
    && var at := s.cpus[a.c].pc.at;
    match a
    case Relocked(c) => at.Relock? && at.lk !in s.lock
    case SleepUnlock(c) => at.SleepBoth?
    case ExitUnlock(c) => at.Exiting?
    case Acquire(c, lk) => (at.Run? || at.Hold?) && lk !in s.lock
    case Release(c, lk) => (at.Run? || at.Hold?) && lk in s.cpus[c].held
  }

  /** Interrupts are turned on and off only where no lock is held. */
  ghost predicate TrapEnabled(s: State, a: Label)
    requires IsTrap(a)
  {
    && s.IsCpu(a.c)
    && var k := s.cpus[a.c];
    match a
    case TrapIn(c) => k.intr.on && (k.pc.Scan? || (k.pc.On? && k.pc.at.Relock?))
    case TrapOut(c) => k.held == {} && (k.pc == Handler(Run(None)) || (k.pc.On? && k.pc.at.Run? && k.pc.at.trap.Some?))
    case SetIntr(c, on) =>
      (k.pc.Scan? && on) || (k.pc.On? && k.pc.at == Run(None) && k.intr.noff == 0)
  }

  ghost predicate WakeEnabled(s: State, a: Label)
    requires IsWake(a)
  {
    && Codes(s, a.c)
    && var at := s.cpus[a.c].pc.at;
    match a
    case WakeCall(c, chan) => at.Run?
    case WakeSkip(c) => at.Wake? && Me(s.cpus[c]) == Some(at.i)
    case WakeLock(c) => at.Wake? && Me(s.cpus[c]) != Some(at.i) && s.Slot(at.i) && s.plock[at.i].None?
    case WakeSet(c) => at.WakeHold? && s.Slot(at.i)
    case WakeEnd(c) => at.Wake? && !s.Slot(at.i)
  }

  ghost predicate HoldEnabled(s: State, a: Label)
    requires IsHold(a)
  {
    && Runs(s, a.c)
    && var at := s.cpus[a.c].pc.at;
    match a
    case HoldLock(c, i) => at.Run? && s.Slot(i) && s.plock[i].None?
    case HoldKill(c) => at.Hold? && s.Slot(at.i)
    case HoldAlloc(c) => at.Hold? && s.Slot(at.i) && s.procs[at.i].state == UNUSED
    case HoldStart(c) => at.Hold? && s.Slot(at.i) && s.procs[at.i].state == USED
    case HoldFree(c) => at.Hold? && s.Slot(at.i) && (s.procs[at.i].state == USED || s.procs[at.i].state == ZOMBIE)
    case HoldDrop(c) => at.Hold? && s.Slot(at.i)
  }

  ghost predicate Enabled(s: State, a: Label) {
    if IsSched(a) then SchedEnabled(s, a)
    else if IsOwn(a) then OwnEnabled(s, a)
    else if IsSpin(a) then SpinEnabled(s, a)
    else if IsTrap(a) then TrapEnabled(s, a)
    else if IsWake(a) then WakeEnabled(s, a)
    else HoldEnabled(s, a)
  }

  // ----- What a step does -----

  /** The number of slots and CPUs never changes. */
  predicate SameSizes(s: State, t: State) {
    |t.procs| == |s.procs| && |t.cpus| == |s.cpus| && |t.plock| == |s.plock|
  }

  /** The state a caller of sched() has put its process in. */
  function Parked(cont: Cont): (st: ProcState) {
    match cont
    case AfterSleep(_, _) => SLEEPING
    case AfterYield(_) => RUNNABLE
    case AfterExit => ZOMBIE
    case AtForkret => RUNNABLE
  }

  ghost function SchedNext(s: State, a: Label): (t: State)
    requires IsSched(a) && SchedEnabled(s, a)
    ensures SameSizes(s, t)
  {
    var pc := s.cpus[a.c].pc;
    match a
    case Look(c, p) => s.Take(p, c).At(c, Peek(p))
    case Skip(c) => s.Drop(pc.p, c).At(c, Scan)
    case Pick(c) =>
      // swtch() jumps wherever p->context says; Loaded means it says nothing meaningful
      var cont := if s.procs[pc.p].context.Saved? then s.procs[pc.p].context.cont else AfterExit;
      // sched() then puts back the thread's own intena
      var k := s.cpus[c];
      var x := s.procs[pc.p].context;
      var intena := if x.Saved? && !cont.AtForkret? then x.intena else k.intr.intena;
      var t := s.With(pc.p, s.procs[pc.p].(state := RUNNING, context := Loaded));
      t.(cpus := t.cpus[c := Cpu(On(pc.p, Resumed(cont)), Some(pc.p), k.held, k.others, k.intr.(intena := intena))])
    case Save(c) =>
      s.With(pc.p, s.procs[pc.p].(context := Saved(pc.at.cont, s.cpus[c].intr.intena))).At(c, Leaving(pc.p))
    case Load(c) => s.At(c, Back(pc.p))
    case Put(c) => var t := s.Drop(pc.p, c); t.(cpus := t.cpus[c := t.cpus[c].(pc := Scan, proc := None)])
  }

  ghost function OwnNext(s: State, a: Label): (t: State)
    requires IsOwn(a) && OwnEnabled(s, a)
    ensures SameSizes(s, t)
  {
    var p, at := s.cpus[a.c].pc.p, s.cpus[a.c].pc.at;
    match a
    case Resume(c) =>
      if at.cont.AfterSleep? then s.With(p, s.procs[p].(chan := None)).Drop(p, c).Go(c, Relock(at.cont.lk))
      else s.Drop(p, c).Go(c, Run(if at.cont.AfterYield? then at.cont.trap else None))
    case SleepCall(c, chan, lk) => s.Calls(c, s.cpus[c].held - {lk}).Go(c, SleepWant(chan, lk))
    case SleepLock(c) => s.Take(p, c).Go(c, SleepBoth(at.chan, at.lk))
    case SleepSet(c) =>
      s.With(p, s.procs[p].(chan := Some(at.chan), state := SLEEPING)).Go(c, InSched(AfterSleep(at.chan, at.lk)))
    case SelfLock(c, cont) =>
      s.Calls(c, if cont.AfterYield? then s.cpus[c].held else s.cpus[c].held - {WAIT_LOCK})
      .Take(p, c).Go(c, Locked(cont))
    case SelfSet(c) =>
      s.With(p, s.procs[p].(state := Parked(at.cont))).Go(c, if at.cont.AfterExit? then Exiting else InSched(at.cont))
  }

  ghost function SpinNext(s: State, a: Label): (t: State)
    requires IsSpin(a) && SpinEnabled(s, a)
    ensures SameSizes(s, t)
  {
    var at := s.cpus[a.c].pc.at;
    match a
    case Relocked(c) => s.TakeLock(at.lk, c).Go(c, Run(None))
    case SleepUnlock(c) => s.DropLock(at.lk, c).Go(c, SleepOne(at.chan, at.lk))
    case ExitUnlock(c) => s.DropLock(WAIT_LOCK, c).Go(c, InSched(AfterExit))
    case Acquire(c, lk) => s.TakeLock(lk, c).Go(c, at)
    case Release(c, lk) => s.DropLock(lk, c).Go(c, at)
  }

  ghost function TrapNext(s: State, a: Label): (t: State)
    requires IsTrap(a) && TrapEnabled(s, a)
    ensures SameSizes(s, t)
  {
    var pc := s.cpus[a.c].pc;
    match a
    case TrapIn(c) => s.SetOn(c, false).Go(c, Run(if pc.On? then Some(pc.at.lk) else None))
    case TrapOut(c) => s.SetOn(c, true).At(c, if pc.On? then On(pc.p, Relock(pc.at.trap.value)) else Scan)
    case SetIntr(c, on) => s.SetOn(c, on)
  }

  ghost function WakeNext(s: State, a: Label): (t: State)
    requires IsWake(a) && WakeEnabled(s, a)
    ensures SameSizes(s, t)
  {
    var at := s.cpus[a.c].pc.at;
    match a
    case WakeCall(c, chan) => s.Go(c, Wake(chan, 0, at.trap))
    case WakeSkip(c) => s.Go(c, Wake(at.chan, at.i + 1, at.trap))
    case WakeLock(c) => s.Take(at.i, c).Go(c, WakeHold(at.chan, at.i, at.trap))
    case WakeSet(c) =>
      var x := s.procs[at.i];
      var woken := if x.state == SLEEPING && x.chan == Some(at.chan) then x.(state := RUNNABLE) else x;
      s.With(at.i, woken).Drop(at.i, c).Go(c, Wake(at.chan, at.i + 1, at.trap))
    case WakeEnd(c) => s.Go(c, Run(at.trap))
  }

  ghost function HoldNext(s: State, a: Label): (t: State)
    requires IsHold(a) && HoldEnabled(s, a)
    ensures SameSizes(s, t)
  {
    var at := s.cpus[a.c].pc.at;
    match a
    case HoldLock(c, i) => s.Take(i, c).Go(c, Hold(i, at.trap))
    case HoldKill(c) =>
      if s.procs[at.i].state == SLEEPING then s.With(at.i, s.procs[at.i].(state := RUNNABLE)) else s
    case HoldAlloc(c) => s.With(at.i, s.procs[at.i].(state := USED, context := Saved(AtForkret, false)))
    case HoldStart(c) => s.With(at.i, s.procs[at.i].(state := RUNNABLE))
    case HoldFree(c) => s.With(at.i, s.procs[at.i].(state := UNUSED, chan := None))
    case HoldDrop(c) => s.Drop(at.i, c).Go(c, Run(at.trap))
  }

  ghost function Next(s: State, a: Label): (t: State)
    requires Enabled(s, a)
    ensures SameSizes(s, t)
  {
    if IsSched(a) then SchedNext(s, a)
    else if IsOwn(a) then OwnNext(s, a)
    else if IsSpin(a) then SpinNext(s, a)
    else if IsTrap(a) then TrapNext(s, a)
    else if IsWake(a) then WakeNext(s, a)
    else HoldNext(s, a)
  }

  /** main(): every CPU enters scheduler(); the first process, if any, is RUNNABLE at forkret(). */
  ghost predicate Init(s: State) {
    && |s.plock| == |s.procs|
    && (forall c: nat :: s.IsCpu(c) ==> s.cpus[c] == Cpu(Scan, None, {}, {}, Intr(false, 0, false)))
    && (forall p: nat :: s.Slot(p) ==>
          && s.plock[p] == None
          && s.procs[p].chan.None?
          && (s.procs[p].state == UNUSED || s.procs[p] == Proc(RUNNABLE, None, Saved(AtForkret, false))))
    && s.lock == map[]
  }

  ghost predicate IsStep(s: State, a: Label, t: State) {
    Enabled(s, a) && t == Next(s, a)
  }

  ghost predicate IsRun(ss: seq<State>, labels: seq<Label>) {
    && |ss| == |labels| + 1
    && Init(ss[0])
    && forall k :: 0 <= k < |labels| ==> IsStep(ss[k], labels[k], ss[k + 1])
  }
}
