/**
 What every context switch, sleep and wakeup keeps. The invariant is a
 conjunction of facts about one CPU, one process, or a pair of them.
 */
module SwitchInv {
  import opened ProcTypes
  import opened Switch

  /** The process lock a CPU holds at a program counter: never more than one. */
  function HeldP(pc: Pc): (p: Option<nat>) {
    match pc
    case Scan => None
    case Peek(p) => Some(p)
    case Leaving(p) => Some(p)
    case Back(p) => Some(p)
    case Handler(at) => if at.WakeHold? then Some(at.i) else None
    case On(p, at) =>
      match at
      case WakeHold(_, i, _) => Some(i)
      case Hold(i, _) => Some(i)
      case Run(_) => None
      case Relock(_) => None
      case SleepWant(_, _) => None
      case Wake(_, _, _) => None
      case _ => Some(p)
  }

  /** The other spinlocks held, the process's state and its channel fit the place in its code. */
  predicate AtOk(at: At, x: Proc, held: set<nat>, others: set<nat>) {
    match at
    case InSched(cont) =>
      x.state == Parked(cont) && !cont.AtForkret? && held == others && (cont.AfterSleep? ==> x.chan == Some(cont.chan))
    case Exiting => x.state == ZOMBIE && WAIT_LOCK in held && others == held - {WAIT_LOCK}
    case Resumed(cont) => x.state == RUNNING && held == {} && !cont.AfterExit?
    case Locked(cont) =>
      && x.state == RUNNING
      && (if cont.AfterYield? then held == others
          else cont.AfterExit? && WAIT_LOCK in held && others == held - {WAIT_LOCK})
    case Relock(_) => x.state == RUNNING && held == {}
    case SleepOne(_, _) => x.state == RUNNING && held == others
    case SleepWant(_, lk) => x.state == RUNNING && lk in held && others == held - {lk}
    case SleepBoth(_, lk) => x.state == RUNNING && lk in held && others == held - {lk}
    case _ => x.state == RUNNING
  }

  predicate CpuOk(s: State, c: nat)
    requires s.IsCpu(c)
  {
    var k := s.cpus[c];
    && (HeldP(k.pc).Some? ==> s.Slot(HeldP(k.pc).value) && s.plock[HeldP(k.pc).value] == Some(c))
    && match k.pc
       case On(p, at) =>
         s.Slot(p) && k.proc == Some(p) && s.procs[p].context.Loaded? && AtOk(at, s.procs[p], k.held, k.others)
       case Leaving(p) => SwitchedOut(s, k, p)
       case Back(p) => SwitchedOut(s, k, p)
       case Handler(at) => k.proc == None && (at.Run? || at.Wake? || at.WakeHold?) && at.trap.None?
       case _ => k.proc == None && k.held == {}
  }

  predicate SwitchedOut(s: State, k: Cpu, p: nat) {
    s.Slot(p) && k.proc == Some(p) && k.held == {} && s.procs[p].context.Saved? && s.procs[p].state != RUNNING
  }

  /** The spinlocks a CPU holds are recorded as its. */
  ghost predicate SpinOk(s: State, c: nat)
    requires s.IsCpu(c)
  {
    forall l :: l in s.cpus[c].held ==> l in s.lock && s.lock[l] == c
  }

  /** noff counts the locks held, and under a lock interrupts are off. */
  predicate NoffOk(k: Cpu) {
    k.intr.noff == |k.held| + (if HeldP(k.pc).Some? then 1 else 0) && (k.intr.noff > 0 ==> !k.intr.on)
  }

  /** CPU k is in sched() on behalf of process p. */
  predicate Parking(s: State, k: Option<nat>, p: nat) {
    && k.Some? && s.IsCpu(k.value)
    && s.cpus[k.value].pc.On? && s.cpus[k.value].pc.p == p && s.cpus[k.value].pc.at.InSched?
  }

  /** The holder of p->lock; and a context is saved wherever the scheduler or a sleeper relies on it. */
  predicate ProcOk(s: State, p: nat)
    requires s.Slot(p)
  {
    var x := s.procs[p];
    && (s.plock[p].Some? ==> s.IsCpu(s.plock[p].value) && HeldP(s.cpus[s.plock[p].value].pc) == Some(p))
    && ((x.state == RUNNABLE || x.state == SLEEPING) && x.context.Loaded? ==> Parking(s, s.plock[p], p))
    && (x.state == SLEEPING && x.context.Saved? ==> x.context.cont.AfterSleep? && x.chan == Some(x.context.cont.chan))
    && (x.state == RUNNABLE && x.context.Saved? ==> !x.context.cont.AfterExit?)
    && (x.state == USED ==> x.context.Saved? && x.context.cont == AtForkret)
  }

  /** No process is on two CPUs. */
  predicate OneOk(s: State, c: nat, d: nat)
    requires s.IsCpu(c) && s.IsCpu(d)
  {
    c != d && s.cpus[c].proc.Some? ==> s.cpus[c].proc != s.cpus[d].proc
  }

  /** CPU k is in wakeup(chan). */
  predicate Waking(k: Cpu, chan: nat) {
    (k.pc.On? || k.pc.Handler?) && (k.pc.at.Wake? || k.pc.at.WakeHold?) && k.pc.at.chan == chan
  }

  /** CPU k is in wakeup(chan), has passed slot q, and has held lk all along. */
  predicate Passed(k: Cpu, q: nat, chan: nat, lk: nat) {
    Waking(k, chan) && lk in k.held && Me(k) != Some(q) && q < k.pc.at.i
  }

  /** Process q sleeps in sleep(chan, lk), switched out. */
  predicate Sleeps(x: Proc, chan: nat, lk: nat) {
    x.state == SLEEPING && x.context.Saved? && x.context.cont == AfterSleep(chan, lk)
  }

  /** CPU k runs process q in sleep(chan, lk), after releasing lk. */
  predicate Drowsy(k: Cpu, q: nat, chan: nat, lk: nat) {
    k.pc == On(q, SleepOne(chan, lk)) || k.pc == On(q, InSched(AfterSleep(chan, lk)))
  }

  /** wakeup() has left no sleeper behind. */
  ghost predicate WokeOk(s: State, c: nat, q: nat)
    requires s.IsCpu(c) && s.Slot(q)
  {
    forall chan, lk :: Passed(s.cpus[c], q, chan, lk) ==> !Sleeps(s.procs[q], chan, lk)
  }

  /** Nor a process on its way to sleep. */
  ghost predicate DrowsyOk(s: State, c: nat, d: nat)
    requires s.IsCpu(c) && s.IsCpu(d)
  {
    forall q, chan, lk :: Drowsy(s.cpus[d], q, chan, lk) ==> !Passed(s.cpus[c], q, chan, lk)
  }

  ghost predicate Inv(s: State) {
    && |s.plock| == |s.procs|
    && (forall c: nat {:trigger CpuOk(s, c)} {:trigger SpinOk(s, c)} {:trigger NoffOk(s.cpus[c])} ::
          s.IsCpu(c) ==> CpuOk(s, c) && SpinOk(s, c) && NoffOk(s.cpus[c]))
    && (forall p: nat {:trigger ProcOk(s, p)} :: s.Slot(p) ==> ProcOk(s, p))
    && (forall c: nat, d: nat {:trigger OneOk(s, c, d)} {:trigger DrowsyOk(s, c, d)} ::
          s.IsCpu(c) && s.IsCpu(d) ==> OneOk(s, c, d) && DrowsyOk(s, c, d))
    && (forall c: nat, q: nat {:trigger WokeOk(s, c, q)} :: s.IsCpu(c) && s.Slot(q) ==> WokeOk(s, c, q))
  }

  /** What a step of CPU a.c can see of itself. */
  lemma Self(s: State, a: Label)
    requires Inv(s) && s.IsCpu(a.c)
    ensures CpuOk(s, a.c) && SpinOk(s, a.c) && NoffOk(s.cpus[a.c])
    ensures var pc := s.cpus[a.c].pc;
      pc.Peek? || pc.On? || pc.Leaving? || pc.Back? ==> s.Slot(pc.p) && ProcOk(s, pc.p)
  {
    assert CpuOk(s, a.c);
    var pc := s.cpus[a.c].pc;
    assert pc.Peek? || pc.On? || pc.Leaving? || pc.Back? ==> ProcOk(s, pc.p);
  }

  lemma CpuSchedOther(s: State, a: Label, d: nat)
    requires IsSched(a) && SchedEnabled(s, a) && s.IsCpu(d) && d != a.c && |s.plock| == |s.procs|
    requires CpuOk(s, a.c) && CpuOk(s, d) && OneOk(s, a.c, d)
    ensures |SchedNext(s, a).plock| == |SchedNext(s, a).procs| && CpuOk(SchedNext(s, a), d)
  {
    hide Intr.PushOff, Intr.PopOff;
  }

  lemma CpuSched(s: State, a: Label, d: nat)
    requires IsSched(a) && Inv(s) && SchedEnabled(s, a) && s.IsCpu(d)
    ensures |SchedNext(s, a).plock| == |SchedNext(s, a).procs| && CpuOk(SchedNext(s, a), d)
  {
    hide WokeOk, DrowsyOk, SpinOk, OneOk, NoffOk, Intr.PushOff, Intr.PopOff;
    if d == a.c {
      Self(s, a);
    } else {
      CpuSchedOther(s, a, d);
    }
  }

  lemma SpinSched(s: State, a: Label, d: nat)
    requires IsSched(a) && Inv(s) && SchedEnabled(s, a) && s.IsCpu(d)
    ensures SpinOk(SchedNext(s, a), d)
  {
    hide NoffOk, ProcOk, WokeOk, DrowsyOk, Intr.PushOff, Intr.PopOff;
    Self(s, a);
    assert CpuOk(s, d) && SpinOk(s, d);
  }

  lemma NoffSched(s: State, a: Label, d: nat)
    requires IsSched(a) && Inv(s) && SchedEnabled(s, a) && s.IsCpu(d)
    ensures SchedNext(s, a).IsCpu(d) && NoffOk(SchedNext(s, a).cpus[d])
  {
    hide ProcOk, WokeOk, DrowsyOk, OneOk;
    Self(s, a);
    assert NoffOk(s.cpus[d]);
  }

  lemma ProcSched(s: State, a: Label, q: nat)
    requires IsSched(a) && Inv(s) && SchedEnabled(s, a) && s.Slot(q)
    ensures ProcOk(SchedNext(s, a), q)
  {
    hide WokeOk, DrowsyOk, SpinOk, NoffOk, Intr.PushOff, Intr.PopOff;
    Self(s, a);
    assert ProcOk(s, q);
  }

  lemma OneSched(s: State, a: Label, c: nat, d: nat)
    requires IsSched(a) && Inv(s) && SchedEnabled(s, a) && s.IsCpu(c) && s.IsCpu(d)
    ensures OneOk(SchedNext(s, a), c, d)
  {
    hide WokeOk, DrowsyOk, SpinOk, ProcOk, NoffOk, Intr.PushOff, Intr.PopOff;
    Self(s, a);
    assert CpuOk(s, c) && CpuOk(s, d) && OneOk(s, c, d);
  }

  lemma WokeSched(s: State, a: Label, c: nat, q: nat)
    requires IsSched(a) && Inv(s) && SchedEnabled(s, a) && s.IsCpu(c) && s.Slot(q)
    ensures WokeOk(SchedNext(s, a), c, q)
  {
    hide NoffOk, Intr.PushOff, Intr.PopOff;
    Self(s, a);
    assert CpuOk(s, c) && ProcOk(s, q) && WokeOk(s, c, q) && DrowsyOk(s, c, a.c);
  }

  lemma DrowsySched(s: State, a: Label, c: nat, d: nat)
    requires IsSched(a) && Inv(s) && SchedEnabled(s, a) && s.IsCpu(c) && s.IsCpu(d)
    ensures DrowsyOk(SchedNext(s, a), c, d)
  {
    hide ProcOk, NoffOk, Intr.PushOff, Intr.PopOff;
    Self(s, a);
    assert CpuOk(s, c) && SpinOk(s, c) && CpuOk(s, d) && SpinOk(s, d) && DrowsyOk(s, c, d);
  }

  lemma CpuOwnOther(s: State, a: Label, d: nat)
    requires IsOwn(a) && OwnEnabled(s, a) && s.IsCpu(d) && d != a.c && |s.plock| == |s.procs|
    requires CpuOk(s, a.c) && CpuOk(s, d) && OneOk(s, a.c, d)
    ensures |OwnNext(s, a).plock| == |OwnNext(s, a).procs| && CpuOk(OwnNext(s, a), d)
  {
    hide Intr.PushOff, Intr.PopOff;
  }

  lemma CpuOwnSelf(s: State, a: Label)
    requires IsOwn(a) && OwnEnabled(s, a) && |s.plock| == |s.procs| && CpuOk(s, a.c)
    ensures |OwnNext(s, a).plock| == |OwnNext(s, a).procs| && CpuOk(OwnNext(s, a), a.c)
  {
    hide Intr.PushOff, Intr.PopOff;
  }

  lemma CpuOwn(s: State, a: Label, d: nat)
    requires IsOwn(a) && Inv(s) && OwnEnabled(s, a) && s.IsCpu(d)
    ensures |OwnNext(s, a).plock| == |OwnNext(s, a).procs| && CpuOk(OwnNext(s, a), d)
  {
    hide WokeOk, DrowsyOk, SpinOk, OneOk, NoffOk, CpuOk, ProcOk, OwnNext;
    Self(s, a);
    if d == a.c {
      CpuOwnSelf(s, a);
    } else {
      CpuOwnOther(s, a, d);
    }
  }

  lemma SpinOwn(s: State, a: Label, d: nat)
    requires IsOwn(a) && Inv(s) && OwnEnabled(s, a) && s.IsCpu(d)
    ensures SpinOk(OwnNext(s, a), d)
  {
    hide NoffOk, ProcOk, WokeOk, DrowsyOk, Intr.PushOff, Intr.PopOff;
    Self(s, a);
    assert CpuOk(s, d) && SpinOk(s, d);
  }

  lemma NoffOwn(s: State, a: Label, d: nat)
    requires IsOwn(a) && Inv(s) && OwnEnabled(s, a) && s.IsCpu(d)
    ensures OwnNext(s, a).IsCpu(d) && NoffOk(OwnNext(s, a).cpus[d])
  {
    hide ProcOk, WokeOk, DrowsyOk, OneOk;
    Self(s, a);
    assert NoffOk(s.cpus[d]);
  }

  lemma ProcOwn(s: State, a: Label, q: nat)
    requires IsOwn(a) && Inv(s) && OwnEnabled(s, a) && s.Slot(q)
    ensures ProcOk(OwnNext(s, a), q)
  {
    hide WokeOk, DrowsyOk, SpinOk, NoffOk, Intr.PushOff, Intr.PopOff;
    Self(s, a);
    assert ProcOk(s, q);
  }

  lemma OneOwn(s: State, a: Label, c: nat, d: nat)
    requires IsOwn(a) && Inv(s) && OwnEnabled(s, a) && s.IsCpu(c) && s.IsCpu(d)
    ensures OneOk(OwnNext(s, a), c, d)
  {
    hide WokeOk, DrowsyOk, SpinOk, ProcOk, NoffOk, Intr.PushOff, Intr.PopOff;
    Self(s, a);
    assert CpuOk(s, c) && CpuOk(s, d) && OneOk(s, c, d);
  }

  lemma WokeOwn(s: State, a: Label, c: nat, q: nat)
    requires IsOwn(a) && Inv(s) && OwnEnabled(s, a) && s.IsCpu(c) && s.Slot(q)
    ensures WokeOk(OwnNext(s, a), c, q)
  {
    hide NoffOk, Intr.PushOff, Intr.PopOff;
    Self(s, a);
    assert CpuOk(s, c) && ProcOk(s, q) && WokeOk(s, c, q) && DrowsyOk(s, c, a.c);
  }

  lemma DrowsyOwnPair(s: State, a: Label, c: nat, d: nat)
    requires IsOwn(a) && OwnEnabled(s, a) && s.IsCpu(c) && s.IsCpu(d) && |s.plock| == |s.procs|
    requires CpuOk(s, c) && SpinOk(s, c) && CpuOk(s, d) && SpinOk(s, d) && DrowsyOk(s, c, d)
    ensures DrowsyOk(OwnNext(s, a), c, d)
  {
    hide Intr.PushOff, Intr.PopOff;
  }

  lemma DrowsyOwn(s: State, a: Label, c: nat, d: nat)
    requires IsOwn(a) && Inv(s) && OwnEnabled(s, a) && s.IsCpu(c) && s.IsCpu(d)
    ensures DrowsyOk(OwnNext(s, a), c, d)
  {
    hide CpuOk, SpinOk, DrowsyOk, ProcOk, NoffOk, OwnEnabled, OwnNext;
    DrowsyOwnPair(s, a, c, d);
  }

  /** The position of the code changed to `at`. */
  function Moved(pc: Pc, at: At): (r: Pc) {
    if pc.On? then On(pc.p, at) else Handler(at)
  }

  /** The process and its process lock are as before; CPU c took or gave up one spinlock and goes on at `at`. */
  ghost predicate LockStep(s: State, t: State, c: nat, lk: nat, take: bool, at: At) {
    && s.IsCpu(c) && t.IsCpu(c) && t.procs == s.procs && t.plock == s.plock && |t.cpus| == |s.cpus|
    && (forall d: nat {:trigger t.cpus[d]} :: s.IsCpu(d) && d != c ==> t.cpus[d] == s.cpus[d])
    && var k, k2 := s.cpus[c], t.cpus[c];
    && (k.pc.On? || k.pc.Handler?) && k2.pc == Moved(k.pc, at)
    && k2.proc == k.proc && k2.others == k.others && HeldP(k2.pc) == HeldP(k.pc)
    && (if take then
          lk !in s.lock && t.lock == s.lock[lk := c] && k2.held == k.held + {lk} && k2.intr == k.intr.PushOff()
        else
          lk in k.held && t.lock == s.lock - {lk} && k2.held == k.held - {lk} && k2.intr == k.intr.PopOff())
  }

  /** The code positions before and after. */
  predicate LockMove(at: At, at2: At, lk: nat, take: bool) {
    || (at2 == at && (at.Run? || at.Hold?))
    || (take && at == Relock(lk) && at2 == Run(None))
    || (!take && at.SleepBoth? && at.lk == lk && at2 == SleepOne(at.chan, lk))
    || (!take && at.Exiting? && lk == WAIT_LOCK && at2 == InSched(AfterExit))
  }

  lemma LockTaken(s: State, c: nat, lk: nat, at: At)
    requires s.IsCpu(c) && (s.cpus[c].pc.On? || s.cpus[c].pc.Handler?) && lk !in s.lock
    requires HeldP(Moved(s.cpus[c].pc, at)) == HeldP(s.cpus[c].pc)
    ensures LockStep(s, s.TakeLock(lk, c).Go(c, at), c, lk, true, at)
  {
    hide HeldP, Intr.PushOff, Intr.PopOff;
  }

  lemma LockDropped(s: State, c: nat, lk: nat, at: At)
    requires s.IsCpu(c) && (s.cpus[c].pc.On? || s.cpus[c].pc.Handler?) && lk in s.cpus[c].held
    requires HeldP(Moved(s.cpus[c].pc, at)) == HeldP(s.cpus[c].pc)
    ensures LockStep(s, s.DropLock(lk, c).Go(c, at), c, lk, false, at)
  {
    hide HeldP, Intr.PushOff, Intr.PopOff;
  }

  lemma SpinIs(s: State, a: Label) returns (lk: nat, take: bool, at: At)
    requires IsSpin(a) && Inv(s) && SpinEnabled(s, a)
    ensures LockStep(s, SpinNext(s, a), a.c, lk, take, at) && LockMove(s.cpus[a.c].pc.at, at, lk, take)
  {
    hide Inv, LockStep, NoffOk, SpinOk, ProcOk, State.TakeLock, State.DropLock, State.Go;
    Self(s, a);
    at := s.cpus[a.c].pc.at;
    match a
    case Relocked(_) =>
      lk, take, at := at.lk, true, Run(None);
      LockTaken(s, a.c, lk, at);
    case SleepUnlock(_) =>
      lk, take, at := at.lk, false, SleepOne(at.chan, at.lk);
      LockDropped(s, a.c, lk, at);
    case ExitUnlock(_) =>
      lk, take, at := WAIT_LOCK, false, InSched(AfterExit);
      LockDropped(s, a.c, lk, at);
    case Acquire(_, l) =>
      lk, take := l, true;
      LockTaken(s, a.c, lk, at);
    case Release(_, l) =>
      lk, take := l, false;
      LockDropped(s, a.c, lk, at);
  }

  lemma CpuSpin(s: State, a: Label, d: nat)
    requires IsSpin(a) && Inv(s) && SpinEnabled(s, a) && s.IsCpu(d)
    ensures |SpinNext(s, a).plock| == |SpinNext(s, a).procs| && CpuOk(SpinNext(s, a), d)
  {
    hide SpinNext, SpinEnabled, WokeOk, DrowsyOk, SpinOk, NoffOk, ProcOk, OneOk, Intr.PushOff, Intr.PopOff;
    var lk, take, at := SpinIs(s, a);
    assert CpuOk(s, d);
  }

  lemma SpinSpin(s: State, a: Label, d: nat)
    requires IsSpin(a) && Inv(s) && SpinEnabled(s, a) && s.IsCpu(d)
    ensures SpinOk(SpinNext(s, a), d)
  {
    hide SpinNext, SpinEnabled, WokeOk, DrowsyOk, NoffOk, ProcOk, OneOk, CpuOk, LockMove, Intr.PushOff, Intr.PopOff;
    var lk, take, at := SpinIs(s, a);
    assert SpinOk(s, d) && SpinOk(s, a.c);
  }

  lemma NoffSpin(s: State, a: Label, d: nat)
    requires IsSpin(a) && Inv(s) && SpinEnabled(s, a) && s.IsCpu(d)
    ensures SpinNext(s, a).IsCpu(d) && NoffOk(SpinNext(s, a).cpus[d])
  {
    hide SpinNext, SpinEnabled, WokeOk, DrowsyOk, ProcOk, OneOk, CpuOk, LockMove, HeldP;
    var lk, take, at := SpinIs(s, a);
    assert SpinOk(s, a.c) && NoffOk(s.cpus[d]);
  }

  lemma ProcSpin(s: State, a: Label, q: nat)
    requires IsSpin(a) && Inv(s) && SpinEnabled(s, a) && s.Slot(q)
    ensures ProcOk(SpinNext(s, a), q)
  {
    hide SpinNext, SpinEnabled, WokeOk, DrowsyOk, SpinOk, NoffOk, OneOk, CpuOk, Intr.PushOff, Intr.PopOff;
    var lk, take, at := SpinIs(s, a);
    assert ProcOk(s, q);
  }

  lemma OneSpin(s: State, a: Label, c: nat, d: nat)
    requires IsSpin(a) && Inv(s) && SpinEnabled(s, a) && s.IsCpu(c) && s.IsCpu(d)
    ensures OneOk(SpinNext(s, a), c, d)
  {
    hide SpinNext, SpinEnabled, WokeOk, DrowsyOk, SpinOk, NoffOk, ProcOk, CpuOk, LockMove, Intr.PushOff, Intr.PopOff;
    var lk, take, at := SpinIs(s, a);
    assert OneOk(s, c, d);
  }

  lemma WokeSpin(s: State, a: Label, c: nat, q: nat)
    requires IsSpin(a) && Inv(s) && SpinEnabled(s, a) && s.IsCpu(c) && s.Slot(q)
    ensures WokeOk(SpinNext(s, a), c, q)
  {
    hide SpinNext, SpinEnabled, DrowsyOk, SpinOk, NoffOk, ProcOk, OneOk, CpuOk, Sleeps, Intr.PushOff, Intr.PopOff;
    var lk, take, at := SpinIs(s, a);
    assert WokeOk(s, c, q);
  }

  lemma DrowsySpin(s: State, a: Label, c: nat, d: nat)
    requires IsSpin(a) && Inv(s) && SpinEnabled(s, a) && s.IsCpu(c) && s.IsCpu(d)
    ensures DrowsyOk(SpinNext(s, a), c, d)
  {
    hide SpinNext, SpinEnabled, WokeOk, NoffOk, ProcOk, OneOk, Intr.PushOff, Intr.PopOff;
    var lk, take, at := SpinIs(s, a);
    assert CpuOk(s, c) && SpinOk(s, c) && SpinOk(s, a.c) && CpuOk(s, a.c) && DrowsyOk(s, c, d);
  }

  lemma CpuTrap(s: State, a: Label, d: nat)
    requires IsTrap(a) && Inv(s) && TrapEnabled(s, a) && s.IsCpu(d)
    ensures |TrapNext(s, a).plock| == |TrapNext(s, a).procs| && CpuOk(TrapNext(s, a), d)
  {
    hide WokeOk, DrowsyOk, SpinOk, NoffOk, Intr.PushOff, Intr.PopOff;
    Self(s, a);
    assert CpuOk(s, d) && SpinOk(s, d) && OneOk(s, a.c, d);
  }

  lemma SpinTrap(s: State, a: Label, d: nat)
    requires IsTrap(a) && Inv(s) && TrapEnabled(s, a) && s.IsCpu(d)
    ensures SpinOk(TrapNext(s, a), d)
  {
    hide NoffOk, ProcOk, WokeOk, DrowsyOk, Intr.PushOff, Intr.PopOff;
    Self(s, a);
    assert CpuOk(s, d) && SpinOk(s, d);
  }

  lemma NoffTrap(s: State, a: Label, d: nat)
    requires IsTrap(a) && Inv(s) && TrapEnabled(s, a) && s.IsCpu(d)
    ensures TrapNext(s, a).IsCpu(d) && NoffOk(TrapNext(s, a).cpus[d])
  {
    hide ProcOk, WokeOk, DrowsyOk, OneOk;
    Self(s, a);
    assert NoffOk(s.cpus[d]);
  }

  lemma ProcTrap(s: State, a: Label, q: nat)
    requires IsTrap(a) && Inv(s) && TrapEnabled(s, a) && s.Slot(q)
    ensures ProcOk(TrapNext(s, a), q)
  {
    hide WokeOk, DrowsyOk, SpinOk, NoffOk, Intr.PushOff, Intr.PopOff;
    Self(s, a);
    assert ProcOk(s, q);
  }

  lemma OneTrap(s: State, a: Label, c: nat, d: nat)
    requires IsTrap(a) && Inv(s) && TrapEnabled(s, a) && s.IsCpu(c) && s.IsCpu(d)
    ensures OneOk(TrapNext(s, a), c, d)
  {
    hide WokeOk, DrowsyOk, SpinOk, ProcOk, NoffOk, Intr.PushOff, Intr.PopOff;
    Self(s, a);
    assert CpuOk(s, c) && CpuOk(s, d) && OneOk(s, c, d);
  }

  lemma WokeTrap(s: State, a: Label, c: nat, q: nat)
    requires IsTrap(a) && Inv(s) && TrapEnabled(s, a) && s.IsCpu(c) && s.Slot(q)
    ensures WokeOk(TrapNext(s, a), c, q)
  {
    hide NoffOk, Intr.PushOff, Intr.PopOff;
    Self(s, a);
    assert CpuOk(s, c) && ProcOk(s, q) && WokeOk(s, c, q) && DrowsyOk(s, c, a.c);
  }

  lemma DrowsyTrap(s: State, a: Label, c: nat, d: nat)
    requires IsTrap(a) && Inv(s) && TrapEnabled(s, a) && s.IsCpu(c) && s.IsCpu(d)
    ensures DrowsyOk(TrapNext(s, a), c, d)
  {
    hide ProcOk, NoffOk, Intr.PushOff, Intr.PopOff;
    Self(s, a);
    assert CpuOk(s, c) && SpinOk(s, c) && CpuOk(s, d) && SpinOk(s, d) && DrowsyOk(s, c, d);
  }

  lemma CpuWakeOther(s: State, a: Label, d: nat)
    requires IsWake(a) && WakeEnabled(s, a) && s.IsCpu(d) && d != a.c && |s.plock| == |s.procs|
    requires CpuOk(s, a.c) && CpuOk(s, d) && OneOk(s, a.c, d)
    ensures |WakeNext(s, a).plock| == |WakeNext(s, a).procs| && CpuOk(WakeNext(s, a), d)
  {
    hide Intr.PushOff, Intr.PopOff;
  }

  lemma CpuWakeSelf(s: State, a: Label)
    requires IsWake(a) && WakeEnabled(s, a) && |s.plock| == |s.procs| && CpuOk(s, a.c)
    ensures |WakeNext(s, a).plock| == |WakeNext(s, a).procs| && CpuOk(WakeNext(s, a), a.c)
  {
    hide Intr.PushOff, Intr.PopOff;
  }

  lemma CpuWake(s: State, a: Label, d: nat)
    requires IsWake(a) && Inv(s) && WakeEnabled(s, a) && s.IsCpu(d)
    ensures |WakeNext(s, a).plock| == |WakeNext(s, a).procs| && CpuOk(WakeNext(s, a), d)
  {
    hide WokeOk, DrowsyOk, SpinOk, OneOk, NoffOk, CpuOk, ProcOk, WakeNext;
    Self(s, a);
    if d == a.c {
      CpuWakeSelf(s, a);
    } else {
      CpuWakeOther(s, a, d);
    }
  }

  lemma SpinWake(s: State, a: Label, d: nat)
    requires IsWake(a) && Inv(s) && WakeEnabled(s, a) && s.IsCpu(d)
    ensures SpinOk(WakeNext(s, a), d)
  {
    hide NoffOk, ProcOk, WokeOk, DrowsyOk, Intr.PushOff, Intr.PopOff;
    Self(s, a);
    assert CpuOk(s, d) && SpinOk(s, d);
  }

  lemma NoffWake(s: State, a: Label, d: nat)
    requires IsWake(a) && Inv(s) && WakeEnabled(s, a) && s.IsCpu(d)
    ensures WakeNext(s, a).IsCpu(d) && NoffOk(WakeNext(s, a).cpus[d])
  {
    hide ProcOk, WokeOk, DrowsyOk, OneOk;
    Self(s, a);
    assert NoffOk(s.cpus[d]);
  }

  lemma ProcWakeOne(s: State, a: Label, q: nat)
    requires IsWake(a) && WakeEnabled(s, a) && s.Slot(q) && |s.plock| == |s.procs|
    requires CpuOk(s, a.c) && ProcOk(s, q)
    ensures ProcOk(WakeNext(s, a), q)
  {
    hide Intr.PushOff, Intr.PopOff;
  }

  lemma ProcWake(s: State, a: Label, q: nat)
    requires IsWake(a) && Inv(s) && WakeEnabled(s, a) && s.Slot(q)
    ensures ProcOk(WakeNext(s, a), q)
  {
    hide WokeOk, DrowsyOk, SpinOk, NoffOk, CpuOk, ProcOk, WakeNext;
    Self(s, a);
    ProcWakeOne(s, a, q);
  }

  lemma OneWake(s: State, a: Label, c: nat, d: nat)
    requires IsWake(a) && Inv(s) && WakeEnabled(s, a) && s.IsCpu(c) && s.IsCpu(d)
    ensures OneOk(WakeNext(s, a), c, d)
  {
    hide WokeOk, DrowsyOk, SpinOk, ProcOk, NoffOk, Intr.PushOff, Intr.PopOff;
    Self(s, a);
    assert CpuOk(s, c) && CpuOk(s, d) && OneOk(s, c, d);
  }

  lemma WokeWake(s: State, a: Label, c: nat, q: nat)
    requires IsWake(a) && Inv(s) && WakeEnabled(s, a) && s.IsCpu(c) && s.Slot(q)
    ensures WokeOk(WakeNext(s, a), c, q)
  {
    hide NoffOk, Intr.PushOff, Intr.PopOff;
    Self(s, a);
    assert CpuOk(s, c) && ProcOk(s, q) && WokeOk(s, c, q) && DrowsyOk(s, c, a.c);
  }

  lemma DrowsyWakePair(s: State, a: Label, c: nat, d: nat)
    requires IsWake(a) && WakeEnabled(s, a) && s.IsCpu(c) && s.IsCpu(d) && |s.plock| == |s.procs|
    requires CpuOk(s, c) && SpinOk(s, c) && CpuOk(s, d) && SpinOk(s, d) && DrowsyOk(s, c, d)
    ensures DrowsyOk(WakeNext(s, a), c, d)
  {
    hide Intr.PushOff, Intr.PopOff;
  }

  lemma DrowsyWake(s: State, a: Label, c: nat, d: nat)
    requires IsWake(a) && Inv(s) && WakeEnabled(s, a) && s.IsCpu(c) && s.IsCpu(d)
    ensures DrowsyOk(WakeNext(s, a), c, d)
  {
    hide CpuOk, SpinOk, DrowsyOk, ProcOk, NoffOk, WakeEnabled, WakeNext;
    DrowsyWakePair(s, a, c, d);
  }

  lemma CpuHoldOther(s: State, a: Label, d: nat)
    requires IsHold(a) && HoldEnabled(s, a) && s.IsCpu(d) && d != a.c && |s.plock| == |s.procs|
    requires CpuOk(s, a.c) && CpuOk(s, d) && OneOk(s, a.c, d)
    ensures |HoldNext(s, a).plock| == |HoldNext(s, a).procs| && CpuOk(HoldNext(s, a), d)
  {
    hide Intr.PushOff, Intr.PopOff;
  }

  lemma CpuHold(s: State, a: Label, d: nat)
    requires IsHold(a) && Inv(s) && HoldEnabled(s, a) && s.IsCpu(d)
    ensures |HoldNext(s, a).plock| == |HoldNext(s, a).procs| && CpuOk(HoldNext(s, a), d)
  {
    hide WokeOk, DrowsyOk, SpinOk, OneOk, NoffOk, Intr.PushOff, Intr.PopOff;
    if d == a.c {
      Self(s, a);
    } else {
      CpuHoldOther(s, a, d);
    }
  }

  lemma SpinHold(s: State, a: Label, d: nat)
    requires IsHold(a) && Inv(s) && HoldEnabled(s, a) && s.IsCpu(d)
    ensures SpinOk(HoldNext(s, a), d)
  {
    hide NoffOk, ProcOk, WokeOk, DrowsyOk, Intr.PushOff, Intr.PopOff;
    Self(s, a);
    assert CpuOk(s, d) && SpinOk(s, d);
  }

  lemma NoffHold(s: State, a: Label, d: nat)
    requires IsHold(a) && Inv(s) && HoldEnabled(s, a) && s.IsCpu(d)
    ensures HoldNext(s, a).IsCpu(d) && NoffOk(HoldNext(s, a).cpus[d])
  {
    hide ProcOk, WokeOk, DrowsyOk, OneOk;
    Self(s, a);
    assert NoffOk(s.cpus[d]);
  }

  lemma ProcHold(s: State, a: Label, q: nat)
    requires IsHold(a) && Inv(s) && HoldEnabled(s, a) && s.Slot(q)
    ensures ProcOk(HoldNext(s, a), q)
  {
    hide WokeOk, DrowsyOk, SpinOk, NoffOk, Intr.PushOff, Intr.PopOff;
    Self(s, a);
    assert ProcOk(s, q);
  }

  lemma OneHold(s: State, a: Label, c: nat, d: nat)
    requires IsHold(a) && Inv(s) && HoldEnabled(s, a) && s.IsCpu(c) && s.IsCpu(d)
    ensures OneOk(HoldNext(s, a), c, d)
  {
    hide WokeOk, DrowsyOk, SpinOk, ProcOk, NoffOk, Intr.PushOff, Intr.PopOff;
    Self(s, a);
    assert CpuOk(s, c) && CpuOk(s, d) && OneOk(s, c, d);
  }

  lemma WokeHold(s: State, a: Label, c: nat, q: nat)
    requires IsHold(a) && Inv(s) && HoldEnabled(s, a) && s.IsCpu(c) && s.Slot(q)
    ensures WokeOk(HoldNext(s, a), c, q)
  {
    hide NoffOk, Intr.PushOff, Intr.PopOff;
    Self(s, a);
    assert CpuOk(s, c) && ProcOk(s, q) && WokeOk(s, c, q) && DrowsyOk(s, c, a.c);
  }

  lemma DrowsyHold(s: State, a: Label, c: nat, d: nat)
    requires IsHold(a) && Inv(s) && HoldEnabled(s, a) && s.IsCpu(c) && s.IsCpu(d)
    ensures DrowsyOk(HoldNext(s, a), c, d)
  {
    hide ProcOk, NoffOk, Intr.PushOff, Intr.PopOff;
    Self(s, a);
    assert CpuOk(s, c) && SpinOk(s, c) && CpuOk(s, d) && SpinOk(s, d) && DrowsyOk(s, c, d);
  }
}
