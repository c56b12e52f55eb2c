/**
 What belongs to a process on its way through the scheduler, over every run: the
 interrupt state of its kernel thread, its channel, and the states it goes through.
 */
module SwitchThreads {
  import opened ProcTypes
  import opened Switch
  import opened SwitchInv
  import opened SwitchRuns

  // ----- Interrupts -----

  /** Whether interrupts will be on once all locks are released. */
  function Base(k: Intr): (on: bool) {
    if k.noff == 0 then k.on else k.intena
  }

  predicate CpuBase(k: Cpu, p: nat, on: bool) {
    k.pc.On? && k.pc.p == p ==> Base(k.intr) == on
  }

  predicate ContextBase(x: Context, on: bool) {
    x.Saved? && !x.cont.AtForkret? ==> x.intena == on
  }

  /** The thread of p has interrupts on, or off, outside its locks. */
  ghost predicate BaseIs(s: State, p: nat, on: bool) {
    && s.Slot(p) && ContextBase(s.procs[p].context, on)
    && forall c: nat {:trigger CpuBase(s.cpus[c], p, on)} :: s.IsCpu(c) ==> CpuBase(s.cpus[c], p, on)
  }

  /** Process p starts for the first time. */
  predicate Starts(s: State, a: Label, p: nat) {
    && a.Pick? && s.IsCpu(a.c) && s.cpus[a.c].pc == Peek(p) && s.Slot(p)
    && (s.procs[p].context.Saved? ==> s.procs[p].context.cont.AtForkret?)
  }

  /** What the interrupt state of the thread of p is after the step: only the code itself and traps change it. */
  function After(s: State, a: Label, p: nat, on: bool): (r: bool) {
    if s.IsCpu(a.c) && Me(s.cpus[a.c]) == Some(p) then
      match a
      case SetIntr(_, b) => b
      case TrapIn(_) => false
      case TrapOut(_) => true
      case _ => on
    else on
  }

  lemma {:induction false} BaseSched(s: State, a: Label, p: nat, on: bool, d: nat)
    requires IsSched(a) && SchedEnabled(s, a) && s.Slot(p) && ContextBase(s.procs[p].context, on) && s.IsCpu(d)
    requires CpuOk(s, a.c) && NoffOk(s.cpus[a.c]) && CpuBase(s.cpus[d], p, on) && CpuBase(s.cpus[a.c], p, on)
    requires !Starts(s, a, p)
    ensures var t := SchedNext(s, a); t.Slot(p) && ContextBase(t.procs[p].context, on) && CpuBase(t.cpus[d], p, on)
  {
    hide AtOk;
  }

  lemma {:induction false} BaseOwn(s: State, a: Label, p: nat, on: bool, d: nat)
    requires IsOwn(a) && OwnEnabled(s, a) && s.Slot(p) && ContextBase(s.procs[p].context, on) && s.IsCpu(d)
    requires NoffOk(s.cpus[a.c]) && CpuBase(s.cpus[d], p, on) && CpuBase(s.cpus[a.c], p, on)
    ensures var t := OwnNext(s, a); t.Slot(p) && ContextBase(t.procs[p].context, on) && CpuBase(t.cpus[d], p, on)
  {
  }

  lemma {:induction false} BaseSpin(s: State, a: Label, p: nat, on: bool, d: nat)
    requires IsSpin(a) && SpinEnabled(s, a) && s.Slot(p) && ContextBase(s.procs[p].context, on) && s.IsCpu(d)
    requires NoffOk(s.cpus[a.c]) && CpuBase(s.cpus[d], p, on) && CpuBase(s.cpus[a.c], p, on)
    ensures var t := SpinNext(s, a); t.Slot(p) && ContextBase(t.procs[p].context, on) && CpuBase(t.cpus[d], p, on)
  {
  }

  lemma {:induction false} BaseWake(s: State, a: Label, p: nat, on: bool, d: nat)
    requires IsWake(a) && WakeEnabled(s, a) && s.Slot(p) && ContextBase(s.procs[p].context, on) && s.IsCpu(d)
    requires NoffOk(s.cpus[a.c]) && CpuBase(s.cpus[d], p, on) && CpuBase(s.cpus[a.c], p, on)
    ensures var t := WakeNext(s, a); t.Slot(p) && ContextBase(t.procs[p].context, on) && CpuBase(t.cpus[d], p, on)
  {
  }

  lemma {:induction false} BaseHold(s: State, a: Label, p: nat, on: bool, d: nat)
    requires IsHold(a) && HoldEnabled(s, a) && s.Slot(p) && ContextBase(s.procs[p].context, on) && s.IsCpu(d)
    requires NoffOk(s.cpus[a.c]) && CpuBase(s.cpus[d], p, on) && CpuBase(s.cpus[a.c], p, on)
    ensures var t := HoldNext(s, a); t.Slot(p) && ContextBase(t.procs[p].context, on) && CpuBase(t.cpus[d], p, on)
  {
  }

  lemma {:induction false} BaseTrap(s: State, a: Label, p: nat, on: bool, d: nat)
    requires IsTrap(a) && TrapEnabled(s, a) && s.Slot(p) && ContextBase(s.procs[p].context, on) && s.IsCpu(d)
    requires NoffOk(s.cpus[a.c]) && CpuBase(s.cpus[d], p, on) && CpuBase(s.cpus[a.c], p, on)
    requires s.procs[p].context.Loaded? || Me(s.cpus[a.c]) != Some(p)
    requires Me(s.cpus[a.c]) == Some(p) && d != a.c ==> Me(s.cpus[d]) != Some(p)
    ensures var t, b := TrapNext(s, a), After(s, a, p, on);
      t.Slot(p) && ContextBase(t.procs[p].context, b) && CpuBase(t.cpus[d], p, b)
  {
  }

  lemma {:induction false} OnlyOn(s: State, c: nat, d: nat, p: nat)
    requires Inv(s) && s.IsCpu(c) && s.IsCpu(d)
    ensures Me(s.cpus[c]) == Some(p) ==> s.Slot(p) && s.procs[p].context.Loaded?
    ensures Me(s.cpus[c]) == Some(p) && d != c ==> Me(s.cpus[d]) != Some(p)
  {
    assert CpuOk(s, c) && CpuOk(s, d) && OneOk(s, c, d);
    hide Inv;
  }

  lemma {:induction false} AfterIs(s: State, a: Label, p: nat, on: bool)
    ensures !IsTrap(a) ==> After(s, a, p, on) == on
  {
  }

  lemma {:induction false} BaseOne(s: State, a: Label, p: nat, on: bool, d: nat)
    requires Inv(s) && Enabled(s, a) && BaseIs(s, p, on) && !Starts(s, a, p) && s.IsCpu(d)
    ensures var t, b := Next(s, a), After(s, a, p, on);
      t.Slot(p) && ContextBase(t.procs[p].context, b) && t.IsCpu(d) && CpuBase(t.cpus[d], p, b)
  {
    hide SchedEnabled, OwnEnabled, SpinEnabled, TrapEnabled, WakeEnabled, HoldEnabled, SchedNext, OwnNext, SpinNext,
      TrapNext, WakeNext, HoldNext, NoffOk, CpuBase, ContextBase, Starts, CpuOk, OneOk, After;
    CpuOf(s, a);
    OnlyOn(s, a.c, d, p);
    assert CpuOk(s, a.c) && NoffOk(s.cpus[a.c]);
    assert CpuBase(s.cpus[d], p, on) && CpuBase(s.cpus[a.c], p, on);
    AfterIs(s, a, p, on);
    if IsSched(a) {
      BaseSched(s, a, p, on, d);
    } else if IsOwn(a) {
      BaseOwn(s, a, p, on, d);
    } else if IsSpin(a) {
      BaseSpin(s, a, p, on, d);
    } else if IsTrap(a) {
      BaseTrap(s, a, p, on, d);
    } else if IsWake(a) {
      BaseWake(s, a, p, on, d);
    } else {
      BaseHold(s, a, p, on, d);
    }
  }

  lemma {:induction false} CpuOf(s: State, a: Label)
    requires Enabled(s, a)
    ensures s.IsCpu(a.c)
  {
  }

  /**
   The interrupt state belongs to the kernel thread: across locks, sleep(), yield() and
   moves between CPUs it is what it was, and only the thread's own code and traps
   taken in it change it.
   */
  lemma InterruptsBelongToThread(ss: seq<State>, labels: seq<Label>, k: nat, p: nat, on: bool)
    requires IsRun(ss, labels) && k < |labels| && BaseIs(ss[k], p, on) && !Starts(ss[k], labels[k], p)
    ensures BaseIs(ss[k + 1], p, After(ss[k], labels[k], p, on))
  {
    var s, a, t := ss[k], labels[k], ss[k + 1];
    InvAt(ss, labels, k);
    assert IsStep(s, a, t);
    assert SameSizes(s, t);
    CpuOf(s, a);
    hide Inv, Enabled, Next, CpuBase, ContextBase, Starts, After;
    forall d: nat | t.IsCpu(d)
      ensures CpuBase(t.cpus[d], p, After(s, a, p, on))
    {
      BaseOne(s, a, p, on, d);
    }
    BaseOne(s, a, p, on, a.c);
  }

  /** A running process has one such state, that of its CPU. */
  lemma RunningHasBase(ss: seq<State>, labels: seq<Label>, k: nat, c: nat)
    requires IsRun(ss, labels) && k <= |labels| && ss[k].IsCpu(c) && ss[k].cpus[c].pc.On?
    ensures BaseIs(ss[k], ss[k].cpus[c].pc.p, Base(ss[k].cpus[c].intr))
  {
    var s := ss[k];
    InvAt(ss, labels, k);
    assert CpuOk(s, c);
    forall d: nat | s.IsCpu(d)
      ensures CpuBase(s.cpus[d], s.cpus[c].pc.p, Base(s.cpus[c].intr))
    {
      assert CpuOk(s, d) && OneOk(s, c, d);
    }
    hide Inv;
  }

  // ----- Channels -----

  predicate ProcChan(x: Proc) {
    x.chan.Some? ==>
      && (x.state == SLEEPING || x.state == RUNNABLE || x.state == RUNNING)
      && (x.context.Saved? ==> x.context.cont.AfterSleep? && x.context.cont.chan == x.chan.value)
  }

  predicate CpuChan(k: Cpu, p: nat, chan: Option<nat>) {
    k.pc.On? && k.pc.p == p && chan.Some? ==>
      && (k.pc.at.InSched? || k.pc.at.Resumed?)
      && k.pc.at.cont.AfterSleep? && k.pc.at.cont.chan == chan.value
  }

  lemma {:induction false} ChanSched(s: State, a: Label, p: nat, d: nat)
    requires IsSched(a) && SchedEnabled(s, a) && s.Slot(p) && ProcChan(s.procs[p]) && ProcOk(s, p) && s.IsCpu(d)
    requires CpuOk(s, a.c) && CpuOk(s, d) && OneOk(s, a.c, d)
    requires CpuChan(s.cpus[d], p, s.procs[p].chan) && CpuChan(s.cpus[a.c], p, s.procs[p].chan)
    ensures var t := SchedNext(s, a); t.Slot(p) && ProcChan(t.procs[p]) && CpuChan(t.cpus[d], p, t.procs[p].chan)
  {
    hide Intr.PushOff, Intr.PopOff;
  }

  lemma {:induction false} ChanOwn(s: State, a: Label, p: nat, d: nat)
    requires IsOwn(a) && OwnEnabled(s, a) && s.Slot(p) && ProcChan(s.procs[p]) && ProcOk(s, p) && s.IsCpu(d)
    requires CpuOk(s, a.c) && CpuOk(s, d) && OneOk(s, a.c, d)
    requires CpuChan(s.cpus[d], p, s.procs[p].chan) && CpuChan(s.cpus[a.c], p, s.procs[p].chan)
    ensures var t := OwnNext(s, a); t.Slot(p) && ProcChan(t.procs[p]) && CpuChan(t.cpus[d], p, t.procs[p].chan)
  {
    hide Intr.PushOff, Intr.PopOff;
  }

  lemma {:induction false} ChanSpin(s: State, a: Label, p: nat, d: nat)
    requires IsSpin(a) && SpinEnabled(s, a) && s.Slot(p) && ProcChan(s.procs[p]) && ProcOk(s, p) && s.IsCpu(d)
    requires CpuOk(s, a.c) && CpuOk(s, d) && OneOk(s, a.c, d)
    requires CpuChan(s.cpus[d], p, s.procs[p].chan) && CpuChan(s.cpus[a.c], p, s.procs[p].chan)
    ensures var t := SpinNext(s, a); t.Slot(p) && ProcChan(t.procs[p]) && CpuChan(t.cpus[d], p, t.procs[p].chan)
  {
    hide Intr.PushOff, Intr.PopOff;
  }

  lemma {:induction false} ChanTrap(s: State, a: Label, p: nat, d: nat)
    requires IsTrap(a) && TrapEnabled(s, a) && s.Slot(p) && ProcChan(s.procs[p]) && ProcOk(s, p) && s.IsCpu(d)
    requires CpuOk(s, a.c) && CpuOk(s, d) && OneOk(s, a.c, d)
    requires CpuChan(s.cpus[d], p, s.procs[p].chan) && CpuChan(s.cpus[a.c], p, s.procs[p].chan)
    ensures var t := TrapNext(s, a); t.Slot(p) && ProcChan(t.procs[p]) && CpuChan(t.cpus[d], p, t.procs[p].chan)
  {
    hide Intr.PushOff, Intr.PopOff;
  }

  lemma {:induction false} ChanWake(s: State, a: Label, p: nat, d: nat)
    requires IsWake(a) && WakeEnabled(s, a) && s.Slot(p) && ProcChan(s.procs[p]) && ProcOk(s, p) && s.IsCpu(d)
    requires CpuOk(s, a.c) && CpuOk(s, d) && OneOk(s, a.c, d)
    requires CpuChan(s.cpus[d], p, s.procs[p].chan) && CpuChan(s.cpus[a.c], p, s.procs[p].chan)
    ensures var t := WakeNext(s, a); t.Slot(p) && ProcChan(t.procs[p]) && CpuChan(t.cpus[d], p, t.procs[p].chan)
  {
    hide Intr.PushOff, Intr.PopOff;
  }

  lemma {:induction false} ChanHold(s: State, a: Label, p: nat, d: nat)
    requires IsHold(a) && HoldEnabled(s, a) && s.Slot(p) && ProcChan(s.procs[p]) && ProcOk(s, p) && s.IsCpu(d)
    requires CpuOk(s, a.c) && CpuOk(s, d) && OneOk(s, a.c, d)
    requires CpuChan(s.cpus[d], p, s.procs[p].chan) && CpuChan(s.cpus[a.c], p, s.procs[p].chan)
    ensures var t := HoldNext(s, a); t.Slot(p) && ProcChan(t.procs[p]) && CpuChan(t.cpus[d], p, t.procs[p].chan)
  {
    hide Intr.PushOff, Intr.PopOff;
  }

  /** A channel is set only in a sleep() on it. */
  ghost predicate ChanOk(s: State, p: nat) {
    && s.Slot(p) && ProcChan(s.procs[p])
    && forall c: nat {:trigger CpuChan(s.cpus[c], p, s.procs[p].chan)} ::
         s.IsCpu(c) ==> CpuChan(s.cpus[c], p, s.procs[p].chan)
  }

  lemma {:induction false} ChanOne(s: State, a: Label, p: nat, d: nat)
    requires Inv(s) && Enabled(s, a) && ChanOk(s, p) && s.IsCpu(d)
    ensures var t := Next(s, a);
      t.Slot(p) && ProcChan(t.procs[p]) && t.IsCpu(d) && CpuChan(t.cpus[d], p, t.procs[p].chan)
  {
    CpuOf(s, a);
    assert CpuOk(s, a.c) && CpuOk(s, d) && OneOk(s, a.c, d) && ProcOk(s, p);
    assert CpuChan(s.cpus[d], p, s.procs[p].chan) && CpuChan(s.cpus[a.c], p, s.procs[p].chan);
    hide SchedEnabled, OwnEnabled, SpinEnabled, TrapEnabled, WakeEnabled, HoldEnabled, SchedNext, OwnNext, SpinNext,
      TrapNext, WakeNext, HoldNext, Inv, CpuOk, OneOk, ProcOk, ProcChan, CpuChan;
    if IsSched(a) {
      ChanSched(s, a, p, d);
    } else if IsOwn(a) {
      ChanOwn(s, a, p, d);
    } else if IsSpin(a) {
      ChanSpin(s, a, p, d);
    } else if IsTrap(a) {
      ChanTrap(s, a, p, d);
    } else if IsWake(a) {
      ChanWake(s, a, p, d);
    } else {
      ChanHold(s, a, p, d);
    }
  }

  /**
   p->chan is set only while p is in a sleep(): whenever it is, p's context is in a
   sleep() on that channel, or the CPU that runs p is in sched() or back from it there.
   */
  lemma {:induction false} ChanOnlyInSleep(ss: seq<State>, labels: seq<Label>, k: nat, p: nat)
    requires IsRun(ss, labels) && k <= |labels| && ss[k].Slot(p)
    ensures ChanOk(ss[k], p)
  {
    if k > 0 {
      var s, a, t := ss[k - 1], labels[k - 1], ss[k];
      InvAt(ss, labels, k - 1);
      assert IsStep(s, a, t);
      assert SameSizes(s, t) && |s.plock| == |s.procs|;
      CpuOf(s, a);
      hide Inv, Enabled, Next, ProcChan, CpuChan, Init;
      ChanOnlyInSleep(ss, labels, k - 1, p);
      forall d: nat | t.IsCpu(d)
        ensures CpuChan(t.cpus[d], p, t.procs[p].chan)
      {
        ChanOne(s, a, p, d);
      }
      ChanOne(s, a, p, a.c);
    }
  }

  // ----- The states of a process -----

  /** The process a step moves along an edge, and where to. */
  function Moves(s: State, a: Label): (m: Move)
    requires s.IsCpu(a.c)
  {
    var pc := s.cpus[a.c].pc;
    match a
    case Pick(_) => if pc.Peek? then Go(pc.p, RUNNING) else Stay
    case SleepSet(_) => if pc.On? then Go(pc.p, SLEEPING) else Stay
    case SelfSet(_) =>
      if pc.On? && pc.at.Locked? then Go(pc.p, if pc.at.cont.AfterYield? then RUNNABLE else ZOMBIE) else Stay
    case WakeSet(_) =>
      if (pc.On? || pc.Handler?) && pc.at.WakeHold? && s.Slot(pc.at.i) && s.procs[pc.at.i].state == SLEEPING
         && s.procs[pc.at.i].chan == Some(pc.at.chan) then Go(pc.at.i, RUNNABLE) else Stay
    case HoldKill(_) =>
      if pc.On? && pc.at.Hold? && s.Slot(pc.at.i) && s.procs[pc.at.i].state == SLEEPING then Go(pc.at.i, RUNNABLE)
      else Stay
    case HoldAlloc(_) => if pc.On? && pc.at.Hold? then Go(pc.at.i, USED) else Stay
    case HoldStart(_) => if pc.On? && pc.at.Hold? then Go(pc.at.i, RUNNABLE) else Stay
    case HoldFree(_) => if pc.On? && pc.at.Hold? then Go(pc.at.i, UNUSED) else Stay
    case _ => Stay
  }

  lemma {:induction false} StateSched(s: State, a: Label, q: nat)
    requires IsSched(a) && SchedEnabled(s, a) && s.IsCpu(a.c) && CpuOk(s, a.c) && s.Slot(q)
    ensures var from, to := s.procs[q].state, SchedNext(s, a).procs[q].state;
      && to == Moves(s, a).Of(q, from)
      && (to != from ==> Edge(from, to))
  {
    hide Intr.PushOff, Intr.PopOff;
  }

  lemma {:induction false} StateOwn(s: State, a: Label, q: nat)
    requires IsOwn(a) && OwnEnabled(s, a) && s.IsCpu(a.c) && CpuOk(s, a.c) && s.Slot(q)
    ensures var from, to := s.procs[q].state, OwnNext(s, a).procs[q].state;
      && to == Moves(s, a).Of(q, from)
      && (to != from ==> Edge(from, to))
  {
    hide Intr.PushOff, Intr.PopOff;
  }

  lemma {:induction false} StateSpin(s: State, a: Label, q: nat)
    requires IsSpin(a) && SpinEnabled(s, a) && s.IsCpu(a.c) && CpuOk(s, a.c) && s.Slot(q)
    ensures var from, to := s.procs[q].state, SpinNext(s, a).procs[q].state;
      && to == Moves(s, a).Of(q, from)
      && (to != from ==> Edge(from, to))
  {
    hide Intr.PushOff, Intr.PopOff;
  }

  lemma {:induction false} StateTrap(s: State, a: Label, q: nat)
    requires IsTrap(a) && TrapEnabled(s, a) && s.IsCpu(a.c) && CpuOk(s, a.c) && s.Slot(q)
    ensures var from, to := s.procs[q].state, TrapNext(s, a).procs[q].state;
      && to == Moves(s, a).Of(q, from)
      && (to != from ==> Edge(from, to))
  {
    hide Intr.PushOff, Intr.PopOff;
  }

  lemma {:induction false} StateWake(s: State, a: Label, q: nat)
    requires IsWake(a) && WakeEnabled(s, a) && s.IsCpu(a.c) && CpuOk(s, a.c) && s.Slot(q)
    ensures var from, to := s.procs[q].state, WakeNext(s, a).procs[q].state;
      && to == Moves(s, a).Of(q, from)
      && (to != from ==> Edge(from, to))
  {
    hide Intr.PushOff, Intr.PopOff;
  }

  lemma {:induction false} StateHold(s: State, a: Label, q: nat)
    requires IsHold(a) && HoldEnabled(s, a) && s.IsCpu(a.c) && CpuOk(s, a.c) && s.Slot(q)
    ensures var from, to := s.procs[q].state, HoldNext(s, a).procs[q].state;
      && to == Moves(s, a).Of(q, from)
      && (to != from ==> Edge(from, to))
  {
    hide Intr.PushOff, Intr.PopOff;
  }

  /** Every step moves the process it is about along an edge of the diagram, and no other. */
  lemma StatesFollowDiagram(ss: seq<State>, labels: seq<Label>, k: nat, q: nat)
    requires IsRun(ss, labels) && k < |labels| && ss[k].Slot(q)
    ensures ss[k].IsCpu(labels[k].c) && ss[k + 1].Slot(q)
    ensures var s, a, from, to := ss[k], labels[k], ss[k].procs[q].state, ss[k + 1].procs[q].state;
      && to == Moves(s, a).Of(q, from)
      && (to != from ==> Edge(from, to))
  {
    var s, a := ss[k], labels[k];
    InvAt(ss, labels, k);
    assert IsStep(s, a, ss[k + 1]);
    CpuOf(s, a);
    assert CpuOk(s, a.c) && SameSizes(s, ss[k + 1]);
    hide SchedEnabled, OwnEnabled, SpinEnabled, TrapEnabled, WakeEnabled, HoldEnabled, SchedNext, OwnNext, SpinNext,
      TrapNext, WakeNext, HoldNext, Inv, CpuOk, Moves, Edge;
    if IsSched(a) {
      StateSched(s, a, q);
    } else if IsOwn(a) {
      StateOwn(s, a, q);
    } else if IsSpin(a) {
      StateSpin(s, a, q);
    } else if IsTrap(a) {
      StateTrap(s, a, q);
    } else if IsWake(a) {
      StateWake(s, a, q);
    } else {
      StateHold(s, a, q);
    }
  }
}
