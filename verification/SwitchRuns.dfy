/** What holds of every run of the scheduler, sleep() and wakeup(), on any number of CPUs. */
module SwitchRuns {
  import opened ProcTypes
  import opened Switch
  import opened SwitchInv

  lemma OneStep(s: State, a: Label, c: nat)
    requires Inv(s) && Enabled(s, a) && s.IsCpu(c)
    ensures |Next(s, a).plock| == |Next(s, a).procs| && Next(s, a).IsCpu(c)
    ensures CpuOk(Next(s, a), c) && SpinOk(Next(s, a), c) && NoffOk(Next(s, a).cpus[c])
  {
    hide Inv, CpuOk, SpinOk, NoffOk, SchedNext, OwnNext, SpinNext, TrapNext, WakeNext, HoldNext;
    if IsSched(a) {
      CpuSched(s, a, c);
      SpinSched(s, a, c);
      NoffSched(s, a, c);
    } else if IsOwn(a) {
      CpuOwn(s, a, c);
      SpinOwn(s, a, c);
      NoffOwn(s, a, c);
    } else if IsSpin(a) {
      CpuSpin(s, a, c);
      SpinSpin(s, a, c);
      NoffSpin(s, a, c);
    } else if IsTrap(a) {
      CpuTrap(s, a, c);
      SpinTrap(s, a, c);
      NoffTrap(s, a, c);
    } else if IsWake(a) {
      CpuWake(s, a, c);
      SpinWake(s, a, c);
      NoffWake(s, a, c);
    } else {
      CpuHold(s, a, c);
      SpinHold(s, a, c);
      NoffHold(s, a, c);
    }
  }

  lemma ProcStep(s: State, a: Label, p: nat)
    requires Inv(s) && Enabled(s, a) && s.Slot(p)
    ensures ProcOk(Next(s, a), p)
  {
    hide Inv, ProcOk, SchedNext, OwnNext, SpinNext, TrapNext, WakeNext, HoldNext;
    if IsSched(a) {
      ProcSched(s, a, p);
    } else if IsOwn(a) {
      ProcOwn(s, a, p);
    } else if IsSpin(a) {
      ProcSpin(s, a, p);
    } else if IsTrap(a) {
      ProcTrap(s, a, p);
    } else if IsWake(a) {
      ProcWake(s, a, p);
    } else {
      ProcHold(s, a, p);
    }
  }

  lemma TwoStep(s: State, a: Label, c: nat, d: nat)
    requires Inv(s) && Enabled(s, a) && s.IsCpu(c) && s.IsCpu(d)
    ensures OneOk(Next(s, a), c, d) && DrowsyOk(Next(s, a), c, d)
  {
    hide Inv, OneOk, DrowsyOk, SchedNext, OwnNext, SpinNext, TrapNext, WakeNext, HoldNext;
    if IsSched(a) {
      OneSched(s, a, c, d);
      DrowsySched(s, a, c, d);
    } else if IsOwn(a) {
      OneOwn(s, a, c, d);
      DrowsyOwn(s, a, c, d);
    } else if IsSpin(a) {
      OneSpin(s, a, c, d);
      DrowsySpin(s, a, c, d);
    } else if IsTrap(a) {
      OneTrap(s, a, c, d);
      DrowsyTrap(s, a, c, d);
    } else if IsWake(a) {
      OneWake(s, a, c, d);
      DrowsyWake(s, a, c, d);
    } else {
      OneHold(s, a, c, d);
      DrowsyHold(s, a, c, d);
    }
  }

  lemma WokeStep(s: State, a: Label, c: nat, q: nat)
    requires Inv(s) && Enabled(s, a) && s.IsCpu(c) && s.Slot(q)
    ensures WokeOk(Next(s, a), c, q)
  {
    hide Inv, WokeOk, SchedNext, OwnNext, SpinNext, TrapNext, WakeNext, HoldNext;
    if IsSched(a) {
      WokeSched(s, a, c, q);
    } else if IsOwn(a) {
      WokeOwn(s, a, c, q);
    } else if IsSpin(a) {
      WokeSpin(s, a, c, q);
    } else if IsTrap(a) {
      WokeTrap(s, a, c, q);
    } else if IsWake(a) {
      WokeWake(s, a, c, q);
    } else {
      WokeHold(s, a, c, q);
    }
  }

  lemma StepOfCpu(s: State, a: Label)
    requires Enabled(s, a)
    ensures s.IsCpu(a.c)
  {
  }

  lemma InvStep(s: State, a: Label)
    requires Inv(s) && Enabled(s, a)
    ensures Inv(Next(s, a))
  {
    hide Next, Enabled;
    var t := Next(s, a);
    StepOfCpu(s, a);
    OneStep(s, a, a.c);
    forall c: nat | t.IsCpu(c)
      ensures CpuOk(t, c) && SpinOk(t, c) && NoffOk(t.cpus[c])
    {
      OneStep(s, a, c);
    }
    forall p: nat | t.Slot(p)
      ensures ProcOk(t, p)
    {
      ProcStep(s, a, p);
    }
    forall c: nat, d: nat | t.IsCpu(c) && t.IsCpu(d)
      ensures OneOk(t, c, d) && DrowsyOk(t, c, d)
    {
      TwoStep(s, a, c, d);
    }
    forall c: nat, q: nat | t.IsCpu(c) && t.Slot(q)
      ensures WokeOk(t, c, q)
    {
      WokeStep(s, a, c, q);
    }
  }

  lemma InvInit(s: State)
    requires Init(s)
    ensures Inv(s)
  {
  }

  lemma {:induction false} InvAt(ss: seq<State>, labels: seq<Label>, k: nat)
    requires IsRun(ss, labels) && k <= |labels|
    ensures Inv(ss[k])
  {
    if k == 0 {
      InvInit(ss[0]);
    } else {
      InvAt(ss, labels, k - 1);
      assert IsStep(ss[k - 1], labels[k - 1], ss[k]);
      InvStep(ss[k - 1], labels[k - 1]);
    }
  }

  // ----- Theorems -----

  /** Two CPUs never have the same process, whether it runs there or is being switched in or out. */
  lemma NeverOnTwoCpus(ss: seq<State>, labels: seq<Label>, k: nat, c: nat, d: nat)
    requires IsRun(ss, labels) && k <= |labels| && ss[k].IsCpu(c) && ss[k].IsCpu(d) && c != d
    ensures ss[k].cpus[c].proc.Some? ==> ss[k].cpus[c].proc != ss[k].cpus[d].proc
    ensures ss[k].cpus[c].pc.On? && ss[k].cpus[d].pc.On? ==> ss[k].cpus[c].pc.p != ss[k].cpus[d].pc.p
  {
    InvAt(ss, labels, k);
    assert OneOk(ss[k], c, d) && CpuOk(ss[k], c) && CpuOk(ss[k], d);
  }

  /**
   The hand-off: when a scheduler switches to a process, the process's context
   has been saved in full, no CPU is executing it or still leaving it, and it
   goes on at a place in sleep(), yield() or forkret(), never in exit().
   */
  lemma ResumedFromSaved(ss: seq<State>, labels: seq<Label>, k: nat, d: nat)
    requires IsRun(ss, labels) && k < |labels| && labels[k].Pick? && ss[k].IsCpu(d)
    ensures ss[k].IsCpu(labels[k].c) && ss[k].cpus[labels[k].c].pc.Peek?
    ensures var p := ss[k].cpus[labels[k].c].pc.p;
      && ss[k].Slot(p) && ss[k].procs[p].context.Saved? && !ss[k].procs[p].context.cont.AfterExit?
      && ss[k].cpus[d].proc != Some(p)
      && ss[k + 1].cpus[labels[k].c].pc == On(p, Resumed(ss[k].procs[p].context.cont))
  {
    InvAt(ss, labels, k);
    assert IsStep(ss[k], labels[k], ss[k + 1]);
    Self(ss[k], labels[k]);
    assert CpuOk(ss[k], d);
  }

  /** noff is the number of locks a CPU holds, so pop_off() never panics, and under a lock no interrupt comes. */
  lemma NoffCounts(ss: seq<State>, labels: seq<Label>, k: nat, c: nat)
    requires IsRun(ss, labels) && k <= |labels| && ss[k].IsCpu(c)
    ensures var x := ss[k].cpus[c];
      && x.intr.noff == |x.held| + (if HeldP(x.pc).Some? then 1 else 0)
      && (x.intr.noff > 0 ==> !x.intr.on)
    ensures forall p: nat :: ss[k].Slot(p) ==> (ss[k].plock[p] == Some(c) <==> HeldP(ss[k].cpus[c].pc) == Some(p))
  {
    InvAt(ss, labels, k);
    assert NoffOk(ss[k].cpus[c]) && CpuOk(ss[k], c);
    forall p: nat | ss[k].Slot(p)
      ensures ss[k].plock[p] == Some(c) <==> HeldP(ss[k].cpus[c].pc) == Some(p)
    {
      assert ProcOk(ss[k], p);
    }
  }

  /**
   sched() panics if and only if sleep(), yield() or exit() was called with another
   lock held than the one the call releases: then noff is not 1. The other three
   checks never fail.
   */
  lemma SchedPanicsIff(ss: seq<State>, labels: seq<Label>, k: nat, c: nat)
    requires IsRun(ss, labels) && k <= |labels| && ss[k].IsCpu(c)
    requires ss[k].cpus[c].pc.On? && ss[k].cpus[c].pc.at.InSched?
    ensures Runs(ss[k], c) && (SchedChecks(ss[k], c) <==> ss[k].cpus[c].others == {})
    ensures ss[k].cpus[c].intr.noff == 1 + |ss[k].cpus[c].others| && ss[k].cpus[c].held == ss[k].cpus[c].others
    ensures ss[k].plock[ss[k].cpus[c].pc.p] == Some(c) && !ss[k].cpus[c].intr.on
    ensures ss[k].procs[ss[k].cpus[c].pc.p].state != RUNNING
  {
    InvAt(ss, labels, k);
    assert CpuOk(ss[k], c) && NoffOk(ss[k].cpus[c]);
  }

  /** The call releases all the locks the CPU holds: one for sleep() and exit(), none for yield(). */
  ghost predicate CallsWell(s: State, a: Label) {
    && (a.SleepCall? && s.IsCpu(a.c) ==> s.cpus[a.c].held == {a.lk})
    && (a.SelfLock? && s.IsCpu(a.c) ==> s.cpus[a.c].held == if a.cont.AfterExit? then {WAIT_LOCK} else {})
  }

  lemma {:induction false} OthersOwn(s: State, a: Label, c: nat)
    requires IsOwn(a) && OwnEnabled(s, a) && s.IsCpu(c) && CallsWell(s, a) && s.cpus[c].others == {}
    ensures OwnNext(s, a).cpus[c].others == {}
  {
  }

  lemma {:induction false} OthersSched(s: State, a: Label, c: nat)
    requires IsSched(a) && SchedEnabled(s, a) && s.IsCpu(c)
    ensures SchedNext(s, a).cpus[c].others == s.cpus[c].others
  {
  }

  lemma {:induction false} OthersSpin(s: State, a: Label, c: nat)
    requires IsSpin(a) && SpinEnabled(s, a) && s.IsCpu(c)
    ensures SpinNext(s, a).cpus[c].others == s.cpus[c].others
  {
  }

  lemma {:induction false} OthersTrap(s: State, a: Label, c: nat)
    requires IsTrap(a) && TrapEnabled(s, a) && s.IsCpu(c)
    ensures TrapNext(s, a).cpus[c].others == s.cpus[c].others
  {
  }

  lemma {:induction false} OthersWake(s: State, a: Label, c: nat)
    requires IsWake(a) && WakeEnabled(s, a) && s.IsCpu(c)
    ensures WakeNext(s, a).cpus[c].others == s.cpus[c].others
  {
  }

  lemma {:induction false} OthersHold(s: State, a: Label, c: nat)
    requires IsHold(a) && HoldEnabled(s, a) && s.IsCpu(c)
    ensures HoldNext(s, a).cpus[c].others == s.cpus[c].others
  {
  }

  lemma {:induction false} OthersStep(s: State, a: Label, c: nat)
    requires Enabled(s, a) && s.IsCpu(c) && CallsWell(s, a) && s.cpus[c].others == {}
    ensures Next(s, a).IsCpu(c) && Next(s, a).cpus[c].others == {}
  {
    hide SchedEnabled, OwnEnabled, SpinEnabled, TrapEnabled, WakeEnabled, HoldEnabled, SchedNext, OwnNext, SpinNext,
      TrapNext, WakeNext, HoldNext, CallsWell;
    if IsSched(a) {
      OthersSched(s, a, c);
    } else if IsOwn(a) {
      OthersOwn(s, a, c);
    } else if IsSpin(a) {
      OthersSpin(s, a, c);
    } else if IsTrap(a) {
      OthersTrap(s, a, c);
    } else if IsWake(a) {
      OthersWake(s, a, c);
    } else {
      OthersHold(s, a, c);
    }
  }

  lemma {:induction false} NoOthers(ss: seq<State>, labels: seq<Label>, k: nat, c: nat)
    requires IsRun(ss, labels) && k <= |labels| && ss[k].IsCpu(c)
    requires forall j :: 0 <= j < k ==> CallsWell(ss[j], labels[j])
    ensures ss[k].cpus[c].others == {}
  {
    if k > 0 {
      assert IsStep(ss[k - 1], labels[k - 1], ss[k]);
      NoOthers(ss, labels, k - 1, c);
      OthersStep(ss[k - 1], labels[k - 1], c);
    }
  }

  /** So if every call releases all the locks the CPU holds, none of sched()'s checks ever fails. */
  lemma SchedNeverPanics(ss: seq<State>, labels: seq<Label>, k: nat, c: nat)
    requires IsRun(ss, labels) && k <= |labels| && ss[k].IsCpu(c)
    requires ss[k].cpus[c].pc.On? && ss[k].cpus[c].pc.at.InSched?
    requires forall j :: 0 <= j < k ==> CallsWell(ss[j], labels[j])
    ensures Runs(ss[k], c) && SchedChecks(ss[k], c)
  {
    NoOthers(ss, labels, k, c);
    SchedPanicsIff(ss, labels, k, c);
  }

  /**
   No lost wakeups: when wakeup(chan) ends on a CPU that held lk throughout, be
   it in a process or in an interrupt that came in scheduler(), no process is
   asleep in sleep(chan, lk), and none is on its way to sleep there.
   */
  lemma NoLostWakeups(ss: seq<State>, labels: seq<Label>, k: nat, c: nat, lk: nat, q: nat, d: nat)
    requires IsRun(ss, labels) && k <= |labels| && ss[k].IsCpu(c) && ss[k].Slot(q) && ss[k].IsCpu(d)
    requires (ss[k].cpus[c].pc.On? || ss[k].cpus[c].pc.Handler?) && ss[k].cpus[c].pc.at.Wake?
    requires !ss[k].Slot(ss[k].cpus[c].pc.at.i) && lk in ss[k].cpus[c].held
    ensures !Sleeps(ss[k].procs[q], ss[k].cpus[c].pc.at.chan, lk)
    ensures !Drowsy(ss[k].cpus[d], q, ss[k].cpus[c].pc.at.chan, lk)
  {
    InvAt(ss, labels, k);
    var s, chan := ss[k], ss[k].cpus[c].pc.at.chan;
    assert CpuOk(s, c) && CpuOk(s, d) && OneOk(s, c, d) && WokeOk(s, c, q) && DrowsyOk(s, c, d);
    if Me(s.cpus[c]) != Some(q) {
      assert Passed(s.cpus[c], q, chan, lk);
    }
  }

  /** A sleeping process can always be woken: its channel is recorded, and so is where it goes on. */
  lemma SleeperIsRecorded(ss: seq<State>, labels: seq<Label>, k: nat, q: nat)
    requires IsRun(ss, labels) && k <= |labels| && ss[k].Slot(q)
    requires ss[k].procs[q].state == SLEEPING && ss[k].plock[q].None?
    ensures ss[k].procs[q].context.Saved? && ss[k].procs[q].context.cont.AfterSleep?
    ensures ss[k].procs[q].chan == Some(ss[k].procs[q].context.cont.chan)
  {
    InvAt(ss, labels, k);
    assert ProcOk(ss[k], q);
  }
}
