/**
 The law of sleep() over whole runs: whoever calls sleep(chan, lk) sleeps on chan,
 is woken only by a wakeup() of chan or a kill(), and goes on in its caller only
 with lk held again.
 */
module SwitchSleep {
  import opened ProcTypes
  import opened Switch
  import opened SwitchInv
  import opened SwitchRuns

  /** A context that goes on in sleep(chan, lk), or in a trap taken at the end of it. */
  predicate ContInSleep(cont: Cont, chan: nat, lk: nat) {
    match cont
    case AfterSleep(c, l) => c == chan && l == lk
    case AfterYield(trap) => trap == Some(lk)
    case _ => false
  }

  /** A place in sleep(chan, lk), or in a trap taken at the end of it. */
  predicate AtInSleep(at: At, chan: nat, lk: nat) {
    match at
    case Run(trap) => trap == Some(lk)
    case Resumed(cont) => ContInSleep(cont, chan, lk)
    case Relock(l) => l == lk
    case SleepWant(c, l) => c == chan && l == lk
    case SleepBoth(c, l) => c == chan && l == lk
    case SleepOne(c, l) => c == chan && l == lk
    case Locked(cont) => ContInSleep(cont, chan, lk)
    case Exiting => false
    case InSched(cont) => ContInSleep(cont, chan, lk)
    case Wake(_, _, trap) => trap == Some(lk)
    case WakeHold(_, _, trap) => trap == Some(lk)
    case Hold(_, trap) => trap == Some(lk)
  }

  predicate CpuInSleep(k: Cpu, p: nat, chan: nat, lk: nat) {
    k.pc.On? && k.pc.p == p ==> AtInSleep(k.pc.at, chan, lk)
  }

  predicate ProcInSleep(x: Proc, chan: nat, lk: nat) {
    && (x.state == RUNNING || x.state == SLEEPING || x.state == RUNNABLE)
    && (x.context.Saved? ==> ContInSleep(x.context.cont, chan, lk))
  }

  /** Process p is in sleep(chan, lk), wherever it is. */
  ghost predicate InSleep(s: State, p: nat, chan: nat, lk: nat) {
    && s.Slot(p) && ProcInSleep(s.procs[p], chan, lk)
    && forall c: nat {:trigger CpuInSleep(s.cpus[c], p, chan, lk)} :: s.IsCpu(c) ==> CpuInSleep(s.cpus[c], p, chan, lk)
  }

  /** CPU c has just taken lk at the end of the sleep() of p. */
  predicate BackWith(s: State, c: nat, p: nat, lk: nat) {
    s.IsCpu(c) && s.cpus[c].pc == On(p, Run(None)) && lk in s.cpus[c].held && lk in s.lock && s.lock[lk] == c
  }

  // ----- One step -----

  lemma {:induction false} SleepSched(s: State, a: Label, p: nat, chan: nat, lk: nat, d: nat)
    requires IsSched(a) && SchedEnabled(s, a) && s.Slot(p) && ProcInSleep(s.procs[p], chan, lk) && s.IsCpu(d)
    requires CpuOk(s, a.c) && ProcOk(s, p) && CpuInSleep(s.cpus[d], p, chan, lk) && CpuInSleep(s.cpus[a.c], p, chan, lk)
    ensures var t := SchedNext(s, a);
      t.Slot(p) && ProcInSleep(t.procs[p], chan, lk) && CpuInSleep(t.cpus[d], p, chan, lk)
  {
    hide Intr.PushOff, Intr.PopOff, AtOk;
  }

  lemma {:induction false} SleepOwn(s: State, a: Label, p: nat, chan: nat, lk: nat, d: nat)
    requires IsOwn(a) && OwnEnabled(s, a) && s.Slot(p) && ProcInSleep(s.procs[p], chan, lk) && s.IsCpu(d)
    requires CpuOk(s, a.c) && ProcOk(s, p) && CpuInSleep(s.cpus[d], p, chan, lk) && CpuInSleep(s.cpus[a.c], p, chan, lk)
    ensures var t := OwnNext(s, a);
      t.Slot(p) && ProcInSleep(t.procs[p], chan, lk) && CpuInSleep(t.cpus[d], p, chan, lk)
  {
    hide Intr.PushOff, Intr.PopOff, AtOk;
  }

  lemma {:induction false} SleepTrap(s: State, a: Label, p: nat, chan: nat, lk: nat, d: nat)
    requires IsTrap(a) && TrapEnabled(s, a) && s.Slot(p) && ProcInSleep(s.procs[p], chan, lk) && s.IsCpu(d)
    requires CpuOk(s, a.c) && ProcOk(s, p) && CpuInSleep(s.cpus[d], p, chan, lk) && CpuInSleep(s.cpus[a.c], p, chan, lk)
    ensures var t := TrapNext(s, a);
      t.Slot(p) && ProcInSleep(t.procs[p], chan, lk) && CpuInSleep(t.cpus[d], p, chan, lk)
  {
    hide Intr.PushOff, Intr.PopOff, AtOk;
  }

  lemma {:induction false} SleepWake(s: State, a: Label, p: nat, chan: nat, lk: nat, d: nat)
    requires IsWake(a) && WakeEnabled(s, a) && s.Slot(p) && ProcInSleep(s.procs[p], chan, lk) && s.IsCpu(d)
    requires CpuOk(s, a.c) && ProcOk(s, p) && CpuInSleep(s.cpus[d], p, chan, lk) && CpuInSleep(s.cpus[a.c], p, chan, lk)
    ensures var t := WakeNext(s, a);
      t.Slot(p) && ProcInSleep(t.procs[p], chan, lk) && CpuInSleep(t.cpus[d], p, chan, lk)
  {
    hide Intr.PushOff, Intr.PopOff, AtOk;
  }

  lemma {:induction false} SleepHold(s: State, a: Label, p: nat, chan: nat, lk: nat, d: nat)
    requires IsHold(a) && HoldEnabled(s, a) && s.Slot(p) && ProcInSleep(s.procs[p], chan, lk) && s.IsCpu(d)
    requires CpuOk(s, a.c) && ProcOk(s, p) && CpuInSleep(s.cpus[d], p, chan, lk) && CpuInSleep(s.cpus[a.c], p, chan, lk)
    ensures var t := HoldNext(s, a);
      t.Slot(p) && ProcInSleep(t.procs[p], chan, lk) && CpuInSleep(t.cpus[d], p, chan, lk)
  {
    hide Intr.PushOff, Intr.PopOff, AtOk;
  }

  /** Taking lk at the end of sleep() is the one way out. */
  lemma {:induction false} SleepSpin(s: State, a: Label, p: nat, chan: nat, lk: nat, d: nat)
    requires IsSpin(a) && SpinEnabled(s, a) && s.Slot(p) && ProcInSleep(s.procs[p], chan, lk) && s.IsCpu(d)
    requires CpuInSleep(s.cpus[d], p, chan, lk) && CpuInSleep(s.cpus[a.c], p, chan, lk)
    ensures var t := SpinNext(s, a);
      && t.Slot(p) && ProcInSleep(t.procs[p], chan, lk)
      && (CpuInSleep(t.cpus[d], p, chan, lk) || (a == Relocked(d) && BackWith(t, d, p, lk)))
  {
    hide Intr.PushOff, Intr.PopOff;
  }

  lemma {:induction false} SleepOneCpu(s: State, a: Label, p: nat, chan: nat, lk: nat, d: nat)
    requires Inv(s) && Enabled(s, a) && InSleep(s, p, chan, lk) && s.IsCpu(d)
    ensures var t := Next(s, a);
      && t.Slot(p) && ProcInSleep(t.procs[p], chan, lk) && t.IsCpu(d)
      && (CpuInSleep(t.cpus[d], p, chan, lk) || (a == Relocked(d) && BackWith(t, d, p, lk)))
  {
    CpuOf(s, a);
    assert CpuOk(s, a.c) && ProcOk(s, p);
    assert CpuInSleep(s.cpus[d], p, chan, lk) && CpuInSleep(s.cpus[a.c], p, chan, lk);
    hide SchedEnabled, OwnEnabled, SpinEnabled, TrapEnabled, WakeEnabled, HoldEnabled, SchedNext, OwnNext, SpinNext,
      TrapNext, WakeNext, HoldNext, Inv, CpuOk, ProcOk, CpuInSleep, ProcInSleep, BackWith;
    if IsSched(a) {
      SleepSched(s, a, p, chan, lk, d);
    } else if IsOwn(a) {
      SleepOwn(s, a, p, chan, lk, d);
    } else if IsSpin(a) {
      SleepSpin(s, a, p, chan, lk, d);
    } else if IsTrap(a) {
      SleepTrap(s, a, p, chan, lk, d);
    } else if IsWake(a) {
      SleepWake(s, a, p, chan, lk, d);
    } else {
      SleepHold(s, a, p, chan, lk, d);
    }
  }

  lemma {:induction false} CpuOf(s: State, a: Label)
    requires Enabled(s, a)
    ensures s.IsCpu(a.c)
  {
  }

  /** Some CPU takes lk and goes on in the caller, or p stays in sleep(). */
  lemma {:induction false} SleepStep(s: State, a: Label, p: nat, chan: nat, lk: nat)
    requires Inv(s) && Enabled(s, a) && InSleep(s, p, chan, lk)
    ensures InSleep(Next(s, a), p, chan, lk) || BackWith(Next(s, a), a.c, p, lk)
  {
    var t := Next(s, a);
    assert SameSizes(s, t);
    hide Inv, Enabled, Next, CpuInSleep, ProcInSleep, BackWith;
    if !BackWith(t, a.c, p, lk) {
      forall d: nat | t.IsCpu(d)
        ensures CpuInSleep(t.cpus[d], p, chan, lk)
      {
        SleepOneCpu(s, a, p, chan, lk, d);
      }
      SleepOneCpu(s, a, p, chan, lk, 0);
    }
  }

  lemma {:induction false} SleepBegins(s: State, a: Label)
    requires Inv(s) && Enabled(s, a) && a.SleepCall?
    ensures s.IsCpu(a.c) && s.cpus[a.c].pc.On? && InSleep(Next(s, a), s.cpus[a.c].pc.p, a.chan, a.lk)
  {
    var p, t := s.cpus[a.c].pc.p, Next(s, a);
    assert CpuOk(s, a.c);
    forall d: nat | t.IsCpu(d)
      ensures CpuInSleep(t.cpus[d], p, a.chan, a.lk)
    {
      assert CpuOk(s, d) && OneOk(s, a.c, d);
    }
    hide Inv;
  }

  // ----- Theorems -----

  /** p goes on in the code that called sleep(). */
  ghost predicate InCaller(s: State, p: nat) {
    exists c: nat :: s.IsCpu(c) && s.cpus[c].pc == On(p, Run(None))
  }

  /** Either p is still in sleep(chan, lk), or it is back in its caller, on a CPU that holds lk. */
  ghost predicate SleepsOrBack(s: State, p: nat, chan: nat, lk: nat) {
    InSleep(s, p, chan, lk) || exists c: nat :: BackWith(s, c, p, lk)
  }

  lemma {:induction false} SleepLasts(ss: seq<State>, labels: seq<Label>, j: nat, k: nat, p: nat)
    requires IsRun(ss, labels) && j < k <= |labels| && labels[j].SleepCall?
    requires ss[j].IsCpu(labels[j].c) && Me(ss[j].cpus[labels[j].c]) == Some(p)
    requires forall i :: j < i < k ==> !InCaller(ss[i], p)
    ensures SleepsOrBack(ss[k], p, labels[j].chan, labels[j].lk)
  {
    InvAt(ss, labels, k - 1);
    assert IsStep(ss[k - 1], labels[k - 1], ss[k]);
    hide Inv, Enabled, Next, InSleep;
    if k == j + 1 {
      SleepBegins(ss[j], labels[j]);
    } else {
      SleepLasts(ss, labels, j, k - 1, p);
      assert !InCaller(ss[k - 1], p);
      SleepStep(ss[k - 1], labels[k - 1], p, labels[j].chan, labels[j].lk);
    }
  }

  /**
   sleep(chan, lk) returns with lk held: from the call on, until p is back in its
   caller, every CPU that runs p runs code of this sleep(), or of a trap taken at its
   end; and the CPU on which p gets back to its caller holds lk. While p is asleep it
   is asleep on chan.
   */
  lemma SleepReturnsLocked(ss: seq<State>, labels: seq<Label>, j: nat, k: nat, p: nat, d: nat)
    requires IsRun(ss, labels) && j < k <= |labels| && labels[j].SleepCall? && ss[k].IsCpu(d)
    requires ss[j].IsCpu(labels[j].c) && Me(ss[j].cpus[labels[j].c]) == Some(p)
    requires forall i :: j < i < k ==> !InCaller(ss[i], p)
    ensures Me(ss[k].cpus[d]) == Some(p) ==>
      AtInSleep(ss[k].cpus[d].pc.at, labels[j].chan, labels[j].lk) || BackWith(ss[k], d, p, labels[j].lk)
    ensures ss[k].Slot(p)
    ensures ss[k].procs[p].state == SLEEPING && ss[k].plock[p].None? ==> ss[k].procs[p].chan == Some(labels[j].chan)
  {
    var s, chan, lk := ss[k], labels[j].chan, labels[j].lk;
    SleepLasts(ss, labels, j, k, p);
    InvAt(ss, labels, k);
    if InSleep(s, p, chan, lk) {
      assert CpuInSleep(s.cpus[d], p, chan, lk) && ProcOk(s, p);
    } else {
      var c: nat :| BackWith(s, c, p, lk);
      assert CpuOk(s, c) && CpuOk(s, d) && OneOk(s, c, d);
    }
  }

  /** A process leaves its sleep only by a wakeup() of its channel or a kill(), and is then RUNNABLE. */
  lemma WokenByOwnChannel(ss: seq<State>, labels: seq<Label>, k: nat, q: nat)
    requires IsRun(ss, labels) && k < |labels| && ss[k].Slot(q) && ss[k + 1].Slot(q)
    requires ss[k].procs[q].state == SLEEPING && ss[k + 1].procs[q].state != SLEEPING
    ensures ss[k + 1].procs[q].state == RUNNABLE
    ensures var s, a := ss[k], labels[k];
      && s.IsCpu(a.c) && (s.cpus[a.c].pc.On? || s.cpus[a.c].pc.Handler?)
      && var at := s.cpus[a.c].pc.at;
      || (a.WakeSet? && at.WakeHold? && at.i == q && s.procs[q].chan == Some(at.chan))
      || (a.HoldKill? && at.Hold? && at.i == q)
  {
    assert IsStep(ss[k], labels[k], ss[k + 1]);
    InvAt(ss, labels, k);
    CpuOf(ss[k], labels[k]);
    assert CpuOk(ss[k], labels[k].c);
    hide Inv, Intr.PushOff, Intr.PopOff;
  }
}
