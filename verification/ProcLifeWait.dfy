/** What wait() returns, over every run. */
module ProcLifeWait {
  import opened ProcTypes
  import opened ProcLife
  import opened ProcLifeInv
  import opened ProcLifeRuns

  /** Slot c has a child of p. */
  predicate IsChild(s: State, p: nat, c: nat) {
    s.Slot(c) && s.procs[c].parent == Some(p)
  }

  ghost predicate HasChild(s: State, p: nat) {
    exists c: nat :: IsChild(s, p, c)
  }

  ghost predicate NoZombieChild(s: State, p: nat) {
    forall c: nat :: IsChild(s, p, c) ==> s.procs[c].state != ZOMBIE
  }

  /** What the scan of wait() knows at its end. */
  lemma {:induction false} ScanTells(s: State, p: nat)
    requires Inv(s) && s.Slot(p)
    requires (s.procs[p].pc.WaitScan? && s.procs[p].pc.i >= |s.procs|) || s.procs[p].pc.WaitStay?
    ensures NoZombieChild(s, p) && (HasChild(s, p) <==> HasKid(s.procs[p].pc))
  {
    assert Local(s, p);
    forall c: nat | IsChild(s, p, c)
      ensures s.procs[c].state != ZOMBIE && HasKid(s.procs[p].pc)
    {
      assert Pair(s, p, c);
    }
    if HasKid(s.procs[p].pc) {
      assert IsChild(s, p, Kid(s.procs[p].pc));
    }
  }

  /**
   wait() returns -1 at the end of its scan exactly if the process has no child or
   has been killed, and goes to sleep otherwise; in neither case is there a zombie.
   */
  lemma WaitDecides(ss: seq<State>, labels: seq<Label>, k: nat, p: nat)
    requires IsRun(ss, labels) && k <= |labels| && Runs(ss[k], p)
    requires ss[k].procs[p].pc.WaitScan? && ss[k].procs[p].pc.i >= |ss[k].procs|
    ensures NoZombieChild(ss[k], p)
    ensures Enabled(ss[k], WaitNone(p)) <==> ss[k].procs[p].killed || !HasChild(ss[k], p)
    ensures Enabled(ss[k], WaitDecide(p)) <==> !ss[k].procs[p].killed && HasChild(ss[k], p)
    ensures !Enabled(ss[k], WaitStep(p)) && !Enabled(ss[k], WaitReap(p, true))
  {
    InvAt(ss, labels, k);
    hide Inv, HasChild, NoZombieChild;
    ScanTells(ss[k], p);
  }

  /**
   Why each way out of wait() is taken: -1 without children or when killed, sleep
   with children of whom none has exited, and a pid for a child that has.
   */
  lemma WaysOutOfWait(ss: seq<State>, labels: seq<Label>, k: nat)
    requires IsRun(ss, labels) && k < |labels|
    ensures var s, a := ss[k], labels[k];
      && (a.WaitNone? ==> s.Slot(a.p) && NoZombieChild(s, a.p) && (s.procs[a.p].killed || !HasChild(s, a.p)))
      && (a.WaitDecide? ==> s.Slot(a.p) && NoZombieChild(s, a.p) && !s.procs[a.p].killed && HasChild(s, a.p))
      && (a.WaitSleep? ==> NoZombieChild(s, a.p) && HasChild(s, a.p))
      && (a.WaitReap? && a.copied ==>
            exists z: nat :: IsChild(s, a.p, z) && s.procs[z].state == ZOMBIE && s.procs[z].pc.Gone?
              && ss[k + 1].reaped == s.reaped + [s.procs[z].pid] && ss[k + 1].told == s.told + [s.procs[z].xstate])
  {
    var s, a := ss[k], labels[k];
    InvAt(ss, labels, k);
    assert IsStep(s, a, ss[k + 1]);
    if a.WaitNone? || a.WaitDecide? || a.WaitSleep? {
      ScanTells(s, a.p);
    } else if a.WaitReap? && a.copied {
      var z := s.procs[a.p].pc.i;
      assert Local(s, z) && IsChild(s, a.p, z);
    }
  }

  // ----- Killed and asleep -----

  /** How p comes to be asleep in wait(), or about to call sleep(), and what its flag is then. */
  predicate Waiter(s: State, a: Label, p: nat, t: State) {
    && s.Slot(p) && t.Slot(p)
    && var x, y := s.procs[p], t.procs[p];
    && (InWait(y) ==> (InWait(x) || (x.pc.WaitStay? && a == WaitSleep(p))) && y.killed == x.killed)
    && (y.pc.WaitStay? ==>
          if x.pc.WaitStay? then y.killed == (x.killed || a == Kill(p)) else a == WaitDecide(p) && !y.killed)
  }

  lemma {:induction false} WaiterSched(s: State, a: Label, p: nat)
    requires IsSched(a) && SchedEnabled(s, a) && s.Slot(p) && FitOk(s, p)
    ensures Waiter(s, a, p, SchedNext(s, a))
  {
  }

  lemma {:induction false} WaiterWake(s: State, a: Label, p: nat)
    requires IsWake(a) && WakeEnabled(s, a) && s.Slot(p) && FitOk(s, p)
    ensures Waiter(s, a, p, WakeNext(s, a))
  {
  }

  lemma {:induction false} WaiterReap(s: State, a: Label, p: nat)
    requires IsReap(a) && ReapEnabled(s, a) && s.Slot(p) && FitOk(s, p)
    ensures Waiter(s, a, p, ReapNext(s, a))
  {
  }

  lemma {:induction false} WaiterFork(s: State, a: Label, p: nat)
    requires IsFork(a) && ForkEnabled(s, a) && s.Slot(p) && FitOk(s, p)
    ensures Waiter(s, a, p, ForkNext(s, a))
  {
  }

  lemma {:induction false} WaiterExit(s: State, a: Label, p: nat)
    requires IsExit(a) && ExitEnabled(s, a) && s.Slot(p) && FitOk(s, p)
    ensures Waiter(s, a, p, ExitNext(s, a))
  {
  }

  lemma {:induction false} WaiterWait(s: State, a: Label, p: nat)
    requires IsWait(a) && WaitEnabled(s, a) && s.Slot(p) && FitOk(s, p)
    ensures Waiter(s, a, p, WaitNext(s, a))
  {
  }

  lemma {:induction false} WaiterStep(s: State, a: Label, p: nat)
    requires Enabled(s, a) && s.Slot(p) && FitOk(s, p)
    ensures Waiter(s, a, p, Next(s, a))
  {
    hide SchedEnabled, WakeEnabled, ReapEnabled, ForkEnabled, ExitEnabled, WaitEnabled;
    hide SchedNext, WakeNext, ReapNext, ForkNext, ExitNext, WaitNext, Waiter, FitOk;
    if IsSched(a) {
      WaiterSched(s, a, p);
    } else if IsWake(a) {
      WaiterWake(s, a, p);
    } else if IsReap(a) {
      WaiterReap(s, a, p);
    } else if IsFork(a) {
      WaiterFork(s, a, p);
    } else if IsExit(a) {
      WaiterExit(s, a, p);
    } else {
      WaiterWait(s, a, p);
    }
  }

  lemma {:induction false} WaiterAt(ss: seq<State>, labels: seq<Label>, k: nat, p: nat)
    requires IsRun(ss, labels) && 0 < k <= |labels| && ss[k].Slot(p)
    ensures Waiter(ss[k - 1], labels[k - 1], p, ss[k])
  {
    assert IsStep(ss[k - 1], labels[k - 1], ss[k]);
    InvAt(ss, labels, k - 1);
    Recorded(ss[k - 1], labels[k - 1]);
    assert Local(ss[k - 1], p);
    hide Inv, Next, Enabled;
    WaiterStep(ss[k - 1], labels[k - 1], p);
  }

  /** kill() found p after step j and before step k. */
  ghost predicate KilledBetween(labels: seq<Label>, j: nat, k: nat, p: nat)
    requires k <= |labels|
  {
    exists i :: j < i < k && labels[i] == Kill(p)
  }

  /** Since the decision at j, p is about to sleep; its flag is set if a kill() came since. */
  lemma {:induction false} StaysSince(ss: seq<State>, labels: seq<Label>, k: nat, p: nat) returns (j: nat)
    requires IsRun(ss, labels) && k <= |labels| && ss[k].Slot(p) && ss[k].procs[p].pc.WaitStay?
    ensures j < k && labels[j] == WaitDecide(p) && (ss[k].procs[p].killed <==> KilledBetween(labels, j, k, p))
  {
    hide Next, Enabled;
    assert k > 0;
    WaiterAt(ss, labels, k, p);
    if ss[k - 1].procs[p].pc.WaitStay? {
      j := StaysSince(ss, labels, k - 1, p);
    } else {
      j := k - 1;
    }
  }

  /**
   A process that is asleep in wait() has been killed if and only if the kill() came
   between the test of wait() and its sleep(): kill() wakes every other sleeper.
   */
  lemma {:induction false} KilledAsleep(ss: seq<State>, labels: seq<Label>, k: nat, p: nat) returns (j: nat, m: nat)
    requires IsRun(ss, labels) && k <= |labels| && ss[k].Slot(p) && InWait(ss[k].procs[p])
    ensures j < m < k && labels[j] == WaitDecide(p) && labels[m] == WaitSleep(p)
    ensures ss[k].procs[p].killed <==> KilledBetween(labels, j, m, p)
  {
    hide Next, Enabled;
    assert k > 0;
    WaiterAt(ss, labels, k, p);
    if InWait(ss[k - 1].procs[p]) {
      j, m := KilledAsleep(ss, labels, k - 1, p);
    } else {
      m := k - 1;
      j := StaysSince(ss, labels, m, p);
    }
  }

  // ----- The exit status -----

  /** Before step k the process with this pid called exit(status). */
  ghost predicate Asked(ss: seq<State>, labels: seq<Label>, k: nat, pid: nat, status: int)
    requires |ss| > |labels| >= k
  {
    exists j :: 0 <= j < k && AskedAt(ss[j], labels[j], pid, status)
  }

  predicate AskedAt(s: State, a: Label, pid: nat, status: int) {
    a.ExitBegin? && a.status == status && s.Slot(a.p) && s.procs[a.p].pid == pid
  }

  /** The status a process is about to exit with, or has exited with. */
  function Status(x: Proc): (st: int) {
    if x.state == ZOMBIE then x.xstate else x.arg
  }

  /** p has called exit(). */
  predicate Exits(x: Proc) {
    Exiting(x.pc) || x.state == ZOMBIE
  }

  lemma {:induction false} StatusSched(s: State, a: Label, p: nat)
    requires IsSched(a) && SchedEnabled(s, a) && s.Slot(p) && Exits(SchedNext(s, a).procs[p]) && FitOk(s, p)
    ensures var x, y := s.procs[p], SchedNext(s, a).procs[p];
      y.pid == x.pid && ((Exits(x) && Status(y) == Status(x)) || AskedAt(s, a, y.pid, Status(y)))
  {
  }

  lemma {:induction false} StatusWake(s: State, a: Label, p: nat)
    requires IsWake(a) && WakeEnabled(s, a) && s.Slot(p) && Exits(WakeNext(s, a).procs[p])
    ensures var x, y := s.procs[p], WakeNext(s, a).procs[p]; y.pid == x.pid && Exits(x) && Status(y) == Status(x)
  {
  }

  lemma {:induction false} StatusReap(s: State, a: Label, p: nat)
    requires IsReap(a) && ReapEnabled(s, a) && s.Slot(p) && Exits(ReapNext(s, a).procs[p])
    ensures var x, y := s.procs[p], ReapNext(s, a).procs[p]; y.pid == x.pid && Exits(x) && Status(y) == Status(x)
  {
  }

  lemma {:induction false} StatusFork(s: State, a: Label, p: nat)
    requires IsFork(a) && ForkEnabled(s, a) && s.Slot(p) && Exits(ForkNext(s, a).procs[p])
    ensures var x, y := s.procs[p], ForkNext(s, a).procs[p]; y.pid == x.pid && Exits(x) && Status(y) == Status(x)
  {
  }

  lemma {:induction false} StatusExit(s: State, a: Label, p: nat)
    requires IsExit(a) && ExitEnabled(s, a) && s.Slot(p) && Exits(ExitNext(s, a).procs[p])
    ensures var x, y := s.procs[p], ExitNext(s, a).procs[p]; y.pid == x.pid && Exits(x) && Status(y) == Status(x)
  {
  }

  lemma {:induction false} StatusWait(s: State, a: Label, p: nat)
    requires IsWait(a) && WaitEnabled(s, a) && s.Slot(p) && Exits(WaitNext(s, a).procs[p])
    ensures var x, y := s.procs[p], WaitNext(s, a).procs[p]; y.pid == x.pid && Exits(x) && Status(y) == Status(x)
  {
  }

  lemma {:induction false} StatusStep(s: State, a: Label, p: nat)
    requires Enabled(s, a) && s.Slot(p) && FitOk(s, p) && Next(s, a).Slot(p) && Exits(Next(s, a).procs[p])
    ensures var x, y := s.procs[p], Next(s, a).procs[p];
      y.pid == x.pid && ((Exits(x) && Status(y) == Status(x)) || AskedAt(s, a, y.pid, Status(y)))
  {
    hide SchedEnabled, WakeEnabled, ReapEnabled, ForkEnabled, ExitEnabled, WaitEnabled;
    hide SchedNext, WakeNext, ReapNext, ForkNext, ExitNext, WaitNext, Exits, Status, AskedAt, FitOk;
    if IsSched(a) {
      StatusSched(s, a, p);
    } else if IsWake(a) {
      StatusWake(s, a, p);
    } else if IsReap(a) {
      StatusReap(s, a, p);
    } else if IsFork(a) {
      StatusFork(s, a, p);
    } else if IsExit(a) {
      StatusExit(s, a, p);
    } else {
      StatusWait(s, a, p);
    }
  }

  lemma {:induction false} AskedLater(ss: seq<State>, labels: seq<Label>, j: nat, k: nat, pid: nat, status: int)
    requires |ss| > |labels| >= k >= j && Asked(ss, labels, j, pid, status)
    ensures Asked(ss, labels, k, pid, status)
  {
  }

  /** The status of a process that has called exit() is the argument of that call. */
  lemma {:induction false} StatusAsked(ss: seq<State>, labels: seq<Label>, k: nat, p: nat)
    requires IsRun(ss, labels) && k <= |labels| && ss[k].Slot(p) && Exits(ss[k].procs[p])
    ensures Asked(ss, labels, k, ss[k].procs[p].pid, Status(ss[k].procs[p]))
  {
    assert k > 0;
    assert IsStep(ss[k - 1], labels[k - 1], ss[k]);
    InvAt(ss, labels, k - 1);
    Recorded(ss[k - 1], labels[k - 1]);
    assert Local(ss[k - 1], p);
    hide Inv, Next, Enabled, Exits, Status, AskedAt, FitOk, Init;
    StatusStep(ss[k - 1], labels[k - 1], p);
    if Exits(ss[k - 1].procs[p]) && Status(ss[k].procs[p]) == Status(ss[k - 1].procs[p]) {
      StatusAsked(ss, labels, k - 1, p);
      AskedLater(ss, labels, k - 1, k, ss[k].procs[p].pid, Status(ss[k].procs[p]));
    }
  }

  /** wait() reports the zombie in slot z. */
  predicate Tells(s: State, z: nat, t: State) {
    && s.Slot(z) && s.procs[z].state == ZOMBIE
    && t.reaped == s.reaped + [s.procs[z].pid] && t.told == s.told + [s.procs[z].xstate]
  }

  lemma {:induction false} ToldStep(s: State, a: Label)
    requires Inv(s) && Enabled(s, a)
    ensures || (Next(s, a).reaped == s.reaped && Next(s, a).told == s.told)
            || (a.WaitReap? && s.Slot(a.p) && s.procs[a.p].pc.WaitScan? && Tells(s, s.procs[a.p].pc.i, Next(s, a)))
  {
    hide Inv;
  }

  /** With every pid it returns, wait() hands over the status which that process passed to exit(). */
  lemma {:induction false} ToldAsAsked(ss: seq<State>, labels: seq<Label>, k: nat, i: nat)
    requires IsRun(ss, labels) && k <= |labels|
    ensures |ss[k].told| == |ss[k].reaped|
    ensures i < |ss[k].reaped| ==> Asked(ss, labels, k, ss[k].reaped[i], ss[k].told[i])
  {
    if k > 0 {
      assert IsStep(ss[k - 1], labels[k - 1], ss[k]);
      InvAt(ss, labels, k - 1);
      ToldStep(ss[k - 1], labels[k - 1]);
      hide Inv, Next, Enabled, AskedAt, Init;
      ToldAsAsked(ss, labels, k - 1, i);
      if i < |ss[k - 1].reaped| {
        AskedLater(ss, labels, k - 1, k, ss[k].reaped[i], ss[k].told[i]);
      } else if i < |ss[k].reaped| {
        var z := ss[k - 1].procs[labels[k - 1].p].pc.i;
        StatusAsked(ss, labels, k - 1, z);
        AskedLater(ss, labels, k - 1, k, ss[k].reaped[i], ss[k].told[i]);
      }
    }
  }

  // ----- A run -----

  /** init and its child, in the two slots. */
  function Two(a: Proc, b: Proc, lock: Option<nat>, exited: set<nat>, reaped: seq<nat>, told: seq<int>): (s: State) {
    State([a, b], 0, 3, lock, exited, reaped, told)
  }

  /** init is at pc, in a state and on a channel. */
  function AnInit(state: ProcState, chan: Chan, pc: Pc): (x: Proc) {
    Proc(state, None, 1, false, chan, pc, 0, 0)
  }

  /** The child, which calls exit(7) at some time. */
  function AChild(state: ProcState, pc: Pc, arg: int, xstate: int): (x: Proc) {
    Proc(state, Some(0), 2, false, Nothing, pc, arg, xstate)
  }

  function Boot(): (s: State) {
    var unused := Proc(UNUSED, None, 0, false, Nothing, Gone, 0, 0);
    State([AnInit(RUNNABLE, Nothing, Kernel), unused], 0, 2, None, {}, [], [])
  }

  /** init forks and waits; the child exits; init gets its pid and status. */
  function Reaping(): (labels: seq<Label>) {
    [Dispatch(0), ForkAlloc(0, 1), ForkUnlock(0), ForkLink(0), ForkStart(0)]
    + [WaitBegin(0), WaitLock(0), WaitStep(0), WaitStep(0), WaitDecide(0), WaitSleep(0), WaitSlept(0)]
    + [Dispatch(1), ExitBegin(1, 7), ExitLock(1), ReparentStep(1), ReparentStep(1), ReparentStep(1)]
    + [WakeOne(1), WakeOne(1), ExitZombie(1), ExitGone(1)]
    + [Dispatch(0), WaitLock(0), WaitStep(0), WaitReap(0, true)]
  }

  /** The steps `labels` lead from s to t through the states ss. */
  ghost predicate Leads(s: State, ss: seq<State>, labels: seq<Label>, t: State) {
    && |ss| == |labels| + 1 && ss[0] == s && ss[|labels|] == t
    && forall k :: 0 <= k < |labels| ==> IsStep(ss[k], labels[k], ss[k + 1])
  }

  lemma {:induction false} LeadsOn(s: State, ss: seq<State>, l: seq<Label>, t: State, tt: seq<State>, m: seq<Label>,
                                   u: State)
    requires Leads(s, ss, l, t) && Leads(t, tt, m, u)
    ensures Leads(s, ss + tt[1..], l + m, u)
  {
    hide IsStep;
    var uu := ss + tt[1..];
    forall k | 0 <= k < |l + m|
      ensures IsStep(uu[k], (l + m)[k], uu[k + 1])
    {
      if k >= |l| {
        assert IsStep(tt[k - |l|], m[k - |l|], tt[k - |l| + 1]);
      }
    }
  }

  /** The child runs and init is awake. */
  function Forked(): (s: State) {
    Two(AnInit(RUNNING, Nothing, Kernel), AChild(RUNNABLE, Kernel, 0, 0), None, {}, [], [])
  }

  function Asleep(child: Proc, lock: Option<nat>): (s: State) {
    Two(AnInit(SLEEPING, ProcAddr(0), WaitAsleep(1)), child, lock, {}, [], [])
  }

  /** init has been woken by the child, which is about to become a zombie. */
  function Awake(): (s: State) {
    Two(AnInit(RUNNABLE, ProcAddr(0), WaitAsleep(1)), AChild(RUNNING, ParentWake(2), 7, 0), Some(1), {}, [], [])
  }

  /** The child has exited and init is awake in wait(). */
  function Exited(): (s: State) {
    Two(AnInit(RUNNABLE, ProcAddr(0), WaitAsleep(1)), AChild(ZOMBIE, Gone, 7, 7), None, {2}, [], [])
  }

  function Reported(): (s: State) {
    Two(AnInit(RUNNING, Nothing, Kernel), Proc(UNUSED, None, 0, false, Nothing, Gone, 0, 0), None, {2}, [2], [7])
  }

  lemma {:induction false} Forks() returns (ss: seq<State>)
    ensures Leads(Boot(), ss, [Dispatch(0), ForkAlloc(0, 1), ForkUnlock(0), ForkLink(0), ForkStart(0)], Forked())
  {
    hide WakeEnabled, WakeNext, ReapEnabled, ReapNext, ExitEnabled, ExitNext, WaitEnabled, WaitNext;
    var s1 := Next(Boot(), Dispatch(0));
    var s2 := Next(s1, ForkAlloc(0, 1));
    var s3 := Next(s2, ForkUnlock(0));
    var s4 := Next(s3, ForkLink(0));
    var s5 := Next(s4, ForkStart(0));
    assert s5.procs == Forked().procs;
    ss := [Boot(), s1, s2, s3, s4, s5];
  }

  lemma {:induction false} Waits() returns (ss: seq<State>)
    ensures Leads(Forked(), ss,
                  [WaitBegin(0), WaitLock(0), WaitStep(0), WaitStep(0), WaitDecide(0), WaitSleep(0), WaitSlept(0)],
                  Asleep(AChild(RUNNABLE, Kernel, 0, 0), None))
  {
    hide WakeEnabled, WakeNext, ReapEnabled, ReapNext, ForkEnabled, ForkNext, ExitEnabled, ExitNext;
    var s1 := Next(Forked(), WaitBegin(0));
    var s2 := Next(s1, WaitLock(0));
    var s3 := Next(s2, WaitStep(0));
    var s4 := Next(s3, WaitStep(0));
    var s5 := Next(s4, WaitDecide(0));
    var s6 := Next(s5, WaitSleep(0));
    var s7 := Next(s6, WaitSlept(0));
    assert s7.procs == Asleep(AChild(RUNNABLE, Kernel, 0, 0), None).procs;
    ss := [Forked(), s1, s2, s3, s4, s5, s6, s7];
  }

  lemma {:induction false} CallsExit() returns (ss: seq<State>)
    ensures Leads(Asleep(AChild(RUNNABLE, Kernel, 0, 0), None), ss,
                  [Dispatch(1), ExitBegin(1, 7), ExitLock(1), ReparentStep(1), ReparentStep(1), ReparentStep(1)],
                  Asleep(AChild(RUNNING, ParentWake(0), 7, 0), Some(1)))
  {
    hide WakeEnabled, WakeNext, ReapEnabled, ReapNext, ForkEnabled, ForkNext, WaitEnabled, WaitNext;
    var s0 := Asleep(AChild(RUNNABLE, Kernel, 0, 0), None);
    var s1 := Next(s0, Dispatch(1));
    var s2 := Next(s1, ExitBegin(1, 7));
    var s3 := Next(s2, ExitLock(1));
    var s4 := Next(s3, ReparentStep(1));
    var s5 := Next(s4, ReparentStep(1));
    var s6 := Next(s5, ReparentStep(1));
    assert s6.procs == Asleep(AChild(RUNNING, ParentWake(0), 7, 0), Some(1)).procs;
    ss := [s0, s1, s2, s3, s4, s5, s6];
  }

  lemma {:induction false} WakesParent() returns (ss: seq<State>)
    ensures Leads(Asleep(AChild(RUNNING, ParentWake(0), 7, 0), Some(1)), ss, [WakeOne(1), WakeOne(1)], Awake())
  {
    hide SchedEnabled, SchedNext, ReapEnabled, ReapNext, ForkEnabled, ForkNext, ExitEnabled, ExitNext;
    hide WaitEnabled, WaitNext;
    var s0 := Asleep(AChild(RUNNING, ParentWake(0), 7, 0), Some(1));
    var s1 := Next(s0, WakeOne(1));
    var s2 := Next(s1, WakeOne(1));
    assert s2.procs == Awake().procs;
    ss := [s0, s1, s2];
  }

  lemma {:induction false} BecomesZombie() returns (ss: seq<State>)
    ensures Leads(Awake(), ss, [ExitZombie(1), ExitGone(1)], Exited())
  {
    hide WakeEnabled, WakeNext, ReapEnabled, ReapNext, ForkEnabled, ForkNext, WaitEnabled, WaitNext;
    var s1 := Next(Awake(), ExitZombie(1));
    var s2 := Next(s1, ExitGone(1));
    assert s2.procs == Exited().procs;
    ss := [Awake(), s1, s2];
  }

  lemma {:induction false} Reaps() returns (ss: seq<State>)
    ensures Leads(Exited(), ss, [Dispatch(0), WaitLock(0), WaitStep(0), WaitReap(0, true)], Reported())
  {
    hide WakeEnabled, WakeNext, ForkEnabled, ForkNext, ExitEnabled, ExitNext;
    var s1 := Next(Exited(), Dispatch(0));
    var s2 := Next(s1, WaitLock(0));
    var s3 := Next(s2, WaitStep(0));
    var s4 := Next(s3, WaitReap(0, true));
    assert s4.procs == Reported().procs;
    ss := [Exited(), s1, s2, s3, s4];
  }

  /** A parent that sleeps in wait() is woken by the exit of its child and gets the child's pid and status. */
  lemma {:induction false} SleepsAndReaps() returns (ss: seq<State>)
    ensures IsRun(ss, Reaping()) && |Reaping()| == 26
    ensures ss[12] == Asleep(AChild(RUNNABLE, Kernel, 0, 0), None) && ss[26] == Reported()
  {
    var a := Forks();
    var b := Waits();
    var c := CallsExit();
    var d := WakesParent();
    var e := BecomesZombie();
    var f := Reaps();
    hide IsStep;
    assert |Reaping()| == 26;
    LeadsOn(Boot(), a, Reaping()[..5], Forked(), b, Reaping()[5..12], Asleep(AChild(RUNNABLE, Kernel, 0, 0), None));
    ss := a + b[1..];
    assert |ss| == 13;
    LeadsOn(Boot(), ss, Reaping()[..12], Asleep(AChild(RUNNABLE, Kernel, 0, 0), None), c, Reaping()[12..18],
            Asleep(AChild(RUNNING, ParentWake(0), 7, 0), Some(1)));
    ss := ss + c[1..];
    LeadsOn(Boot(), ss, Reaping()[..18], Asleep(AChild(RUNNING, ParentWake(0), 7, 0), Some(1)), d, Reaping()[18..20],
            Awake());
    ss := ss + d[1..];
    LeadsOn(Boot(), ss, Reaping()[..20], Awake(), e, Reaping()[20..22], Exited());
    ss := ss + e[1..];
    LeadsOn(Boot(), ss, Reaping()[..22], Exited(), f, Reaping()[22..], Reported());
    ss := ss + f[1..];
  }
}
