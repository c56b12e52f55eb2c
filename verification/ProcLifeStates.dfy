/**
 The flag and the states of one process over every run of fork, exit, wait and kill:
 what sets and what clears them.
 */
module ProcLifeStates {
  import opened ProcTypes
  import opened ProcLife
  import opened ProcLifeInv
  import opened ProcLifeRuns

  // ----- killed -----

  /** freeproc() of slot q: by wait(), or by a fork() that fails. */
  predicate Frees(s: State, a: Label, q: nat) {
    && s.Slot(a.p)
    && var pc := s.procs[a.p].pc;
    (a.WaitReap? && a.copied && pc.WaitScan? && pc.i == q) || (a.ForkFail? && pc.ForkHolding? && pc.np == q)
  }

  lemma {:induction false} FlagSched(s: State, a: Label, q: nat)
    requires IsSched(a) && SchedEnabled(s, a) && s.Slot(q)
    ensures SchedNext(s, a).procs[q].killed == (a == Kill(q) || (s.procs[q].killed && !Frees(s, a, q)))
  {
  }

  lemma {:induction false} FlagWake(s: State, a: Label, q: nat)
    requires IsWake(a) && WakeEnabled(s, a) && s.Slot(q)
    ensures WakeNext(s, a).procs[q].killed == (a == Kill(q) || (s.procs[q].killed && !Frees(s, a, q)))
  {
  }

  lemma {:induction false} FlagReap(s: State, a: Label, q: nat)
    requires IsReap(a) && ReapEnabled(s, a) && s.Slot(q)
    ensures ReapNext(s, a).procs[q].killed == (a == Kill(q) || (s.procs[q].killed && !Frees(s, a, q)))
  {
  }

  lemma {:induction false} FlagFork(s: State, a: Label, q: nat)
    requires IsFork(a) && ForkEnabled(s, a) && s.Slot(q)
    ensures ForkNext(s, a).procs[q].killed == (a == Kill(q) || (s.procs[q].killed && !Frees(s, a, q)))
  {
  }

  lemma {:induction false} FlagExit(s: State, a: Label, q: nat)
    requires IsExit(a) && ExitEnabled(s, a) && s.Slot(q)
    ensures ExitNext(s, a).procs[q].killed == (a == Kill(q) || (s.procs[q].killed && !Frees(s, a, q)))
  {
  }

  lemma {:induction false} FlagWait(s: State, a: Label, q: nat)
    requires IsWait(a) && WaitEnabled(s, a) && s.Slot(q)
    ensures WaitNext(s, a).procs[q].killed == (a == Kill(q) || (s.procs[q].killed && !Frees(s, a, q)))
  {
  }

  lemma {:induction false} FlagStep(s: State, a: Label, q: nat)
    requires Enabled(s, a) && s.Slot(q) && Next(s, a).Slot(q)
    ensures Next(s, a).procs[q].killed == (a == Kill(q) || (s.procs[q].killed && !Frees(s, a, q)))
  {
    hide SchedEnabled, WakeEnabled, ReapEnabled, ForkEnabled, ExitEnabled, WaitEnabled;
    hide SchedNext, WakeNext, ReapNext, ForkNext, ExitNext, WaitNext, Frees;
    if IsSched(a) {
      FlagSched(s, a, q);
    } else if IsWake(a) {
      FlagWake(s, a, q);
    } else if IsReap(a) {
      FlagReap(s, a, q);
    } else if IsFork(a) {
      FlagFork(s, a, q);
    } else if IsExit(a) {
      FlagExit(s, a, q);
    } else {
      FlagWait(s, a, q);
    }
  }

  /** Step j is a kill() that finds slot q, and the slot has not been freed since. */
  ghost predicate KilledAt(ss: seq<State>, labels: seq<Label>, j: nat, k: nat, q: nat)
    requires |ss| > |labels| >= k
  {
    j < k && labels[j] == Kill(q) && forall i :: j < i < k ==> !Frees(ss[i], labels[i], q)
  }

  ghost predicate WasKilled(ss: seq<State>, labels: seq<Label>, k: nat, q: nat)
    requires |ss| > |labels| >= k
  {
    exists j: nat :: KilledAt(ss, labels, j, k, q)
  }

  /** One step more. */
  lemma {:induction false} KilledNext(ss: seq<State>, labels: seq<Label>, k: nat, q: nat)
    requires |ss| > |labels| >= k > 0
    ensures WasKilled(ss, labels, k, q) <==>
      labels[k - 1] == Kill(q) || (WasKilled(ss, labels, k - 1, q) && !Frees(ss[k - 1], labels[k - 1], q))
  {
    hide Frees;
    var m := k - 1;
    if labels[m] == Kill(q) {
      assert KilledAt(ss, labels, m, k, q);
    } else if WasKilled(ss, labels, k, q) {
      var j: nat :| KilledAt(ss, labels, j, k, q);
      assert KilledAt(ss, labels, j, m, q);
    } else if j: nat :| KilledAt(ss, labels, j, m, q) {
      assert !KilledAt(ss, labels, j, k, q);
    }
  }

  /** The flag of a slot is set if and only if a kill() has found the slot since it was last freed. */
  lemma {:induction false} KilledIff(ss: seq<State>, labels: seq<Label>, k: nat, q: nat)
    requires IsRun(ss, labels) && k <= |labels| && ss[k].Slot(q)
    ensures ss[k].procs[q].killed <==> exists j: nat :: KilledAt(ss, labels, j, k, q)
  {
    if k > 0 {
      hide Inv, Init, Enabled, Next, Frees, KilledAt;
      var s, a := ss[k - 1], labels[k - 1];
      assert IsStep(s, a, ss[k]);
      InvAt(ss, labels, k - 1);
      Recorded(s, a);
      FlagStep(s, a, q);
      KilledIff(ss, labels, k - 1, q);
      KilledNext(ss, labels, k, q);
    }
  }

  // ----- The states of a process -----

  /** The process a step moves along an edge, and where to. */
  function Moves(s: State, a: Label): (m: Move) {
    if !s.Slot(a.p) then Stay
    else
      var x := s.procs[a.p];
      match a
      case Dispatch(p) => Go(p, RUNNING)
      case Preempt(p) => Go(p, RUNNABLE)
      case Doze(p) => Go(p, SLEEPING)
      case RouseOne(p) => Go(p, RUNNABLE)
      case Kill(p) => if x.state == SLEEPING then Go(p, RUNNABLE) else Stay
      case WakeOne(p) =>
        if (x.pc.ReparentWake? || x.pc.ParentWake?) && s.Slot(x.pc.j) && x.pc.j != p && Hears(s, p, s.procs[x.pc.j])
        then Go(x.pc.j, RUNNABLE) else Stay
      case ForkAlloc(_, np) => Go(np, USED)
      case ForkFail(_) => if x.pc.ForkHolding? then Go(x.pc.np, UNUSED) else Stay
      case ForkStart(_) => if x.pc.ForkLinked? then Go(x.pc.np, RUNNABLE) else Stay
      case ExitZombie(p) => Go(p, ZOMBIE)
      case WaitReap(_, copied) => if copied && x.pc.WaitScan? then Go(x.pc.i, UNUSED) else Stay
      case WaitSlept(p) => Go(p, SLEEPING)
      case _ => Stay
  }

  /** Process x sleeps on init if p is in reparent(), and on p's parent if it is past it. */
  predicate Hears(s: State, p: nat, x: Proc)
    requires s.Slot(p)
  {
    && x.state == SLEEPING
    && if s.procs[p].pc.ReparentWake? then x.chan == ProcAddr(s.init)
       else if s.procs[p].parent.Some? then x.chan == ProcAddr(s.procs[p].parent.value)
       else x.chan == Nothing
  }

  lemma {:induction false} StateSched(s: State, a: Label, q: nat)
    requires IsSched(a) && SchedEnabled(s, a) && s.Slot(q) && s.Slot(a.p) && FitOk(s, a.p) && ForkOk(s, a.p)
    ensures var from, to := s.procs[q].state, SchedNext(s, a).procs[q].state;
      to == Moves(s, a).Of(q, from) && (to != from ==> Edge(from, to))
  {
  }

  lemma {:induction false} StateWake(s: State, a: Label, q: nat)
    requires IsWake(a) && WakeEnabled(s, a) && s.Slot(q) && s.Slot(a.p) && FitOk(s, a.p) && ForkOk(s, a.p)
    ensures var from, to := s.procs[q].state, WakeNext(s, a).procs[q].state;
      to == Moves(s, a).Of(q, from) && (to != from ==> Edge(from, to))
  {
  }

  lemma {:induction false} StateReap(s: State, a: Label, q: nat)
    requires IsReap(a) && ReapEnabled(s, a) && s.Slot(q) && s.Slot(a.p) && FitOk(s, a.p) && ForkOk(s, a.p)
    ensures var from, to := s.procs[q].state, ReapNext(s, a).procs[q].state;
      to == Moves(s, a).Of(q, from) && (to != from ==> Edge(from, to))
  {
  }

  lemma {:induction false} StateFork(s: State, a: Label, q: nat)
    requires IsFork(a) && ForkEnabled(s, a) && s.Slot(q) && s.Slot(a.p) && FitOk(s, a.p) && ForkOk(s, a.p)
    requires InFork(s.procs[a.p].pc) ==> FitOk(s, s.procs[a.p].pc.np)
    ensures var from, to := s.procs[q].state, ForkNext(s, a).procs[q].state;
      to == Moves(s, a).Of(q, from) && (to != from ==> Edge(from, to))
  {
  }

  lemma {:induction false} StateExit(s: State, a: Label, q: nat)
    requires IsExit(a) && ExitEnabled(s, a) && s.Slot(q) && s.Slot(a.p) && FitOk(s, a.p) && ForkOk(s, a.p)
    ensures var from, to := s.procs[q].state, ExitNext(s, a).procs[q].state;
      to == Moves(s, a).Of(q, from) && (to != from ==> Edge(from, to))
  {
  }

  lemma {:induction false} StateWait(s: State, a: Label, q: nat)
    requires IsWait(a) && WaitEnabled(s, a) && s.Slot(q) && s.Slot(a.p) && FitOk(s, a.p) && ForkOk(s, a.p)
    ensures var from, to := s.procs[q].state, WaitNext(s, a).procs[q].state;
      to == Moves(s, a).Of(q, from) && (to != from ==> Edge(from, to))
  {
  }

  lemma {:induction false} StateStep(s: State, a: Label, q: nat)
    requires Enabled(s, a) && s.Slot(q) && s.Slot(a.p) && Next(s, a).Slot(q) && FitOk(s, a.p) && ForkOk(s, a.p)
    requires InFork(s.procs[a.p].pc) ==> FitOk(s, s.procs[a.p].pc.np)
    ensures var from, to := s.procs[q].state, Next(s, a).procs[q].state;
      to == Moves(s, a).Of(q, from) && (to != from ==> Edge(from, to))
  {
    hide SchedEnabled, WakeEnabled, ReapEnabled, ForkEnabled, ExitEnabled, WaitEnabled;
    hide SchedNext, WakeNext, ReapNext, ForkNext, ExitNext, WaitNext, Moves, Edge;
    if IsSched(a) {
      StateSched(s, a, q);
    } else if IsWake(a) {
      StateWake(s, a, q);
    } else if IsReap(a) {
      StateReap(s, a, q);
    } else if IsFork(a) {
      StateFork(s, a, q);
    } else if IsExit(a) {
      StateExit(s, a, q);
    } else {
      StateWait(s, a, q);
    }
  }

  /** Every step moves the process it is about along an edge of the diagram, and no other. */
  lemma StatesFollowDiagram(ss: seq<State>, labels: seq<Label>, k: nat, q: nat)
    requires IsRun(ss, labels) && k < |labels| && ss[k].Slot(q)
    ensures ss[k + 1].Slot(q)
    ensures var from, to := ss[k].procs[q].state, ss[k + 1].procs[q].state;
      to == Moves(ss[k], labels[k]).Of(q, from) && (to != from ==> Edge(from, to))
  {
    var s, a := ss[k], labels[k];
    InvAt(ss, labels, k);
    assert IsStep(s, a, ss[k + 1]);
    Recorded(s, a);
    assert Local(s, a.p);
    assert InFork(s.procs[a.p].pc) ==> Local(s, s.procs[a.p].pc.np);
    hide Inv, Enabled, Next, Moves;
    StateStep(s, a, q);
  }
}
