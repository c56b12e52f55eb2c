/** What holds of every run of fork, exit, wait and reparent. */
module ProcLifeRuns {
  import opened ProcTypes
  import opened ProcLife
  import opened ProcLifeInv

  lemma LocalStep(s: State, a: Label, x: nat)
    requires Inv(s) && Enabled(s, a) && s.Slot(x)
    ensures |Next(s, a).procs| == |s.procs| && ZombieKept(s, Next(s, a), x)
    ensures Local(Next(s, a), x) && HolderOk(Next(s, a)) && (x == s.init ==> InitOk(Next(s, a)))
  {
    Recorded(s, a);
    hide Inv, ZombieKept, FitOk, LockOk, PidOk, ForkOk, ParentOk, KidOk, WokenOk, PidLogOk, InitOk, HolderOk;
    hide SchedNext, WakeNext, ReapNext, ForkNext, ExitNext, WaitNext;
    if IsSched(a) {
      FitSched(s, a, x); CountSched(s, a, x); ForkSched(s, a, x); KinSched(s, a, x); KidSched(s, a, x);
    } else if IsWake(a) {
      FitWake(s, a, x); CountWake(s, a, x); ForkWake(s, a, x); KinWake(s, a, x); KidWake(s, a, x);
    } else if IsReap(a) {
      FitReap(s, a, x); CountReap(s, a, x); ForkReap(s, a, x); KinReap(s, a, x); KidReap(s, a, x);
    } else if IsFork(a) {
      FitFork(s, a, x); CountFork(s, a, x); ForkFork(s, a, x); KinFork(s, a, x); KidFork(s, a, x);
    } else if IsExit(a) {
      FitExit(s, a, x); CountExit(s, a, x); ForkExit(s, a, x); KinExit(s, a, x); KidExit(s, a, x);
    } else {
      FitWait(s, a, x); CountWait(s, a, x); ForkWait(s, a, x); KinWait(s, a, x); KidWait(s, a, x);
    }
  }

  lemma PairStep(s: State, a: Label, q: nat, x: nat)
    requires Inv(s) && Enabled(s, a) && s.Slot(q) && s.Slot(x)
    ensures Pair(Next(s, a), q, x)
  {
    hide Inv, PidsDiffer, ReparentOk, ScanOk, SleepOk;
    hide SchedNext, WakeNext, ReapNext, ForkNext, ExitNext, WaitNext;
    if IsSched(a) {
      DifferSched(s, a, q, x); SleepSched(s, a, q, x);
    } else if IsWake(a) {
      DifferWake(s, a, q, x); SleepWake(s, a, q, x);
    } else if IsReap(a) {
      DifferReap(s, a, q, x); SleepReap(s, a, q, x);
    } else if IsFork(a) {
      DifferFork(s, a, q, x); SleepFork(s, a, q, x);
    } else if IsExit(a) {
      DifferExit(s, a, q, x); SleepExit(s, a, q, x);
    } else {
      DifferWait(s, a, q, x); SleepWait(s, a, q, x);
    }
  }

  lemma LogStep(s: State, a: Label)
    requires Inv(s) && Enabled(s, a)
    ensures LogOk(Next(s, a))
  {
    hide Next, Enabled;
    var t := Next(s, a);
    Recorded(s, a);
    assert Local(s, a.p);
    forall e | e in t.exited
      ensures e < t.nextpid && (e in t.reaped || ZombieWith(t, e))
    {
      if e !in s.exited {
        assert t.procs[a.p].state == ZOMBIE && t.procs[a.p].pid == e;
      } else if e !in t.reaped {
        var z: nat :| s.Slot(z) && s.procs[z].state == ZOMBIE && s.procs[z].pid == e;
        LocalStep(s, a, z);
        assert t.procs[z].state == ZOMBIE && t.procs[z].pid == e;
      }
    }
    if a.WaitReap? && a.copied {
      assert Local(s, s.procs[a.p].pc.i);
    }
  }

  /** What a step adds to the records. */
  lemma Recorded(s: State, a: Label)
    requires Inv(s) && Enabled(s, a)
    ensures |Next(s, a).procs| == |s.procs| && Next(s, a).init == s.init && s.nextpid <= Next(s, a).nextpid
    ensures s.Slot(a.p)
    ensures a.ExitZombie? ==> s.procs[a.p].state == RUNNING && Next(s, a).exited == s.exited + {s.procs[a.p].pid}
    ensures a.ExitZombie? ==> Next(s, a).procs[a.p].state == ZOMBIE && Next(s, a).procs[a.p].pid == s.procs[a.p].pid
    ensures !a.ExitZombie? ==> Next(s, a).exited == s.exited
    ensures a.WaitReap? && a.copied ==>
      s.procs[a.p].pc.WaitScan? && s.Slot(s.procs[a.p].pc.i) && s.procs[s.procs[a.p].pc.i].state == ZOMBIE
    ensures Next(s, a).reaped == if a.WaitReap? && a.copied then s.reaped + [s.procs[s.procs[a.p].pc.i].pid]
      else s.reaped
  {
    hide Inv, LockFree, HoldsWaitLock, HoldsOwn, Woken, WakeChan;
  }

  lemma InvStep(s: State, a: Label)
    requires Inv(s) && Enabled(s, a)
    ensures Inv(Next(s, a))
  {
    var t := Next(s, a);
    LogStep(s, a);
    Recorded(s, a);
    LocalStep(s, a, s.init);
    forall x: nat | t.Slot(x)
      ensures Local(t, x)
    {
      LocalStep(s, a, x);
    }
    forall q: nat, x: nat | t.Slot(q) && t.Slot(x)
      ensures Pair(t, q, x)
    {
      PairStep(s, a, q, x);
    }
  }

  lemma InvInit(s: State)
    requires Init(s)
    ensures Inv(s)
  {
  }

  lemma {:induction false} InvAt(ss: seq<State>, labels: seq<Label>, k: nat)
    requires IsRun(ss, labels) && k <= |labels|
    ensures Inv(ss[k])
  {
    hide Inv, Enabled, Next, Init;
    if k == 0 {
      InvInit(ss[0]);
    } else {
      InvAt(ss, labels, k - 1);
      assert IsStep(ss[k - 1], labels[k - 1], ss[k]);
      InvStep(ss[k - 1], labels[k - 1]);
    }
  }

  // ----- Theorems -----

  /**
   No lost exits: whenever wait_lock is free, a process asleep in wait() (or
   past the point of no return into that sleep) has a child, and none of its
   children is a zombie.
   */
  lemma NoLostExits(ss: seq<State>, labels: seq<Label>, k: nat, p: nat)
    requires IsRun(ss, labels) && k <= |labels|
    requires ss[k].waitLock.None? && ss[k].Slot(p) && InWait(ss[k].procs[p])
    ensures exists c: nat :: ss[k].Slot(c) && ss[k].procs[c].parent == Some(p)
    ensures forall z: nat :: ss[k].Slot(z) && ss[k].procs[z].parent == Some(p) ==> ss[k].procs[z].state != ZOMBIE
  {
    InvAt(ss, labels, k);
    var s := ss[k];
    assert Local(s, p);
    forall z: nat | s.Slot(z) && s.procs[z].parent == Some(p)
      ensures s.procs[z].state != ZOMBIE
    {
      assert Pair(s, p, z);
    }
  }

  /** Following parents from slot x. */
  ghost predicate LeadsToInit(s: State, x: nat, n: nat)
    decreases n
  {
    s.Slot(x) && (x == s.init || (n > 0 && s.procs[x].parent.Some? && LeadsToInit(s, s.procs[x].parent.value, n - 1)))
  }

  /**
   Every parent pointer names a live process, and the chain of parents of every
   process that has started ends at init, without a cycle: pids fall along it.
   */
  lemma ParentsLeadToInit(ss: seq<State>, labels: seq<Label>, k: nat, x: nat)
    requires IsRun(ss, labels) && k <= |labels| && ss[k].Slot(x)
    ensures ss[k].procs[x].parent.Some? ==>
      ss[k].Slot(ss[k].procs[x].parent.value) && Live(ss[k].procs[ss[k].procs[x].parent.value])
    ensures Live(ss[k].procs[x]) || ss[k].procs[x].state == ZOMBIE ==> LeadsToInit(ss[k], x, ss[k].procs[x].pid)
  {
    InvAt(ss, labels, k);
    assert Local(ss[k], x);
    if Live(ss[k].procs[x]) || ss[k].procs[x].state == ZOMBIE {
      Ancestry(ss[k], x, ss[k].procs[x].pid);
    }
  }

  lemma {:induction false} Ancestry(s: State, x: nat, n: nat)
    requires Inv(s) && s.Slot(x) && (Live(s.procs[x]) || s.procs[x].state == ZOMBIE) && s.procs[x].pid <= n
    ensures LeadsToInit(s, x, n)
    decreases n
  {
    assert Local(s, x);
    if x != s.init {
      assert Local(s, s.procs[x].parent.value);
      Ancestry(s, s.procs[x].parent.value, n - 1);
    }
  }

  /** Exactly one process has pid e; it is a zombie, and its parent is live. */
  ghost predicate OneZombie(s: State, e: nat) {
    exists z: nat ::
      && ZombieAt(s, z, e)
      && forall y: nat :: s.Slot(y) && s.procs[y].state != UNUSED && s.procs[y].pid == e ==> y == z
  }

  ghost predicate ZombieAt(s: State, z: nat, e: nat) {
    && s.Slot(z) && s.procs[z].state == ZOMBIE && s.procs[z].pid == e
    && s.procs[z].parent.Some? && s.Slot(s.procs[z].parent.value) && Live(s.procs[s.procs[z].parent.value])
  }

  lemma OnlyZombie(s: State, z: nat)
    requires Inv(s) && s.Slot(z) && s.procs[z].state == ZOMBIE
    ensures OneZombie(s, s.procs[z].pid)
  {
    assert Local(s, z);
    forall y: nat | s.Slot(y) && s.procs[y].state != UNUSED && s.procs[y].pid == s.procs[z].pid
      ensures y == z
    {
      assert Pair(s, y, z);
    }
    assert ZombieAt(s, z, s.procs[z].pid);
  }

  /**
   Each exit is reported exactly once: the pids wait() has returned are
   distinct, they have exited, and every other pid that has exited belongs to
   exactly one zombie, whose parent is live.
   */
  lemma ExitsReportedOnce(ss: seq<State>, labels: seq<Label>, k: nat, e: nat)
    requires IsRun(ss, labels) && k <= |labels|
    ensures forall i, j :: 0 <= i < j < |ss[k].reaped| ==> ss[k].reaped[i] != ss[k].reaped[j]
    ensures e in ss[k].reaped ==> e in ss[k].exited
    ensures e in ss[k].exited && e !in ss[k].reaped ==> OneZombie(ss[k], e)
    ensures e in ss[k].reaped ==>
      forall z: nat :: ss[k].Slot(z) && ss[k].procs[z].state != UNUSED ==> ss[k].procs[z].pid != e
  {
    InvAt(ss, labels, k);
    var s := ss[k];
    if e in s.exited && e !in s.reaped {
      var z: nat :| s.Slot(z) && s.procs[z].state == ZOMBIE && s.procs[z].pid == e;
      OnlyZombie(s, z);
    }
    if e in s.reaped {
      forall z: nat | s.Slot(z) && s.procs[z].state != UNUSED
        ensures s.procs[z].pid != e
      {
        assert Local(s, z);
      }
    }
  }

  /** freeproc() in wait() never takes a slot whose process is still on its kernel stack or holds a lock. */
  lemma ReapedIsGone(ss: seq<State>, labels: seq<Label>, k: nat)
    requires IsRun(ss, labels) && k < |labels| && labels[k].WaitReap?
    ensures ss[k].Slot(labels[k].p) && ss[k].procs[labels[k].p].pc.WaitScan?
    ensures ss[k].Slot(ss[k].procs[labels[k].p].pc.i) && ss[k].procs[ss[k].procs[labels[k].p].pc.i].pc == Gone
  {
    InvAt(ss, labels, k);
    assert IsStep(ss[k], labels[k], ss[k + 1]);
    assert Local(ss[k], ss[k].procs[labels[k].p].pc.i);
  }
}
