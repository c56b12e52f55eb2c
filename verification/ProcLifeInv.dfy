/**
 What every step of the process life cycle keeps. The invariant is a conjunction
 of facts about one slot, facts about two slots, and a few about the whole.
 */
module ProcLifeInv {
  import opened ProcTypes
  import opened ProcLife

  /** A process that exists and has not exited. */
  predicate Live(x: Proc) {
    x.state == SLEEPING || x.state == RUNNABLE || x.state == RUNNING
  }

  predicate Ready(x: Proc) {
    x.state == RUNNABLE || x.state == RUNNING
  }

  predicate InFork(pc: Pc) {
    pc.ForkHolding? || pc.ForkUnlinked? || pc.ForkLinked?
  }

  predicate Exiting(pc: Pc) {
    pc.ExitWant? || pc.Reparent? || pc.ReparentWake? || pc.ParentWake?
  }

  /** p is asleep in wait(), or on its way there with wait_lock already released. */
  predicate InWait(x: Proc) {
    x.pc.WaitGoing? || (x.pc.WaitAsleep? && x.state == SLEEPING)
  }

  // ----- Facts about one slot -----

  /** State, channel and program counter fit together. */
  predicate FitOk(s: State, p: nat)
    requires s.Slot(p)
  {
    var x := s.procs[p];
    && (x.state == UNUSED ==> x.pc.Gone? && x.parent.None?)
    && match x.pc
       case Gone => x.state == UNUSED || x.state == ZOMBIE
       case Fresh(_) => x.state == USED
       case ForkHolding(_) => x.state == RUNNING
       case Reparent(_) => x.state == RUNNING
       case ReparentWake(_, _) => x.state == RUNNING
       case ParentWake(_) => x.state == RUNNING
       case WaitScan(_, _) => x.state == RUNNING
       case WaitStay(_) => x.state == RUNNING
       case WaitGoing(_) => x.state == RUNNING
       case ExitGoing => x.state == ZOMBIE
       case Dozing => Ready(x) || (x.state == SLEEPING && x.chan == Elsewhere)
       case WaitAsleep(_) => Ready(x) || (x.state == SLEEPING && x.chan == ProcAddr(p))
       case _ => Ready(x)
  }

  predicate LockOk(s: State, p: nat)
    requires s.Slot(p)
  {
    HoldsWaitLock(s.procs[p].pc) ==> s.waitLock == Some(p)
  }

  predicate PidOk(s: State, p: nat)
    requires s.Slot(p)
  {
    s.procs[p].state != UNUSED ==> 1 <= s.procs[p].pid < s.nextpid
  }

  /** Forker and child name each other, and the child is younger. */
  predicate ForkOk(s: State, p: nat)
    requires s.Slot(p)
  {
    && (InFork(s.procs[p].pc) ==>
          var np := s.procs[p].pc.np;
          && s.Slot(np) && s.procs[np].pc == Fresh(p) && s.procs[p].pid < s.procs[np].pid
          && s.procs[np].parent == if s.procs[p].pc.ForkLinked? then Some(p) else None)
    && (s.procs[p].pc.Fresh? ==>
          var q := s.procs[p].pc.forker;
          s.Slot(q) && InFork(s.procs[q].pc) && s.procs[q].pc.np == p)
  }

  /** A parent is live and older than its child; only init and a child not yet linked have none. */
  predicate ParentOk(s: State, x: nat)
    requires s.Slot(x)
  {
    && (s.procs[x].parent.Some? ==>
          var q := s.procs[x].parent.value;
          s.Slot(q) && Live(s.procs[q]) && s.procs[q].pid < s.procs[x].pid)
    && (x != s.init && (Live(s.procs[x]) || s.procs[x].state == ZOMBIE) ==> s.procs[x].parent.Some?)
  }

  predicate HasKid(pc: Pc) {
    (pc.WaitScan? && pc.seen.Some?) || pc.WaitStay? || pc.WaitGoing? || pc.WaitAsleep?
  }

  function Kid(pc: Pc): (k: nat)
    requires HasKid(pc)
  {
    if pc.WaitScan? then pc.seen.value else pc.kid
  }

  /** The child a waiting process has seen is its child. */
  predicate KidOk(s: State, p: nat)
    requires s.Slot(p)
  {
    HasKid(s.procs[p].pc) ==> s.Slot(Kid(s.procs[p].pc)) && s.procs[Kid(s.procs[p].pc)].parent == Some(p)
  }

  /** wakeup(p->parent) has not left the parent asleep in wait(). */
  predicate WokenOk(s: State, p: nat)
    requires s.Slot(p)
  {
    s.procs[p].pc.ParentWake? && s.procs[p].parent.Some? ==>
      var q := s.procs[p].parent.value;
      s.Slot(q) && q < s.procs[p].pc.j ==> !InWait(s.procs[q])
  }

  /** Exited pids are those of zombies and those returned by wait(). */
  predicate PidLogOk(s: State, z: nat)
    requires s.Slot(z)
  {
    && (s.procs[z].state == ZOMBIE ==> s.procs[z].pid in s.exited && s.procs[z].pid !in s.reaped)
    && (Live(s.procs[z]) || s.procs[z].state == USED ==> s.procs[z].pid !in s.exited)
  }

  ghost predicate Local(s: State, p: nat)
    requires s.Slot(p)
  {
    && FitOk(s, p) && LockOk(s, p) && PidOk(s, p) && ForkOk(s, p)
    && ParentOk(s, p) && KidOk(s, p) && WokenOk(s, p) && PidLogOk(s, p)
  }

  // ----- Facts about two slots -----

  predicate PidsDiffer(s: State, p: nat, q: nat)
    requires s.Slot(p) && s.Slot(q)
  {
    p != q && s.procs[p].state != UNUSED && s.procs[q].state != UNUSED ==> s.procs[p].pid != s.procs[q].pid
  }

  /** The children reparent() has passed are not p's any more. */
  predicate ReparentOk(s: State, p: nat, x: nat)
    requires s.Slot(p) && s.Slot(x)
  {
    PastReparent(s.procs[p].pc, x) ==> s.procs[x].parent != Some(p)
  }

  predicate PastReparent(pc: Pc, x: nat) {
    (pc.Reparent? && x < pc.i) || (pc.ReparentWake? && x <= pc.i) || pc.ParentWake?
  }

  /** The scan of wait() has passed slot x. */
  predicate Scanned(pc: Pc, x: nat) {
    (pc.WaitScan? && x < pc.i) || pc.WaitStay?
  }

  /** Slots the scan of wait() has passed hold no zombie child, and if they hold a child it has seen one. */
  predicate ScanOk(s: State, p: nat, x: nat)
    requires s.Slot(p) && s.Slot(x)
  {
    Scanned(s.procs[p].pc, x) && s.procs[x].parent == Some(p) ==>
      s.procs[x].state != ZOMBIE && HasKid(s.procs[p].pc)
  }

  /** The holder of wait_lock is in reparent()'s wakeup(initproc) and has not passed init. */
  predicate WillWakeInit(s: State) {
    && s.waitLock.Some? && s.Slot(s.waitLock.value)
    && s.procs[s.waitLock.value].pc.ReparentWake? && s.procs[s.waitLock.value].pc.j <= s.init
  }

  /** A process asleep in wait() has no zombie child, or a wakeup is on its way to it. */
  predicate SleepOk(s: State, p: nat, z: nat)
    requires s.Slot(p) && s.Slot(z)
  {
    InWait(s.procs[p]) && s.procs[z].parent == Some(p) && s.procs[z].state == ZOMBIE ==> p == s.init && WillWakeInit(s)
  }

  ghost predicate Pair(s: State, p: nat, x: nat)
    requires s.Slot(p) && s.Slot(x)
  {
    PidsDiffer(s, p, x) && ReparentOk(s, p, x) && ScanOk(s, p, x) && SleepOk(s, p, x)
  }

  // ----- The whole -----

  /** init never exits and has the least pid. */
  predicate InitOk(s: State) {
    && s.Slot(s.init) && Live(s.procs[s.init]) && s.procs[s.init].pid == 1
    && s.procs[s.init].parent.None? && !Exiting(s.procs[s.init].pc)
  }

  predicate HolderOk(s: State) {
    s.waitLock.Some? ==> s.Slot(s.waitLock.value) && HoldsWaitLock(s.procs[s.waitLock.value].pc)
  }

  /** Every exit is recorded; a recorded pid is a zombie's or was returned by wait(), once. */
  ghost predicate LogOk(s: State) {
    && (forall e :: e in s.exited ==> e < s.nextpid && (e in s.reaped || ZombieWith(s, e)))
    && (forall e :: e in s.reaped ==> e in s.exited)
    && (forall i, j :: 0 <= i < j < |s.reaped| ==> s.reaped[i] != s.reaped[j])
  }

  ghost predicate ZombieWith(s: State, e: nat) {
    exists z: nat :: s.Slot(z) && s.procs[z].state == ZOMBIE && s.procs[z].pid == e
  }

  ghost predicate Inv(s: State) {
    && InitOk(s) && HolderOk(s) && LogOk(s)
    && (forall p: nat {:trigger Local(s, p)} :: s.Slot(p) ==> Local(s, p))
    && (forall p: nat, x: nat {:trigger Pair(s, p, x)} :: s.Slot(p) && s.Slot(x) ==> Pair(s, p, x))
  }

  /** A zombie stays one, with its pid, until wait() has reported it. */
  predicate ZombieKept(s: State, t: State, z: nat)
    requires s.Slot(z) && t.Slot(z)
  {
    s.procs[z].state == ZOMBIE ==>
      (t.procs[z].state == ZOMBIE && t.procs[z].pid == s.procs[z].pid) || s.procs[z].pid in t.reaped
  }

  // ----- One lemma per fact -----

  lemma FitSched(s: State, a: Label, x: nat)
    requires IsSched(a) && Inv(s) && SchedEnabled(s, a) && s.Slot(x)
    ensures FitOk(SchedNext(s, a), x) && (x == s.init ==> InitOk(SchedNext(s, a)))
  {
    hide LockOk, PidOk, ForkOk, ParentOk, KidOk, WokenOk, PidLogOk, PidsDiffer, ReparentOk, ScanOk, SleepOk, LockFree;
    assert Local(s, a.p) && Local(s, x);
  }

  lemma CountSched(s: State, a: Label, x: nat)
    requires IsSched(a) && Inv(s) && SchedEnabled(s, a) && s.Slot(x)
    ensures LockOk(SchedNext(s, a), x) && PidOk(SchedNext(s, a), x) && PidLogOk(SchedNext(s, a), x)
    ensures HolderOk(SchedNext(s, a)) && ZombieKept(s, SchedNext(s, a), x)
  {
    hide ParentOk, KidOk, WokenOk, ReparentOk, ScanOk, SleepOk, InitOk;
    assert Local(s, a.p) && Local(s, x) && Pair(s, a.p, x);
  }

  lemma ForkSched(s: State, a: Label, x: nat)
    requires IsSched(a) && Inv(s) && SchedEnabled(s, a) && s.Slot(x)
    ensures ForkOk(SchedNext(s, a), x)
  {
    hide LockOk, PidOk, ParentOk, KidOk, WokenOk, PidLogOk, PidsDiffer, ReparentOk, ScanOk, SleepOk, LockFree;
    assert Local(s, a.p) && Local(s, x);
  }

  lemma KinSched(s: State, a: Label, x: nat)
    requires IsSched(a) && Inv(s) && SchedEnabled(s, a) && s.Slot(x)
    ensures ParentOk(SchedNext(s, a), x)
  {
    hide LockOk, PidOk, ForkOk, KidOk, WokenOk, PidLogOk, PidsDiffer, ReparentOk, ScanOk, SleepOk, LogOk;
    assert Local(s, a.p) && Local(s, x) && Pair(s, a.p, x);
    assert s.procs[x].parent.Some? ==> Local(s, s.procs[x].parent.value);
  }

  lemma KidSched(s: State, a: Label, x: nat)
    requires IsSched(a) && Inv(s) && SchedEnabled(s, a) && s.Slot(x)
    ensures KidOk(SchedNext(s, a), x) && WokenOk(SchedNext(s, a), x)
  {
    hide PidOk, PidLogOk, PidsDiffer, ReparentOk, ScanOk, SleepOk, LogOk;
    assert Local(s, a.p) && Local(s, x);
    assert s.procs[x].parent.Some? ==> Local(s, s.procs[x].parent.value);
    assert HolderOk(s);
  }

  lemma FitWake(s: State, a: Label, x: nat)
    requires IsWake(a) && Inv(s) && WakeEnabled(s, a) && s.Slot(x)
    ensures FitOk(WakeNext(s, a), x) && (x == s.init ==> InitOk(WakeNext(s, a)))
  {
    hide PidOk, ParentOk, KidOk, WokenOk, PidLogOk, PidsDiffer, ReparentOk, ScanOk, SleepOk, LogOk, LockFree, ForkOk;
    assert Local(s, a.p) && Local(s, x);
  }

  lemma CountWake(s: State, a: Label, x: nat)
    requires IsWake(a) && Inv(s) && WakeEnabled(s, a) && s.Slot(x)
    ensures LockOk(WakeNext(s, a), x) && PidOk(WakeNext(s, a), x) && PidLogOk(WakeNext(s, a), x)
    ensures HolderOk(WakeNext(s, a)) && ZombieKept(s, WakeNext(s, a), x)
  {
    hide ParentOk, KidOk, WokenOk, ReparentOk, ScanOk, SleepOk, LogOk, LockFree, InitOk, InFork;
    assert Local(s, a.p) && Local(s, x) && Pair(s, a.p, x);
  }

  lemma ForkWake(s: State, a: Label, x: nat)
    requires IsWake(a) && Inv(s) && WakeEnabled(s, a) && s.Slot(x)
    ensures ForkOk(WakeNext(s, a), x)
  {
    hide LockOk, ParentOk, KidOk, WokenOk, PidLogOk, PidsDiffer, ReparentOk, ScanOk, SleepOk, LogOk, HolderOk, InitOk,
      FitOk;
    assert Local(s, a.p) && Local(s, x);
  }

  lemma KinWake(s: State, a: Label, x: nat)
    requires IsWake(a) && Inv(s) && WakeEnabled(s, a) && s.Slot(x)
    ensures ParentOk(WakeNext(s, a), x)
  {
    hide LockOk, KidOk, WokenOk, PidLogOk, PidsDiffer, ScanOk, SleepOk, LogOk;
    assert Local(s, a.p) && Local(s, x) && Pair(s, a.p, x);
    assert s.procs[x].parent.Some? ==> Local(s, s.procs[x].parent.value);
  }

  lemma KidWake(s: State, a: Label, x: nat)
    requires IsWake(a) && Inv(s) && WakeEnabled(s, a) && s.Slot(x)
    ensures KidOk(WakeNext(s, a), x) && WokenOk(WakeNext(s, a), x)
  {
    hide PidOk, PidLogOk, PidsDiffer, ReparentOk, ScanOk, SleepOk, InitOk;
    assert Local(s, a.p) && Local(s, x);
    assert s.procs[x].parent.Some? ==> Local(s, s.procs[x].parent.value);
    assert HolderOk(s);
  }

  lemma FitReap(s: State, a: Label, x: nat)
    requires IsReap(a) && Inv(s) && ReapEnabled(s, a) && s.Slot(x)
    ensures FitOk(ReapNext(s, a), x) && (x == s.init ==> InitOk(ReapNext(s, a)))
  {
    hide PidOk, ParentOk, KidOk, WokenOk, PidLogOk, PidsDiffer, ReparentOk, ScanOk, SleepOk, LogOk, LockFree,
      HolderOk, ForkOk;
    assert Local(s, a.p) && Local(s, x);
    assert (s.procs[a.p].pc.Reparent? || s.procs[a.p].pc.WaitScan?) && s.Slot(s.procs[a.p].pc.i) ==>
      Local(s, s.procs[a.p].pc.i);
  }

  lemma CountReap(s: State, a: Label, x: nat)
    requires IsReap(a) && Inv(s) && ReapEnabled(s, a) && s.Slot(x)
    ensures LockOk(ReapNext(s, a), x) && PidOk(ReapNext(s, a), x) && PidLogOk(ReapNext(s, a), x)
    ensures HolderOk(ReapNext(s, a)) && ZombieKept(s, ReapNext(s, a), x)
  {
    hide ParentOk, KidOk, WokenOk, ReparentOk, ScanOk, SleepOk, LogOk, LockFree, InitOk, ForkOk, FitOk;
    assert Local(s, a.p) && Local(s, x) && Pair(s, a.p, x);
    assert (s.procs[a.p].pc.Reparent? || s.procs[a.p].pc.WaitScan?) && s.Slot(s.procs[a.p].pc.i) ==>
      Local(s, s.procs[a.p].pc.i);
    assert s.procs[a.p].pc.WaitScan? && s.Slot(s.procs[a.p].pc.i) ==> Pair(s, s.procs[a.p].pc.i, x);
  }

  lemma ForkReap(s: State, a: Label, x: nat)
    requires IsReap(a) && Inv(s) && ReapEnabled(s, a) && s.Slot(x)
    ensures ForkOk(ReapNext(s, a), x)
  {
    hide LockOk, ParentOk, KidOk, WokenOk, PidLogOk, PidsDiffer, ReparentOk, ScanOk, SleepOk, LockFree, HolderOk;
    assert Local(s, a.p) && Local(s, x);
    assert (s.procs[a.p].pc.Reparent? || s.procs[a.p].pc.WaitScan?) && s.Slot(s.procs[a.p].pc.i) ==>
      Local(s, s.procs[a.p].pc.i);
  }

  lemma KinReap(s: State, a: Label, x: nat)
    requires IsReap(a) && Inv(s) && ReapEnabled(s, a) && s.Slot(x)
    ensures ParentOk(ReapNext(s, a), x)
  {
    hide LockOk, KidOk, WokenOk, PidLogOk, PidsDiffer, ScanOk, SleepOk, LogOk, LockFree, HolderOk, ForkOk, PidOk;
    assert Local(s, a.p) && Local(s, x) && Pair(s, a.p, x);
    assert s.procs[x].parent.Some? ==> Local(s, s.procs[x].parent.value);
    assert (s.procs[a.p].pc.Reparent? || s.procs[a.p].pc.WaitScan?) && s.Slot(s.procs[a.p].pc.i) ==>
      Local(s, s.procs[a.p].pc.i);
  }

  lemma KidReap(s: State, a: Label, x: nat)
    requires IsReap(a) && Inv(s) && ReapEnabled(s, a) && s.Slot(x)
    ensures KidOk(ReapNext(s, a), x) && WokenOk(ReapNext(s, a), x)
  {
    hide PidOk, PidLogOk, PidsDiffer, ReparentOk, ScanOk, SleepOk, LogOk, InitOk;
    assert Local(s, a.p) && Local(s, x);
    assert HasKid(s.procs[x].pc) ==> Local(s, Kid(s.procs[x].pc));
    assert s.procs[x].parent.Some? ==> Local(s, s.procs[x].parent.value);
    assert HolderOk(s);
  }

  lemma FitAlloc(s: State, a: Label, x: nat)
    requires a.ForkAlloc? && Inv(s) && ForkEnabled(s, a) && s.Slot(x)
    ensures FitOk(ForkNext(s, a), x) && (x == s.init ==> InitOk(ForkNext(s, a)))
  {
    hide PidOk, ParentOk, KidOk, WokenOk, PidLogOk, PidsDiffer, ReparentOk, ScanOk, SleepOk, LockFree, ForkOk, LockOk;
    assert Local(s, a.p) && Local(s, x) && Local(s, a.np);
  }

  lemma FitFork(s: State, a: Label, x: nat)
    requires IsFork(a) && Inv(s) && ForkEnabled(s, a) && s.Slot(x)
    ensures FitOk(ForkNext(s, a), x) && (x == s.init ==> InitOk(ForkNext(s, a)))
  {
    hide PidOk, ParentOk, KidOk, WokenOk, PidLogOk, PidsDiffer, ReparentOk, ScanOk, SleepOk, LogOk, LockFree, LockOk;
    if a.ForkAlloc? {
      FitAlloc(s, a, x);
    } else {
      assert Local(s, a.p) && Local(s, x) && Local(s, s.procs[a.p].pc.np);
    }
  }

  lemma CountAlloc(s: State, a: Label, x: nat)
    requires a.ForkAlloc? && Inv(s) && ForkEnabled(s, a) && s.Slot(x)
    ensures LockOk(ForkNext(s, a), x) && PidOk(ForkNext(s, a), x) && PidLogOk(ForkNext(s, a), x)
    ensures HolderOk(ForkNext(s, a)) && ZombieKept(s, ForkNext(s, a), x)
  {
    hide ParentOk, KidOk, WokenOk, ReparentOk, ScanOk, SleepOk, LockFree;
    assert Local(s, a.p) && Local(s, x) && Pair(s, a.p, x);
    assert Local(s, a.np);
  }

  lemma CountFork(s: State, a: Label, x: nat)
    requires IsFork(a) && Inv(s) && ForkEnabled(s, a) && s.Slot(x)
    ensures LockOk(ForkNext(s, a), x) && PidOk(ForkNext(s, a), x) && PidLogOk(ForkNext(s, a), x)
    ensures HolderOk(ForkNext(s, a)) && ZombieKept(s, ForkNext(s, a), x)
  {
    hide ParentOk, KidOk, WokenOk, ReparentOk, ScanOk, SleepOk, LockFree;
    if a.ForkAlloc? {
      CountAlloc(s, a, x);
    } else {
      assert Local(s, a.p) && Local(s, x) && Pair(s, a.p, x);
      assert Local(s, s.procs[a.p].pc.np);
    }
  }

  lemma ForkAllocated(s: State, a: Label, x: nat)
    requires a.ForkAlloc? && Inv(s) && ForkEnabled(s, a) && s.Slot(x)
    ensures ForkOk(ForkNext(s, a), x)
  {
    hide LockOk, ParentOk, KidOk, WokenOk, PidLogOk, PidsDiffer, ReparentOk, ScanOk, SleepOk, InitOk;
    assert Local(s, a.p) && Local(s, x) && Local(s, a.np);
  }

  lemma ForkFork(s: State, a: Label, x: nat)
    requires IsFork(a) && Inv(s) && ForkEnabled(s, a) && s.Slot(x)
    ensures ForkOk(ForkNext(s, a), x)
  {
    hide LockOk, ParentOk, KidOk, WokenOk, PidLogOk, PidsDiffer, ReparentOk, ScanOk, SleepOk, HolderOk;
    if a.ForkAlloc? {
      ForkAllocated(s, a, x);
    } else {
      assert Local(s, a.p) && Local(s, x) && Local(s, s.procs[a.p].pc.np);
    }
  }

  lemma KinAlloc(s: State, a: Label, x: nat)
    requires a.ForkAlloc? && Inv(s) && ForkEnabled(s, a) && s.Slot(x)
    ensures ParentOk(ForkNext(s, a), x)
  {
    hide LockOk, KidOk, WokenOk, PidLogOk, PidsDiffer, ScanOk, SleepOk;
    assert Local(s, a.p) && Local(s, x) && Pair(s, a.p, x);
    assert Local(s, a.np);
  }

  lemma KinFork(s: State, a: Label, x: nat)
    requires IsFork(a) && Inv(s) && ForkEnabled(s, a) && s.Slot(x)
    ensures ParentOk(ForkNext(s, a), x)
  {
    hide LockOk, KidOk, WokenOk, PidLogOk, PidsDiffer, ScanOk, SleepOk;
    if a.ForkAlloc? {
      KinAlloc(s, a, x);
    } else {
      assert Local(s, a.p) && Local(s, x) && Pair(s, a.p, x);
      assert Local(s, s.procs[a.p].pc.np);
    }
  }

  lemma KidAlloc(s: State, a: Label, x: nat)
    requires a.ForkAlloc? && Inv(s) && ForkEnabled(s, a) && s.Slot(x)
    ensures KidOk(ForkNext(s, a), x) && WokenOk(ForkNext(s, a), x)
  {
    hide LockOk, PidOk, PidLogOk, PidsDiffer, ReparentOk, ScanOk, SleepOk, LockFree, HolderOk, ForkOk, ParentOk,
      FitOk;
    assert Local(s, a.p) && Local(s, x) && Local(s, a.np);
  }

  lemma KidFork(s: State, a: Label, x: nat)
    requires IsFork(a) && Inv(s) && ForkEnabled(s, a) && s.Slot(x)
    ensures KidOk(ForkNext(s, a), x) && WokenOk(ForkNext(s, a), x)
  {
    hide LockOk, PidOk, PidLogOk, PidsDiffer, ReparentOk, ScanOk, SleepOk, LockFree, HolderOk, ParentOk, FitOk;
    if a.ForkAlloc? {
      KidAlloc(s, a, x);
    } else {
      assert Local(s, a.p) && Local(s, x) && Local(s, s.procs[a.p].pc.np);
    }
  }

  lemma FitExit(s: State, a: Label, x: nat)
    requires IsExit(a) && Inv(s) && ExitEnabled(s, a) && s.Slot(x)
    ensures FitOk(ExitNext(s, a), x) && (x == s.init ==> InitOk(ExitNext(s, a)))
  {
    hide PidOk, ParentOk, KidOk, WokenOk, PidLogOk, PidsDiffer, ReparentOk, ScanOk, SleepOk, HolderOk, ForkOk;
    assert Local(s, a.p) && Local(s, x);
    assert (s.procs[a.p].pc.Reparent? || s.procs[a.p].pc.WaitScan?) && s.Slot(s.procs[a.p].pc.i) ==>
      Local(s, s.procs[a.p].pc.i);
  }

  lemma CountExit(s: State, a: Label, x: nat)
    requires IsExit(a) && Inv(s) && ExitEnabled(s, a) && s.Slot(x)
    ensures LockOk(ExitNext(s, a), x) && PidOk(ExitNext(s, a), x) && PidLogOk(ExitNext(s, a), x)
    ensures HolderOk(ExitNext(s, a)) && ZombieKept(s, ExitNext(s, a), x)
  {
    hide ParentOk, KidOk, WokenOk, ReparentOk, ScanOk, SleepOk, LockFree, InitOk;
    assert Local(s, a.p) && Local(s, x) && Pair(s, a.p, x);
    assert LogOk(s) && HolderOk(s);
  }

  lemma ForkExit(s: State, a: Label, x: nat)
    requires IsExit(a) && Inv(s) && ExitEnabled(s, a) && s.Slot(x)
    ensures ForkOk(ExitNext(s, a), x)
  {
    hide LockOk, ParentOk, KidOk, WokenOk, PidLogOk, PidsDiffer, ReparentOk, ScanOk, SleepOk, LockFree, HolderOk,
      FitOk, Exiting;
    assert Local(s, a.p) && Local(s, x);
    assert (s.procs[a.p].pc.Reparent? || s.procs[a.p].pc.WaitScan?) && s.Slot(s.procs[a.p].pc.i) ==>
      Local(s, s.procs[a.p].pc.i);
  }

  lemma KinExit(s: State, a: Label, x: nat)
    requires IsExit(a) && Inv(s) && ExitEnabled(s, a) && s.Slot(x)
    ensures ParentOk(ExitNext(s, a), x)
  {
    hide LockOk, KidOk, WokenOk, PidLogOk, PidsDiffer, ScanOk, SleepOk, LogOk, HolderOk;
    assert Local(s, a.p) && Local(s, x) && Pair(s, a.p, x);
    assert s.procs[x].parent.Some? ==> Local(s, s.procs[x].parent.value);
    assert (s.procs[a.p].pc.Reparent? || s.procs[a.p].pc.WaitScan?) && s.Slot(s.procs[a.p].pc.i) ==>
      Local(s, s.procs[a.p].pc.i);
  }

  lemma KidExit(s: State, a: Label, x: nat)
    requires IsExit(a) && Inv(s) && ExitEnabled(s, a) && s.Slot(x)
    ensures KidOk(ExitNext(s, a), x) && WokenOk(ExitNext(s, a), x)
  {
    hide PidOk, PidLogOk, PidsDiffer, ReparentOk, ScanOk, SleepOk, LogOk, LockFree, ForkOk;
    assert Local(s, a.p) && Local(s, x);
    assert HasKid(s.procs[x].pc) ==> Local(s, Kid(s.procs[x].pc));
    assert HolderOk(s);
    assert s.procs[x].parent.Some? ==> Local(s, s.procs[x].parent.value);
  }

  lemma FitWait(s: State, a: Label, x: nat)
    requires IsWait(a) && Inv(s) && WaitEnabled(s, a) && s.Slot(x)
    ensures FitOk(WaitNext(s, a), x) && (x == s.init ==> InitOk(WaitNext(s, a)))
  {
    hide LockOk, PidOk, ForkOk, ParentOk, KidOk, WokenOk, PidLogOk, PidsDiffer, ReparentOk, ScanOk, SleepOk, LockFree;
    assert Local(s, a.p) && Local(s, x);
  }

  lemma CountWait(s: State, a: Label, x: nat)
    requires IsWait(a) && Inv(s) && WaitEnabled(s, a) && s.Slot(x)
    ensures LockOk(WaitNext(s, a), x) && PidOk(WaitNext(s, a), x) && PidLogOk(WaitNext(s, a), x)
    ensures HolderOk(WaitNext(s, a)) && ZombieKept(s, WaitNext(s, a), x)
  {
    hide ParentOk, KidOk, WokenOk, ReparentOk, ScanOk, SleepOk, PidsDiffer;
    assert Local(s, a.p) && Local(s, x) && Pair(s, a.p, x);
  }

  lemma ForkWait(s: State, a: Label, x: nat)
    requires IsWait(a) && Inv(s) && WaitEnabled(s, a) && s.Slot(x)
    ensures ForkOk(WaitNext(s, a), x)
  {
    hide LockOk, ParentOk, KidOk, WokenOk, PidLogOk, PidsDiffer, ReparentOk, ScanOk, SleepOk, HolderOk, InitOk;
    assert Local(s, a.p) && Local(s, x);
  }

  lemma KinWait(s: State, a: Label, x: nat)
    requires IsWait(a) && Inv(s) && WaitEnabled(s, a) && s.Slot(x)
    ensures ParentOk(WaitNext(s, a), x)
  {
    hide LockOk, KidOk, WokenOk, PidLogOk, PidsDiffer, ScanOk, SleepOk, LockFree, HolderOk;
    assert Local(s, a.p) && Local(s, x) && Pair(s, a.p, x);
    assert s.procs[x].parent.Some? ==> Local(s, s.procs[x].parent.value);
  }

  lemma KidWait(s: State, a: Label, x: nat)
    requires IsWait(a) && Inv(s) && WaitEnabled(s, a) && s.Slot(x)
    ensures KidOk(WaitNext(s, a), x) && WokenOk(WaitNext(s, a), x)
  {
    hide PidOk, PidLogOk, PidsDiffer, ReparentOk, ScanOk, SleepOk, LogOk, HolderOk;
    assert Local(s, a.p) && Local(s, x);
    assert HasKid(s.procs[x].pc) ==> Local(s, Kid(s.procs[x].pc));
    assert (s.procs[a.p].pc.Reparent? || s.procs[a.p].pc.WaitScan?) && s.Slot(s.procs[a.p].pc.i) ==>
      Local(s, s.procs[a.p].pc.i);
    assert HolderOk(s);
    assert s.procs[x].parent.Some? ==> Local(s, s.procs[x].parent.value);
  }

  lemma DifferSched(s: State, a: Label, q: nat, x: nat)
    requires IsSched(a) && Inv(s) && SchedEnabled(s, a) && s.Slot(q) && s.Slot(x)
    ensures PidsDiffer(SchedNext(s, a), q, x) && ReparentOk(SchedNext(s, a), q, x)
  {
    hide LockOk, PidOk, ForkOk, ParentOk, KidOk, WokenOk, PidLogOk, ScanOk, SleepOk, LogOk, LockFree;
    assert Local(s, a.p) && Local(s, q) && Local(s, x) && Pair(s, q, x);
  }

  lemma SleepSched(s: State, a: Label, q: nat, x: nat)
    requires IsSched(a) && Inv(s) && SchedEnabled(s, a) && s.Slot(q) && s.Slot(x)
    ensures ScanOk(SchedNext(s, a), q, x) && SleepOk(SchedNext(s, a), q, x)
  {
    hide PidOk, ForkOk, ParentOk, KidOk, WokenOk, PidLogOk, PidsDiffer, ReparentOk, LogOk, LockFree, HolderOk, LockOk,
      FitOk;
    assert Local(s, a.p) && Local(s, q) && Local(s, x) && Pair(s, q, x);
  }

  lemma DifferWake(s: State, a: Label, q: nat, x: nat)
    requires IsWake(a) && Inv(s) && WakeEnabled(s, a) && s.Slot(q) && s.Slot(x)
    ensures PidsDiffer(WakeNext(s, a), q, x) && ReparentOk(WakeNext(s, a), q, x)
  {
    hide KidOk, WokenOk, PidLogOk, ScanOk, SleepOk, ForkOk, ParentOk, FitOk, Exiting;
    assert Local(s, a.p) && Local(s, q) && Local(s, x) && Pair(s, q, x);
  }

  lemma SleepWake(s: State, a: Label, q: nat, x: nat)
    requires IsWake(a) && Inv(s) && WakeEnabled(s, a) && s.Slot(q) && s.Slot(x)
    ensures ScanOk(WakeNext(s, a), q, x) && SleepOk(WakeNext(s, a), q, x)
  {
    hide PidOk, ParentOk, KidOk, PidLogOk, PidsDiffer, ReparentOk, LogOk, HolderOk, InFork;
    assert Local(s, a.p) && Local(s, q) && Local(s, x) && Pair(s, q, x);
  }

  lemma DifferReap(s: State, a: Label, q: nat, x: nat)
    requires IsReap(a) && Inv(s) && ReapEnabled(s, a) && s.Slot(q) && s.Slot(x)
    ensures PidsDiffer(ReapNext(s, a), q, x) && ReparentOk(ReapNext(s, a), q, x)
  {
    hide KidOk, WokenOk, PidLogOk, ScanOk, SleepOk, LogOk, LockFree, ForkOk, ParentOk, FitOk;
    assert Local(s, a.p) && Local(s, q) && Local(s, x) && Pair(s, q, x);
  }

  lemma SleepReap(s: State, a: Label, q: nat, x: nat)
    requires IsReap(a) && Inv(s) && ReapEnabled(s, a) && s.Slot(q) && s.Slot(x)
    ensures ScanOk(ReapNext(s, a), q, x) && SleepOk(ReapNext(s, a), q, x)
  {
    hide PidOk, ParentOk, KidOk, PidLogOk, PidsDiffer, ReparentOk, LockFree, FitOk;
    assert Local(s, a.p) && Local(s, q) && Local(s, x) && Pair(s, q, x);
  }

  lemma DifferAlloc(s: State, a: Label, q: nat, x: nat)
    requires a.ForkAlloc? && Inv(s) && ForkEnabled(s, a) && s.Slot(q) && s.Slot(x)
    ensures PidsDiffer(ForkNext(s, a), q, x) && ReparentOk(ForkNext(s, a), q, x)
  {
    hide LockOk, ParentOk, KidOk, WokenOk, PidLogOk, ScanOk, SleepOk, LockFree;
    assert Local(s, a.p) && Local(s, q) && Local(s, x) && Pair(s, q, x);
    assert Local(s, a.np);
  }

  lemma DifferFork(s: State, a: Label, q: nat, x: nat)
    requires IsFork(a) && Inv(s) && ForkEnabled(s, a) && s.Slot(q) && s.Slot(x)
    ensures PidsDiffer(ForkNext(s, a), q, x) && ReparentOk(ForkNext(s, a), q, x)
  {
    hide LockOk, ParentOk, KidOk, WokenOk, PidLogOk, ScanOk, SleepOk, LockFree;
    if a.ForkAlloc? {
      DifferAlloc(s, a, q, x);
    } else {
      assert Local(s, a.p) && Local(s, q) && Local(s, x) && Pair(s, q, x);
      assert Local(s, s.procs[a.p].pc.np);
    }
  }

  lemma SleepAlloc(s: State, a: Label, q: nat, x: nat)
    requires a.ForkAlloc? && Inv(s) && ForkEnabled(s, a) && s.Slot(q) && s.Slot(x)
    ensures ScanOk(ForkNext(s, a), q, x) && SleepOk(ForkNext(s, a), q, x)
  {
    hide PidOk, ParentOk, KidOk, WokenOk, PidLogOk, PidsDiffer, ReparentOk, LockFree, LockOk;
    assert Local(s, a.p) && Local(s, q) && Local(s, x) && Pair(s, q, x);
    assert Local(s, a.np);
  }

  lemma SleepFork(s: State, a: Label, q: nat, x: nat)
    requires IsFork(a) && Inv(s) && ForkEnabled(s, a) && s.Slot(q) && s.Slot(x)
    ensures ScanOk(ForkNext(s, a), q, x) && SleepOk(ForkNext(s, a), q, x)
  {
    hide PidOk, ParentOk, KidOk, WokenOk, PidLogOk, PidsDiffer, ReparentOk, LockFree, LockOk;
    if a.ForkAlloc? {
      SleepAlloc(s, a, q, x);
    } else {
      assert Local(s, a.p) && Local(s, q) && Local(s, x) && Pair(s, q, x);
      assert Local(s, s.procs[a.p].pc.np);
    }
  }

  lemma DifferExit(s: State, a: Label, q: nat, x: nat)
    requires IsExit(a) && Inv(s) && ExitEnabled(s, a) && s.Slot(q) && s.Slot(x)
    ensures PidsDiffer(ExitNext(s, a), q, x) && ReparentOk(ExitNext(s, a), q, x)
  {
    hide KidOk, WokenOk, PidLogOk, ScanOk, SleepOk, LockFree, ParentOk;
    assert Local(s, a.p) && Local(s, q) && Local(s, x) && Pair(s, q, x);
  }

  lemma SleepExit(s: State, a: Label, q: nat, x: nat)
    requires IsExit(a) && Inv(s) && ExitEnabled(s, a) && s.Slot(q) && s.Slot(x)
    ensures ScanOk(ExitNext(s, a), q, x) && SleepOk(ExitNext(s, a), q, x)
  {
    hide PidOk, ParentOk, KidOk, PidLogOk, PidsDiffer, ReparentOk, LogOk, LockFree, ForkOk;
    assert Local(s, a.p) && Local(s, q) && Local(s, x) && Pair(s, q, x);
  }

  lemma DifferWait(s: State, a: Label, q: nat, x: nat)
    requires IsWait(a) && Inv(s) && WaitEnabled(s, a) && s.Slot(q) && s.Slot(x)
    ensures PidsDiffer(WaitNext(s, a), q, x) && ReparentOk(WaitNext(s, a), q, x)
  {
    hide KidOk, WokenOk, PidLogOk, ScanOk, SleepOk, LogOk, LockFree;
    assert Local(s, a.p) && Local(s, q) && Local(s, x) && Pair(s, q, x);
  }

  lemma SleepWait(s: State, a: Label, q: nat, x: nat)
    requires IsWait(a) && Inv(s) && WaitEnabled(s, a) && s.Slot(q) && s.Slot(x)
    ensures ScanOk(WaitNext(s, a), q, x) && SleepOk(WaitNext(s, a), q, x)
  {
    hide PidOk, ParentOk, KidOk, PidLogOk, PidsDiffer, ReparentOk, InitOk, FitOk;
    assert Local(s, a.p) && Local(s, q) && Local(s, x) && Pair(s, q, x);
  }

}
