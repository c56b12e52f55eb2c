/**
 The sleep lock of kernel/sleeplock.c, built on a spinlock, sleep() and wakeup():
 any number of threads, one step per test or assignment under lk->lk. sleep()
 gives the spinlock up and sleeps in one step, and comes back through Wants,
 after wakeup() or kill().
 */
module SleepLock {
  import opened ProcTypes

  datatype Pc =
    | Away
    | Wants      // acquiresleep(): waiting for lk->lk, at the start or after sleep()
    | Tests      // at the head of the loop, with lk->lk
    | Sleeps
    | Holds      // acquiresleep() has returned
    | Leaves     // releasesleep(): waiting for lk->lk
    | Clears     // releasesleep(), with lk->lk
  {
    predicate Owner() {
      Holds? || Leaves? || Clears?
    }

    predicate Spinning() {
      Tests? || Clears?
    }
  }

  datatype State = State(locked: bool, pid: nat, spin: Option<nat>, threads: seq<Pc>) {
    predicate IsThread(t: int) {
      0 <= t < |threads|
    }

    function At(t: nat, pc: Pc): State
      requires IsThread(t)
    {
      this.(threads := threads[t := pc])
    }
  }

  /** The process of thread t; init is process 1. */
  function Pid(t: nat): nat {
    t + 1
  }

  function Woken(ts: seq<Pc>): (r: seq<Pc>)
    ensures |r| == |ts| && forall i :: 0 <= i < |ts| ==> r[i] == if ts[i].Sleeps? then Wants else ts[i]
  {
    seq(|ts|, i requires 0 <= i < |ts| => if ts[i].Sleeps? then Wants else ts[i])
  }

  /** holdingsleep(), by thread t */
  predicate HoldingSleep(s: State, t: nat) {
    s.locked && s.pid == Pid(t)
  }

  datatype Label =
    | Call(t: nat) | Acquire(t: nat) | Sleep(t: nat) | Take(t: nat) | Return(t: nat) | Clear(t: nat) | Kill(t: nat)

  predicate Enabled(s: State, a: Label) {
    && s.IsThread(a.t)
    && var pc := s.threads[a.t];
    match a
    case Call(_) => pc.Away?
    case Acquire(_) => (pc.Wants? || pc.Leaves?) && s.spin.None?
    case Sleep(_) => pc.Tests? && s.locked
    case Take(_) => pc.Tests? && !s.locked
    case Return(_) => pc.Holds?
    case Clear(_) => pc.Clears?
    case Kill(_) => pc.Sleeps?
  }

  function Next(s: State, a: Label): (r: State)
    requires Enabled(s, a)
  {
    match a
    case Call(t) => s.At(t, Wants)
    case Acquire(t) => s.At(t, if s.threads[t].Wants? then Tests else Clears).(spin := Some(t))
    case Sleep(t) => s.At(t, Sleeps).(spin := None)
    case Take(t) => s.At(t, Holds).(locked := true, pid := Pid(t), spin := None)
    case Return(t) => s.At(t, Leaves)
    case Clear(t) => s.(threads := Woken(s.threads)).At(t, Away).(locked := false, pid := 0, spin := None)
    case Kill(t) => s.At(t, Wants)
  }

  ghost predicate Init(s: State) {
    && !s.locked && s.pid == 0 && s.spin.None?
    && forall t :: 0 <= t < |s.threads| ==> s.threads[t].Away?
  }

  ghost predicate IsStep(s: State, a: Label, t: State) {
    Enabled(s, a) && t == Next(s, a)
  }

  ghost predicate IsRun(ss: seq<State>, labels: seq<Label>) {
    && |ss| == |labels| + 1 && Init(ss[0])
    && forall k :: 0 <= k < |labels| ==> IsStep(ss[k], labels[k], ss[k + 1])
  }

  // ----- The invariant -----

  predicate Local(s: State, t: nat)
    requires s.IsThread(t)
  {
    && (s.threads[t].Spinning() <==> s.spin == Some(t))
    && (s.threads[t].Owner() <==> HoldingSleep(s, t))
    && (s.threads[t].Sleeps? ==> s.locked)
  }

  ghost predicate Inv(s: State) {
    && (s.locked ==> s.pid > 0 && s.IsThread(s.pid - 1))
    && (s.spin.Some? ==> s.IsThread(s.spin.value))
    && forall t {:trigger Local(s, t)} :: s.IsThread(t) ==> Local(s, t)
  }

  lemma LocalStep(s: State, a: Label, t: nat)
    requires Inv(s) && Enabled(s, a) && s.IsThread(t)
    ensures Local(Next(s, a), t)
  {
    assert Local(s, t) && Local(s, a.t);
  }

  lemma {:induction false} InvAt(ss: seq<State>, labels: seq<Label>, k: nat)
    requires IsRun(ss, labels) && k <= |labels|
    ensures Inv(ss[k])
  {
    if k > 0 {
      InvAt(ss, labels, k - 1);
      var s, a := ss[k - 1], labels[k - 1];
      assert IsStep(s, a, ss[k]);
      forall t | ss[k].IsThread(t)
        ensures Local(ss[k], t)
      {
        LocalStep(s, a, t);
      }
    }
  }

  // ----- Theorems -----

  /** Two threads never have the lock at once. */
  lemma AtMostOneHolder(ss: seq<State>, labels: seq<Label>, k: nat, t: nat, u: nat)
    requires IsRun(ss, labels) && k <= |labels| && ss[k].IsThread(t) && ss[k].IsThread(u)
    requires ss[k].threads[t].Owner() && ss[k].threads[u].Owner()
    ensures t == u
  {
    InvAt(ss, labels, k);
    assert Local(ss[k], t) && Local(ss[k], u);
  }

  /** holdingsleep() is true of exactly the thread that has the lock. */
  lemma HoldingSleepIsExact(ss: seq<State>, labels: seq<Label>, k: nat, t: nat)
    requires IsRun(ss, labels) && k <= |labels| && ss[k].IsThread(t)
    ensures HoldingSleep(ss[k], t) <==> ss[k].threads[t].Owner()
  {
    InvAt(ss, labels, k);
    assert Local(ss[k], t);
  }

  /** No thread sleeps on a lock that nobody has: some other thread will clear it and wake the sleeper. */
  lemma SleeperHasHolder(ss: seq<State>, labels: seq<Label>, k: nat, t: nat)
    requires IsRun(ss, labels) && k <= |labels| && ss[k].IsThread(t) && ss[k].threads[t].Sleeps?
    ensures ss[k].pid > 0 && ss[k].IsThread(ss[k].pid - 1) && ss[k].pid - 1 != t && ss[k].threads[ss[k].pid - 1].Owner()
  {
    InvAt(ss, labels, k);
    assert Local(ss[k], t) && Local(ss[k], ss[k].pid - 1);
  }

  /** acquiresleep() does not come back without the lock, also if the thread is killed while it sleeps. */
  lemma {:induction false} ReturnsOnlyWithLock(ss: seq<State>, labels: seq<Label>, j: nat, k: nat, t: nat)
    requires IsRun(ss, labels) && j < k <= |labels| && labels[j] == Call(t)
    requires forall i :: j < i < k ==> labels[i] != Take(t)
    ensures ss[k].IsThread(t) && (ss[k].threads[t].Wants? || ss[k].threads[t].Tests? || ss[k].threads[t].Sleeps?)
  {
    assert IsStep(ss[k - 1], labels[k - 1], ss[k]);
    if k - 1 > j {
      ReturnsOnlyWithLock(ss, labels, j, k - 1, t);
    }
  }

  /** From taking the lock until it clears it itself, the thread has it and nobody else can take it. */
  lemma {:induction false} HeldUntilCleared(ss: seq<State>, labels: seq<Label>, j: nat, k: nat, t: nat)
    requires IsRun(ss, labels) && j < k <= |labels| && labels[j] == Take(t)
    requires forall i :: j < i < k ==> labels[i] != Clear(t)
    ensures ss[k].IsThread(t) && ss[k].threads[t].Owner() && HoldingSleep(ss[k], t)
    ensures k < |labels| ==> !labels[k].Take?
  {
    assert IsStep(ss[k - 1], labels[k - 1], ss[k]);
    if k - 1 > j {
      HeldUntilCleared(ss, labels, j, k - 1, t);
    }
    InvAt(ss, labels, k);
    assert Local(ss[k], t);
    if k < |labels| {
      assert IsStep(ss[k], labels[k], ss[k + 1]);
    }
  }
}
