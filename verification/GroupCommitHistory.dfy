/**
 The history that the results about group commit speak of is what the operations
 asked for: it follows from the calls alone, and from where crashes cut it.
 */
module GroupCommitHistory {
  import opened LogFormat
  import opened LogCommit
  import opened GroupCommit
  import opened GroupCommitRuns

  /** The id of operation i of a state. */
  function Id(s: State, i: nat): (id: nat) {
    if i < |s.active| then s.active[i].id else 0
  }

  /** What the calls up to step k asked for; a crash cuts off what was not durable. */
  ghost function Asked(ss: seq<State>, labels: seq<Label>, k: nat): (h: seq<Event>)
    requires |ss| > |labels| >= k
  {
    if k == 0 then []
    else
      var h, s := Asked(ss, labels, k - 1), ss[k - 1];
      match labels[k - 1]
      case BeginOp(id) => h + [Begin(id)]
      case LogWrite(i, b, data) => h + [Logged(Id(s, i), b, data)]
      case Change(i, b, data) => if b in s.lh then h + [Left(Id(s, i), b, data)] else h
      case EndOp(i) => h + [End(Id(s, i))]
      case Crash => if s.durable <= |h| then h[..s.durable] else h
      case _ => h
  }

  /** The history of every state is what the calls asked for. */
  lemma {:induction false} HistoryIsAsked(l: Layout, base: Disk, ss: seq<State>, labels: seq<Label>, k: nat)
    requires IsRun(l, base, ss, labels) && k <= |labels|
    ensures ss[k].history == Asked(ss, labels, k)
  {
    hide Next, Enabled, Panics, Shape;
    if k > 0 {
      HistoryIsAsked(l, base, ss, labels, k - 1);
      StepAt(l, base, ss, labels, k - 1);
      HistoryStep(l, ss[k - 1], labels[k - 1]);
    }
  }

  lemma {:induction false} HistoryStep(l: Layout, s: State, a: Label)
    requires Shape(l, s) && Enabled(l, s, a) && !Panics(l, s, a)
    ensures var h := Next(l, s, a).history;
      match a
      case BeginOp(id) => h == s.history + [Begin(id)]
      case LogWrite(i, b, data) => h == s.history + [Logged(Id(s, i), b, data)]
      case Change(i, b, data) => h == if b in s.lh then s.history + [Left(Id(s, i), b, data)] else s.history
      case EndOp(i) => h == s.history + [End(Id(s, i))]
      case Crash => s.durable <= |s.history| && h == s.history[..s.durable]
      case _ => h == s.history
  {
  }

  // ----- Operations in progress -----

  /** The operation with this id has begun since the last crash, and has not ended. */
  ghost predicate InProgress(s: State, id: nat) {
    Begin(id) in s.history && End(id) !in s.history
  }

  /** The operations of a state are those in progress, each once. */
  ghost predicate OpsOk(s: State) {
    && (forall i, j :: 0 <= i < j < |s.active| ==> s.active[i].id != s.active[j].id)
    && (forall i {:trigger s.active[i]} :: 0 <= i < |s.active| ==> InProgress(s, s.active[i].id))
    && (forall id {:trigger InProgress(s, id)} :: InProgress(s, id) ==> IsActive(s, id))
  }

  lemma {:induction false} BeginsOk(l: Layout, s: State, id: nat)
    requires Shape(l, s) && Enabled(l, s, BeginOp(id)) && OpsOk(s)
    ensures OpsOk(Next(l, s, BeginOp(id)))
  {
    var t := Next(l, s, BeginOp(id));
    forall x | InProgress(t, x)
      ensures IsActive(t, x)
    {
      if x == id {
        assert t.active[|s.active|].id == id;
      } else {
        assert InProgress(s, x);
        var j :| 0 <= j < |s.active| && s.active[j].id == x;
        assert t.active[j].id == x;
      }
    }
    forall i | 0 <= i < |t.active|
      ensures InProgress(t, t.active[i].id) && (i < |s.active| ==> t.active[i].id != id)
    {
      if i < |s.active| {
        assert InProgress(s, s.active[i].id);
      }
    }
  }

  lemma {:induction false} EndsOk(l: Layout, s: State, n: nat)
    requires Shape(l, s) && Enabled(l, s, EndOp(n)) && !Panics(l, s, EndOp(n)) && OpsOk(s)
    ensures OpsOk(Next(l, s, EndOp(n)))
  {
    var t := Next(l, s, EndOp(n));
    assert t.active == s.active[..n] + s.active[n + 1..] && t.history == s.history + [End(s.active[n].id)];
    hide *;
    EndedOps(s, t, n);
  }

  /** Operation n is gone from the list and from those in progress. */
  lemma {:induction false} EndedOps(s: State, t: State, n: nat)
    requires OpsOk(s) && n < |s.active|
    requires t.active == s.active[..n] + s.active[n + 1..] && t.history == s.history + [End(s.active[n].id)]
    ensures OpsOk(t)
  {
    var id := s.active[n].id;
    assert End(id) in t.history;
    forall i | 0 <= i < |t.active|
      ensures InProgress(t, t.active[i].id)
    {
      var m := if i < n then i else i + 1;
      assert t.active[i] == s.active[m] && InProgress(s, s.active[m].id);
    }
    forall x | InProgress(t, x)
      ensures IsActive(t, x)
    {
      assert InProgress(s, x) && x != id;
      var j :| 0 <= j < |s.active| && s.active[j].id == x;
      assert t.active[if j < n then j else j - 1] == s.active[j];
    }
  }

  /** Steps that begin and end nothing. */
  lemma {:induction false} SameOps(s: State, t: State, e: Event)
    requires OpsOk(s) && |t.active| == |s.active| && (e.Logged? || e.Left?)
    requires forall i :: 0 <= i < |s.active| ==> t.active[i].id == s.active[i].id
    requires t.history == s.history || t.history == s.history + [e]
    ensures OpsOk(t)
  {
    forall i | 0 <= i < |t.active|
      ensures InProgress(t, t.active[i].id)
    {
      assert InProgress(s, s.active[i].id);
    }
    forall x | InProgress(t, x)
      ensures IsActive(t, x)
    {
      assert InProgress(s, x);
      var j :| 0 <= j < |s.active| && s.active[j].id == x;
      assert t.active[j].id == x;
    }
  }

  lemma {:induction false} CrashOps(l: Layout, s: State)
    requires Shape(l, s) && GroupInv(s)
    ensures OpsOk(Next(l, s, Crash))
  {
    var t := Next(l, s, Crash);
    forall x | Begin(x) in t.history
      ensures End(x) in t.history
    {
      var i :| 0 <= i < |t.history| && t.history[i] == Begin(x);
      assert s.history[i].op == x && End(x) in s.history[..s.durable];
    }
  }

  lemma {:induction false} OpsStep(l: Layout, base: Disk, s: State, a: Label)
    requires Inv(l, base, s) && Enabled(l, s, a) && !Panics(l, s, a) && OpsOk(s)
    ensures OpsOk(Next(l, s, a))
  {
    assert Shape(l, s) && GroupInv(s);
    hide Inv, OpsOk, GroupInv;
    var t := Next(l, s, a);
    match a
    case BeginOp(id) => BeginsOk(l, s, id);
    case EndOp(i) => EndsOk(l, s, i);
    case Crash => CrashOps(l, s);
    case LogWrite(i, b, data) => SameOps(s, t, Logged(s.active[i].id, b, data));
    case Change(i, b, data) => SameOps(s, t, Left(s.active[i].id, b, data));
    case Reread(b) => SameOps(s, t, Left(0, b, s.disk[b]));
    case CommitBlock => SameOps(s, t, Left(0, 0, s.disk[l.start]));
    case CommitEnd => SameOps(s, t, Left(0, 0, s.disk[l.start]));
    case RecoverBlock => SameOps(s, t, Left(0, 0, s.disk[l.start]));
    case RecoverEnd => SameOps(s, t, Left(0, 0, s.disk[l.start]));
  }

  /**
   The operations that log_write() and end_op() are called for are those that have begun
   since the last crash and not ended, each once.
   */
  lemma {:induction false} OpsAreInProgress(l: Layout, base: Disk, ss: seq<State>, labels: seq<Label>, k: nat)
    requires IsRun(l, base, ss, labels) && k <= |labels|
    ensures OpsOk(ss[k])
  {
    hide Inv, OpsOk, Next, Enabled, Panics, Init;
    if k == 0 {
      InitOps(base);
    } else {
      OpsAreInProgress(l, base, ss, labels, k - 1);
      InvAt(l, base, ss, labels, k - 1);
      StepAt(l, base, ss, labels, k - 1);
      OpsStep(l, base, ss[k - 1], labels[k - 1]);
    }
  }

  lemma {:induction false} InitOps(base: Disk)
    ensures OpsOk(Init(base))
  {
  }
}
