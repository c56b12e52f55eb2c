/**
 The invariant of GroupCommit holds in every state of every run, and what
 follows from it: crash atomicity, grouping and durability over whole runs.
 */
module GroupCommitRuns {
  import opened LogFormat
  import opened LogCommit
  import opened GroupCommit

  // ----- Operations and groups -----

  /** Appending an event of an operation that has no event before the boundary. */
  lemma GroupAppend(s: State, t: State, e: Event)
    requires GroupInv(s) && t.history == s.history + [e] && t.durable == s.durable
    requires forall i :: 0 <= i < s.durable ==> s.history[i].op != e.op
    requires IsActive(t, e.op) || e == End(e.op)
    requires forall id :: IsActive(t, id) ==> IsActive(s, id) || id == e.op
    requires forall id :: IsActive(s, id) ==> IsActive(t, id) || e == End(id)
    ensures GroupInv(t)
  {
    assert t.history[..t.durable] == s.history[..s.durable];
    assert e in t.history by { assert t.history[|s.history|] == e; }
    forall i | 0 <= i < |t.history|
      ensures IsActive(t, t.history[i].op) || End(t.history[i].op) in t.history
    {
      if i < |s.history| {
        assert t.history[i] == s.history[i];
      }
    }
  }

  lemma GroupBegin(l: Layout, s: State, id: nat)
    requires Shape(l, s) && GroupInv(s) && Enabled(l, s, BeginOp(id))
    ensures GroupInv(Next(l, s, BeginOp(id)))
  {
    var t := Next(l, s, BeginOp(id));
    forall i | 0 <= i < s.durable
      ensures s.history[i].op != id
    {
      assert s.history[i] in s.history;
    }
    assert t.active[|s.active|].id == id;
    forall x | IsActive(s, x)
      ensures IsActive(t, x)
    {
      var j :| 0 <= j < |s.active| && s.active[j].id == x;
      assert t.active[j].id == x;
    }
    forall x | IsActive(t, x)
      ensures IsActive(s, x) || x == id
    {
      var j :| 0 <= j < |t.active| && t.active[j].id == x;
      assert j < |s.active| ==> s.active[j].id == x;
    }
    GroupAppend(s, t, Begin(id));
  }

  lemma GroupLog(l: Layout, s: State, i: nat, b: nat, data: Block)
    requires Shape(l, s) && GroupInv(s)
    requires Enabled(l, s, LogWrite(i, b, data)) && !Panics(l, s, LogWrite(i, b, data))
    ensures GroupInv(Next(l, s, LogWrite(i, b, data)))
  {
    var t := Next(l, s, LogWrite(i, b, data));
    assert IsActive(s, s.active[i].id);
    forall x
      ensures IsActive(s, x) <==> IsActive(t, x)
    {
      if IsActive(s, x) {
        var j :| 0 <= j < |s.active| && s.active[j].id == x;
        assert t.active[j].id == x;
      }
      if IsActive(t, x) {
        var j :| 0 <= j < |t.active| && t.active[j].id == x;
        assert s.active[j].id == x;
      }
    }
    GroupAppend(s, t, Logged(s.active[i].id, b, data));
  }

  lemma {:induction false} GroupChange(l: Layout, s: State, i: nat, b: nat, data: Block)
    requires Shape(l, s) && GroupInv(s) && Enabled(l, s, Change(i, b, data))
    ensures GroupInv(Next(l, s, Change(i, b, data)))
  {
    var t := Next(l, s, Change(i, b, data));
    assert IsActive(s, s.active[i].id);
    assert forall x :: IsActive(s, x) <==> IsActive(t, x);
    if b in s.lh {
      GroupAppend(s, t, Left(s.active[i].id, b, data));
    }
  }

  lemma GroupEnd(l: Layout, s: State, i: nat)
    requires Shape(l, s) && GroupInv(s)
    requires Enabled(l, s, EndOp(i)) && !Panics(l, s, EndOp(i))
    ensures GroupInv(Next(l, s, EndOp(i)))
  {
    var t := Next(l, s, EndOp(i));
    assert IsActive(s, s.active[i].id);
    forall x | IsActive(t, x)
      ensures IsActive(s, x)
    {
      var j :| 0 <= j < |t.active| && t.active[j].id == x;
      assert s.active[if j < i then j else j + 1].id == x;
    }
    forall x | IsActive(s, x)
      ensures IsActive(t, x) || x == s.active[i].id
    {
      var j :| 0 <= j < |s.active| && s.active[j].id == x;
      if j != i {
        assert t.active[if j < i then j else j - 1].id == x;
      }
    }
    GroupAppend(s, t, End(s.active[i].id));
  }

  /** With nobody active the whole history may become durable. */
  lemma GroupSeal(s: State, t: State)
    requires GroupInv(s) && s.active == [] && t.active == []
    requires t.history == s.history && (t.durable == |s.history| || t.durable == s.durable)
    ensures GroupInv(t)
  {
    assert t.history[..|t.history|] == t.history;
    assert forall id :: !IsActive(s, id) && !IsActive(t, id);
  }

  lemma GroupSame(s: State, t: State)
    requires GroupInv(s) && t.active == s.active && t.history == s.history && t.durable == s.durable
    ensures GroupInv(t)
  {
    assert forall id :: IsActive(s, id) <==> IsActive(t, id);
  }

  lemma GroupCrash(l: Layout, s: State)
    requires Shape(l, s) && GroupInv(s)
    ensures GroupInv(Next(l, s, Crash))
  {
    var t := Next(l, s, Crash);
    assert t.history[..t.durable] == t.history;
    assert forall id :: !IsActive(t, id);
    forall i | 0 <= i < |t.history|
      ensures End(t.history[i].op) in t.history
    {
      assert t.history[i] == s.history[i];
    }
  }

  /** Every step keeps operations on one side of the durable boundary. */
  lemma GroupInvStep(l: Layout, s: State, a: Label)
    requires Shape(l, s) && OpsInv(l, s) && GroupInv(s) && Enabled(l, s, a) && !Panics(l, s, a)
    ensures GroupInv(Next(l, s, a))
  {
    match a
    case BeginOp(id) => GroupBegin(l, s, id);
    case LogWrite(i, b, data) => GroupLog(l, s, i, b, data);
    case Change(i, b, data) => GroupChange(l, s, i, b, data);
    case Reread(_) => GroupSame(s, Next(l, s, a));
    case EndOp(i) => GroupEnd(l, s, i);
    case Crash => GroupCrash(l, s);
    case _ => GroupSeal(s, Next(l, s, a));
  }

  // ----- Contents -----

  lemma ReplayAppend(base: Disk, h: seq<Event>, e: Event)
    ensures Replay(base, h + [e]) ==
      if Writes(e) && e.b < |base| then Replay(base, h)[e.b := e.data] else Replay(base, h)
    ensures LoggedReplay(base, h + [e]) ==
      if e.Logged? && e.b < |base| then LoggedReplay(base, h)[e.b := e.data] else LoggedReplay(base, h)
  {
    assert (h + [e])[..|h|] == h;
  }

  /** A block that no event after position n writes has the same contents as at position n. */
  lemma {:induction false} ReplayUnlogged(base: Disk, h: seq<Event>, n: nat, b: nat)
    requires n <= |h| && b < |base|
    requires forall i :: n <= i < |h| && Writes(h[i]) ==> h[i].b != b
    ensures Replay(base, h)[b] == Replay(base, h[..n])[b]
    ensures LoggedReplay(base, h)[b] == LoggedReplay(base, h[..n])[b]
  {
    if n < |h| {
      ReplayUnlogged(base, h[..|h| - 1], n, b);
      assert h[..|h| - 1][..n] == h[..n];
    } else {
      assert h[..n] == h;
    }
  }

  lemma PendingUnlogged(l: Layout, base: Disk, s: State)
    requires Shape(l, s) && |base| == l.total && PendingInv(s)
    ensures forall b :: l.Home(b) && b !in s.lh ==>
      && Replay(base, s.history)[b] == Replay(base, s.history[..s.durable])[b]
      && LoggedReplay(base, s.history)[b] == LoggedReplay(base, s.history[..s.durable])[b]
  {
    forall b | l.Home(b) && b !in s.lh
      ensures Replay(base, s.history)[b] == Replay(base, s.history[..s.durable])[b]
      ensures LoggedReplay(base, s.history)[b] == LoggedReplay(base, s.history[..s.durable])[b]
    {
      ReplayUnlogged(base, s.history, s.durable, b);
    }
  }

  lemma RecoversToSame(l: Layout, d: Disk, h1: Disk, h2: Disk)
    requires l.Valid() && RecoversTo(l, d, h1) && SameHome(l, h1, h2)
    ensures RecoversTo(l, d, h2)
  {
  }

  /** In every state the disk recovers to the durable part of the history. */
  ghost predicate Recoverable(l: Layout, base: Disk, s: State)
    requires Shape(l, s) && |base| == l.total
  {
    RecoversTo(l, s.disk, Replay(base, s.history[..s.durable]))
  }

  lemma CommitIsRecoverable(l: Layout, base: Disk, s: State)
    requires Shape(l, s) && |base| == l.total && s.phase.Committing? && CommitInv(l, base, s)
    ensures Recoverable(l, base, s)
  {
    var image := Replay(base, s.history);
    CommitIsAtomic(l, s.phase.before, image, s.lh, s.phase.k, s.disk, s.cache);
    if s.phase.k <= |s.lh| {
      RecoversToSame(l, s.disk, s.phase.before, Replay(base, s.history[..s.durable]));
    } else {
      assert s.history[..s.durable] == s.history;
      InstalledIsImage(l, s.phase.before, image, s.lh);
      RecoversToSame(l, s.disk, Installed(l, s.phase.before, image, s.lh), image);
    }
  }

  lemma InstalledIsImage(l: Layout, before: Disk, image: Disk, lh: seq<nat>)
    requires |before| == |image| == l.total
    requires forall b :: l.Home(b) && b !in lh ==> before[b] == image[b]
    ensures SameHome(l, Installed(l, before, image, lh), image)
  {
  }

  lemma InvIsRecoverable(l: Layout, base: Disk, s: State)
    requires Inv(l, base, s)
    ensures Recoverable(l, base, s)
  {
    if s.phase.Recovering? {
      assert s.history[..s.durable] == s.history;
    } else if s.phase.Committing? && s.lh != [] {
      CommitIsRecoverable(l, base, s);
    } else {
      assert QuietInv(l, base, s);
    }
  }

  // ----- Each step keeps the contents invariant -----

  lemma {:induction false} InvShape(l: Layout, base: Disk, s: State)
    requires Inv(l, base, s)
    ensures Shape(l, s) && |base| == l.total
    ensures s.active != [] ==> s.phase.Running? && QuietInv(l, base, s)
  {
  }

  lemma {:induction false} DataBegin(l: Layout, base: Disk, s: State, id: nat)
    requires Inv(l, base, s) && Enabled(l, s, BeginOp(id))
    ensures var t := Next(l, s, BeginOp(id)); Shape(l, t) && DataInv(l, base, t)
  {
    var t := Next(l, s, BeginOp(id));
    ReplayAppend(base, s.history, Begin(id));
    assert t.history[..t.durable] == s.history[..s.durable];
  }

  lemma {:induction false} DataLog(l: Layout, base: Disk, s: State, i: nat, b: nat, data: Block)
    requires Inv(l, base, s)
    requires Enabled(l, s, LogWrite(i, b, data)) && !Panics(l, s, LogWrite(i, b, data))
    ensures var t := Next(l, s, LogWrite(i, b, data)); Shape(l, t) && DataInv(l, base, t)
  {
    hide Inv, Replay, LoggedReplay;
    InvShape(l, base, s);
    var t := Next(l, s, LogWrite(i, b, data));
    ReplayAppend(base, s.history, Logged(s.active[i].id, b, data));
    assert t.history[..t.durable] == s.history[..s.durable];
    assert l.HeadOk(t.lh);
    forall j | t.durable <= j < |t.history| && Writes(t.history[j])
      ensures t.history[j].b in t.lh
    {
      if j < |s.history| {
        assert t.history[j] == s.history[j];
      }
    }
  }

  lemma {:induction false} DataChange(l: Layout, base: Disk, s: State, i: nat, b: nat, data: Block)
    requires Inv(l, base, s) && Enabled(l, s, Change(i, b, data))
    ensures var t := Next(l, s, Change(i, b, data)); Shape(l, t) && DataInv(l, base, t)
  {
    hide Inv, Replay, LoggedReplay;
    InvShape(l, base, s);
    var t := Next(l, s, Change(i, b, data));
    if b in s.lh {
      ReplayAppend(base, s.history, Left(s.active[i].id, b, data));
      assert t.history[..t.durable] == s.history[..s.durable];
      forall j | t.durable <= j < |t.history| && Writes(t.history[j])
        ensures t.history[j].b in t.lh
      {
        if j < |s.history| {
          assert t.history[j] == s.history[j];
        }
      }
    }
  }

  lemma {:induction false} DataReread(l: Layout, base: Disk, s: State, b: nat)
    requires Inv(l, base, s) && Enabled(l, s, Reread(b))
    ensures var t := Next(l, s, Reread(b)); Shape(l, t) && DataInv(l, base, t)
  {
    var t := Next(l, s, Reread(b));
    assert CacheHas(Replay(base, s.history), s.lh, s.cache) ==> CacheHas(Replay(base, t.history), t.lh, t.cache);
    if s.phase.Recovering? {
      assert t.cache == s.cache;
    } else if s.phase.Committing? && s.lh != [] {
      var image := Replay(base, s.history);
      CopiesReread(l, image, s.lh, s.phase.k, s.disk, s.cache, b);
    }
  }

  lemma CopiesReread(l: Layout, image: Disk, lh: seq<nat>, k: nat, disk: Disk, cache: Disk, b: nat)
    requires l.Valid() && l.HeadOk(lh) && |image| == |disk| == |cache| == l.total && l.Home(b)
    requires CopiesAt(l, image, lh, k, disk, cache)
    ensures CopiesAt(l, image, lh, k, disk, cache[b := disk[b]])
  {
  }

  lemma {:induction false} DataEnd(l: Layout, base: Disk, s: State, i: nat)
    requires Inv(l, base, s) && Enabled(l, s, EndOp(i)) && !Panics(l, s, EndOp(i))
    ensures var t := Next(l, s, EndOp(i)); Shape(l, t) && DataInv(l, base, t)
  {
    hide Inv, Replay, LoggedReplay;
    InvShape(l, base, s);
    var t := Next(l, s, EndOp(i));
    ReplayAppend(base, s.history, End(s.active[i].id));
    assert t.history[..t.durable] == s.history[..s.durable];
    assert QuietInv(l, base, t);
    if t.phase.Committing? && t.lh != [] {
      CommitStarts(l, base, t);
    }
  }

  /** Setting committing with a non-empty header puts the disk at the start of commit(). */
  lemma CommitStarts(l: Layout, base: Disk, t: State)
    requires Shape(l, t) && |base| == l.total && QuietInv(l, base, t)
    requires t.phase == Committing(0, t.disk) && t.lh != []
    ensures CommitInv(l, base, t)
  {
    var image := Replay(base, t.history);
    PendingUnlogged(l, base, t);
    assert CommitAt(l, t.disk, image, t.lh, 0, t.disk, t.cache);
  }

  /** One block write of commit(), seen on the fields it touches. */
  lemma CommitInvAdvances(l: Layout, base: Disk, s: State, t: State)
    requires Shape(l, s) && Shape(l, t) && |base| == l.total
    requires s.phase.Committing? && CommitInv(l, base, s) && s.phase.k < CommitLength(|s.lh|)
    requires t.phase == Committing(s.phase.k + 1, s.phase.before) && t.lh == s.lh && t.history == s.history
    requires var w := CommitWrite(l, s.cache, s.lh, s.phase.k);
      t.disk == s.disk[w.b := w.data] && t.cache == s.cache[w.b := w.data]
    requires t.durable == if s.phase.k == |s.lh| then |s.history| else s.durable
    ensures CommitInv(l, base, t)
  {
    hide CommitAt, CommitWrite, SameHome, Replay;
    CommitAdvances(l, s.phase.before, Replay(base, s.history), s.lh, s.phase.k, s.disk, s.cache);
  }

  lemma DataCommitBlock(l: Layout, base: Disk, s: State)
    requires Inv(l, base, s) && Enabled(l, s, CommitBlock)
    ensures var t := Next(l, s, CommitBlock); Shape(l, t) && DataInv(l, base, t)
  {
    CommitInvAdvances(l, base, s, Next(l, s, CommitBlock));
  }

  lemma DataCommitEnd(l: Layout, base: Disk, s: State)
    requires Inv(l, base, s) && Enabled(l, s, CommitEnd)
    ensures var t := Next(l, s, CommitEnd); Shape(l, t) && DataInv(l, base, t)
  {
    var t := Next(l, s, CommitEnd);
    assert t.history[..t.durable] == t.history == s.history;
    if s.lh == [] {
      PendingUnlogged(l, base, s);
      assert SameHome(l, Replay(base, s.history), Replay(base, s.history[..s.durable]));
    } else {
      var image := Replay(base, s.history);
      AtomicAfterClear(l, s.phase.before, image, s.lh, s.disk, s.cache);
      InstalledIsImage(l, s.phase.before, image, s.lh);
    }
  }

  lemma DataCrash(l: Layout, base: Disk, s: State)
    requires Inv(l, base, s)
    ensures var t := Next(l, s, Crash); Shape(l, t) && DataInv(l, base, t)
  {
    InvIsRecoverable(l, base, s);
    RecoverBegins(l, Replay(base, s.history[..s.durable]), s.disk);
  }

  lemma DataRecover(l: Layout, base: Disk, s: State)
    requires Inv(l, base, s) && Enabled(l, s, RecoverBlock)
    ensures var t := Next(l, s, RecoverBlock); Shape(l, t) && DataInv(l, base, t)
  {
    RecoverAdvances(l, Replay(base, s.history), s.lh, s.phase.k, s.disk);
  }

  lemma DataRecoverEnd(l: Layout, base: Disk, s: State)
    requires Inv(l, base, s) && Enabled(l, s, RecoverEnd)
    ensures var t := Next(l, s, RecoverEnd); Shape(l, t) && DataInv(l, base, t)
  {
    RecoverEnds(l, Replay(base, s.history), s.lh, s.disk);
    assert s.history[..s.durable] == s.history;
  }

  lemma {:induction false} DataStep(l: Layout, base: Disk, s: State, a: Label)
    requires Inv(l, base, s) && Enabled(l, s, a) && !Panics(l, s, a)
    ensures var t := Next(l, s, a); Shape(l, t) && DataInv(l, base, t)
  {
    hide Inv, DataInv, Next, Shape, Panics;
    InvShape(l, base, s);
    match a
    case BeginOp(id) => DataBegin(l, base, s, id);
    case LogWrite(i, b, data) => DataLog(l, base, s, i, b, data);
    case Change(i, b, data) => DataChange(l, base, s, i, b, data);
    case Reread(b) => DataReread(l, base, s, b);
    case EndOp(i) => DataEnd(l, base, s, i);
    case CommitBlock => DataCommitBlock(l, base, s);
    case CommitEnd => DataCommitEnd(l, base, s);
    case Crash => DataCrash(l, base, s);
    case RecoverBlock => DataRecover(l, base, s);
    case RecoverEnd => DataRecoverEnd(l, base, s);
  }

  lemma {:induction false} OpsStep(l: Layout, base: Disk, s: State, a: Label)
    requires Inv(l, base, s) && Enabled(l, s, a) && !Panics(l, s, a)
    ensures var t := Next(l, s, a);
      && OpsInv(l, t)
      && (t.phase.Running? && t.outstanding == 0 ==> t.durable == |t.history|)
  {
  }

  lemma InvStep(l: Layout, base: Disk, s: State, a: Label)
    requires Inv(l, base, s) && Enabled(l, s, a) && !Panics(l, s, a)
    ensures Inv(l, base, Next(l, s, a))
  {
    DataStep(l, base, s, a);
    GroupInvStep(l, s, a);
    OpsStep(l, base, s, a);
  }

  lemma {:induction false} InvOverRuns(l: Layout, base: Disk, ss: seq<State>, labels: seq<Label>)
    requires IsRun(l, base, ss, labels)
    ensures Inv(l, base, ss[|labels|])
    decreases |labels|
  {
    if |labels| > 0 {
      var n := |labels| - 1;
      InvOverRuns(l, base, ss[..n + 1], labels[..n]);
      assert IsStep(l, ss[n], labels[n], ss[n + 1]);
      InvStep(l, base, ss[n], labels[n]);
    }
  }

  // ----- What holds of every run -----

  lemma InvAt(l: Layout, base: Disk, ss: seq<State>, labels: seq<Label>, k: nat)
    requires IsRun(l, base, ss, labels) && k <= |labels|
    ensures Inv(l, base, ss[k])
  {
    InvOverRuns(l, base, ss[..k + 1], labels[..k]);
  }

  /** Every operation that appears in h has ended in h. */
  ghost predicate WholeOps(h: seq<Event>) {
    forall i :: 0 <= i < |h| ==> End(h[i].op) in h
  }

  /**
   Group commit: at every point of every run, what recovery would produce is
   the replay of a prefix of the history made of whole operations only, and no
   operation has events on both sides of the end of that prefix.
   */
  lemma CrashKeepsWholeOps(l: Layout, base: Disk, ss: seq<State>, labels: seq<Label>, k: nat)
    requires IsRun(l, base, ss, labels) && k <= |labels|
    ensures var s := ss[k];
      && s.durable <= |s.history|
      && RecoversTo(l, s.disk, Replay(base, s.history[..s.durable]))
      && WholeOps(s.history[..s.durable])
      && forall i, j :: 0 <= i < s.durable <= j < |s.history| ==> s.history[i].op != s.history[j].op
  {
    InvAt(l, base, ss, labels, k);
    InvIsRecoverable(l, base, ss[k]);
  }

  /**
   The counters: a commit never overlaps an operation, so end_op's panic and
   log_write's "outside of trans" are unreachable, and when no operation is
   in progress and nothing is being written the disk holds all of the history.
   */
  lemma CommitExcludesOps(l: Layout, base: Disk, ss: seq<State>, labels: seq<Label>, k: nat)
    requires IsRun(l, base, ss, labels) && k <= |labels|
    ensures var s := ss[k];
      && (s.committing ==> s.outstanding == 0 && s.active == [])
      && (s.active != [] ==> s.phase.Running? && !s.committing && s.outstanding == |s.active|)
      && (s.phase.Running? ==> CacheHas(Replay(base, s.history), s.lh, s.cache))
      && (s.phase.Running? && s.outstanding == 0 ==>
            SameHome(l, s.disk, Replay(base, s.history)) && Head(s.disk[l.start]) == [])
  {
    InvAt(l, base, ss, labels, k);
    var s := ss[k];
    if s.phase.Running? && s.outstanding == 0 {
      assert s.history[..s.durable] == s.history;
    }
  }

  /** Labels i+1 to j-1 are steps of recovery or further crashes. */
  ghost predicate OnlyRecovering(labels: seq<Label>, i: nat, j: nat) {
    j <= |labels| && forall m :: i < m < j ==> labels[m].Crash? || labels[m].RecoverBlock?
  }

  lemma {:induction false} RecoveringKeepsHistory(l: Layout, base: Disk, ss: seq<State>, labels: seq<Label>, i: nat,
                                                  j: nat)
    requires IsRun(l, base, ss, labels) && i < j <= |labels|
    requires labels[i].Crash? && OnlyRecovering(labels, i, j)
    ensures ss[i].durable <= |ss[i].history|
    ensures ss[j].history == ss[i].history[..ss[i].durable] && ss[j].durable == ss[i].durable
  {
    hide Inv, Next, Enabled;
    CrashPoint(l, base, ss, labels, i);
    if j > i + 1 {
      RecoveringKeepsHistory(l, base, ss, labels, i, j - 1);
      StepAt(l, base, ss, labels, j - 1);
      RecoveringStep(l, ss[j - 1], labels[j - 1], ss[j]);
    }
  }

  lemma StepAt(l: Layout, base: Disk, ss: seq<State>, labels: seq<Label>, k: nat)
    requires IsRun(l, base, ss, labels) && k < |labels|
    ensures IsStep(l, ss[k], labels[k], ss[k + 1])
  {
  }

  /** What a crash leaves of the history. */
  lemma CrashPoint(l: Layout, base: Disk, ss: seq<State>, labels: seq<Label>, i: nat)
    requires IsRun(l, base, ss, labels) && i < |labels| && labels[i].Crash?
    ensures ss[i].durable <= |ss[i].history|
    ensures ss[i + 1].history == ss[i].history[..ss[i].durable] && ss[i + 1].durable == ss[i].durable
  {
    InvAt(l, base, ss, labels, i);
    StepAt(l, base, ss, labels, i);
  }

  /** With everything durable, neither a crash nor a recovery step loses history. */
  lemma RecoveringStep(l: Layout, s: State, a: Label, t: State)
    requires IsStep(l, s, a, t) && (a.Crash? || a.RecoverBlock?) && s.durable == |s.history|
    ensures t.history == s.history && t.durable == s.durable
  {
    assert s.history[..s.durable] == s.history;
  }

  /**
   Crash atomicity with interrupted recovery: however often recovery is itself
   cut short, the first recovery that completes leaves the home blocks exactly
   at the durable history of the moment of the first crash, and the log empty.
   */
  lemma FirstCompletedRecovery(l: Layout, base: Disk, ss: seq<State>, labels: seq<Label>, i: nat, j: nat)
    requires IsRun(l, base, ss, labels) && i < j < |labels|
    requires labels[i].Crash? && OnlyRecovering(labels, i, j) && labels[j].RecoverEnd?
    ensures ss[i].durable <= |ss[i].history| && |ss[j + 1].disk| == l.total
    ensures SameHome(l, ss[j + 1].disk, Replay(base, ss[i].history[..ss[i].durable]))
    ensures Head(ss[j + 1].disk[l.start]) == [] && ss[j + 1].lh == []
    ensures WholeOps(ss[i].history[..ss[i].durable])
  {
    RecoveringKeepsHistory(l, base, ss, labels, i, j);
    CrashKeepsWholeOps(l, base, ss, labels, i);
    InvAt(l, base, ss, labels, j);
    assert IsStep(l, ss[j], labels[j], ss[j + 1]);
    RecoverEnds(l, Replay(base, ss[j].history), ss[j].lh, ss[j].disk);
  }
}
