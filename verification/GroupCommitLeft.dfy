/**
 What becomes of blocks that an operation leaves changed without log_write().
 commit() copies the blocks of the group as the cache has them, so a change in
 such a block is made durable although nobody logged it; a change in any other
 block is seen in the cache alone. Both conditions are exact.
 */
module GroupCommitLeft {
  import opened LogFormat
  import opened LogCommit
  import opened GroupCommit
  import opened GroupCommitRuns

  // ----- Histories -----

  /** No later event writes the block of event i. */
  predicate LastOn(h: seq<Event>, i: nat)
    requires i < |h| && Writes(h[i])
  {
    forall j :: i < j < |h| && Writes(h[j]) ==> h[j].b != h[i].b
  }

  /** Every block ends with logged contents: a change that was left in it is the same, or something followed it. */
  ghost predicate NoneLeft(l: Layout, base: Disk, h: seq<Event>)
    requires |base| == l.total
  {
    forall i :: 0 <= i < |h| && h[i].Left? && l.Home(h[i].b) && LastOn(h, i) ==>
      h[i].data == LoggedReplay(base, h[..i])[h[i].b]
  }

  /** The last event that writes block b, or -1. */
  lemma {:induction false} LastWrite(h: seq<Event>, b: nat) returns (i: int)
    ensures -1 <= i < |h|
    ensures i >= 0 ==> Writes(h[i]) && h[i].b == b
    ensures forall j :: i < j < |h| && Writes(h[j]) ==> h[j].b != b
  {
    i := |h| - 1;
    while i >= 0 && !(Writes(h[i]) && h[i].b == b)
      invariant -1 <= i < |h| && forall j :: i < j < |h| && Writes(h[j]) ==> h[j].b != b
    {
      i := i - 1;
    }
  }

  /** Both replays of a block depend on the last event that writes it. */
  lemma LastDecides(base: Disk, h: seq<Event>, b: nat, i: nat)
    requires b < |base| && i < |h| && Writes(h[i]) && h[i].b == b && LastOn(h, i)
    ensures Replay(base, h)[b] == h[i].data
    ensures LoggedReplay(base, h)[b] == if h[i].Logged? then h[i].data else LoggedReplay(base, h[..i])[b]
  {
    ReplayUnlogged(base, h, i + 1, b);
    assert h[..i + 1] == h[..i] + [h[i]];
    ReplayAppend(base, h[..i], h[i]);
  }

  lemma NeverWritten(base: Disk, h: seq<Event>, b: nat)
    requires b < |base| && forall j :: 0 <= j < |h| && Writes(h[j]) ==> h[j].b != b
    ensures Replay(base, h)[b] == LoggedReplay(base, h)[b]
  {
    ReplayUnlogged(base, h, 0, b);
    assert h[..0] == [];
  }

  /** All that was done is what was logged exactly if no block was left with other contents. */
  lemma NoneLeftIff(l: Layout, base: Disk, h: seq<Event>)
    requires |base| == l.total
    ensures SameHome(l, Replay(base, h), LoggedReplay(base, h)) <==> NoneLeft(l, base, h)
  {
    if NoneLeft(l, base, h) {
      forall b | l.Home(b)
        ensures Replay(base, h)[b] == LoggedReplay(base, h)[b]
      {
        var i := LastWrite(h, b);
        if i >= 0 {
          assert LastOn(h, i);
          LastDecides(base, h, b, i);
        } else {
          NeverWritten(base, h, b);
        }
      }
    }
    if SameHome(l, Replay(base, h), LoggedReplay(base, h)) {
      forall i | 0 <= i < |h| && h[i].Left? && l.Home(h[i].b) && LastOn(h, i)
        ensures h[i].data == LoggedReplay(base, h[..i])[h[i].b]
      {
        LastDecides(base, h, h[i].b, i);
      }
    }
  }

  // ----- Recovery -----

  /** Recovery would produce the logged writes of the durable history, and nothing else. */
  ghost predicate GivesLogged(l: Layout, base: Disk, s: State)
    requires l.Valid()
  {
    s.durable <= |s.history| && RecoversTo(l, s.disk, LoggedReplay(base, s.history[..s.durable]))
  }

  ghost predicate SameReplays(l: Layout, base: Disk, s: State) {
    && s.durable <= |s.history|
    && SameHome(l, Replay(base, s.history[..s.durable]), LoggedReplay(base, s.history[..s.durable]))
  }

  lemma GivesLoggedIs(l: Layout, base: Disk, s: State)
    requires Inv(l, base, s)
    ensures GivesLogged(l, base, s) <==> SameReplays(l, base, s)
  {
    InvIsRecoverable(l, base, s);
    var h := s.history[..s.durable];
    if GivesLogged(l, base, s) {
      RecoversToUnique(l, s.disk, Replay(base, h), LoggedReplay(base, h));
    }
    if SameReplays(l, base, s) {
      RecoversToSame(l, s.disk, Replay(base, h), LoggedReplay(base, h));
    }
  }

  /**
   At every point of every run, recovery would produce just the logged writes of
   whole operations if and only if no block of them was left with other contents.
   */
  lemma RecoveryIsLogged(l: Layout, base: Disk, ss: seq<State>, labels: seq<Label>, k: nat)
    requires IsRun(l, base, ss, labels) && k <= |labels|
    ensures ss[k].durable <= |ss[k].history|
    ensures RecoversTo(l, ss[k].disk, LoggedReplay(base, ss[k].history[..ss[k].durable])) <==>
      NoneLeft(l, base, ss[k].history[..ss[k].durable])
  {
    InvAt(l, base, ss, labels, k);
    GivesLoggedIs(l, base, ss[k]);
    NoneLeftIff(l, base, ss[k].history[..ss[k].durable]);
  }

  /** The first recovery that completes leaves just the logged writes under the same condition. */
  lemma FirstRecoveryIsLogged(l: Layout, base: Disk, ss: seq<State>, labels: seq<Label>, i: nat, j: nat)
    requires IsRun(l, base, ss, labels) && i < j < |labels|
    requires labels[i].Crash? && OnlyRecovering(labels, i, j) && labels[j].RecoverEnd?
    ensures ss[i].durable <= |ss[i].history|
    ensures SameHome(l, ss[j + 1].disk, LoggedReplay(base, ss[i].history[..ss[i].durable])) <==>
      NoneLeft(l, base, ss[i].history[..ss[i].durable])
  {
    FirstCompletedRecovery(l, base, ss, labels, i, j);
    NoneLeftIff(l, base, ss[i].history[..ss[i].durable]);
  }

  // ----- The steps that matter -----

  /** write_head() commits a group of which some block is not as it was last logged. */
  ghost predicate SealsLeft(base: Disk, s: State, a: Label) {
    && a.CommitBlock? && s.phase.Committing? && s.phase.k == |s.lh|
    && exists b :: b in s.lh && b < |s.cache| && b < |base| && s.cache[b] != LoggedReplay(base, s.history)[b]
  }

  lemma SealStep(l: Layout, base: Disk, s: State)
    requires Inv(l, base, s) && Enabled(l, s, CommitBlock) && s.phase.k == |s.lh| && SameReplays(l, base, s)
    ensures SameReplays(l, base, Next(l, s, CommitBlock)) <==> !SealsLeft(base, s, CommitBlock)
  {
    var t := Next(l, s, CommitBlock);
    assert t.history[..t.durable] == s.history;
    PendingUnlogged(l, base, s);
    assert CommitInv(l, base, s);
    var all, logged := Replay(base, s.history), LoggedReplay(base, s.history);
    assert forall b :: l.Home(b) && b !in s.lh ==> all[b] == logged[b];
    forall b | b in s.lh
      ensures l.Home(b) && s.cache[b] == all[b]
    {
      var i :| 0 <= i < |s.lh| && s.lh[i] == b;
      assert l.Home(s.lh[i]);
    }
  }

  lemma EndsSame(l: Layout, base: Disk, s: State)
    requires Inv(l, base, s) && Enabled(l, s, CommitEnd) && SameReplays(l, base, s)
    ensures SameReplays(l, base, Next(l, s, CommitEnd))
  {
    var t := Next(l, s, CommitEnd);
    assert t.history[..t.durable] == s.history;
    if s.lh == [] {
      PendingUnlogged(l, base, s);
    } else {
      assert CommitInv(l, base, s);
      assert s.history[..s.durable] == s.history;
    }
  }

  /** No other step changes what is durable. */
  lemma DurableKept(l: Layout, base: Disk, s: State, a: Label)
    requires Inv(l, base, s) && Enabled(l, s, a) && !Panics(l, s, a)
    requires !a.CommitEnd? && !(a.CommitBlock? && s.phase.k == |s.lh|)
    ensures var t := Next(l, s, a);
      t.durable == s.durable <= |t.history| && t.history[..t.durable] == s.history[..s.durable]
  {
    hide Inv;
    DurableBound(l, base, s);
  }

  lemma DurableBound(l: Layout, base: Disk, s: State)
    requires Inv(l, base, s)
    ensures Shape(l, s) && s.durable <= |s.history|
  {
  }

  lemma SameStep(l: Layout, base: Disk, s: State, a: Label)
    requires Inv(l, base, s) && Enabled(l, s, a) && !Panics(l, s, a) && SameReplays(l, base, s)
    ensures SameReplays(l, base, Next(l, s, a)) <==> !SealsLeft(base, s, a)
  {
    hide Inv, Next, SameReplays, SealsLeft;
    if a.CommitBlock? && s.phase.k == |s.lh| {
      SealStep(l, base, s);
    } else {
      NotASeal(base, s, a);
      if a.CommitEnd? {
        EndsSame(l, base, s);
      } else {
        DurableBound(l, base, s);
        DurableKept(l, base, s, a);
        SameFrom(l, base, s, Next(l, s, a));
      }
    }
  }

  lemma NotASeal(base: Disk, s: State, a: Label)
    requires !(a.CommitBlock? && s.phase.Committing? && s.phase.k == |s.lh|)
    ensures !SealsLeft(base, s, a)
  {
  }

  lemma SameFrom(l: Layout, base: Disk, s: State, t: State)
    requires SameReplays(l, base, s) && t.durable == s.durable <= |t.history|
    requires t.history[..t.durable] == s.history[..s.durable]
    ensures SameReplays(l, base, t)
  {
  }

  lemma {:induction false} SameAt(l: Layout, base: Disk, ss: seq<State>, labels: seq<Label>, k: nat)
    requires IsRun(l, base, ss, labels) && k <= |labels|
    requires forall j :: 0 <= j < k ==> !SealsLeft(base, ss[j], labels[j])
    ensures SameReplays(l, base, ss[k])
  {
    if k > 0 {
      SameAt(l, base, ss, labels, k - 1);
      InvAt(l, base, ss, labels, k - 1);
      StepAt(l, base, ss, labels, k - 1);
      SameStep(l, base, ss[k - 1], labels[k - 1]);
    }
  }

  /** No commit of the run makes contents durable that were not logged. */
  ghost predicate NoSealLeft(base: Disk, ss: seq<State>, labels: seq<Label>)
    requires |ss| >= |labels|
  {
    forall j {:trigger labels[j]} :: 0 <= j < |labels| ==> !SealsLeft(base, ss[j], labels[j])
  }

  /**
   In every state of a run recovery would produce just the logged writes, if and
   only if whenever a header was written to commit a group, every block of the
   group was as it had last been logged.
   */
  lemma LoggedIffNoSealLeft(l: Layout, base: Disk, ss: seq<State>, labels: seq<Label>)
    requires IsRun(l, base, ss, labels)
    ensures (forall k {:trigger GivesLogged(l, base, ss[k])} :: 0 <= k <= |labels| ==> GivesLogged(l, base, ss[k]))
      <==> NoSealLeft(base, ss, labels)
  {
    hide SameReplays, SealsLeft, GivesLogged, Inv;
    if NoSealLeft(base, ss, labels) {
      forall k | 0 <= k <= |labels|
        ensures GivesLogged(l, base, ss[k])
      {
        SameAt(l, base, ss, labels, k);
        InvAt(l, base, ss, labels, k);
        GivesLoggedIs(l, base, ss[k]);
      }
    } else {
      var j :| 0 <= j < |labels| && SealsLeft(base, ss[j], labels[j]);
      LeftAfterSeal(l, base, ss, labels, j);
    }
  }

  lemma LeftAfterSeal(l: Layout, base: Disk, ss: seq<State>, labels: seq<Label>, j: nat)
    requires IsRun(l, base, ss, labels) && j < |labels| && SealsLeft(base, ss[j], labels[j])
    ensures !GivesLogged(l, base, ss[j + 1])
  {
    var s, t := ss[j], ss[j + 1];
    InvAt(l, base, ss, labels, j);
    InvAt(l, base, ss, labels, j + 1);
    StepAt(l, base, ss, labels, j);
    GivesLoggedIs(l, base, t);
    SealShows(l, base, s);
  }

  lemma SealShows(l: Layout, base: Disk, s: State)
    requires Inv(l, base, s) && Enabled(l, s, CommitBlock) && SealsLeft(base, s, CommitBlock)
    ensures !SameReplays(l, base, Next(l, s, CommitBlock))
  {
    var t := Next(l, s, CommitBlock);
    assert t.history[..t.durable] == s.history;
    assert CommitInv(l, base, s);
    var b :| b in s.lh && b < |s.cache| && b < |base| && s.cache[b] != LoggedReplay(base, s.history)[b];
    var i :| 0 <= i < |s.lh| && s.lh[i] == b;
    assert l.Home(s.lh[i]);
    assert s.cache[b] == Replay(base, s.history)[b];
  }

  /** The states of an operation that logs block b with x, leaves it with y and ends. */
  lemma {:induction false} LeavesBlock(l: Layout, base: Disk, b: nat, x: Block, y: Block)
    returns (s1: State, s2: State, s3: State, s4: State)
    requires l.Valid() && |base| == l.total && l.size >= 2 && l.Home(b)
    ensures IsStep(l, Init(base), BeginOp(0), s1) && IsStep(l, s1, LogWrite(0, b, x), s2)
    ensures IsStep(l, s2, Change(0, b, y), s3) && IsStep(l, s3, EndOp(0), s4)
    ensures s4 == State(base, base[b := x][b := y], [b], 0, true, Committing(0, base), [],
                        [Begin(0), Logged(0, b, x), Left(0, b, y), End(0)], 0)
  {
    hide Head;
    s1 := Next(l, Init(base), BeginOp(0));
    s2 := Next(l, s1, LogWrite(0, b, x));
    s3 := Next(l, s2, Change(0, b, y));
    s4 := Next(l, s3, EndOp(0));
  }

  /** Its commit, up to the header. */
  lemma {:induction false} CommitsBlock(l: Layout, s: State) returns (s1: State, s2: State)
    requires Shape(l, s) && |s.lh| == 1 && s.phase.Committing? && s.phase.k == 0
    ensures IsStep(l, s, CommitBlock, s1) && Shape(l, s1) && IsStep(l, s1, CommitBlock, s2)
    ensures s2.history == s.history && s2.durable == |s.history|
  {
    hide Head, SetHead;
    s1 := Next(l, s, CommitBlock);
    s2 := Next(l, s1, CommitBlock);
  }

  /** One operation logs block b with x, leaves it with y and ends; once the header is written, recovery gives y. */
  lemma {:induction false} LeftIsDurable(l: Layout, base: Disk, b: nat, x: Block, y: Block)
    returns (ss: seq<State>, labels: seq<Label>)
    requires l.Valid() && |base| == l.total && Head(base[l.start]) == [] && l.size >= 2 && l.Home(b) && x != y
    ensures labels == [BeginOp(0), LogWrite(0, b, x), Change(0, b, y), EndOp(0), CommitBlock, CommitBlock]
    ensures IsRun(l, base, ss, labels) && LoggedReplay(base, ss[6].history) == base[b := x]
    ensures RecoversTo(l, ss[6].disk, base[b := y]) && !RecoversTo(l, ss[6].disk, base[b := x])
  {
    hide Replay, LoggedReplay, IsStep, RecoversTo, Head, Init;
    var s1, s2, s3, s4 := LeavesBlock(l, base, b, x, y);
    var s5, s6 := CommitsBlock(l, s4);
    labels := [BeginOp(0), LogWrite(0, b, x), Change(0, b, y), EndOp(0), CommitBlock, CommitBlock];
    ss := [Init(base), s1, s2, s3, s4, s5, s6];
    var h := [Begin(0), Logged(0, b, x), Left(0, b, y), End(0)];
    assert h[..4] == h;
    ReplayOfLeft(base, b, x, y);
    CrashKeepsWholeOps(l, base, ss, labels, 6);
    NotBoth(l, s6.disk, base[b := x], base[b := y], b);
  }

  lemma {:induction false} ReplayOfLeft(base: Disk, b: nat, x: Block, y: Block)
    requires b < |base|
    ensures var h := [Begin(0), Logged(0, b, x), Left(0, b, y), End(0)];
      Replay(base, h) == base[b := y] && LoggedReplay(base, h) == base[b := x]
  {
    hide Replay, LoggedReplay;
    var h1 := [Begin(0)];
    var h2 := h1 + [Logged(0, b, x)];
    var h3 := h2 + [Left(0, b, y)];
    ReplayNone(base);
    ReplayAppend(base, [], Begin(0));
    assert [] + [Begin(0)] == h1;
    ReplayAppend(base, h1, Logged(0, b, x));
    ReplayAppend(base, h2, Left(0, b, y));
    ReplayAppend(base, h3, End(0));
    assert h3 + [End(0)] == [Begin(0), Logged(0, b, x), Left(0, b, y), End(0)];
    assert base[b := x][b := y] == base[b := y];
  }

  lemma ReplayNone(base: Disk)
    ensures Replay(base, []) == base && LoggedReplay(base, []) == base
  {
  }

  lemma NotBoth(l: Layout, d: Disk, h1: Disk, h2: Disk, b: nat)
    requires l.Valid() && RecoversTo(l, d, h2) && |h1| == |h2| == l.total && l.Home(b) && h1[b] != h2[b]
    ensures !RecoversTo(l, d, h1)
  {
    if RecoversTo(l, d, h1) {
      RecoversToUnique(l, d, h1, h2);
    }
  }

  // ----- The cache -----

  /** Except during recovery, the cached home blocks are what the history did to them. */
  ghost predicate CacheIsHistory(l: Layout, base: Disk, s: State) {
    !s.phase.Recovering? ==> SameHome(l, s.cache, Replay(base, s.history))
  }

  /** A block outside the open group is left with other contents. */
  predicate ChangesOutside(s: State, a: Label) {
    a.Change? && a.b !in s.lh && a.b < |s.cache| && a.data != s.cache[a.b]
  }

  /** Outside the group, the disk has what the history did. */
  lemma DiskOutside(l: Layout, base: Disk, s: State, b: nat)
    requires Inv(l, base, s) && !s.phase.Recovering? && l.Home(b) && b !in s.lh
    ensures s.disk[b] == Replay(base, s.history)[b]
  {
    if s.phase.Committing? && s.lh != [] {
      assert CommitInv(l, base, s);
      assert b !in s.lh[..Installs(|s.lh|, s.phase.k)];
    } else {
      PendingUnlogged(l, base, s);
    }
  }

  /** The cache and the history change in one block in the same way, or not at all. */
  lemma {:induction false} CacheFollows(l: Layout, base: Disk, s: State, t: State, e: Event)
    requires SameHome(l, s.cache, Replay(base, s.history)) && t.history == s.history + [e]
    requires t.cache == if Writes(e) && e.b < |base| then s.cache[e.b := e.data] else s.cache
    requires |s.cache| == |base|
    ensures SameHome(l, t.cache, Replay(base, t.history))
  {
    hide Replay;
    ReplayAppend(base, s.history, e);
  }

  lemma {:induction false} CacheChange(l: Layout, base: Disk, s: State, t: State, b: nat, data: Block)
    requires SameHome(l, s.cache, Replay(base, s.history)) && t.history == s.history && l.Home(b)
    requires t.cache == s.cache[b := data]
    ensures SameHome(l, t.cache, Replay(base, t.history)) <==> data == s.cache[b]
  {
    hide Replay;
    assert t.cache[b] == data;
  }

  lemma CacheWrites(l: Layout, base: Disk, s: State, a: Label)
    requires Inv(l, base, s) && CacheIsHistory(l, base, s) && (a.LogWrite? || a.Change? || a.BeginOp? || a.EndOp?)
    requires Enabled(l, s, a) && !Panics(l, s, a)
    ensures CacheIsHistory(l, base, Next(l, s, a)) <==> !ChangesOutside(s, a)
  {
    RunningNow(l, base, s, a);
    hide Inv, Panics, Replay, SameHome;
    var t := Next(l, s, a);
    match a
    case BeginOp(id) => CacheFollows(l, base, s, t, Begin(id));
    case LogWrite(i, b, data) => CacheFollows(l, base, s, t, Logged(s.active[i].id, b, data));
    case EndOp(i) => CacheFollows(l, base, s, t, End(s.active[i].id));
    case Change(i, b, data) =>
      if b in s.lh {
        CacheFollows(l, base, s, t, Left(s.active[i].id, b, data));
      } else {
        CacheChange(l, base, s, t, b, data);
      }
  }

  lemma RunningNow(l: Layout, base: Disk, s: State, a: Label)
    requires Inv(l, base, s) && (a.LogWrite? || a.Change? || a.BeginOp? || a.EndOp?)
    requires Enabled(l, s, a) && !Panics(l, s, a)
    ensures s.phase.Running? && Shape(l, s) && |base| == l.total
  {
  }

  lemma CacheCommits(l: Layout, base: Disk, s: State)
    requires Inv(l, base, s) && CacheIsHistory(l, base, s) && Enabled(l, s, CommitBlock)
    ensures CacheIsHistory(l, base, Next(l, s, CommitBlock))
  {
    var w := CommitWrite(l, s.cache, s.lh, s.phase.k);
    assert CommitInv(l, base, s);
    var n, k := |s.lh|, s.phase.k;
    if n < k <= 2 * n {
      assert l.Home(s.lh[k - n - 1]);
      assert s.cache[l.Slot(k - n - 1)] == Replay(base, s.history)[s.lh[k - n - 1]];
    }
    assert l.InLog(w.b) || w.data == Replay(base, s.history)[w.b];
  }

  lemma CacheStep(l: Layout, base: Disk, s: State, a: Label)
    requires Inv(l, base, s) && Enabled(l, s, a) && !Panics(l, s, a) && CacheIsHistory(l, base, s)
    ensures CacheIsHistory(l, base, Next(l, s, a)) <==> !ChangesOutside(s, a)
  {
    if a.LogWrite? || a.Change? || a.BeginOp? || a.EndOp? {
      CacheWrites(l, base, s, a);
    } else if a.CommitBlock? {
      CacheCommits(l, base, s);
    } else if a.Reread? && !s.phase.Recovering? {
      DiskOutside(l, base, s, a.b);
    } else if a.RecoverEnd? {
      RecoverEnds(l, Replay(base, s.history), s.lh, s.disk);
    }
  }

  /** The cache agrees with the history in all states if and only if no block outside the group was left changed. */
  lemma CacheIffNoneOutside(l: Layout, base: Disk, ss: seq<State>, labels: seq<Label>)
    requires IsRun(l, base, ss, labels)
    ensures (forall k {:trigger CacheIsHistory(l, base, ss[k])} ::
               0 <= k <= |labels| ==> CacheIsHistory(l, base, ss[k]))
      <==> forall j {:trigger labels[j]} :: 0 <= j < |labels| ==> !ChangesOutside(ss[j], labels[j])
  {
    hide CacheIsHistory, ChangesOutside, Inv, Next;
    if forall j {:trigger labels[j]} :: 0 <= j < |labels| ==> !ChangesOutside(ss[j], labels[j]) {
      forall k | 0 <= k <= |labels|
        ensures CacheIsHistory(l, base, ss[k])
      {
        CacheAlways(l, base, ss, labels, k);
      }
    } else {
      var j :| 0 <= j < |labels| && ChangesOutside(ss[j], labels[j]);
      InvAt(l, base, ss, labels, j);
      StepAt(l, base, ss, labels, j);
      if CacheIsHistory(l, base, ss[j]) {
        CacheStep(l, base, ss[j], labels[j]);
        assert !CacheIsHistory(l, base, ss[j + 1]);
      }
    }
  }

  lemma {:induction false} CacheAlways(l: Layout, base: Disk, ss: seq<State>, labels: seq<Label>, k: nat)
    requires IsRun(l, base, ss, labels) && k <= |labels|
    requires forall j :: 0 <= j < k ==> !ChangesOutside(ss[j], labels[j])
    ensures CacheIsHistory(l, base, ss[k])
  {
    hide ChangesOutside, Inv, Next;
    if k > 0 {
      CacheAlways(l, base, ss, labels, k - 1);
      InvAt(l, base, ss, labels, k - 1);
      StepAt(l, base, ss, labels, k - 1);
      CacheStep(l, base, ss[k - 1], labels[k - 1]);
    }
  }
}
