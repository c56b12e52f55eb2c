/**
 Log space. begin_op reserves MAXOPBLOCKS blocks per operation, but log_write
 panics one block before the 30-block log of mkfs is full, and does so even for
 a block that would be absorbed. So how many distinct blocks may an operation
 log? The answer is nine: with ten a run that keeps every rule still panics.
 */
module LogReservation {
  import opened LogFormat
  import opened LogCommit
  import opened GroupCommit
  import GroupCommitRuns

  /** The layout mkfs writes: boot block, superblock, 30 log blocks, 2000 blocks in all. */
  const MKFS_LAYOUT := Layout(2, 30, 2000)

  /** No operation of the run ever logs more than `budget` distinct blocks. */
  ghost predicate Budgeted(ss: seq<State>, labels: seq<Label>, budget: nat) {
    |ss| == |labels| + 1 &&
    forall k :: 0 <= k < |labels| ==> WithinBudget(ss[k], labels[k], budget)
  }

  ghost predicate WithinBudget(s: State, a: Label, budget: nat) {
    a.LogWrite? && a.i < |s.active| ==> |s.active[a.i].blocks + {a.b}| <= budget
  }

  /** Blocks the operations in progress have reserved and not yet used. */
  function Unspent(active: seq<Op>): (r: int) {
    if active == [] then 0
    else Unspent(active[..|active| - 1]) + MAXOPBLOCKS - |active[|active| - 1].blocks|
  }

  lemma {:induction false} UnspentUpdate(active: seq<Op>, i: nat, op: Op)
    requires i < |active|
    ensures Unspent(active[i := op]) == Unspent(active) + |active[i].blocks| - |op.blocks|
  {
    var n := |active| - 1;
    if i < n {
      UnspentUpdate(active[..n], i, op);
      assert active[i := op][..n] == active[..n][i := op];
    } else {
      assert active[i := op][..n] == active[..n];
    }
  }

  lemma {:induction false} UnspentRemove(active: seq<Op>, i: nat)
    requires i < |active|
    ensures Unspent(active[..i] + active[i + 1..]) == Unspent(active) - MAXOPBLOCKS + |active[i].blocks|
  {
    var n := |active| - 1;
    var rest := active[..i] + active[i + 1..];
    if i < n {
      UnspentRemove(active[..n], i);
      assert rest[..n - 1] == active[..n][..i] + active[..n][i + 1..];
      assert rest[n - 1] == active[n];
    } else {
      assert rest == active[..n];
    }
  }

  /** With every operation below its budget, each has between 10 - budget and 10 blocks left. */
  lemma {:induction false} UnspentBounds(active: seq<Op>, budget: nat)
    requires budget <= MAXOPBLOCKS
    requires forall i :: 0 <= i < |active| ==> |active[i].blocks| <= budget
    ensures |active| * (MAXOPBLOCKS - budget) <= Unspent(active) <= |active| * MAXOPBLOCKS
  {
    if active != [] {
      var n := |active| - 1;
      UnspentBounds(active[..n], budget);
      assert |active| * (MAXOPBLOCKS - budget) == n * (MAXOPBLOCKS - budget) + (MAXOPBLOCKS - budget);
    }
  }

  /**
   While operations run, header blocks plus unspent reservations fit in the
   log, with one block to spare when a single operation is left.
   */
  ghost predicate Reserved(s: State, budget: nat) {
    && s.outstanding == |s.active|
    && (!s.phase.Running? ==> s.active == [])
    && (s.committing <==> s.phase.Committing?)
    && (s.phase.Running? && s.active == [] ==> s.lh == [])
    && (forall i :: 0 <= i < |s.active| ==> |s.active[i].blocks| <= budget)
    && (forall i, b :: 0 <= i < |s.active| && b in s.active[i].blocks ==> b in s.lh)
    && (s.active != [] ==> |s.lh| + Unspent(s.active) <= if |s.active| == 1 then LOGSIZE - 1 else LOGSIZE)
  }

  lemma ReservedBegin(l: Layout, s: State, id: nat, budget: nat)
    requires Shape(l, s) && Enabled(l, s, BeginOp(id)) && Reserved(s, budget) && budget <= MAXOPBLOCKS
    ensures Reserved(Next(l, s, BeginOp(id)), budget)
  {
    var t := Next(l, s, BeginOp(id));
    UnspentBounds(s.active, budget);
    assert Unspent(t.active) == Unspent(s.active) + MAXOPBLOCKS by {
      assert t.active[..|s.active|] == s.active;
    }
  }

  lemma ReservedLog(l: Layout, s: State, a: Label, budget: nat)
    requires Shape(l, s) && a.LogWrite? && Enabled(l, s, a) && !Panics(l, s, a)
    requires Reserved(s, budget) && WithinBudget(s, a, budget)
    ensures Reserved(Next(l, s, a), budget)
  {
    var t := Next(l, s, a);
    var op := s.active[a.i];
    UnspentUpdate(s.active, a.i, op.(blocks := op.blocks + {a.b}));
    if a.b !in s.lh {
      assert a.b !in op.blocks;
      assert |op.blocks + {a.b}| == |op.blocks| + 1;
    } else {
      assert op.blocks <= op.blocks + {a.b};
      CardGrows(op.blocks, a.b);
    }
  }

  lemma CardGrows(s: set<nat>, b: nat)
    ensures |s| <= |s + {b}|
  {
    if b in s {
      assert s + {b} == s;
    }
  }

  lemma ReservedEnd(l: Layout, s: State, i: nat, budget: nat)
    requires Shape(l, s) && Enabled(l, s, EndOp(i)) && !Panics(l, s, EndOp(i))
    requires Reserved(s, budget) && budget < MAXOPBLOCKS
    ensures Reserved(Next(l, s, EndOp(i)), budget)
  {
    UnspentRemove(s.active, i);
  }

  /** Every step within a budget below MAXOPBLOCKS keeps the reservation. */
  lemma ReservedStep(l: Layout, s: State, a: Label, budget: nat)
    requires Shape(l, s) && Enabled(l, s, a) && !Panics(l, s, a)
    requires Reserved(s, budget) && WithinBudget(s, a, budget) && budget < MAXOPBLOCKS
    ensures Reserved(Next(l, s, a), budget)
  {
    match a
    case BeginOp(id) => ReservedBegin(l, s, id, budget);
    case LogWrite(_, _, _) => ReservedLog(l, s, a, budget);
    case EndOp(i) => ReservedEnd(l, s, i, budget);
    case _ =>
  }

  lemma {:induction false} ReservedOverRuns(l: Layout, base: Disk, ss: seq<State>, labels: seq<Label>, budget: nat)
    requires IsRun(l, base, ss, labels) && Budgeted(ss, labels, budget) && budget < MAXOPBLOCKS
    ensures Reserved(ss[|labels|], budget)
    decreases |labels|
  {
    if |labels| > 0 {
      var n := |labels| - 1;
      ReservedOverRuns(l, base, ss[..n + 1], labels[..n], budget);
      assert IsStep(l, ss[n], labels[n], ss[n + 1]);
      assert WithinBudget(ss[n], labels[n], budget);
      ReservedStep(l, ss[n], labels[n], budget);
    }
  }

  lemma AtLeastOnce(n: nat, k: nat)
    requires k >= 1
    ensures n <= n * k
  {
  }

  /** With a budget below MAXOPBLOCKS no operation can meet "too big a transaction". */
  lemma NineIsEnough(base: Disk, ss: seq<State>, labels: seq<Label>, budget: nat)
    requires IsRun(MKFS_LAYOUT, base, ss, labels) && Budgeted(ss, labels, budget) && budget < MAXOPBLOCKS
    requires ss[|labels|].active != []
    ensures !TooBig(MKFS_LAYOUT, |ss[|labels|].lh|)
  {
    var s := ss[|labels|];
    ReservedOverRuns(MKFS_LAYOUT, base, ss, labels, budget);
    hide IsRun, Budgeted, Unspent;
    UnspentBounds(s.active, budget);
    AtLeastOnce(|s.active|, MAXOPBLOCKS - budget);
  }

  // ----- Ten is too many -----

  lemma ExtendRun(base: Disk, ss: seq<State>, labels: seq<Label>, a: Label)
    returns (ss': seq<State>, labels': seq<Label>)
    requires IsRun(MKFS_LAYOUT, base, ss, labels) && Budgeted(ss, labels, 10)
    requires var s := ss[|labels|];
      Enabled(MKFS_LAYOUT, s, a) && !Panics(MKFS_LAYOUT, s, a) && WithinBudget(s, a, 10)
    ensures IsRun(MKFS_LAYOUT, base, ss', labels') && Budgeted(ss', labels', 10)
    ensures Shape(MKFS_LAYOUT, ss[|labels|]) && ss'[|labels'|] == Next(MKFS_LAYOUT, ss[|labels|], a)
  {
    var s := ss[|labels|];
    GroupCommitRuns.InvAt(MKFS_LAYOUT, base, ss, labels, |labels|);
    ss', labels' := ss + [Next(MKFS_LAYOUT, s, a)], labels + [a];
    forall i | 0 <= i < |labels'|
      ensures IsStep(MKFS_LAYOUT, ss'[i], labels'[i], ss'[i + 1]) && WithinBudget(ss'[i], labels'[i], 10)
    {
      if i < |labels| {
        assert IsStep(MKFS_LAYOUT, ss[i], labels[i], ss[i + 1]) && WithinBudget(ss[i], labels[i], 10);
      }
    }
  }

  /** A state in which operations run, the header holds n blocks, all of them in [33, 33 + n). */
  ghost predicate Filled(s: State, n: nat, ids: nat) {
    && s.phase.Running? && !s.committing && s.outstanding == |s.active|
    && |s.lh| == n && (forall b :: b in s.lh ==> 33 <= b < 33 + n)
    && (forall e :: e in s.history ==> e.op < ids)
    && (forall j :: 0 <= j < |s.active| ==> s.active[j].id < ids)
  }

  /** An operation that has logged nothing logs m blocks nobody has logged. */
  lemma {:induction false} LogMany(base: Disk, ss: seq<State>, labels: seq<Label>, i: nat, n: nat, ids: nat, m: nat)
    returns (ss': seq<State>, labels': seq<Label>)
    requires IsRun(MKFS_LAYOUT, base, ss, labels) && Budgeted(ss, labels, 10)
    requires Filled(ss[|labels|], n, ids) && i < |ss[|labels|].active| && ss[|labels|].active[i].blocks == {}
    requires n + m <= 29 && m <= 10
    ensures IsRun(MKFS_LAYOUT, base, ss', labels') && Budgeted(ss', labels', 10)
    ensures var s, t := ss[|labels|], ss'[|labels'|];
      && Filled(t, n + m, ids) && |t.active| == |s.active|
      && |t.active[i].blocks| == m && (forall b :: b in t.active[i].blocks ==> b in t.lh)
      && (forall j :: 0 <= j < |s.active| && j != i ==> t.active[j] == s.active[j])
  {
    if m == 0 {
      ss', labels' := ss, labels;
    } else {
      ss', labels' := LogMany(base, ss, labels, i, n, ids, m - 1);
      var s := ss'[|labels'|];
      var b := 33 + (n + m - 1);
      assert b !in s.lh && b !in s.active[i].blocks;
      var a := LogWrite(i, b, base[0]);
      assert MKFS_LAYOUT.Home(b);
      ss', labels' := ExtendRun(base, ss', labels', a);
      LogOne(s, a, n + m - 1, ids);
    }
  }

  lemma LogOne(s: State, a: Label, n: nat, ids: nat)
    requires Shape(MKFS_LAYOUT, s) && Filled(s, n, ids) && n < 29
    requires a.LogWrite? && a.i < |s.active| && a.b == 33 + n && MKFS_LAYOUT.Home(a.b)
    requires forall b :: b in s.active[a.i].blocks ==> b in s.lh
    requires !Panics(MKFS_LAYOUT, s, a)
    ensures var t := Next(MKFS_LAYOUT, s, a);
      && Filled(t, n + 1, ids) && |t.active| == |s.active|
      && |t.active[a.i].blocks| == |s.active[a.i].blocks| + 1
      && (forall b :: b in t.active[a.i].blocks ==> b in t.lh)
      && (forall j :: 0 <= j < |s.active| && j != a.i ==> t.active[j] == s.active[j])
  {
    assert a.b !in s.lh && a.b !in s.active[a.i].blocks;
  }

  lemma BeginOne(base: Disk, ss: seq<State>, labels: seq<Label>, n: nat, ids: nat)
    returns (ss': seq<State>, labels': seq<Label>)
    requires IsRun(MKFS_LAYOUT, base, ss, labels) && Budgeted(ss, labels, 10)
    requires Filled(ss[|labels|], n, ids) && n + (|ss[|labels|].active| + 1) * MAXOPBLOCKS <= LOGSIZE
    ensures IsRun(MKFS_LAYOUT, base, ss', labels') && Budgeted(ss', labels', 10)
    ensures Filled(ss'[|labels'|], n, ids + 1)
    ensures ss'[|labels'|].active == ss[|labels|].active + [Op(ids, {})]
  {
    ss', labels' := ExtendRun(base, ss, labels, BeginOp(ids));
  }

  lemma EndOne(base: Disk, ss: seq<State>, labels: seq<Label>, n: nat, ids: nat)
    returns (ss': seq<State>, labels': seq<Label>)
    requires IsRun(MKFS_LAYOUT, base, ss, labels) && Budgeted(ss, labels, 10)
    requires Filled(ss[|labels|], n, ids) && |ss[|labels|].active| == 2
    ensures IsRun(MKFS_LAYOUT, base, ss', labels') && Budgeted(ss', labels', 10)
    ensures Filled(ss'[|labels'|], n, ids)
    ensures ss'[|labels'|].active == ss[|labels|].active[..1]
  {
    ss', labels' := ExtendRun(base, ss, labels, EndOp(1));
  }

  /** Two more operations of ten blocks come and go while the first one waits; then it is one block short. */
  lemma TenIsTooMany(base: Disk) returns (ss: seq<State>, labels: seq<Label>)
    requires |base| == MKFS_LAYOUT.total && Head(base[MKFS_LAYOUT.start]) == []
    ensures IsRun(MKFS_LAYOUT, base, ss, labels) && Budgeted(ss, labels, 10)
    ensures var s := ss[|labels|]; |s.active| == 1 && |s.active[0].blocks| == 9 && TooBig(MKFS_LAYOUT, |s.lh|)
  {
    ss, labels := [Init(base)], [];
    assert Filled(ss[0], 0, 0);
    ss, labels := BeginOne(base, ss, labels, 0, 0);
    ss, labels := BeginOne(base, ss, labels, 0, 1);
    ss, labels := LogMany(base, ss, labels, 1, 0, 2, 10);
    ss, labels := EndOne(base, ss, labels, 10, 2);
    ss, labels := BeginOne(base, ss, labels, 10, 2);
    ss, labels := LogMany(base, ss, labels, 1, 10, 3, 10);
    ss, labels := EndOne(base, ss, labels, 20, 3);
    ss, labels := LogMany(base, ss, labels, 0, 20, 3, 9);
  }

  /** In no run within the budget does an operation in progress face a log_write that panics. */
  ghost predicate NeverTooBig(budget: nat) {
    forall base: Disk, ss: seq<State>, labels: seq<Label> ::
      IsRun(MKFS_LAYOUT, base, ss, labels) && Budgeted(ss, labels, budget) && ss[|labels|].active != []
      ==> !TooBig(MKFS_LAYOUT, |ss[|labels|].lh|)
  }

  /** The exact reservation: a budget is safe if and only if it is below MAXOPBLOCKS. */
  lemma BudgetThreshold(budget: nat)
    ensures NeverTooBig(budget) <==> budget < MAXOPBLOCKS
  {
    if budget < MAXOPBLOCKS {
      forall base: Disk, ss: seq<State>, labels: seq<Label> |
        IsRun(MKFS_LAYOUT, base, ss, labels) && Budgeted(ss, labels, budget) && ss[|labels|].active != []
        ensures !TooBig(MKFS_LAYOUT, |ss[|labels|].lh|)
      {
        NineIsEnough(base, ss, labels, budget);
      }
    } else {
      var zero := Block(seq(BLOCK_WORDS, _ => 0));
      var base: Disk := seq(2000, _ => zero);
      assert Head(zero) == [];
      var ss, labels := TenIsTooMany(base);
      assert forall k :: 0 <= k < |labels| ==> WithinBudget(ss[k], labels[k], 10);
      assert Budgeted(ss, labels, budget);
      assert !NeverTooBig(budget);
    }
  }
}
