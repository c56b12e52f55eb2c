/**
 Whole runs of the log of kernel/log.c: any number of file-system operations
 interleave begin_op, log_write and end_op, the last one out commits block by
 block, and the machine may crash between any two block writes, including
 during recovery. An operation may also leave a cached block changed without
 log_write, as writei() does when a copy fails. `history` records what the
 operations did and `durable` how much of it the disk is bound to keep.
 */
module GroupCommit {
  import opened LogFormat
  import opened LogCommit

  datatype Event =
    | Begin(op: nat)
    | Logged(op: nat, b: nat, data: Block)
    | Left(op: nat, b: nat, data: Block)    // changed without log_write, in a block that the open group has logged
    | End(op: nat)

  datatype Phase =
    | Running
    | Committing(k: nat, before: Disk)  // k block writes of commit() are done
    | Recovering(k: nat)                // k block writes of recover_from_log() are done

  /** An operation between begin_op and end_op, with the distinct blocks it has logged. */
  datatype Op = Op(id: nat, blocks: set<nat>)

  datatype State = State(
    disk: Disk,
    cache: Disk,
    lh: seq<nat>,
    outstanding: int,
    committing: bool,
    phase: Phase,
    active: seq<Op>,
    history: seq<Event>,
    durable: nat)

  datatype Label =
    | BeginOp(id: nat)
    | LogWrite(i: nat, b: nat, data: Block)
    | Change(i: nat, b: nat, data: Block)   // the buffer is changed and released, without log_write
    | Reread(b: nat)                        // a buffer that is not pinned is recycled and the block read again
    | EndOp(i: nat)
    | CommitBlock
    | CommitEnd
    | Crash
    | RecoverBlock
    | RecoverEnd

  /** begin_op sleeps: a commit is running, or this operation might exhaust the log. */
  predicate MustWait(n: nat, outstanding: int, committing: bool) {
    committing || n + (outstanding + 1) * MAXOPBLOCKS > LOGSIZE
  }

  /** log_write's "too big a transaction", tested before looking for the block in the header. */
  predicate TooBig(l: Layout, n: nat) {
    n >= LOGSIZE || n >= l.size - 1
  }

  /** log_write's effect on the header: absorbed, or appended. */
  function Absorb(lh: seq<nat>, b: nat): (r: seq<nat>) {
    if b in lh then lh else lh + [b]
  }

  predicate Shape(l: Layout, s: State) {
    && l.Valid() && l.HeadOk(s.lh)
    && |s.disk| == |s.cache| == l.total
    && s.durable <= |s.history|
  }

  /** The step would panic in the source. */
  predicate Panics(l: Layout, s: State, a: Label) {
    match a
    case LogWrite(_, _, _) => TooBig(l, |s.lh|) || s.outstanding < 1
    case EndOp(_) => s.committing
    case _ => false
  }

  predicate Enabled(l: Layout, s: State, a: Label) {
    match a
    case BeginOp(id) => !s.phase.Recovering? && !MustWait(|s.lh|, s.outstanding, s.committing)
                        && forall e :: e in s.history ==> e.op != id
    case LogWrite(i, b, _) => i < |s.active| && l.Home(b)
    case Change(i, b, _) => i < |s.active| && l.Home(b)
    case Reread(b) => l.Home(b) && b !in s.lh
    case EndOp(i) => i < |s.active|
    case CommitBlock => s.phase.Committing? && s.phase.k < CommitLength(|s.lh|)
    case CommitEnd => s.phase.Committing? && s.phase.k == CommitLength(|s.lh|)
    case Crash => true
    case RecoverBlock => s.phase.Recovering? && s.phase.k <= |s.lh|
    case RecoverEnd => s.phase.Recovering? && s.phase.k == |s.lh| + 1
  }

  function Next(l: Layout, s: State, a: Label): (t: State)
    requires Shape(l, s) && Enabled(l, s, a) && !Panics(l, s, a)
  {
    match a
    case BeginOp(id) =>
      s.(outstanding := s.outstanding + 1, active := s.active + [Op(id, {})], history := s.history + [Begin(id)])
    case LogWrite(i, b, data) =>
      var op := s.active[i];
      s.(cache := s.cache[b := data],
         lh := Absorb(s.lh, b),
         active := s.active[i := op.(blocks := op.blocks + {b})],
         history := s.history + [Logged(op.id, b, data)])
    case Change(i, b, data) =>
      var t := s.(cache := s.cache[b := data]);
      if b in s.lh then t.(history := s.history + [Left(s.active[i].id, b, data)]) else t
    case Reread(b) => s.(cache := s.cache[b := s.disk[b]])
    case EndOp(i) =>
      var t := s.(outstanding := s.outstanding - 1,
                  active := s.active[..i] + s.active[i + 1..],
                  history := s.history + [End(s.active[i].id)]);
      if t.outstanding == 0 then t.(committing := true, phase := Committing(0, s.disk)) else t
    case CommitBlock =>
      var k := s.phase.k;
      var w := CommitWrite(l, s.cache, s.lh, k);
      s.(disk := s.disk[w.b := w.data], cache := s.cache[w.b := w.data],
         phase := s.phase.(k := k + 1),
         durable := if k == |s.lh| then |s.history| else s.durable)
    case CommitEnd =>
      s.(lh := [], committing := false, phase := Running, durable := |s.history|)
    case Crash =>
      s.(cache := s.disk, lh := Head(s.disk[l.start]), outstanding := 0, committing := false,
         phase := Recovering(0), active := [], history := s.history[..s.durable])
    case RecoverBlock =>
      var w := RecoverWrite(l, s.disk, s.lh, s.phase.k);
      s.(disk := s.disk[w.b := w.data], cache := s.cache[w.b := w.data], phase := Recovering(s.phase.k + 1))
    case RecoverEnd =>
      s.(lh := [], phase := Running)
  }

  /** The event gives a block new contents that the next commit makes durable. */
  predicate Writes(e: Event) {
    e.Logged? || e.Left?
  }

  /** The home contents after all that a history did to blocks of the log, in order. */
  function Replay(base: Disk, h: seq<Event>): (d: Disk)
    ensures |d| == |base|
  {
    if h == [] then base
    else
      var d := Replay(base, h[..|h| - 1]);
      var e := h[|h| - 1];
      if Writes(e) && e.b < |d| then d[e.b := e.data] else d
  }

  /** The home contents after the logged writes alone. */
  function LoggedReplay(base: Disk, h: seq<Event>): (d: Disk)
    ensures |d| == |base|
  {
    if h == [] then base
    else
      var d := LoggedReplay(base, h[..|h| - 1]);
      var e := h[|h| - 1];
      if e.Logged? && e.b < |d| then d[e.b := e.data] else d
  }

  function Init(base: Disk): (s: State) {
    State(base, base, [], 0, false, Running, [], [], 0)
  }

  ghost predicate IsRun(l: Layout, base: Disk, ss: seq<State>, labels: seq<Label>) {
    && l.Valid() && |base| == l.total && Head(base[l.start]) == []
    && |ss| == |labels| + 1
    && ss[0] == Init(base)
    && forall i :: 0 <= i < |labels| ==> IsStep(l, ss[i], labels[i], ss[i + 1])
  }

  ghost predicate IsStep(l: Layout, s: State, a: Label, t: State) {
    Shape(l, s) && Enabled(l, s, a) && !Panics(l, s, a) && t == Next(l, s, a)
  }

  // ----- The invariant -----

  /** The bookkeeping of operations in progress. */
  ghost predicate OpsInv(l: Layout, s: State) {
    && s.outstanding == |s.active|
    && (s.committing <==> s.phase.Committing?)
    && (!s.phase.Running? ==> s.active == [])
  }

  ghost predicate IsActive(s: State, id: nat) {
    exists j :: 0 <= j < |s.active| && s.active[j].id == id
  }

  /** Operations are never split by the durable boundary, and those before it have ended. */
  ghost predicate GroupInv(s: State) {
    && s.durable <= |s.history|
    && (forall i :: 0 <= i < s.durable ==> !IsActive(s, s.history[i].op))
    && (forall i, j :: 0 <= i < s.durable <= j < |s.history| ==> s.history[i].op != s.history[j].op)
    && (forall i :: 0 <= i < s.durable ==> End(s.history[i].op) in s.history[..s.durable])
    && (forall i :: 0 <= i < |s.history| ==> IsActive(s, s.history[i].op) || End(s.history[i].op) in s.history)
  }

  /** Every home block written since the boundary is in the header. */
  ghost predicate PendingInv(s: State) {
    s.durable <= |s.history| &&
    forall i :: s.durable <= i < |s.history| && Writes(s.history[i]) ==> s.history[i].b in s.lh
  }

  /** No block is being written by commit or recovery. */
  ghost predicate QuietInv(l: Layout, base: Disk, s: State)
    requires Shape(l, s) && |base| == l.total
  {
    && Head(s.disk[l.start]) == [] && s.cache[l.start] == s.disk[l.start]
    && CacheHas(Replay(base, s.history), s.lh, s.cache)
    && SameHome(l, s.disk, Replay(base, s.history[..s.durable]))
    && PendingInv(s)
  }

  ghost predicate CommitInv(l: Layout, base: Disk, s: State)
    requires Shape(l, s) && |base| == l.total && s.phase.Committing?
  {
    var image := Replay(base, s.history);
    && CommitAt(l, s.phase.before, image, s.lh, s.phase.k, s.disk, s.cache)
    && (forall b :: l.Home(b) && b !in s.lh ==> s.phase.before[b] == image[b])
    && (s.phase.k <= |s.lh| ==> SameHome(l, s.phase.before, Replay(base, s.history[..s.durable])) && PendingInv(s))
    && (s.phase.k > |s.lh| ==> s.durable == |s.history|)
  }

  ghost predicate RecoverInv(l: Layout, base: Disk, s: State)
    requires Shape(l, s) && |base| == l.total && s.phase.Recovering?
  {
    && s.durable == |s.history|
    && s.cache == s.disk
    && RecoverAt(l, Replay(base, s.history), s.lh, s.phase.k, s.disk)
  }

  ghost predicate DataInv(l: Layout, base: Disk, s: State)
    requires Shape(l, s) && |base| == l.total
  {
    match s.phase
    case Running => QuietInv(l, base, s)
    case Committing(k, _) => if s.lh == [] then k == 0 && QuietInv(l, base, s) else CommitInv(l, base, s)
    case Recovering(k) => RecoverInv(l, base, s)
  }

  ghost predicate Inv(l: Layout, base: Disk, s: State) {
    && |base| == l.total
    && Shape(l, s)
    && OpsInv(l, s)
    && GroupInv(s)
    && (s.phase.Running? && s.outstanding == 0 ==> s.durable == |s.history|)
    && DataInv(l, base, s)
  }
}
