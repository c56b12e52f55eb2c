/**
 The buffer cache of kernel/bio.c with the pinning of kernel/log.c, as a state
 machine of concurrent threads. A step is one section under bcache.lock, one
 operation of the holder of a buffer, or one disk transfer.
 */
module BufCache {
  import opened ProcTypes

  /** A block of a device. */
  datatype Key = Key(dev: nat, blockno: nat)

  /** The contents of a block, of which only equality matters here. */
  type Data = nat

  datatype Buf = Buf(valid: bool, key: Key, refcnt: nat, lock: Option<nat>, data: Data)

  /** Where a thread is. */
  datatype Pc =
    | Idle
    | WantLock(b: nat, key: Key)            // bget(): reference taken, sleep lock wanted
    | Holding(b: nat, key: Key, dirty: bool) // sleep lock held; dirty: changed, not yet logged or written
    | Releasing(b: nat, key: Key)           // brelse(): sleep lock released, reference not yet

  /**
   ring lists the buffers from most to least recently released, moved gives the
   times. pinned maps the blocks of the uncommitted log to their buffers. view
   is the latest contents logged or written, for every block.
   */
  datatype State = State(bufs: seq<Buf>, ring: seq<nat>, moved: seq<nat>, now: nat,
                         disk: map<Key, Data>, view: map<Key, Data>, pinned: map<Key, nat>, threads: seq<Pc>)
  {
    predicate IsBuf(b: int) {
      0 <= b < |bufs| && b < |moved|
    }

    predicate IsThread(t: int) {
      0 <= t < |threads|
    }

    predicate IsKey(k: Key) {
      k.dev != 0 && k in disk && k in view
    }

    function With(b: nat, x: Buf): State
      requires IsBuf(b)
    {
      this.(bufs := bufs[b := x])
    }

    function At(t: nat, pc: Pc): State
      requires IsThread(t)
    {
      this.(threads := threads[t := pc])
    }
  }

  datatype Label =
    | Hit(t: nat, key: Key, i: nat)         // bget(): ring[i] caches the block
    | Recycle(t: nat, key: Key, i: nat)     // bget(): ring[i] is the last unreferenced buffer
    | Lock(t: nat)                          // acquiresleep(&b->lock)
    | Fill(t: nat)                          // bread(): read from disk
    | Modify(t: nat, d: Data)               // the holder changes b->data
    | LogWrite(t: nat)                      // log_write()
    | Bwrite(t: nat)                        // bwrite()
    | Install(t: nat)                       // install_trans(): bwrite() and bunpin()
    | Unlock(t: nat)                        // brelse(): releasesleep(&b->lock), also of a changed buffer
    | Deref(t: nat)                         // brelse(): refcnt--

  predicate IsGet(a: Label) {
    a.Hit? || a.Recycle?
  }

  predicate IsHold(a: Label) {
    a.Lock? || a.Fill? || a.Modify? || a.LogWrite? || a.Bwrite? || a.Install?
  }

  // ----- Steps -----

  ghost predicate GetEnabled(s: State, a: Label)
    requires IsGet(a)
  {
    && s.IsThread(a.t) && s.threads[a.t].Idle? && s.IsKey(a.key)
    && a.i < |s.ring| && s.IsBuf(s.ring[a.i])
    && (if a.Hit? then
          && s.bufs[s.ring[a.i]].key == a.key
          && (forall j :: 0 <= j < a.i && s.IsBuf(s.ring[j]) ==> s.bufs[s.ring[j]].key != a.key)
        else
          && (forall j :: 0 <= j < |s.ring| && s.IsBuf(s.ring[j]) ==> s.bufs[s.ring[j]].key != a.key)
          && s.bufs[s.ring[a.i]].refcnt == 0
          && (forall j :: a.i < j < |s.ring| && s.IsBuf(s.ring[j]) ==> s.bufs[s.ring[j]].refcnt != 0))
  }

  ghost function GetNext(s: State, a: Label): (r: State)
    requires IsGet(a) && GetEnabled(s, a)
  {
    var b := s.ring[a.i];
    if a.Hit? then s.With(b, s.bufs[b].(refcnt := s.bufs[b].refcnt + 1)).At(a.t, WantLock(b, a.key))
    else s.With(b, s.bufs[b].(valid := false, key := a.key, refcnt := 1)).At(a.t, WantLock(b, a.key))
  }

  ghost predicate HoldEnabled(s: State, a: Label)
    requires IsHold(a)
  {
    && s.IsThread(a.t)
    && var pc := s.threads[a.t];
    match a
    case Lock(t) => pc.WantLock? && s.IsBuf(pc.b) && s.bufs[pc.b].lock.None?
    case Fill(t) => pc.Holding? && s.IsBuf(pc.b) && !s.bufs[pc.b].valid && s.bufs[pc.b].key in s.disk
    case Modify(t, d) => pc.Holding? && s.IsBuf(pc.b) && s.bufs[pc.b].valid
    case LogWrite(t) => pc.Holding? && s.IsBuf(pc.b) && s.bufs[pc.b].valid
    case Bwrite(t) => pc.Holding? && s.IsBuf(pc.b) && s.bufs[pc.b].valid && s.bufs[pc.b].key !in s.pinned
    case Install(t) =>
      && pc.Holding? && !pc.dirty && s.IsBuf(pc.b) && s.bufs[pc.b].valid
      && s.bufs[pc.b].key in s.pinned && s.bufs[pc.b].refcnt > 0
  }

  ghost function HoldNext(s: State, a: Label): (r: State)
    requires IsHold(a) && HoldEnabled(s, a)
  {
    var b := s.threads[a.t].b;
    var x, key := s.bufs[b], s.threads[a.t].key;
    match a
    case Lock(t) => s.With(b, x.(lock := Some(t))).At(t, Holding(b, key, false))
    case Fill(t) => s.With(b, x.(valid := true, data := s.disk[x.key]))
    case Modify(t, d) => s.With(b, x.(data := d)).At(t, Holding(b, key, true))
    case LogWrite(t) =>
      // absorption: a block already in the log is not pinned again
      var p := if x.key in s.pinned then s else s.With(b, x.(refcnt := x.refcnt + 1)).(pinned := s.pinned[x.key := b]);
      p.At(t, Holding(b, key, false)).(view := s.view[x.key := x.data])
    case Bwrite(t) => s.At(t, Holding(b, key, false)).(disk := s.disk[x.key := x.data], view := s.view[x.key := x.data])
    case Install(t) =>
      s.With(b, x.(refcnt := x.refcnt - 1)).(disk := s.disk[x.key := x.data], pinned := s.pinned - {x.key})
  }

  /** The ring with b moved to its head. */
  function ToFront(ring: seq<nat>, b: nat): (r: seq<nat>) {
    [b] + Without(ring, b)
  }

  function Without(ring: seq<nat>, b: nat): (r: seq<nat>) {
    if ring == [] then [] else if ring[0] == b then Without(ring[1..], b) else [ring[0]] + Without(ring[1..], b)
  }

  ghost predicate ReleaseEnabled(s: State, a: Label)
    requires a.Unlock? || a.Deref?
  {
    && s.IsThread(a.t)
    && var pc := s.threads[a.t];
    if a.Unlock? then pc.Holding? && s.IsBuf(pc.b)
    else pc.Releasing? && s.IsBuf(pc.b) && s.bufs[pc.b].refcnt > 0
  }

  ghost function ReleaseNext(s: State, a: Label): (r: State)
    requires (a.Unlock? || a.Deref?) && ReleaseEnabled(s, a)
  {
    var b := s.threads[a.t].b;
    var x := s.bufs[b];
    if a.Unlock? then s.With(b, x.(lock := None)).At(a.t, Releasing(b, s.threads[a.t].key))
    else
      var r := s.With(b, x.(refcnt := x.refcnt - 1)).At(a.t, Idle);
      if x.refcnt == 1 then r.(ring := ToFront(s.ring, b), moved := s.moved[b := s.now], now := s.now + 1) else r
  }

  ghost predicate Enabled(s: State, a: Label) {
    if IsGet(a) then GetEnabled(s, a) else if IsHold(a) then HoldEnabled(s, a) else ReleaseEnabled(s, a)
  }

  ghost function Next(s: State, a: Label): (r: State)
    requires Enabled(s, a)
  {
    if IsGet(a) then GetNext(s, a) else if IsHold(a) then HoldNext(s, a) else ReleaseNext(s, a)
  }

  /** brelse() of a buffer whose contents are neither those last logged nor those last written. */
  ghost predicate StrayRelease(s: State, a: Label) {
    && a.Unlock? && ReleaseEnabled(s, a)
    && var x := s.bufs[s.threads[a.t].b];
    x.valid && x.key in s.view && x.data != s.view[x.key]
  }

  /** install_trans() of such contents. */
  ghost predicate StrayInstall(s: State, a: Label) {
    && a.Install? && HoldEnabled(s, a)
    && var x := s.bufs[s.threads[a.t].b];
    x.key in s.view && x.data != s.view[x.key]
  }

  /** binit(): all buffers zeroed, unreferenced, each put at the head of the ring in turn. */
  ghost predicate Init(s: State) {
    && |s.moved| == |s.bufs| == |s.ring| == s.now
    && (forall b :: 0 <= b < |s.bufs| ==> s.bufs[b] == Buf(false, Key(0, 0), 0, None, 0) && s.moved[b] == b)
    && (forall i :: 0 <= i < |s.ring| ==> s.ring[i] == |s.ring| - 1 - i)
    && s.view == s.disk && s.pinned == map[]
    && (forall t :: 0 <= t < |s.threads| ==> s.threads[t].Idle?)
  }

  ghost predicate IsStep(s: State, a: Label, r: State) {
    Enabled(s, a) && r == Next(s, a)
  }

  ghost predicate IsRun(ss: seq<State>, labels: seq<Label>) {
    && |ss| == |labels| + 1
    && Init(ss[0])
    && forall k :: 0 <= k < |labels| ==> IsStep(ss[k], labels[k], ss[k + 1])
  }
}
