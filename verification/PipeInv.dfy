/** What every step of the pipe keeps. */
module PipeInv {
  import opened ProcTypes
  import opened Pipe

  /** The bytes process p put in, in order. */
  function By(w: seq<Sent>, p: nat): (r: seq<Byte>) {
    if w == [] then [] else By(w[..|w| - 1], p) + if w[|w| - 1].p == p then [w[|w| - 1].ch] else []
  }

  /**
   The ring: the counters count bytes modulo the width of a uint, what was taken
   is what was put in first, and data holds what is in between.
   */
  ghost predicate RingOk(s: State) {
    && |s.data| == 512 && |s.sent| == |s.procs|
    && s.nread == |s.taken| % 0x1_0000_0000 && s.nwrite == |s.written| % 0x1_0000_0000
    && |s.taken| <= |s.written| <= |s.taken| + 512
    && (forall k :: 0 <= k < |s.taken| ==> s.taken[k] == s.written[k].ch)
    && (forall k :: |s.taken| <= k < |s.written| ==> s.data[k % 512] == s.written[k].ch)
  }

  /** The holder of the lock is taking bytes out, or putting bytes in. */
  predicate Taking(s: State) {
    s.lock.Some? && s.IsProc(s.lock.value) && s.procs[s.lock.value].pc.ReadCopy?
  }

  predicate Putting(s: State) {
    && s.lock.Some? && s.IsProc(s.lock.value)
    && (s.procs[s.lock.value].pc.WriteLoop? || s.procs[s.lock.value].pc.WriteStays?)
  }

  /** The lock, the open ends and the sleeping writers. */
  predicate Local(s: State, p: nat)
    requires s.IsProc(p)
  {
    var pc := s.procs[p].pc;
    && (pc.Locking() <==> s.lock == Some(p))
    && (pc.Writing() ==> s.writeopen) && (pc.Reading() ==> s.readopen)
    && (pc.ReadStays? ==> s.writeopen && |s.written| == |s.taken|)
    && (pc.WriteStays? ==> s.readopen && |s.written| == |s.taken| + 512)
    && (pc.ReadSleeps? ==> s.writeopen)
    && (pc.WriteSleeps? ==> s.readopen && (|s.written| == |s.taken| + 512 || Taking(s)))
  }

  /** What p has put in, with the current call's bytes last; what p has taken out in the current call came out last. */
  ghost predicate Streams(s: State, p: nat)
    requires s.IsProc(p)
  {
    var pc := s.procs[p].pc;
    && By(s.written, p) == s.sent[p]
    && (pc.Writing() ==> pc.i <= |pc.bytes| && EndsWith(s.sent[p], pc.bytes[..pc.i]))
    && (pc.ReadCopy? ==> EndsWith(s.taken, pc.out))
  }

  predicate EndsWith(s: seq<Byte>, e: seq<Byte>) {
    |e| <= |s| && s[|s| - |e|..] == e
  }

  ghost predicate Inv(s: State) {
    && RingOk(s)
    && (s.lock.Some? ==> s.IsProc(s.lock.value))
    && (forall p {:trigger Local(s, p)} :: s.IsProc(p) ==> Local(s, p))
    && (forall p {:trigger Streams(s, p)} :: s.IsProc(p) ==> Streams(s, p))
  }

  /** Every sleeping reader has nothing to read, or is about to be woken. */
  ghost predicate ReadersOk(s: State) {
    forall p :: s.IsProc(p) && s.procs[p].pc.ReadSleeps? ==> |s.written| == |s.taken| || Putting(s)
  }

  // ----- The counters -----

  lemma Wraps(t: nat, w: nat)
    requires t <= w <= t + 512
    ensures w % 0x1_0000_0000 == (t % 0x1_0000_0000 + 512) % 0x1_0000_0000 <==> w == t + 512
    ensures t % 0x1_0000_0000 == w % 0x1_0000_0000 <==> w == t
  {
  }

  lemma Counts(w: nat)
    ensures (w % 0x1_0000_0000 + 1) % 0x1_0000_0000 == (w + 1) % 0x1_0000_0000
  {
  }

  lemma Slot(w: nat)
    ensures (w % 0x1_0000_0000) % 512 == w % 512
  {
    assert w % 0x1_0000_0000 == w - 0x1_0000_0000 * (w / 0x1_0000_0000);
    assert 0x1_0000_0000 * (w / 0x1_0000_0000) == 512 * (0x80_0000 * (w / 0x1_0000_0000));
  }

  lemma OtherSlot(k: nat, w: nat)
    requires k < w < k + 512
    ensures k % 512 != w % 512
  {
  }

  /** What the tests of the two loops mean. */
  lemma Tests(s: State)
    requires RingOk(s)
    ensures s.Full() <==> |s.written| == |s.taken| + 512
    ensures s.Empty() <==> |s.written| == |s.taken|
  {
    Wraps(|s.taken|, |s.written|);
  }

  // ----- The ring -----

  lemma RingPut(s: State, a: Label)
    requires RingOk(s) && a.Put? && WriteEnabled(s, a)
    ensures RingOk(WriteNext(s, a))
  {
    var r, w := WriteNext(s, a), |s.written|;
    Tests(s);
    Counts(w);
    Slot(w);
    forall k | |r.taken| <= k < |r.written|
      ensures r.data[k % 512] == r.written[k].ch
    {
      if k < w {
        OtherSlot(k, w);
      }
    }
  }

  lemma RingGet(s: State, a: Label)
    requires RingOk(s) && a.Get? && ReadEnabled(s, a)
    ensures RingOk(ReadNext(s, a)) && ReadNext(s, a).taken == s.taken + [s.written[|s.taken|].ch]
  {
    Tests(s);
    Counts(|s.taken|);
    Slot(|s.taken|);
  }

  /** The other steps leave the ring alone. */
  lemma {:induction false} RingSame(s: State, a: Label)
    requires Enabled(s, a) && !a.Put? && !a.Get?
    ensures var r := Next(s, a);
      && r.data == s.data && r.nread == s.nread && r.nwrite == s.nwrite && r.written == s.written
      && r.taken == s.taken && r.sent == s.sent && |r.procs| == |s.procs|
  {
  }

  lemma {:induction false} RingStep(s: State, a: Label)
    requires RingOk(s) && Enabled(s, a)
    ensures RingOk(Next(s, a))
  {
    if a.Put? {
      RingPut(s, a);
    } else if a.Get? {
      RingGet(s, a);
    } else {
      hide Enabled, Next;
      RingSame(s, a);
    }
  }

  // ----- The lock and the sleepers -----

  lemma LocalWrite(s: State, a: Label, p: nat)
    requires Inv(s) && IsWrite(a) && WriteEnabled(s, a) && s.IsProc(p)
    ensures Local(WriteNext(s, a), p)
  {
    assert Local(s, p) && Local(s, a.p);
    Tests(s);
    hide RingOk, Streams;
  }

  lemma LocalRead(s: State, a: Label, p: nat)
    requires Inv(s) && IsRead(a) && ReadEnabled(s, a) && s.IsProc(p)
    ensures Local(ReadNext(s, a), p)
  {
    assert Local(s, p) && Local(s, a.p);
    Tests(s);
    hide RingOk, Streams;
  }

  lemma LocalOther(s: State, a: Label, p: nat)
    requires Inv(s) && !IsWrite(a) && !IsRead(a) && OtherEnabled(s, a) && s.IsProc(p)
    ensures Local(OtherNext(s, a), p)
  {
    assert Local(s, p);
    assert a.Kill? ==> Local(s, a.p);
    assert s.lock.Some? ==> Local(s, s.lock.value);
    hide RingOk, Streams;
  }

  // ----- The streams -----

  lemma ByPut(w: seq<Sent>, x: Sent, p: nat)
    ensures By(w + [x], p) == By(w, p) + if x.p == p then [x.ch] else []
  {
    assert (w + [x])[..|w|] == w;
  }

  lemma EndsLonger(s: seq<Byte>, e: seq<Byte>, x: Byte)
    requires EndsWith(s, e)
    ensures EndsWith(s + [x], e + [x])
  {
    assert (s + [x])[|s| - |e|..] == s[|s| - |e|..] + [x];
  }

  lemma StreamsPut(s: State, a: Label)
    requires Inv(s) && a.Put? && WriteEnabled(s, a)
    ensures Streams(WriteNext(s, a), a.p)
  {
    assert Streams(s, a.p);
    hide RingOk, Local, By, EndsWith;
    var pc := s.procs[a.p].pc;
    var ch := pc.bytes[pc.i];
    ByPut(s.written, Sent(a.p, ch), a.p);
    assert pc.bytes[..pc.i + 1] == pc.bytes[..pc.i] + [ch];
    EndsLonger(s.sent[a.p], pc.bytes[..pc.i], ch);
  }

  lemma {:induction false} StreamsPutOther(s: State, a: Label, p: nat)
    requires s.IsProc(p) && Streams(s, p) && a.Put? && WriteEnabled(s, a) && p != a.p
    ensures Streams(WriteNext(s, a), p)
  {
    hide RingOk, Local, By, EndsWith;
    ByPut(s.written, Sent(a.p, s.procs[a.p].pc.bytes[s.procs[a.p].pc.i]), p);
  }

  /** A call that starts has put nothing in yet. */
  lemma {:induction false} StreamsCall(s: State, a: Label)
    requires a.CallWrite? && WriteEnabled(s, a) && Streams(s, a.p)
    ensures Streams(WriteNext(s, a), a.p)
  {
    assert a.bytes[..0] == [] && EndsWith(s.sent[a.p], []);
    hide By, EndsWith;
  }

  /** Where a process can get without putting in or taking out a byte. */
  predicate Moved(x: Pc, y: Pc) {
    (y.Writing() ==> x.Writing() && y.bytes == x.bytes && y.i == x.i) && (y.ReadCopy? ==> x == y)
  }

  lemma {:induction false} StreamsMoved(s: State, r: State, p: nat)
    requires s.IsProc(p) && r.IsProc(p) && r.written == s.written && r.taken == s.taken && r.sent == s.sent
    requires Streams(s, p) && Moved(s.procs[p].pc, r.procs[p].pc)
    ensures Streams(r, p)
  {
    hide By, EndsWith;
  }

  lemma {:induction false} WriteMoves(s: State, a: Label, p: nat)
    requires IsWrite(a) && !a.Put? && WriteEnabled(s, a) && s.IsProc(p) && !(a.CallWrite? && p == a.p)
    ensures var r := WriteNext(s, a);
      && r.IsProc(p) && r.written == s.written && r.taken == s.taken && r.sent == s.sent
      && Moved(s.procs[p].pc, r.procs[p].pc)
  {
  }

  lemma {:induction false} StreamsWrite(s: State, a: Label, p: nat)
    requires Inv(s) && IsWrite(a) && WriteEnabled(s, a) && s.IsProc(p)
    ensures Streams(WriteNext(s, a), p)
  {
    assert Streams(s, p);
    hide *;
    if a.Put? && p == a.p {
      StreamsPut(s, a);
    } else if a.Put? {
      StreamsPutOther(s, a, p);
    } else if a.CallWrite? && p == a.p {
      StreamsCall(s, a);
    } else {
      WriteMoves(s, a, p);
      StreamsMoved(s, WriteNext(s, a), p);
    }
  }

  lemma StreamsGet(s: State, a: Label)
    requires Inv(s) && a.Get? && ReadEnabled(s, a)
    ensures Streams(ReadNext(s, a), a.p)
  {
    assert Streams(s, a.p);
    hide RingOk, By, Inv, Local, EndsWith;
    EndsLonger(s.taken, s.procs[a.p].pc.out, s.data[s.nread % 512]);
  }

  lemma StreamsRead(s: State, a: Label, p: nat)
    requires Inv(s) && IsRead(a) && ReadEnabled(s, a) && s.IsProc(p)
    ensures Streams(ReadNext(s, a), p)
  {
    assert Streams(s, p) && EndsWith(s.taken, []);
    assert a.Get? && p != a.p ==> !s.procs[p].pc.ReadCopy? by {
      assert Local(s, p) && Local(s, a.p);
    }
    hide RingOk, By, Inv, Local, EndsWith;
    if a.Get? && p == a.p {
      StreamsGet(s, a);
    }
  }

  lemma StreamsOther(s: State, a: Label, p: nat)
    requires Inv(s) && !IsWrite(a) && !IsRead(a) && OtherEnabled(s, a) && s.IsProc(p)
    ensures Streams(OtherNext(s, a), p)
  {
    assert Streams(s, p);
    hide RingOk, Local, By, EndsWith, Inv;
  }

  lemma InvStep(s: State, a: Label)
    requires Inv(s) && Enabled(s, a)
    ensures Inv(Next(s, a))
  {
    RingStep(s, a);
    var r := Next(s, a);
    forall p | r.IsProc(p)
      ensures Local(r, p) && Streams(r, p)
    {
      hide Local, Streams, RingOk;
      if IsWrite(a) {
        LocalWrite(s, a, p);
        StreamsWrite(s, a, p);
      } else if IsRead(a) {
        LocalRead(s, a, p);
        StreamsRead(s, a, p);
      } else {
        LocalOther(s, a, p);
        StreamsOther(s, a, p);
      }
    }
  }

  lemma InvInit(s: State)
    requires Init(s)
    ensures Inv(s) && ReadersOk(s)
  {
  }

  // ----- The sleeping readers -----

  /** A writer leaves without waking the readers that have something to read. */
  predicate Strands(s: State, a: Label) {
    a.GiveUp? && |s.written| != |s.taken| && exists p :: 0 <= p < |s.procs| && s.procs[p].pc.ReadSleeps?
  }

  /** Exactly that step breaks the rule for sleeping readers. */
  lemma ReadersStep(s: State, a: Label)
    requires Inv(s) && ReadersOk(s) && Enabled(s, a)
    ensures ReadersOk(Next(s, a)) <==> !Strands(s, a)
  {
    if IsWrite(a) {
      ReadersWrite(s, a);
    } else if IsRead(a) {
      ReadersRead(s, a);
    } else {
      ReadersOther(s, a);
    }
  }

  lemma ReadersWrite(s: State, a: Label)
    requires Inv(s) && ReadersOk(s) && IsWrite(a) && WriteEnabled(s, a)
    ensures ReadersOk(WriteNext(s, a)) <==> !Strands(s, a)
  {
    assert Local(s, a.p);
    var r := WriteNext(s, a);
    hide RingOk, Streams;
    if Strands(s, a) {
      var p :| 0 <= p < |s.procs| && s.procs[p].pc.ReadSleeps?;
      assert r.procs[p].pc.ReadSleeps?;
    }
  }

  lemma ReadersRead(s: State, a: Label)
    requires Inv(s) && ReadersOk(s) && IsRead(a) && ReadEnabled(s, a)
    ensures ReadersOk(ReadNext(s, a))
  {
    assert Local(s, a.p);
    Tests(s);
    hide RingOk, Streams;
  }

  lemma ReadersOther(s: State, a: Label)
    requires Inv(s) && ReadersOk(s) && !IsWrite(a) && !IsRead(a) && OtherEnabled(s, a)
    ensures ReadersOk(OtherNext(s, a))
  {
    assert a.Kill? ==> Local(s, a.p);
    hide RingOk, Streams;
  }
}
