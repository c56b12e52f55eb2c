/**
 The doubly linked ring of kernel/bio.c as it is in memory: prev and next of
 every buffer and of the list head. The methods are those stretches of binit,
 bget and brelse that walk or relink it; `ring` is the sequence it stands for,
 the one the state machine of BufCache works on.
 */
module BufRing {
  import opened BufCache
  import opened BufCacheInv

  /** The element after position i, coming round to the head. */
  function After(ring: seq<nat>, head: nat, i: int): (b: nat)
    requires -1 <= i < |ring|
  {
    if i + 1 < |ring| then ring[i + 1] else head
  }

  /** The element before position i. */
  function Before(ring: seq<nat>, head: nat, i: int): (b: nat)
    requires 0 <= i <= |ring|
  {
    if i > 0 then ring[i - 1] else head
  }

  ghost predicate Distinct(ring: seq<nat>) {
    forall i, j :: 0 <= i < j < |ring| ==> ring[i] != ring[j]
  }

  /** next and prev link head and ring into one circle. Other elements may point anywhere. */
  ghost predicate Linked(next: seq<nat>, prev: seq<nat>, head: nat, ring: seq<nat>) {
    && |next| == |prev| && head < |next| && head !in ring && Distinct(ring)
    && next[head] == After(ring, head, -1) && prev[head] == Before(ring, head, |ring|)
    && forall i {:trigger LinkAt(next, prev, head, ring, i)} :: 0 <= i < |ring| ==> LinkAt(next, prev, head, ring, i)
  }

  predicate LinkAt(next: seq<nat>, prev: seq<nat>, head: nat, ring: seq<nat>, i: int)
    requires |next| == |prev| && 0 <= i < |ring|
  {
    ring[i] < |next| && next[ring[i]] == After(ring, head, i) && prev[ring[i]] == Before(ring, head, i)
  }

  /** Taking out the element at position k. */
  lemma Unlinked(next: seq<nat>, prev: seq<nat>, head: nat, ring: seq<nat>, k: nat)
    requires Linked(next, prev, head, ring) && k < |ring|
    ensures LinkAt(next, prev, head, ring, k)
    ensures prev[ring[k]] < |next| && next[ring[k]] < |next|
    ensures Linked(next[prev[ring[k]] := next[ring[k]]], prev[next[ring[k]] := prev[ring[k]]], head,
                   ring[..k] + ring[k + 1..])
  {
    var b := ring[k];
    assert LinkAt(next, prev, head, ring, k);
    assert k + 1 < |ring| ==> LinkAt(next, prev, head, ring, k + 1);
    assert k > 0 ==> LinkAt(next, prev, head, ring, k - 1);
    var p, n := prev[b], next[b];
    var next', prev', ring' := next[p := n], prev[n := p], ring[..k] + ring[k + 1..];
    forall i | 0 <= i < |ring'|
      ensures LinkAt(next', prev', head, ring', i)
    {
      var j := if i < k then i else i + 1;
      assert ring'[i] == ring[j];
      assert LinkAt(next, prev, head, ring, j);
    }
  }

  /** Putting an element that is not in the ring after the head. */
  lemma Inserted(next: seq<nat>, prev: seq<nat>, head: nat, ring: seq<nat>, b: nat)
    requires Linked(next, prev, head, ring) && b < |next| && b != head && b !in ring
    ensures next[head] < |next|
    ensures Linked(next[b := next[head]][head := b], prev[b := head][next[head] := b], head, [b] + ring)
  {
    assert ring != [] ==> LinkAt(next, prev, head, ring, 0);
    var next', prev', ring' := next[b := next[head]][head := b], prev[b := head][next[head] := b], [b] + ring;
    forall i | 0 <= i < |ring'|
      ensures LinkAt(next', prev', head, ring', i)
    {
      if i > 0 {
        assert ring'[i] == ring[i - 1];
        assert LinkAt(next, prev, head, ring, i - 1);
      }
    }
  }

  lemma {:induction false} WithoutAt(ring: seq<nat>, k: nat)
    requires Distinct(ring) && k < |ring|
    ensures Without(ring, ring[k]) == ring[..k] + ring[k + 1..]
  {
    if k == 0 {
      WithoutNone(ring[1..], ring[0]);
    } else {
      WithoutAt(ring[1..], k - 1);
      assert ring[..k] == [ring[0]] + ring[1..][..k - 1];
      assert ring[1..][k..] == ring[k + 1..];
    }
  }

  lemma {:induction false} WithoutNone(ring: seq<nat>, b: nat)
    requires b !in ring
    ensures Without(ring, b) == ring
  {
    if ring != [] {
      WithoutNone(ring[1..], b);
    }
  }

  class Ring {
    const nbuf: nat
    var next: seq<nat>
    var prev: seq<nat>
    ghost var ring: seq<nat>

    ghost predicate Valid()
      reads this
    {
      Linked(next, prev, nbuf, ring) && |next| == nbuf + 1
    }

    /** binit(): every buffer goes to the front in turn. */
    constructor (nbuf: nat)
      ensures Valid() && this.nbuf == nbuf
      ensures |ring| == nbuf && forall i :: 0 <= i < nbuf ==> ring[i] == nbuf - 1 - i
    {
      this.nbuf := nbuf;
      next, prev, ring := seq(nbuf + 1, _ => nbuf), seq(nbuf + 1, _ => nbuf), [];
      new;
      for b := 0 to nbuf
        invariant Valid() && |ring| == b && forall i :: 0 <= i < b ==> ring[i] == b - 1 - i
      {
        InsertFront(b);
      }
    }

    /** b->next = head.next; b->prev = &head; head.next->prev = b; head.next = b */
    method InsertFront(b: nat)
      requires Valid() && b < nbuf && b !in ring
      modifies this
      ensures Valid() && ring == [b] + old(ring)
    {
      Inserted(next, prev, nbuf, ring, b);
      ghost var next', prev' := next[b := next[nbuf]][nbuf := b], prev[b := nbuf][next[nbuf] := b];
      next := next[b := next[nbuf]];
      prev := prev[b := nbuf];
      prev := prev[next[nbuf] := b];
      next := next[nbuf := b];
      ring := [b] + ring;
      assert next == next' && prev == prev';
    }

    /** brelse(): unlink b, then put it at the head of the most-recently-used list. */
    method MoveToFront(b: nat)
      requires Valid() && b < nbuf && b in ring
      modifies this
      ensures Valid() && ring == ToFront(old(ring), b)
    {
      ghost var k :| 0 <= k < |ring| && ring[k] == b;
      Unlinked(next, prev, nbuf, ring, k);
      WithoutAt(ring, k);
      ghost var next', prev' := next[prev[b] := next[b]], prev[next[b] := prev[b]];
      var n, p := next[b], prev[b];
      prev := prev[n := p];
      next := next[p := n];
      assert next == next' && prev == prev';
      ring := Without(ring, b);
      WithoutOk(old(ring), b);
      InsertFront(b);
    }

    /** bget()'s first loop: the first buffer from the head that caches the block, or the head itself. */
    method FindCached(keys: seq<Key>, key: Key) returns (b: nat, ghost i: nat)
      requires Valid() && |keys| == nbuf && forall j :: 0 <= j < |ring| ==> ring[j] < nbuf
      ensures i <= |ring| && b == After(ring, nbuf, i - 1)
      ensures forall j :: 0 <= j < i ==> keys[ring[j]] != key
      ensures i < |ring| ==> keys[b] == key
    {
      b, i := next[nbuf], 0;
      while b != nbuf
        invariant i <= |ring| && b == After(ring, nbuf, i - 1)
        invariant forall j :: 0 <= j < i ==> keys[ring[j]] != key
        decreases |ring| - i
      {
        assert LinkAt(next, prev, nbuf, ring, i);
        if keys[b] == key {
          return;
        }
        b, i := next[b], i + 1;
      }
    }

    /** bget()'s second loop: the last unreferenced buffer, or the head itself if there is none. */
    method FindUnused(refcnt: seq<nat>) returns (b: nat, ghost i: int)
      requires Valid() && |refcnt| == nbuf && forall j :: 0 <= j < |ring| ==> ring[j] < nbuf
      ensures -1 <= i < |ring| && b == Before(ring, nbuf, i + 1)
      ensures forall j :: i < j < |ring| ==> refcnt[ring[j]] != 0
      ensures i >= 0 ==> refcnt[b] == 0
    {
      b, i := prev[nbuf], |ring| - 1;
      while b != nbuf
        invariant -1 <= i < |ring| && b == Before(ring, nbuf, i + 1)
        invariant forall j :: i < j < |ring| ==> refcnt[ring[j]] != 0
        decreases i
      {
        assert LinkAt(next, prev, nbuf, ring, i);
        if refcnt[b] == 0 {
          return;
        }
        b, i := prev[b], i - 1;
      }
    }
  }
}
