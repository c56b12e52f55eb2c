/**
 The free list of user/umalloc.c as a sequence of blocks in address order, and
 what inserting, splitting and removing a block does to it. Addresses and
 sizes count units of one header.
 */
module FreeRing {

  /** A block of `size` units, its header included. */
  datatype Blk = Blk(addr: nat, size: nat) {
    function End(): nat {
      addr + size
    }
  }

  /** Two blocks do not overlap. */
  predicate Apart(a: Blk, b: Blk) {
    a.End() <= b.addr || b.End() <= a.addr
  }

  /**
   In address order, starting with the empty block `base`, and fully coalesced:
   no block ends where another starts.
   */
  ghost predicate Ordered(f: seq<Blk>, base: nat) {
    && f != [] && f[0] == Blk(base, 0)
    && (forall i :: 1 <= i < |f| ==> f[i].size >= 1)
    && Ascending(f)
  }

  ghost predicate Ascending(f: seq<Blk>) {
    forall i, j :: 0 <= i < j < |f| ==> f[i].End() < f[j].addr
  }

  /** Live blocks lie above base, apart from each other and from the free ones. */
  ghost predicate Disjoint(f: seq<Blk>, l: seq<Blk>, base: nat, top: nat) {
    && (forall k :: 0 <= k < |l| ==> l[k].addr > base && l[k].size >= 1 && l[k].End() <= top)
    && (forall i :: 1 <= i < |f| ==> f[i].End() <= top)
    && (forall i, k :: 1 <= i < |f| && 0 <= k < |l| ==> Apart(f[i], l[k]))
    && (forall j, k :: 0 <= j < k < |l| ==> Apart(l[j], l[k]))
  }

  function Sum(f: seq<Blk>): (n: nat) {
    if f == [] then 0 else f[0].size + Sum(f[1..])
  }

  lemma {:induction false} SumAppend(a: seq<Blk>, b: seq<Blk>)
    ensures Sum(a + b) == Sum(a) + Sum(b)
  {
    if a == [] {
      assert a + b == b;
    } else {
      SumAppend(a[1..], b);
      assert (a + b)[1..] == a[1..] + b;
    }
  }

  /** A sequence as what comes before position i, the element, and what comes after. */
  lemma SumAt(f: seq<Blk>, i: nat)
    requires i < |f|
    ensures Sum(f) == Sum(f[..i]) + f[i].size + Sum(f[i + 1..])
  {
    SumAppend(f[..i], f[i..]);
    assert f == f[..i] + f[i..];
    assert f[i..][1..] == f[i + 1..];
  }

  /** The last block that starts below addr: where free() stops. */
  function Place(f: seq<Blk>, addr: nat): (i: nat)
    requires f != []
    ensures i < |f|
  {
    if |f| == 1 || f[|f| - 1].addr < addr then |f| - 1 else Place(f[..|f| - 1], addr)
  }

  lemma {:induction false} PlaceOk(f: seq<Blk>, base: nat, addr: nat)
    requires Ordered(f, base) && base < addr
    ensures f[Place(f, addr)].addr < addr
    ensures Place(f, addr) + 1 < |f| ==> addr <= f[Place(f, addr) + 1].addr
  {
    if |f| > 1 && f[|f| - 1].addr >= addr {
      PlaceOk(f[..|f| - 1], base, addr);
    }
  }

  // ----- free() -----

  /** Does b touch the block after position i, or the one at position i? */
  predicate Up(f: seq<Blk>, i: nat, b: Blk) {
    i + 1 < |f| && b.End() == f[i + 1].addr
  }

  predicate Low(f: seq<Blk>, i: nat, b: Blk)
    requires i < |f|
  {
    f[i].End() == b.addr
  }

  /** b together with the neighbours it touches. */
  function Merged(f: seq<Blk>, i: nat, b: Blk): (x: Blk)
    requires i < |f|
  {
    Blk(if Low(f, i, b) then f[i].addr else b.addr,
        (if Low(f, i, b) then f[i].size else 0) + b.size + (if Up(f, i, b) then f[i + 1].size else 0))
  }

  /** f with b inserted after position i and merged with its neighbours where they touch. */
  function Freed(f: seq<Blk>, i: nat, b: Blk): (r: seq<Blk>)
    requires i < |f|
    ensures r != []
  {
    f[..if Low(f, i, b) then i else i + 1] + [Merged(f, i, b)] + f[if Up(f, i, b) then i + 2 else i + 1..]
  }

  /** b fits between its neighbours. */
  ghost predicate Fits(f: seq<Blk>, i: nat, b: Blk, base: nat) {
    && Ordered(f, base) && i < |f| && b.size >= 1 && b.addr > base
    && f[i].End() <= b.addr && (i + 1 < |f| ==> b.End() <= f[i + 1].addr)
  }

  lemma SumOne(b: Blk)
    ensures Sum([b]) == b.size
  {
    assert [b][1..] == [];
  }

  lemma PreSum(f: seq<Blk>, i: nat)
    requires i < |f|
    ensures Sum(f[..i + 1]) == Sum(f[..i]) + f[i].size
  {
    assert f[..i + 1] == f[..i] + [f[i]];
    SumAppend(f[..i], [f[i]]);
    SumOne(f[i]);
  }

  lemma PostSum(f: seq<Blk>, i: nat)
    requires i < |f|
    ensures Sum(f[i..]) == f[i].size + Sum(f[i + 1..])
  {
    assert f[i..][1..] == f[i + 1..];
  }

  lemma FreedSum(f: seq<Blk>, i: nat, b: Blk)
    requires i < |f|
    ensures Sum(Freed(f, i, b)) == Sum(f) + b.size
  {
    var pre, post := f[..if Low(f, i, b) then i else i + 1], f[if Up(f, i, b) then i + 2 else i + 1..];
    var x := Merged(f, i, b);
    SumAt(f, i);
    PreSum(f, i);
    if Up(f, i, b) {
      PostSum(f, i + 1);
    }
    hide Sum;
    SumAppend(pre + [x], post);
    SumAppend(pre, [x]);
    SumOne(x);
  }

  /** Where the block of before position q, at q, and after q comes from. */
  lemma FreedIndex(f: seq<Blk>, i: nat, b: Blk, j: nat)
    requires i < |f| && j < |Freed(f, i, b)|
    ensures var q, d := (if Low(f, i, b) then i else i + 1), if Up(f, i, b) then i + 2 else i + 1;
      && |Freed(f, i, b)| == q + 1 + (|f| - d)
      && Freed(f, i, b)[j] == if j < q then f[j] else if j == q then Merged(f, i, b) else f[d + j - q - 1]
  {
  }

  lemma AscendingSlice(f: seq<Blk>, lo: nat, hi: nat)
    requires Ascending(f) && lo <= hi <= |f|
    ensures Ascending(f[lo..hi])
  {
    var r := f[lo..hi];
    forall i, j | 0 <= i < j < |r|
      ensures r[i].End() < r[j].addr
    {
      assert r[i] == f[lo + i] && r[j] == f[lo + j];
    }
  }

  lemma AscendingJoin(pre: seq<Blk>, x: Blk, post: seq<Blk>)
    requires Ascending(pre) && Ascending(post)
    requires forall i :: 0 <= i < |pre| ==> pre[i].End() < x.addr
    requires forall k :: 0 <= k < |post| ==> x.End() < post[k].addr
    ensures Ascending(pre + [x] + post)
  {
    var r := pre + [x] + post;
    forall i, j | 0 <= i < j < |r|
      ensures r[i].End() < r[j].addr
    {
      if i < |pre| < j {
        assert r[i] == pre[i] && r[j] == post[j - |pre| - 1];
      }
    }
  }

  /** The merged block lies between what stays before it and what stays after it. */
  lemma MergedBetween(f: seq<Blk>, i: nat, b: Blk, base: nat)
    requires Fits(f, i, b, base)
    ensures i == 0 ==> !Low(f, i, b)
    ensures forall j :: 0 <= j < (if Low(f, i, b) then i else i + 1) ==> f[j].End() < Merged(f, i, b).addr
    ensures forall k :: (if Up(f, i, b) then i + 2 else i + 1) <= k < |f| ==> Merged(f, i, b).End() < f[k].addr
  {
    forall j | 0 <= j < i
      ensures f[j].End() < f[i].addr
    {
    }
    forall k | i + 1 < k < |f|
      ensures f[i + 1].End() < f[k].addr
    {
    }
  }

  lemma FreedAscending(f: seq<Blk>, i: nat, b: Blk, base: nat)
    requires Fits(f, i, b, base)
    ensures Ascending(Freed(f, i, b))
  {
    hide Ascending, Merged;
    var q, d := (if Low(f, i, b) then i else i + 1), if Up(f, i, b) then i + 2 else i + 1;
    MergedBetween(f, i, b, base);
    AscendingSlice(f, 0, q);
    AscendingSlice(f, d, |f|);
    assert f[0..q] == f[..q] && f[d..|f|] == f[d..];
    AscendingJoin(f[..q], Merged(f, i, b), f[d..]);
  }

  lemma FreedSizes(f: seq<Blk>, i: nat, b: Blk, base: nat)
    requires Fits(f, i, b, base)
    ensures Freed(f, i, b)[0] == f[0] && forall j :: 1 <= j < |Freed(f, i, b)| ==> Freed(f, i, b)[j].size >= 1
  {
    hide Ascending;
    var pre, post := f[..if Low(f, i, b) then i else i + 1], f[if Up(f, i, b) then i + 2 else i + 1..];
    assert i == 0 ==> !Low(f, i, b);
    assert forall j :: 1 <= j < |pre| ==> pre[j].size >= 1;
    assert forall k :: 0 <= k < |post| ==> post[k].size >= 1;
    assert Freed(f, i, b) == pre + [Merged(f, i, b)] + post;
  }

  lemma FreedOrdered(f: seq<Blk>, i: nat, b: Blk, base: nat)
    requires Fits(f, i, b, base)
    ensures Ordered(Freed(f, i, b), base)
  {
    hide Ascending, Freed;
    FreedAscending(f, i, b, base);
    FreedSizes(f, i, b, base);
  }

  /**
   Every block of the result is a block of f, or reaches from the start of b or its
   lower neighbour to the end of b or its upper one.
   */
  lemma FreedFrom(f: seq<Blk>, i: nat, b: Blk, base: nat, j: nat)
    requires Fits(f, i, b, base) && j < |Freed(f, i, b)|
    ensures var x := Freed(f, i, b)[j];
      (exists m :: 0 <= m < |f| && x == f[m] && (j >= 1 ==> m >= 1)) || Spans(x, f, i, b)
  {
    var up, low := Up(f, i, b), Low(f, i, b);
    var x := Freed(f, i, b)[j];
    if j < i || (j == i && !low) {
      assert x == f[j];
    } else if j == (if low then i else i + 1) {
      assert Spans(x, f, i, b);
    } else {
      var m := j + (if up then 1 else 0) - (if low then 0 else 1);
      assert x == f[m];
    }
  }

  /** x is b with one or both of its neighbours. */
  predicate Spans(x: Blk, f: seq<Blk>, i: nat, b: Blk)
    requires i < |f|
  {
    && x.addr == (if f[i].End() == b.addr then f[i].addr else b.addr)
    && x.End() == (if i + 1 < |f| && b.End() == f[i + 1].addr then f[i + 1].End() else b.End())
  }

  /** A merged block stays apart from what its parts were apart from. */
  lemma FreedApart(f: seq<Blk>, i: nat, b: Blk, base: nat, top: nat, j: nat, y: Blk)
    requires Fits(f, i, b, base) && 1 <= j < |Freed(f, i, b)| && y.addr > base && y.size >= 1
    requires Apart(b, y) && b.End() <= top && forall m :: 1 <= m < |f| ==> Apart(f[m], y) && f[m].End() <= top
    ensures Apart(Freed(f, i, b)[j], y) && Freed(f, i, b)[j].End() <= top
  {
    FreedFrom(f, i, b, base, j);
  }

  // ----- malloc() -----

  /** f with block i shortened by n units, or removed if it has no more. */
  function Taken(f: seq<Blk>, i: nat, n: nat): (r: seq<Blk>)
    requires i < |f| && n <= f[i].size
  {
    if f[i].size == n then f[..i] + f[i + 1..] else f[i := Blk(f[i].addr, f[i].size - n)]
  }

  /** The units taken: the tail end of the block. */
  function Tail(f: seq<Blk>, i: nat, n: nat): (b: Blk)
    requires i < |f| && n <= f[i].size
  {
    Blk(f[i].addr + (f[i].size - n), n)
  }

  lemma TakenSum(f: seq<Blk>, i: nat, n: nat)
    requires i < |f| && n <= f[i].size
    ensures Sum(Taken(f, i, n)) + n == Sum(f)
  {
    SumAt(f, i);
    if f[i].size == n {
      SumAppend(f[..i], f[i + 1..]);
    } else {
      var r := Taken(f, i, n);
      SumAt(r, i);
      assert r[..i] == f[..i] && r[i + 1..] == f[i + 1..];
    }
  }

  lemma TakenOrdered(f: seq<Blk>, i: nat, n: nat, base: nat)
    requires Ordered(f, base) && 1 <= i < |f| && 1 <= n <= f[i].size
    ensures Ordered(Taken(f, i, n), base)
  {
  }

  lemma TakenDisjoint(f: seq<Blk>, l: seq<Blk>, i: nat, n: nat, base: nat, top: nat)
    requires Ordered(f, base) && Disjoint(f, l, base, top) && 1 <= i < |f| && 1 <= n <= f[i].size
    ensures Disjoint(Taken(f, i, n), l + [Tail(f, i, n)], base, top)
  {
    var r, b := Taken(f, i, n), Tail(f, i, n);
    forall j | 1 <= j < |r|
      ensures Apart(r[j], b) && r[j].End() <= top
      ensures forall k :: 0 <= k < |l| ==> Apart(r[j], l[k])
    {
      var m := if f[i].size == n && j >= i then j + 1 else j;
      assert r[j] == f[m] || (j == i && r[j] == Blk(f[i].addr, f[i].size - n));
      assert m < i ==> f[m].End() < f[i].addr;
      assert i < m ==> f[i].End() < f[m].addr;
      forall k | 0 <= k < |l|
        ensures Apart(r[j], l[k])
      {
        assert Apart(f[m], l[k]);
      }
    }
    forall k | 0 <= k < |l|
      ensures Apart(l[k], b)
    {
      assert Apart(f[i], l[k]);
    }
  }
}
