/**
 malloc(), free() and morecore() of user/umalloc.c (section 8.7 of The C
 Programming Language, second edition) on headers in memory. `f` is the ring of
 free blocks from base on, `l` the live blocks; both are tied to the headers.
 */
module Umalloc {
  import opened FreeRing

  function Succ(f: seq<Blk>, i: nat): (j: nat)
    requires i < |f|
    ensures j < |f|
  {
    if i + 1 < |f| then i + 1 else 0
  }

  /** Steps along the ring from position i to position j. */
  function Dist(n: nat, i: nat, j: nat): (d: nat)
    requires i < n && j < n
  {
    if i <= j then j - i else n - i + j
  }

  predicate LinkAt(ptr: map<nat, nat>, size: map<nat, nat>, f: seq<Blk>, i: nat)
    requires i < |f|
  {
    && f[i].addr in ptr && f[i].addr in size
    && ptr[f[i].addr] == f[Succ(f, i)].addr && size[f[i].addr] == f[i].size
  }

  /** The headers of the blocks of f form one circle in the order of f. */
  ghost predicate Linked(ptr: map<nat, nat>, size: map<nat, nat>, f: seq<Blk>) {
    forall i {:trigger LinkAt(ptr, size, f, i)} :: 0 <= i < |f| ==> LinkAt(ptr, size, f, i)
  }

  /** The headers of the live blocks hold their sizes. */
  ghost predicate Headers(size: map<nat, nat>, l: seq<Blk>) {
    forall k :: 0 <= k < |l| ==> l[k].addr in size && size[l[k].addr] == l[k].size
  }

  /** Addresses determine positions. */
  lemma SameAddr(f: seq<Blk>, base: nat, i: nat, j: nat)
    requires Ordered(f, base) && i < |f| && j < |f|
    ensures f[i].addr == f[j].addr <==> i == j
  {
    assert i < j ==> f[i].End() < f[j].addr;
    assert j < i ==> f[j].End() < f[i].addr;
  }

  // ----- free() -----

  /** ptr and size after the two ifs of free(), for a block b whose place is after position i. */
  function PtrFreed(ptr: map<nat, nat>, f: seq<Blk>, i: nat, b: Blk): (r: map<nat, nat>)
    requires i < |f| && f[i].addr in ptr && ptr[f[i].addr] in ptr
  {
    var p := f[i].addr;
    var after := if Up(f, i, b) then ptr[ptr[p]] else ptr[p];
    if Low(f, i, b) then ptr[b.addr := after][p := after] else ptr[b.addr := after][p := b.addr]
  }

  function SizeFreed(size: map<nat, nat>, f: seq<Blk>, i: nat, b: Blk): (r: map<nat, nat>)
    requires i < |f|
  {
    var b1 := b.size + if Up(f, i, b) then f[i + 1].size else 0;
    if Low(f, i, b) then size[b.addr := b1][f[i].addr := f[i].size + b1] else size[b.addr := b1]
  }

  lemma FreeLinked(ptr: map<nat, nat>, size: map<nat, nat>, f: seq<Blk>, i: nat, b: Blk, base: nat)
    requires Fits(f, i, b, base) && Linked(ptr, size, f)
    ensures f[i].addr in ptr && ptr[f[i].addr] in ptr
    ensures Linked(PtrFreed(ptr, f, i, b), SizeFreed(size, f, i, b), Freed(f, i, b))
  {
    assert LinkAt(ptr, size, f, i) && LinkAt(ptr, size, f, Succ(f, i));
    var r := Freed(f, i, b);
    forall j | 0 <= j < |r|
      ensures LinkAt(PtrFreed(ptr, f, i, b), SizeFreed(size, f, i, b), r, j)
    {
      FreeLinkAt(ptr, size, f, i, b, base, j);
    }
  }

  /** Which headers free() changes: those of b and of the block at position i. */
  lemma OtherHeaders(ptr: map<nat, nat>, size: map<nat, nat>, f: seq<Blk>, i: nat, b: Blk, x: nat)
    requires i < |f| && f[i].addr in ptr && ptr[f[i].addr] in ptr && x != b.addr && x != f[i].addr && x in ptr
    requires x in size
    ensures x in PtrFreed(ptr, f, i, b) && PtrFreed(ptr, f, i, b)[x] == ptr[x]
    ensures x in SizeFreed(size, f, i, b) && SizeFreed(size, f, i, b)[x] == size[x]
  {
  }

  /** The links of the blocks before b. */
  lemma LinkBefore(ptr: map<nat, nat>, size: map<nat, nat>, f: seq<Blk>, i: nat, b: Blk, base: nat, j: nat)
    requires Fits(f, i, b, base) && LinkAt(ptr, size, f, i) && j < |Freed(f, i, b)| && j < |f|
    requires LinkAt(ptr, size, f, j)
    requires f[i].addr in ptr && ptr[f[i].addr] in ptr && j < if Low(f, i, b) then i else i + 1
    ensures LinkAt(PtrFreed(ptr, f, i, b), SizeFreed(size, f, i, b), Freed(f, i, b), j)
  {
    assert j < i ==> f[j].End() < f[i].addr;
    hide Freed, Ascending;
    FreedIndex(f, i, b, j);
    FreedIndex(f, i, b, j + 1);
    if j < i {
      OtherHeaders(ptr, size, f, i, b, f[j].addr);
    }
  }

  /** The position after the blocks that b touches above, coming round to 0. */
  function Beyond(f: seq<Blk>, i: nat, b: Blk): (j: nat)
    requires i < |f|
    ensures j < |f|
  {
    if Up(f, i, b) then Succ(f, i + 1) else Succ(f, i)
  }

  /** The header of the block that b became. */
  lemma MergedHeader(ptr: map<nat, nat>, size: map<nat, nat>, f: seq<Blk>, i: nat, b: Blk)
    requires i < |f| && LinkAt(ptr, size, f, i) && LinkAt(ptr, size, f, Succ(f, i)) && f[i].addr != b.addr
    requires f[i].addr in ptr && ptr[f[i].addr] in ptr
    ensures var x := Merged(f, i, b);
      && x.addr in PtrFreed(ptr, f, i, b) && PtrFreed(ptr, f, i, b)[x.addr] == f[Beyond(f, i, b)].addr
      && x.addr in SizeFreed(size, f, i, b) && SizeFreed(size, f, i, b)[x.addr] == x.size
  {
  }

  /** The block after the one that b became. */
  lemma MergedNext(f: seq<Blk>, i: nat, b: Blk, base: nat)
    requires Fits(f, i, b, base)
    ensures var q := if Low(f, i, b) then i else i + 1;
      && q < |Freed(f, i, b)| && Freed(f, i, b)[q] == Merged(f, i, b)
      && Freed(f, i, b)[Succ(Freed(f, i, b), q)] == f[Beyond(f, i, b)]
  {
    var q, d := (if Low(f, i, b) then i else i + 1), if Up(f, i, b) then i + 2 else i + 1;
    hide Ascending, Merged;
    assert i == 0 ==> !Low(f, i, b);
    var r := Freed(f, i, b);
    assert |r| == q + 1 + (|f| - d) && r[0] == f[0];
    if d < |f| {
      assert r[q + 1] == f[d..][0] == f[d];
    }
  }

  /** The link of the block that b became. */
  lemma LinkMerged(ptr: map<nat, nat>, size: map<nat, nat>, f: seq<Blk>, i: nat, b: Blk, base: nat)
    requires Fits(f, i, b, base) && LinkAt(ptr, size, f, i) && LinkAt(ptr, size, f, Succ(f, i))
    requires f[i].addr in ptr && ptr[f[i].addr] in ptr
    ensures var q := if Low(f, i, b) then i else i + 1;
      q < |Freed(f, i, b)| && LinkAt(PtrFreed(ptr, f, i, b), SizeFreed(size, f, i, b), Freed(f, i, b), q)
  {
    assert f[i].addr != b.addr by {
      assert i == 0 || f[i].size >= 1;
    }
    hide Ascending, Freed, Merged, PtrFreed, SizeFreed, Beyond;
    MergedHeader(ptr, size, f, i, b);
    MergedNext(f, i, b, base);
  }

  /** The links of the blocks after b. */
  lemma {:induction false} LinkAfter(ptr: map<nat, nat>, size: map<nat, nat>, f: seq<Blk>, i: nat, b: Blk, base: nat,
                                     j: nat, m: nat)
    requires Fits(f, i, b, base) && LinkAt(ptr, size, f, i) && j < |Freed(f, i, b)|
    requires f[i].addr in ptr && ptr[f[i].addr] in ptr && j > if Low(f, i, b) then i else i + 1
    requires m == (if Up(f, i, b) then i + 2 else i + 1) + j - (if Low(f, i, b) then i else i + 1) - 1
    requires m < |f| && LinkAt(ptr, size, f, m)
    ensures LinkAt(PtrFreed(ptr, f, i, b), SizeFreed(size, f, i, b), Freed(f, i, b), j)
  {
    assert i == 0 ==> !Low(f, i, b);
    assert f[i].End() < f[m].addr;
    assert i + 1 < m ==> f[i + 1].End() < f[m].addr;
    hide Ascending, Freed;
    FreedIndex(f, i, b, j);
    FreedIndex(f, i, b, Succ(Freed(f, i, b), j));
    OtherHeaders(ptr, size, f, i, b, f[m].addr);
  }

  lemma FreeLinkAt(ptr: map<nat, nat>, size: map<nat, nat>, f: seq<Blk>, i: nat, b: Blk, base: nat, j: nat)
    requires Fits(f, i, b, base) && Linked(ptr, size, f) && j < |Freed(f, i, b)|
    requires f[i].addr in ptr && ptr[f[i].addr] in ptr
    ensures LinkAt(PtrFreed(ptr, f, i, b), SizeFreed(size, f, i, b), Freed(f, i, b), j)
  {
    var q, d := (if Low(f, i, b) then i else i + 1), if Up(f, i, b) then i + 2 else i + 1;
    FreedIndex(f, i, b, j);
    assert LinkAt(ptr, size, f, i) && LinkAt(ptr, size, f, Succ(f, i));
    if j < q {
      assert LinkAt(ptr, size, f, j);
    } else if j > q {
      assert LinkAt(ptr, size, f, d + j - q - 1);
    }
    hide Ascending, Freed, LinkAt, PtrFreed, SizeFreed;
    if j < q {
      LinkBefore(ptr, size, f, i, b, base, j);
    } else if j > q {
      LinkAfter(ptr, size, f, i, b, base, j, d + j - q - 1);
    } else {
      LinkMerged(ptr, size, f, i, b, base);
    }
  }

  /** Where free()'s search may stop: exactly at the place of bp. */
  lemma StopsAt(ptr: map<nat, nat>, size: map<nat, nat>, f: seq<Blk>, base: nat, bp: nat, c: nat)
    requires Ordered(f, base) && Linked(ptr, size, f) && c < |f| && base < bp
    requires forall i :: 0 <= i < |f| ==> f[i].addr != bp
    ensures LinkAt(ptr, size, f, c)
    ensures var p := f[c].addr;
      (bp > p && bp < ptr[p]) || (p >= ptr[p] && (bp > p || bp < ptr[p])) <==> c == Place(f, bp)
  {
    assert LinkAt(ptr, size, f, c);
    PlaceOk(f, base, bp);
    var pl := Place(f, bp);
    if c < pl {
      assert f[c].End() < f[pl].addr;
      assert c + 1 < pl ==> f[c + 1].End() < f[pl].addr;
    } else if c > pl {
      assert pl + 1 < c ==> f[pl + 1].End() < f[c].addr;
    }
    assert c + 1 < |f| ==> f[c].End() < f[c + 1].addr;
    assert c > 0 ==> f[0].End() < f[c].addr;
  }

  /** A live block fits at its place. */
  lemma LiveFits(f: seq<Blk>, l: seq<Blk>, base: nat, top: nat, k: nat)
    requires Ordered(f, base) && Disjoint(f, l, base, top) && k < |l|
    ensures Fits(f, Place(f, l[k].addr), l[k], base)
    ensures forall i :: 0 <= i < |f| ==> f[i].addr != l[k].addr
  {
    var i := Place(f, l[k].addr);
    PlaceOk(f, base, l[k].addr);
    forall m | 0 <= m < |f|
      ensures f[m].addr != l[k].addr
    {
      assert m >= 1 ==> Apart(f[m], l[k]);
    }
  }

  /** The live blocks that stay. */
  function Removed(l: seq<Blk>, k: nat): (r: seq<Blk>)
    requires k < |l|
  {
    l[..k] + l[k + 1..]
  }

  lemma FreeDisjoint(f: seq<Blk>, l: seq<Blk>, base: nat, top: nat, k: nat)
    requires Ordered(f, base) && Disjoint(f, l, base, top) && k < |l|
    ensures Disjoint(Freed(f, Place(f, l[k].addr), l[k]), Removed(l, k), base, top)
  {
    var i, b := Place(f, l[k].addr), l[k];
    LiveFits(f, l, base, top, k);
    var r, l' := Freed(f, i, b), Removed(l, k);
    forall j, m | 1 <= j < |r| && 0 <= m < |l'|
      ensures Apart(r[j], l'[m])
    {
      var m0 := if m < k then m else m + 1;
      assert l'[m] == l[m0] && Apart(b, l[m0]);
      FreedApart(f, i, b, base, top, j, l[m0]);
    }
    forall j | 1 <= j < |r|
      ensures r[j].End() <= top
    {
      FreedFrom(f, i, b, base, j);
    }
  }

  lemma {:induction false} FreeHeader(size: map<nat, nat>, f: seq<Blk>, l: seq<Blk>, base: nat, top: nat, k: nat,
                                      m: nat)
    requires Ordered(f, base) && Disjoint(f, l, base, top) && k < |l| && m < |l| && m != k && Headers(size, l)
    ensures var r := SizeFreed(size, f, Place(f, l[k].addr), l[k]); l[m].addr in r && r[l[m].addr] == l[m].size
  {
    assert Apart(l[k], l[m]);
    LiveFits(f, l, base, top, m);
  }

  lemma {:induction false} FreeHeaders(size: map<nat, nat>, f: seq<Blk>, l: seq<Blk>, base: nat, top: nat, k: nat)
    requires Ordered(f, base) && Disjoint(f, l, base, top) && k < |l| && Headers(size, l)
    ensures Headers(SizeFreed(size, f, Place(f, l[k].addr), l[k]), Removed(l, k))
  {
    var r, l' := SizeFreed(size, f, Place(f, l[k].addr), l[k]), Removed(l, k);
    forall m | 0 <= m < |l'|
      ensures l'[m].addr in r && r[l'[m].addr] == l'[m].size
    {
      var m0 := if m < k then m else m + 1;
      assert l'[m] == l[m0];
      hide *;
      FreeHeader(size, f, l, base, top, k, m0);
    }
  }

  lemma RemovedSum(l: seq<Blk>, k: nat)
    requires k < |l|
    ensures Sum(Removed(l, k)) + l[k].size == Sum(l)
  {
    SumAt(l, k);
    SumAppend(l[..k], l[k + 1..]);
  }

  // ----- malloc() -----

  /** Block c + 1 taken out of the ring: position j holds block m now. */
  lemma {:induction false} WithoutAt(f: seq<Blk>, c: nat, j: nat)
    requires c + 1 < |f| && j + 1 < |f|
    ensures var r, m := f[..c + 1] + f[c + 2..], if j <= c then j else j + 1;
      |r| + 1 == |f| && r[j] == f[m] && r[Succ(r, j)] == f[Succ(f, if j == c then c + 1 else m)]
  {
    var r := f[..c + 1] + f[c + 2..];
    assert j + 1 < |r| ==> r[j + 1] == if j + 1 <= c then f[j + 1] else f[j + 2];
  }

  lemma {:induction false} UnlinkAt(ptr: map<nat, nat>, size: map<nat, nat>, f: seq<Blk>, base: nat, c: nat, j: nat)
    requires Ordered(f, base) && Linked(ptr, size, f) && c + 1 < |f| && j + 1 < |f|
    requires LinkAt(ptr, size, f, c) && LinkAt(ptr, size, f, c + 1)
    ensures j < |f[..c + 1] + f[c + 2..]|
    ensures LinkAt(ptr[f[c].addr := ptr[f[c + 1].addr]], size, f[..c + 1] + f[c + 2..], j)
  {
    var m := if j <= c then j else j + 1;
    assert LinkAt(ptr, size, f, m);
    hide Ordered, Linked, Succ;
    SameAddr(f, base, m, c);
    WithoutAt(f, c, j);
  }

  /** Removing the whole block after position c. */
  lemma {:induction false} UnlinkWhole(ptr: map<nat, nat>, size: map<nat, nat>, f: seq<Blk>, base: nat, c: nat)
    requires Ordered(f, base) && Linked(ptr, size, f) && c + 1 < |f|
    ensures LinkAt(ptr, size, f, c) && LinkAt(ptr, size, f, c + 1)
    ensures Linked(ptr[f[c].addr := ptr[f[c + 1].addr]], size, f[..c + 1] + f[c + 2..])
  {
    assert LinkAt(ptr, size, f, c) && LinkAt(ptr, size, f, c + 1);
    var r, ptr' := f[..c + 1] + f[c + 2..], ptr[f[c].addr := ptr[f[c + 1].addr]];
    forall j | 0 <= j < |r|
      ensures LinkAt(ptr', size, r, j)
    {
      hide *;
      UnlinkAt(ptr, size, f, base, c, j);
    }
  }

  /** Cutting n units off the end of block i. */
  lemma SplitLinked(ptr: map<nat, nat>, size: map<nat, nat>, f: seq<Blk>, base: nat, i: nat, n: nat)
    requires Ordered(f, base) && Linked(ptr, size, f) && 1 <= i < |f| && 1 <= n < f[i].size
    ensures Linked(ptr, size[f[i].addr := f[i].size - n][Tail(f, i, n).addr := n], Taken(f, i, n))
  {
    var r, size' := Taken(f, i, n), size[f[i].addr := f[i].size - n][Tail(f, i, n).addr := n];
    forall j | 0 <= j < |r|
      ensures LinkAt(ptr, size', r, j)
    {
      assert LinkAt(ptr, size, f, j);
      SameAddr(f, base, i, j);
      assert j < i ==> f[j].End() < f[i].addr;
      assert i < j ==> f[i].End() < f[j].addr;
    }
  }

  /** The headers of the live blocks after the split. */
  lemma SplitHeaders(size: map<nat, nat>, f: seq<Blk>, l: seq<Blk>, base: nat, top: nat, i: nat, n: nat)
    requires Ordered(f, base) && Disjoint(f, l, base, top) && Headers(size, l) && 1 <= i < |f| && 1 <= n < f[i].size
    ensures Headers(size[f[i].addr := f[i].size - n][Tail(f, i, n).addr := n], l + [Tail(f, i, n)])
  {
    forall k | 0 <= k < |l|
      ensures l[k].addr != f[i].addr && l[k].addr != Tail(f, i, n).addr
    {
      assert Apart(f[i], l[k]);
    }
  }

  /**
   The ring f is one circle in address order with one wrap, fully coalesced and
   apart from the live blocks l; free and live units are the units obtained.
   */
  ghost predicate Ring(ptr: map<nat, nat>, size: map<nat, nat>, f: seq<Blk>, l: seq<Blk>, base: nat, top: nat,
                       got: nat) {
    && 0 < base < top && Sum(f) + Sum(l) == got
    && Ordered(f, base) && Linked(ptr, size, f) && Disjoint(f, l, base, top) && Headers(size, l)
  }

  /** What free() keeps, on values. */
  lemma FreeKeeps(ptr: map<nat, nat>, size: map<nat, nat>, f: seq<Blk>, l: seq<Blk>, base: nat, top: nat, got: nat,
                  k: nat)
    requires Ring(ptr, size, f, l, base, top, got) && k < |l|
    ensures var i, b := Place(f, l[k].addr), l[k];
      && f[i].addr in ptr && ptr[f[i].addr] in ptr && f[i].addr >= base
      && Ring(PtrFreed(ptr, f, i, b), SizeFreed(size, f, i, b), Freed(f, i, b), Removed(l, k), base, top, got)
      && i < |Freed(f, i, b)| && Freed(f, i, b)[i].addr == f[i].addr
  {
    var i, b := Place(f, l[k].addr), l[k];
    LiveFits(f, l, base, top, k);
    hide Ordered, Linked, Disjoint, Headers, Sum, Place, Freed, Removed, PtrFreed, SizeFreed;
    FreeLinked(ptr, size, f, i, b, base);
    FreeDisjoint(f, l, base, top, k);
    FreeHeaders(size, f, l, base, top, k);
    FreedOrdered(f, i, b, base);
    FreedSum(f, i, b);
    RemovedSum(l, k);
    FreepStays(f, i, b, base);
  }

  /** What the two tests of free() find. */
  lemma Neighbours(ptr: map<nat, nat>, size: map<nat, nat>, f: seq<Blk>, i: nat, b: Blk, base: nat)
    requires Fits(f, i, b, base) && Linked(ptr, size, f)
    ensures LinkAt(ptr, size, f, i) && LinkAt(ptr, size, f, Succ(f, i)) && f[i].addr != b.addr
    ensures f[Succ(f, i)].addr != b.addr
    ensures b.End() == f[Succ(f, i)].addr <==> Up(f, i, b)
    ensures Up(f, i, b) ==> Succ(f, i) == i + 1
  {
    assert LinkAt(ptr, size, f, i) && LinkAt(ptr, size, f, Succ(f, i));
    assert i == 0 || f[i].size >= 1;
  }

  /** The block free() leaves in freep is still a block of the ring, at the same position. */
  lemma FreepStays(f: seq<Blk>, i: nat, b: Blk, base: nat)
    requires Fits(f, i, b, base)
    ensures i < |Freed(f, i, b)| && Freed(f, i, b)[i].addr == f[i].addr && f[i].addr >= base
  {
    assert i > 0 ==> f[0].End() < f[i].addr;
    hide Ascending;
    assert f[..i + 1][i] == f[i];
  }

  /** At least 4096 units are asked for at a time. */
  function AtLeast(nu: nat): (n: nat)
    ensures n >= nu && n >= 4096
  {
    if nu < 4096 then 4096 else nu
  }

  /** Some free block has at least n units. */
  ghost predicate Roomy(f: seq<Blk>, n: nat) {
    exists i :: 0 <= i < |f| && f[i].size >= n
  }

  lemma FreedRoomy(f: seq<Blk>, i: nat, b: Blk, n: nat)
    requires i < |f| && n <= b.size
    ensures Roomy(Freed(f, i, b), n)
  {
    var q := if Low(f, i, b) then i else i + 1;
    FreedIndex(f, i, b, q);
    assert Freed(f, i, b)[q].size >= n;
  }

  /** A block above everything seen so far can be added as a live one. */
  lemma NewBlock(ptr: map<nat, nat>, size: map<nat, nat>, f: seq<Blk>, l: seq<Blk>, base: nat, top: nat, got: nat,
                 x: Blk)
    requires Ring(ptr, size, f, l, base, top, got) && top <= x.addr && x.size >= 1
    ensures Ring(ptr, size[x.addr := x.size], f, l + [x], base, x.End(), got + x.size)
  {
    SumAppend(l, [x]);
    SumOne(x);
    var size' := size[x.addr := x.size];
    forall i | 0 <= i < |f|
      ensures LinkAt(ptr, size', f, i)
    {
      assert LinkAt(ptr, size, f, i);
      assert i >= 1 ==> f[i].End() <= top && f[i].size >= 1;
    }
    forall k | 0 <= k < |l|
      ensures l[k].addr != x.addr
    {
      assert l[k].End() <= top && l[k].size >= 1;
    }
  }

  /** The block after position c, when it has at least one unit. */
  lemma NextBlock(ptr: map<nat, nat>, size: map<nat, nat>, f: seq<Blk>, base: nat, c: nat)
    requires Ordered(f, base) && Linked(ptr, size, f) && c < |f| && f[Succ(f, c)].size >= 1
    ensures Succ(f, c) == c + 1 < |f| && f[c].addr >= base
    ensures LinkAt(ptr, size, f, c) && LinkAt(ptr, size, f, c + 1)
  {
    assert LinkAt(ptr, size, f, c) && LinkAt(ptr, size, f, Succ(f, c));
    assert c > 0 ==> f[0].End() < f[c].addr;
  }

  /** What does not depend on whether the block is used up. */
  lemma TakenKeeps(f: seq<Blk>, l: seq<Blk>, base: nat, top: nat, i: nat, n: nat)
    requires Ordered(f, base) && Disjoint(f, l, base, top) && 1 <= i < |f| && f[i].size >= n >= 1
    ensures var b := Tail(f, i, n);
      && Ordered(Taken(f, i, n), base) && Disjoint(Taken(f, i, n), l + [b], base, top)
      && Sum(Taken(f, i, n)) + Sum(l + [b]) == Sum(f) + Sum(l)
      && i <= |Taken(f, i, n)| && Taken(f, i, n)[i - 1] == f[i - 1]
  {
    var b := Tail(f, i, n);
    TakenOrdered(f, i, n, base);
    TakenDisjoint(f, l, i, n, base, top);
    hide Ascending, Disjoint;
    TakenSum(f, i, n);
    hide Sum;
    SumAppend(l, [b]);
    SumOne(b);
  }

  /** Taking the whole block after position c. */
  lemma TakeWhole(ptr: map<nat, nat>, size: map<nat, nat>, f: seq<Blk>, l: seq<Blk>, base: nat, top: nat, got: nat,
                  c: nat)
    requires Ring(ptr, size, f, l, base, top, got) && c + 1 < |f|
    ensures f[c + 1].size >= 1 && LinkAt(ptr, size, f, c) && LinkAt(ptr, size, f, c + 1)
    ensures Ring(ptr[f[c].addr := ptr[f[c + 1].addr]], size, Taken(f, c + 1, f[c + 1].size), l + [f[c + 1]],
                 base, top, got)
  {
    var b := Tail(f, c + 1, f[c + 1].size);
    assert b == f[c + 1];
    assert LinkAt(ptr, size, f, c + 1);
    assert Headers(size, l + [b]);
    TakenKeeps(f, l, base, top, c + 1, b.size);
    hide Ordered, Disjoint, Headers, Sum, LinkAt, Linked;
    UnlinkWhole(ptr, size, f, base, c);
  }

  /** Taking n units of the block at position i and leaving some. */
  lemma TakeSplit(ptr: map<nat, nat>, size: map<nat, nat>, f: seq<Blk>, l: seq<Blk>, base: nat, top: nat, got: nat,
                  i: nat,
                  n: nat)
    requires Ring(ptr, size, f, l, base, top, got) && 1 <= i < |f| && 1 <= n < f[i].size
    ensures Ring(ptr, size[f[i].addr := f[i].size - n][Tail(f, i, n).addr := n], Taken(f, i, n), l + [Tail(f, i, n)],
                 base, top,
                 got)
  {
    hide Ordered, Disjoint, Headers, Sum, Linked, Taken, Tail;
    TakenKeeps(f, l, base, top, i, n);
    SplitLinked(ptr, size, f, base, i, n);
    SplitHeaders(size, f, l, base, top, i, n);
  }

  /** nunits of malloc(): enough for nbytes, and a header. */
  function Units(nbytes: nat): (n: nat)
    ensures n >= 1 && nbytes <= 16 * (n - 1) < nbytes + 16
  {
    (nbytes + 15) / 16 + 1
  }

  /** No block from the one after freep up to position j, exclusive, has n units. */
  ghost predicate Passed(f: seq<Blk>, at: nat, j: nat, n: nat) {
    && at < |f| && j < |f|
    && forall m :: 0 <= m < |f| && Dist(|f|, Succ(f, at), m) < Dist(|f|, Succ(f, at), j) ==> f[m].size < n
  }

  /** A block with n units comes no later than freep. */
  ghost predicate Ahead(f: seq<Blk>, at: nat, j: nat, e: nat, n: nat) {
    && at < |f| && j < |f| && e < |f| && f[e].size >= n
    && Dist(|f|, j, e) <= Dist(|f|, j, at)
  }

  lemma PassedNext(f: seq<Blk>, at: nat, j: nat, n: nat)
    requires Passed(f, at, j, n) && f[j].size < n
    ensures j == at ==> !Roomy(f, n)
    ensures j != at ==> Passed(f, at, Succ(f, j), n) && Dist(|f|, Succ(f, j), at) < Dist(|f|, j, at)
  {
    if j == at {
      forall m | 0 <= m < |f| && m != at
        ensures f[m].size < n
      {
        assert Dist(|f|, Succ(f, at), m) < Dist(|f|, Succ(f, at), j);
      }
    }
  }

  lemma AheadNext(f: seq<Blk>, at: nat, j: nat, e: nat, n: nat)
    requires Ahead(f, at, j, e, n) && f[j].size < n
    ensures j != at && Ahead(f, at, Succ(f, j), e, n) && Dist(|f|, Succ(f, j), e) < Dist(|f|, j, e)
  {
  }

  /** After the heap grew the search starts behind freep, so it meets the new block first. */
  lemma AheadStart(f: seq<Blk>, at: nat, n: nat) returns (e: nat)
    requires at < |f| && Roomy(f, n)
    ensures Ahead(f, at, Succ(f, at), e, n)
  {
    e :| 0 <= e < |f| && f[e].size >= n;
  }

  /** Following the link of position c. */
  lemma Follow(ptr: map<nat, nat>, size: map<nat, nat>, f: seq<Blk>, l: seq<Blk>, base: nat, top: nat, got: nat, c: nat,
               at: nat)
    requires Ring(ptr, size, f, l, base, top, got) && c < |f| && at < |f|
    ensures LinkAt(ptr, size, f, c) && (f[c].addr == f[at].addr <==> c == at)
  {
    assert LinkAt(ptr, size, f, c);
    SameAddr(f, base, c, at);
  }

  /** prevp and p are the blocks at and after position c. */
  ghost predicate Cursor(ptr: map<nat, nat>, size: map<nat, nat>, f: seq<Blk>, c: nat, prevp: nat, p: nat) {
    && c < |f| && LinkAt(ptr, size, f, c) && LinkAt(ptr, size, f, Succ(f, c))
    && prevp == f[c].addr && p == f[Succ(f, c)].addr
  }

  /** What malloc()'s search knows at position j, before and after the heap grew; f0 is the ring it started with. */
  ghost predicate Scan(f: seq<Blk>, f0: seq<Blk>, at: nat, j: nat, e: nat, n: nat, grown: bool) {
    if grown then !Roomy(f0, n) && Ahead(f, at, j, e, n) else (Roomy(f, n) <==> Roomy(f0, n)) && Passed(f, at, j, n)
  }

  /** What one turn of malloc()'s loop finds. */
  lemma Look(ptr: map<nat, nat>, size: map<nat, nat>, f: seq<Blk>, l: seq<Blk>, base: nat, top: nat, got: nat,
             f0: seq<Blk>, at: nat, c: nat, prevp: nat, p: nat, e: nat, n: nat, grown: bool)
    requires Ring(ptr, size, f, l, base, top, got) && at < |f| && Cursor(ptr, size, f, c, prevp, p)
    requires Scan(f, f0, at, Succ(f, c), e, n, grown)
    ensures p in size && p in ptr && c < |f| && p == f[Succ(f, c)].addr && size[p] == f[Succ(f, c)].size
    ensures size[p] >= n ==> (grown <==> !Roomy(f0, n))
    ensures size[p] < n && p == f[at].addr ==> !grown && !Roomy(f0, n)
    ensures var j := Succ(f, c);
      size[p] < n && p != f[at].addr ==>
        && Cursor(ptr, size, f, j, p, ptr[p]) && Scan(f, f0, at, Succ(f, j), e, n, grown)
        && Dist(|f|, Succ(f, j), if grown then e else at) < Dist(|f|, j, if grown then e else at)
  {
    var j := Succ(f, c);
    Follow(ptr, size, f, l, base, top, got, j, at);
    Follow(ptr, size, f, l, base, top, got, Succ(f, j), at);
    hide Ring, Dist, Succ, Passed, Ahead;
    if size[p] < n {
      if grown {
        AheadNext(f, at, j, e, n);
      } else {
        PassedNext(f, at, j, n);
      }
    }
  }

  /** What malloc()'s search starts with. */
  lemma Begin(ptr: map<nat, nat>, size: map<nat, nat>, f: seq<Blk>, l: seq<Blk>, base: nat, top: nat, got: nat,
              f0: seq<Blk>, at: nat, n: nat)
    requires Ring(ptr, size, f, l, base, top, got) && at < |f| && n >= 1
    requires f0 == f || (f0 == [] && f == [Blk(base, 0)])
    ensures f[at].addr in ptr && Cursor(ptr, size, f, at, f[at].addr, ptr[f[at].addr])
    ensures Scan(f, f0, at, Succ(f, at), 0, n, false)
  {
    Follow(ptr, size, f, l, base, top, got, at, at);
    Follow(ptr, size, f, l, base, top, got, Succ(f, at), at);
  }

  /** The cursor is at a block that is large enough, so not at base. */
  lemma {:induction false} AtBlock(ptr: map<nat, nat>, size: map<nat, nat>, f: seq<Blk>, l: seq<Blk>, base: nat,
                                   top: nat, got: nat, c: nat, prevp: nat, p: nat, n: nat)
    requires Ring(ptr, size, f, l, base, top, got) && Cursor(ptr, size, f, c, prevp, p) && c < |f|
    requires f[Succ(f, c)].size >= n >= 1
    ensures c + 1 < |f| && prevp >= base > 0 && p in ptr && p in size && f[c].addr == prevp && f[c + 1].addr == p
    ensures size[p] == f[c + 1].size >= n && Tail(f, c + 1, n).addr == p + (size[p] - n)
    ensures Ordered(f, base) && Disjoint(f, l, base, top)
  {
    assert Ordered(f, base) && Linked(ptr, size, f) && Disjoint(f, l, base, top) && base > 0;
    hide Ring, Ordered, Linked, Disjoint;
    NextBlock(ptr, size, f, base, c);
  }

  lemma {:induction false} TailWhole(f: seq<Blk>, i: nat)
    requires i < |f| && f[i].size >= 1
    ensures Tail(f, i, f[i].size) == f[i]
  {
  }

  /** What taking n units off the block p, the one after position c, keeps. */
  lemma {:induction false} Taking(ptr: map<nat, nat>, size: map<nat, nat>, f: seq<Blk>, l: seq<Blk>, base: nat,
                                  top: nat, got: nat, c: nat, prevp: nat, p: nat, n: nat)
    requires Ring(ptr, size, f, l, base, top, got) && Cursor(ptr, size, f, c, prevp, p) && c < |f|
    requires f[Succ(f, c)].size >= n >= 1
    ensures c + 1 < |f| && prevp >= base > 0 && p in ptr && p in size && f[c].addr == prevp && f[c + 1].addr == p
    ensures size[p] == f[c + 1].size >= n && Tail(f, c + 1, n).addr == p + (size[p] - n)
    ensures size[p] == n ==>
      Ring(ptr[prevp := ptr[p]], size, Taken(f, c + 1, n), l + [Tail(f, c + 1, n)], base, top, got)
    ensures size[p] != n ==>
      Ring(ptr, size[p := size[p] - n][p + (size[p] - n) := n], Taken(f, c + 1, n), l + [Tail(f, c + 1, n)],
           base, top, got)
    ensures c < |Taken(f, c + 1, n)| && Taken(f, c + 1, n)[c] == f[c]
  {
    hide *;
    AtBlock(ptr, size, f, l, base, top, got, c, prevp, p, n);
    TakenKeeps(f, l, base, top, c + 1, n);
    if size[p] == n {
      TailWhole(f, c + 1);
      TakeWhole(ptr, size, f, l, base, top, got, c);
    } else {
      TakeSplit(ptr, size, f, l, base, top, got, c + 1, n);
    }
  }

  class Allocator {
    const base: nat
    var ptr: map<nat, nat>
    var size: map<nat, nat>
    var freep: nat
    ghost var f: seq<Blk>
    ghost var l: seq<Blk>
    ghost var top: nat
    ghost var got: nat
    // Where freep is in the ring.
    ghost var at: nat

    ghost predicate Valid()
      reads this
    {
      if freep == 0 then
        0 < base < top && f == [] && l == [] && got == 0
      else
        Ring(ptr, size, f, l, base, top, got) && at < |f| && f[at].addr == freep
    }

    /** A process that has not called malloc() yet: freep is null and the heap is above the static variable base. */
    constructor (base: nat, brk: nat)
      requires 0 < base < brk
      ensures Valid() && freep == 0 && l == [] && got == 0 && this.base == base && top == brk
    {
      this.base, ptr, size, freep := base, map[], map[], 0;
      f, l, top, got, at := [], [], brk, 0, 0;
    }

    /** base.s.ptr = freep = &base; base.s.size = 0 */
    method Start()
      requires Valid() && freep == 0
      modifies this`ptr, this`size, this`freep, this`f, this`at
      ensures Valid() && f == [Blk(base, 0)] && freep != 0
    {
      ptr, size := ptr[base := base], size[base := 0];
      freep := base;
      f, at := [Blk(base, 0)], 0;
      SumOne(Blk(base, 0));
      assert LinkAt(ptr, size, f, 0);
    }

    /** free()'s search, from freep to the place of bp. It ends. */
    method FindPlace(bp: nat) returns (p: nat)
      requires at < |f| && f[at].addr == freep && Ordered(f, base) && Linked(ptr, size, f) && base < bp
      requires forall i :: 0 <= i < |f| ==> f[i].addr != bp
      ensures p == f[Place(f, bp)].addr
    {
      ghost var c: nat, pl := at, Place(f, bp);
      p := freep;
      StopsAt(ptr, size, f, base, bp, c);
      hide Ascending, Place;
      while !(bp > p && bp < ptr[p])
        invariant c < |f| && p == f[c].addr && LinkAt(ptr, size, f, c)
        decreases Dist(|f|, c, pl)
      {
        StopsAt(ptr, size, f, base, bp, c);
        if p >= ptr[p] && (bp > p || bp < ptr[p]) {
          break;
        }
        p, c := ptr[p], Succ(f, c);
        StopsAt(ptr, size, f, base, bp, c);
      }
      StopsAt(ptr, size, f, base, bp, c);
    }

    /** The two ifs of free(), for the block b with header bp and the block p at position i. */
    method Splice(bp: nat, p: nat, ghost i: nat, ghost b: Blk)
      requires i < |f| && LinkAt(ptr, size, f, i) && LinkAt(ptr, size, f, Succ(f, i)) && p == f[i].addr
      requires bp == b.addr && bp in size && size[bp] == b.size && p != bp && f[Succ(f, i)].addr != bp
      requires b.End() == f[Succ(f, i)].addr <==> Up(f, i, b)
      requires Up(f, i, b) ==> Succ(f, i) == i + 1
      modifies this`ptr, this`size
      ensures ptr == PtrFreed(old(ptr), f, i, b) && size == SizeFreed(old(size), f, i, b)
    {
      if bp + size[bp] == ptr[p] {
        size := size[bp := size[bp] + size[ptr[p]]];
        ptr := ptr[bp := ptr[ptr[p]]];
      } else {
        ptr := ptr[bp := ptr[p]];
      }
      if p + size[p] == bp {
        size := size[p := size[p] + size[bp]];
        ptr := ptr[p := ptr[bp]];
      } else {
        ptr := ptr[p := bp];
      }
    }

    /**
     Give back the live block k, whose header is at bp: it goes to its place in the
     ring, merged with what it touches.
     */
    method Free(bp: nat, ghost k: nat)
      requires Valid() && freep != 0 && k < |l| && l[k].addr == bp
      modifies this`ptr, this`size, this`freep, this`f, this`l, this`at
      ensures Valid() && freep != 0 && l == Removed(old(l), k)
      ensures f == Freed(old(f), Place(old(f), bp), old(l)[k])
    {
      ghost var i, b := Place(f, bp), l[k];
      assert base < bp && bp in size && size[bp] == b.size;
      LiveFits(f, l, base, top, k);
      FreeKeeps(ptr, size, f, l, base, top, got, k);
      Neighbours(ptr, size, f, i, b, base);
      hide *;
      var p := FindPlace(bp);
      Splice(bp, p, i, b);
      freep := p;
      f, l, at := Freed(f, i, b), Removed(l, k), i;
    }

    /** morecore(): a new block at the break becomes free, or sbrk() fails. */
    method Morecore(nu: nat, avail: bool, brk: nat) returns (r: nat)
      requires Valid() && freep != 0 && (avail ==> top <= brk)
      modifies this`ptr, this`size, this`freep, this`f, this`l, this`top, this`got, this`at
      ensures Valid() && freep != 0 && l == old(l) && r == (if avail then freep else 0)
      ensures !avail ==> unchanged(this)
      ensures avail ==> top == brk + AtLeast(nu) && got == old(got) + AtLeast(nu)
      ensures avail ==> f == Freed(old(f), Place(old(f), brk), Blk(brk, AtLeast(nu))) && Roomy(f, nu)
    {
      hide Ring, Place, Freed, AtLeast, Roomy;
      var n := AtLeast(nu);
      if !avail {
        return 0;
      }
      ghost var x := Blk(brk, n);
      NewBlock(ptr, size, f, l, base, top, got, x);
      FreedRoomy(f, Place(f, brk), x, nu);
      size := size[brk := n];
      ghost var k := |l|;
      l, top, got := l + [x], x.End(), got + n;
      Free(brk, k);
      assert Removed(old(l) + [x], k) == old(l);
      return freep;
    }

    /** The body of malloc()'s loop on a block that is large enough: the block after position c gives up n units. */
    method Carve(prevp: nat, p: nat, n: nat, ghost c: nat) returns (r: nat)
      requires Valid() && freep != 0 && Cursor(ptr, size, f, c, prevp, p) && c < |f| && f[Succ(f, c)].size >= n >= 1
      modifies this`ptr, this`size, this`freep, this`f, this`l, this`at
      ensures Valid() && freep == prevp != 0 && c + 1 < old(|f|)
      ensures f == Taken(old(f), c + 1, n) && l == old(l) + [Tail(old(f), c + 1, n)] && r == l[old(|l|)].addr + 1
    {
      hide Ring, Cursor, LinkAt, Succ, Taken, Tail;
      Taking(ptr, size, f, l, base, top, got, c, prevp, p, n);
      ghost var b := Tail(f, c + 1, n);
      if size[p] == n {
        ptr := ptr[prevp := ptr[p]];
        r := p + 1;
      } else {
        size := size[p := size[p] - n];
        var q := p + size[p];
        size := size[q := n];
        r := q + 1;
      }
      freep := prevp;
      f, l, at := Taken(f, c + 1, n), l + [b], c;
    }

    /** malloc()'s call of morecore() and the step of the loop after it. */
    method Grow(n: nat, avail: bool, brk: nat) returns (prevp: nat, p: nat, ghost e: nat)
      requires Valid() && freep != 0 && (avail ==> top <= brk)
      modifies this`ptr, this`size, this`freep, this`f, this`l, this`top, this`got, this`at
      ensures Valid() && freep != 0 && l == old(l) && prevp == (if avail then freep else 0)
      ensures got == old(got) + if avail then AtLeast(n) else 0
      ensures avail ==> at < |f| && e < |f| && Cursor(ptr, size, f, at, prevp, p) && Ahead(f, at, Succ(f, at), e, n)
    {
      prevp := Morecore(n, avail, brk);
      p, e := 0, 0;
      if prevp != 0 {
        hide Ring, Roomy, AtLeast;
        e := AheadStart(f, at, n);
        Follow(ptr, size, f, l, base, top, got, at, at);
        Follow(ptr, size, f, l, base, top, got, Succ(f, at), at);
        p := ptr[prevp];
      }
    }

    /**
     malloc(). It fails exactly if no free block is large enough and sbrk()
     fails; it asks sbrk() for more exactly if no free block is large enough.
     Both loops end.
     */
    method Malloc(nbytes: nat, avail: bool, brk: nat) returns (r: nat)
      requires Valid() && 16 * AtLeast(Units(nbytes)) < 0x8000_0000 && (avail ==> top <= brk)
      modifies this
      ensures Valid()
      ensures r == 0 <==> !avail && !Roomy(old(f), Units(nbytes))
      ensures l == old(l) + if r == 0 then [] else [Blk(r - 1, Units(nbytes))]
      ensures got == old(got) + if r == 0 || Roomy(old(f), Units(nbytes)) then 0 else AtLeast(Units(nbytes))
    {
      hide Ring, Cursor, Ahead, Passed, Roomy, Units, AtLeast, Dist, Succ;
      var n := Units(nbytes);
      if freep == 0 {
        Start();
      }
      var prevp := freep;
      ghost var c: nat, grown, e: nat := at, false, 0;
      Begin(ptr, size, f, l, base, top, got, old(f), at, n);
      var p := ptr[prevp];
      while true
        invariant Valid() && freep != 0 && l == old(l) && c < |f| && (grown ==> e < |f|)
        invariant got == old(got) + if grown then AtLeast(n) else 0
        invariant Cursor(ptr, size, f, c, prevp, p)
        invariant Scan(f, old(f), at, Succ(f, c), e, n, grown)
        invariant if grown then avail else avail ==> top <= brk
        decreases !grown, Dist(|f|, Succ(f, c), if grown then e else at)
      {
        Look(ptr, size, f, l, base, top, got, old(f), at, c, prevp, p, e, n, grown);
        if size[p] >= n {
          r := Carve(prevp, p, n, c);
          return;
        }
        if p == freep {
          prevp, p, e := Grow(n, avail, brk);
          if prevp == 0 {
            return 0;
          }
          grown, c := true, at;
        } else {
          prevp, c, p := p, Succ(f, c), ptr[p];
        }
      }
    }
  }
}
