/**
 Growing and undoing user memory: the relation "pages lo, lo + 1, ... of a table
 now map fresh pages with given contents", how uvmalloc() and uvmcopy() build it
 page by page, and why unmapping exactly those pages takes everything back.
 */
module VmFill {
  import opened Sv39
  import opened PageOwner
  import opened PageMap
  import opened VmSteps

  /** Free pages may have become interior pages of the table, or leaves at pages lo to lo + n - 1. */
  ghost predicate FillsOwn(root: nat, lo: nat, n: nat, own0: Owners, own: Owners) {
    && own.Keys == own0.Keys
    && forall p :: p in own0 ==>
         || own[p] == own0[p]
         || (own0[p].Free? && own[p].Table? && own[p].root == root && own[p].node.level < 2)
         || (own0[p].Free? && own[p].Leaf? && own[p].root == root && lo <= PageOf(own[p].slot) < lo + n)
  }

  /** Entry e maps a page that holds pg. */
  ghost predicate Holds(e: nat, pg: Page, own: Owners, mem: Memory) {
    && IsValid(e)
    && Pte2Pa(e) in own && own[Pte2Pa(e)].Leaf?
    && Pte2Pa(e) in mem && mem[Pte2Pa(e)] == pg
  }

  /**
   The unmapped pages from lo on of the table at root now map the entries es,
   to pages that were free and now hold pgs. Nothing else changed.
   */
  ghost predicate Fills(root: nat, lo: nat, es: seq<nat>, pgs: seq<Page>,
                        own0: Owners, mem0: Memory, own: Owners, mem: Memory)
  {
    && |es| == |pgs|
    && (forall k :: 0 <= k < |es| ==> Holds(es[k], pgs[k], own, mem))
    && SetsRange(root, lo, es, own0, mem0, mem)
    && FillsOwn(root, lo, |es|, own0, own)
    && SameData(own0, mem0, mem)
    && Unmapped(mem0, root, lo, |es|)
  }

  /** One more page. */
  lemma FillsNext(root: nat, lo: nat, es: seq<nat>, pgs: seq<Page>, e: nat, pg: Page,
                  own0: Owners, mem0: Memory, own1: Owners, mem1: Memory, own2: Owners, mem2: Memory)
    requires Fills(root, lo, es, pgs, own0, mem0, own1, mem1) && IsRoot(own0, root)
    requires Fills(root, lo + |es|, [e], [pg], own1, mem1, own2, mem2)
    ensures Fills(root, lo, es + [e], pgs + [pg], own0, mem0, own2, mem2)
  {
    assert SameRoots(own0, own1);
    NextFlat(root, lo, es, e, own0, mem0, own1, mem1, mem2);
    NextHolds(root, lo, es, pgs, e, pg, own0, mem0, own1, mem1, own2, mem2);
  }

  lemma NextFlat(root: nat, lo: nat, es: seq<nat>, e: nat,
                 own0: Owners, mem0: Memory, own1: Owners, mem1: Memory, mem2: Memory)
    requires SetsRange(root, lo, es, own0, mem0, mem1) && SetsRange(root, lo + |es|, [e], own1, mem1, mem2)
    requires SameRoots(own0, own1) && IsRoot(own0, root)
    requires Unmapped(mem0, root, lo, |es|) && Unmapped(mem1, root, lo + |es|, 1)
    ensures SetsRange(root, lo, es + [e], own0, mem0, mem2)
    ensures Unmapped(mem0, root, lo, |es + [e]|)
  {
    forall r, u: Slot | IsRoot(own0, r) && u.Ok()
      ensures Flat(mem2, r, u) ==
        if r == root && lo <= PageOf(u) < lo + |es + [e]| then (es + [e])[PageOf(u) - lo] else Flat(mem0, r, u)
    {
      assert IsRoot(own1, r);
    }
  }

  lemma NextHolds(root: nat, lo: nat, es: seq<nat>, pgs: seq<Page>, e: nat, pg: Page,
                  own0: Owners, mem0: Memory, own1: Owners, mem1: Memory, own2: Owners, mem2: Memory)
    requires Fills(root, lo, es, pgs, own0, mem0, own1, mem1)
    requires Fills(root, lo + |es|, [e], [pg], own1, mem1, own2, mem2)
    ensures forall k :: 0 <= k < |es + [e]| ==> Holds((es + [e])[k], (pgs + [pg])[k], own2, mem2)
  {
    forall k | 0 <= k < |es + [e]|
      ensures Holds((es + [e])[k], (pgs + [pg])[k], own2, mem2)
    {
      if k < |es| {
        assert Holds(es[k], pgs[k], own1, mem1);
      } else {
        assert Holds([e][0], [pg][0], own2, mem2);
      }
    }
  }

  /** A label as a leaf is a mapping. */
  lemma LeafIsMapped(mem: Memory, own: Owners, q: nat)
    requires StructOk(mem, own, NOWHERE) && q in own && own[q].Leaf?
    ensures own[q].slot.Ok() && Flat(mem, own[q].root, own[q].slot) != 0
    ensures Pte2Pa(Flat(mem, own[q].root, own[q].slot)) == q
  {
    assert MappedBy(mem, own, q);
    LowOf(mem, own, own[q].table, own[q].slot);
  }

  /** A mapping is a label as a leaf, special pages aside. */
  lemma MappedIsLeaf(mem: Memory, own: Owners, root: nat, s: Slot)
    requires StructOk(mem, own, NOWHERE) && IsRoot(own, root) && s.Ok() && Flat(mem, root, s) != 0
    ensures IsLeaf(Flat(mem, root, s))
    ensures !s.Special() ==>
      Pte2Pa(Flat(mem, root, s)) in own && own[Pte2Pa(Flat(mem, root, s))] == Leaf(root, s, LowTable(mem, root, s))
  {
    LowIs(mem, own, root, s);
    assert MapsPage(own, LowTable(mem, root, s), s.c, Flat(mem, root, s));
  }

  /** Every page below MAXVA has a slot. */
  lemma PageSlot(v: nat) returns (s: Slot)
    requires v < MAXPAGE
    ensures s.Ok() && PageOf(s) == v
  {
    PageBase(v);
    SlotOfPage(v * 4096);
    s := SlotOfVa(v * 4096);
  }

  lemma FilledAt(root: nat, lo: nat, es: seq<nat>, own0: Owners, mem0: Memory, mem: Memory, v: nat)
    requires SetsRange(root, lo, es, own0, mem0, mem) && IsRoot(own0, root)
    requires lo <= v < lo + |es| && v < MAXPAGE && IsValid(es[v - lo])
    ensures PageMapped(mem, root, v)
  {
    var s := PageSlot(v);
    assert Flat(mem, root, s) == es[v - lo];
  }

  /** What was filled can be unmapped. */
  lemma FilledIsMapped(root: nat, lo: nat, es: seq<nat>, pgs: seq<Page>,
                       own0: Owners, mem0: Memory, own: Owners, mem: Memory)
    requires Fills(root, lo, es, pgs, own0, mem0, own, mem) && IsRoot(own0, root) && lo + |es| <= MAXPAGE
    ensures AllMapped(mem, root, lo, |es|)
  {
    forall v | lo <= v < lo + |es|
      ensures PageMapped(mem, root, v)
    {
      assert Holds(es[v - lo], pgs[v - lo], own, mem);
      FilledAt(root, lo, es, own0, mem0, mem, v);
    }
  }

  /** Unmapping what was filled, pages given back, undoes it but for empty table pages. */
  lemma FillsUndone(root: nat, lo: nat, es: seq<nat>, pgs: seq<Page>,
                    own0: Owners, mem0: Memory, own1: Owners, mem1: Memory, own2: Owners, mem2: Memory)
    requires StructOk(mem0, own0, NOWHERE) && IsRoot(own0, root)
    requires Fills(root, lo, es, pgs, own0, mem0, own1, mem1)
    requires UnmapsRange(root, lo, |es|, true, own1, mem1, own2, mem2)
    ensures OnlyGrown(root, own0, mem0, own2, mem2)
  {
    assert SameRoots(own0, own1);
    forall r, u: Slot | IsRoot(own0, r) && u.Ok()
      ensures Flat(mem2, r, u) == Flat(mem0, r, u)
    {
      assert IsRoot(own1, r);
    }
    forall p | p in own0 && own0[p].Leaf?
      ensures own2[p] == own1[p]
    {
      LeafIsMapped(mem0, own0, p);
    }
  }

  /** Fills after which the table only grew. */
  lemma FillsGrown(root: nat, lo: nat, es: seq<nat>, pgs: seq<Page>,
                   own0: Owners, mem0: Memory, own1: Owners, mem1: Memory, own2: Owners, mem2: Memory)
    requires Fills(root, lo, es, pgs, own0, mem0, own1, mem1) && OnlyGrown(root, own1, mem1, own2, mem2)
    ensures Fills(root, lo, es, pgs, own0, mem0, own2, mem2)
  {
    assert SameRoots(own0, own1);
    forall r, u: Slot | IsRoot(own0, r) && u.Ok()
      ensures Flat(mem2, r, u) == Flat(mem1, r, u)
    {
      assert IsRoot(own1, r);
    }
    forall k | 0 <= k < |es|
      ensures Holds(es[k], pgs[k], own2, mem2)
    {
      assert Holds(es[k], pgs[k], own1, mem1);
    }
  }

  // ----- One page: kalloc, fill, mappages -----

  /** Mapping one aligned page. */
  lemma OnePage(a: nat)
    requires a % 4096 == 0
    ensures PageCount(a, 4096) == 1
    ensures a + 4096 > MAXVA ==> a >= MAXVA
  {
  }

  /** Taking a free page and filling it changes no mapping and no data. */
  lemma TakePage(mem0: Memory, own0: Owners, pa: nat, pg: Page)
    requires StructOk(mem0, own0, NOWHERE) && pa in own0 && own0[pa].Free? && |pg.w| == 512
    ensures SameFlat(own0, mem0, mem0[pa := pg]) && SameData(own0, mem0, mem0[pa := pg])
  {
    FlatFrame(mem0, own0, mem0[pa := pg]);
  }

  /** SetsRange does not notice that a free page was taken first. */
  lemma TakenThenSet(root: nat, v: nat, es: seq<nat>, pa: nat, own0: Owners, mem0: Memory, mem1: Memory, mem2: Memory)
    requires pa in own0 && own0[pa].Free? && SameFlat(own0, mem0, mem1)
    requires SetsRange(root, v, es, own0[pa := Held], mem1, mem2)
    ensures SetsRange(root, v, es, own0, mem0, mem2)
  {
    forall r, u: Slot | IsRoot(own0, r) && u.Ok()
      ensures Flat(mem2, r, u) ==
        if r == root && v <= PageOf(u) < v + |es| then es[PageOf(u) - v] else Flat(mem0, r, u)
    {
      assert IsRoot(own0[pa := Held], r);
    }
  }

  lemma TakenThenOwned(root: nat, v: nat, pa: nat, n: nat, own0: Owners, own2: Owners)
    requires pa in own0 && own0[pa].Free? && MapsOwn(root, v, pa, n, own0[pa := Held], own2) && n <= 1
    requires pa % 4096 == 0 && forall p :: p in own0 ==> p % 4096 == 0
    ensures pa in own2 && own2.Keys == own0.Keys
    ensures n == 1 && own2[pa].Leaf? ==> FillsOwn(root, v, 1, own0, own2)
    ensures n == 0 ==> own2[pa].Held? && Grown(own0, own2[pa := Free], root)
  {
    var own1 := own0[pa := Held];
    assert own1.Keys == own0.Keys;
    assert own2[pa := Free].Keys == own2.Keys;
    assert forall p :: p in own0 && pa <= p < pa + 4096 ==> p == pa;
  }

  /** The page stored by mappages() is labelled as a leaf. */
  lemma StoredIsLeaf(root: nat, v: nat, pa: nat, perm: nat, own1: Owners, mem1: Memory, own2: Owners, mem2: Memory)
    requires StructOk(mem2, own2, NOWHERE) && IsRoot(own1, root) && IsRoot(own2, root)
    requires pa % 4096 == 0 && perm < 1024 && v < MAXPAGE && !SpecialPage(v)
    requires SetsRange(root, v, [MakePte(pa, perm)], own1, mem1, mem2)
    ensures pa in own2 && own2[pa].Leaf?
  {
    var s := PageSlot(v);
    SpecialIsPage(s);
    PteRoundTrip(pa, perm);
    assert Flat(mem2, root, s) == [MakePte(pa, perm)][PageOf(s) - v];
    MappedIsLeaf(mem2, own2, root, s);
  }

  lemma MappedFills(root: nat, v: nat, pa: nat, perm: nat, pg: Page,
                    own0: Owners, mem0: Memory, own2: Owners, mem2: Memory)
    requires StructOk(mem0, own0, NOWHERE) && StructOk(mem2, own2, NOWHERE) && IsRoot(own0, root) && IsRoot(own2, root)
    requires pa in own0 && own0[pa].Free? && (forall p :: p in own0 ==> p % 4096 == 0) && |pg.w| == 512 && perm < 1024
    requires v < MAXPAGE && !SpecialPage(v) && Unmapped(mem0, root, v, 1)
    requires MapsRange(root, v, pa, [MakePte(pa, perm)], own0[pa := Held], mem0[pa := pg], own2, mem2)
    ensures Fills(root, v, [MakePte(pa, perm)], [pg], own0, mem0, own2, mem2)
  {
    TakePage(mem0, own0, pa, pg);
    TakenThenSet(root, v, [MakePte(pa, perm)], pa, own0, mem0, mem0[pa := pg], mem2);
    StoredIsLeaf(root, v, pa, perm, own0[pa := Held], mem0[pa := pg], own2, mem2);
    TakenThenOwned(root, v, pa, 1, own0, own2);
    PteRoundTrip(pa, perm);
    assert SameData(own0[pa := Held], mem0[pa := pg], mem2);
    assert SameData(own0, mem0, mem2);
    assert mem2[pa] == pg;
    assert Holds(MakePte(pa, perm), pg, own2, mem2);
  }

  /** Giving the page back when it could not be mapped. */
  lemma MapFailed(root: nat, v: nat, pa: nat, pg: Page, junk: Page,
                  own0: Owners, mem0: Memory, own2: Owners, mem2: Memory)
    requires StructOk(mem0, own0, NOWHERE) && StructOk(mem2, own2, NOWHERE)
    requires pa in own0 && own0[pa].Free? && (forall p :: p in own0 ==> p % 4096 == 0)
    requires |pg.w| == 512 && |junk.w| == 512
    requires MapsRange(root, v, pa, [], own0[pa := Held], mem0[pa := pg], own2, mem2)
    ensures pa in own2 && own2[pa].Held?
    ensures OnlyGrown(root, own0, mem0, own2[pa := Free], mem2[pa := junk])
  {
    TakePage(mem0, own0, pa, pg);
    TakenThenSet(root, v, [], pa, own0, mem0, mem0[pa := pg], mem2);
    TakenThenOwned(root, v, pa, 0, own0, own2);
    FlatFrame(mem2, own2, mem2[pa := junk]);
    assert SameFlat(own0, mem0, mem2);
    assert SameRoots(own0, own2[pa := Free]);
    SameFlatTrans(own0, own2, mem0, mem2, mem2[pa := junk]);
    FailedData(pa, pg, junk, own0, mem0, mem2);
  }

  lemma FailedData(pa: nat, pg: Page, junk: Page, own0: Owners, mem0: Memory, mem2: Memory)
    requires pa in own0 && own0[pa].Free? && SameData(own0[pa := Held], mem0[pa := pg], mem2)
    ensures SameData(own0, mem0, mem2[pa := junk])
  {
    var own1, mem1 := own0[pa := Held], mem0[pa := pg];
    forall p | p in own0 && !own0[p].Free? && !own0[p].Table?
      ensures p in mem0 && p in mem2 && mem2[p] == mem0[p]
    {
      assert p in own1 && own1[p] == own0[p];
      assert mem1[p] == mem0[p];
    }
  }
}
