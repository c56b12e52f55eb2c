/**
 What the operations of kernel/vm.c do to memory and to the labels, as relations
 between the state before and after, and how these relations compose.
 */
module VmSteps {
  import opened Sv39
  import opened PageOwner
  import opened PageMap

  // ----- Growing a table -----

  /** Only free pages changed hands, and they became interior pages of the table at root. */
  ghost predicate Grown(own: Owners, own': Owners, root: nat) {
    && own'.Keys == own.Keys
    && forall p :: p in own ==>
         own'[p] == own[p] || (own[p].Free? && own'[p].Table? && own'[p].root == root && own'[p].node.level < 2)
  }

  /** The contents of mapped and held pages did not change. */
  ghost predicate SameData(own: Owners, mem: Memory, mem': Memory) {
    forall p :: p in own && !own[p].Free? && !own[p].Table? ==> p in mem && p in mem' && mem'[p] == mem[p]
  }

  /** The table at root may have gained empty interior pages; nothing else changed. */
  ghost predicate OnlyGrown(root: nat, own: Owners, mem: Memory, own': Owners, mem': Memory) {
    && Grown(own, own', root)
    && SameFlat(own, mem, mem')
    && SameData(own, mem, mem')
  }

  lemma OnlyGrownTrans(root: nat, own0: Owners, mem0: Memory, own1: Owners, mem1: Memory, own2: Owners, mem2: Memory)
    requires OnlyGrown(root, own0, mem0, own1, mem1) && OnlyGrown(root, own1, mem1, own2, mem2)
    ensures OnlyGrown(root, own0, mem0, own2, mem2)
  {
    assert SameRoots(own0, own1);
    SameFlatTrans(own0, own1, mem0, mem1, mem2);
  }

  /** memset(page, c, PGSIZE) for the junk values of kalloc and kfree. */
  function Junk(c: nat): (pg: Page)
    ensures |pg.w| == 512
  {
    Page(seq(512, _ => c * 0x0101_0101_0101_0101))
  }

  /** Hanging a held page below an invalid entry keeps the invariant. */
  lemma HangOk(end: nat, free: seq<nat>, mem: Memory, own: Owners, p: nat, i: nat, q: nat)
    requires AllAllocatable(end, own) && FreeOk(free, own) && StructOk(mem, own, NOWHERE)
    requires IsTable(own, p) && own[p].node.level > 0 && i < 512 && !IsValid(mem[p].w[i])
    requires q in own && own[q].Held? && q % 4096 == 0
    ensures AllAllocatable(end, WithTable(own, p, i, q)) && FreeOk(free, WithTable(own, p, i, q))
    ensures StructOk(Hung(mem, p, i, q), WithTable(own, p, i, q), NOWHERE)
  {
    HangTable(mem, own, p, i, q);
    FreeRelabel(free, own, q, Table(own[p].root, own[p].node.Child(i), p));
  }

  /** Taking a free page and hanging it below an invalid entry only grows the table. */
  lemma HangGrows(mem0: Memory, own0: Owners, mem: Memory, own: Owners, p: nat, i: nat, q: nat)
    requires StructOk(mem0, own0, NOWHERE) && StructOk(mem, own, NOWHERE)
    requires q in own0 && own0[q].Free? && q % 4096 == 0
    requires own == own0[q := Held] && mem == mem0[q := Junk(5)]
    requires IsTable(own0, p) && own0[p].node.level > 0 && i < 512 && !IsValid(mem0[p].w[i])
    ensures OnlyGrown(own0[p].root, own0, mem0, WithTable(own, p, i, q), Hung(mem, p, i, q))
  {
    FlatFrame(mem0, own0, mem);
    HangTable(mem, own, p, i, q);
    SameFlatTrans(own0, own, mem0, mem, Hung(mem, p, i, q));
    HungFrame(mem0, own0, p, i, q, mem, own);
  }

  lemma HungFrame(mem: Memory, own: Owners, p: nat, i: nat, q: nat, mem1: Memory, own1: Owners)
    requires Pages(mem, own) && IsTable(own, p) && own[p].node.Ok() && own[p].node.level > 0 && i < 512
    requires q in own && own[q].Free?
    requires own1 == own[q := Held] && mem1 == mem[q := Junk(5)]
    ensures SameData(own, mem, Hung(mem1, p, i, q))
    ensures Grown(own, WithTable(own1, p, i, q), own[p].root)
  {
    assert own[q := Held].Keys == own.Keys;
  }

  /** The position reached on the way to s when `level` is next. */
  function NodeAt(level: nat, s: Slot): (n: Node) {
    if level == 2 then ROOT else if level == 1 then Node(1, s.a, 0) else Node(0, s.a, s.b)
  }

  lemma NoTableBelow(mem: Memory, own: Owners, p: nat, level: nat, s: Slot)
    requires StructOk(mem, own, NOWHERE) && s.Ok()
    requires 0 < level <= 2 && IsTable(own, p) && own[p].node == NodeAt(level, s)
    requires !IsValid(mem[p].w[if level == 2 then s.a else s.b])
    ensures LowTable(mem, own[p].root, s) == 0
  {
    if level == 1 {
      MidOf(mem, own, p);
    }
  }

  // ----- Mapping -----

  /**
   Held pages of [pa, pa + n pages) may be mapped at pages lo to lo + n - 1 of the
   table at root, which may have grown.
   */
  ghost predicate MapsOwn(root: nat, lo: nat, pa: nat, n: nat, own: Owners, own': Owners) {
    && own'.Keys == own.Keys
    && forall p :: p in own ==>
         || own'[p] == own[p]
         || (own[p].Free? && own'[p].Table? && own'[p].root == root && own'[p].node.level < 2)
         || (own[p].Held? && pa <= p < pa + n * 4096 && own'[p].Leaf? && own'[p].root == root
             && lo <= PageOf(own'[p].slot) < lo + n)
  }

  /** Storing the entry of a held page keeps the invariant. */
  lemma MapOk(end: nat, free: seq<nat>, mem: Memory, own: Owners, t: nat, c: nat, pa: nat, perm: nat)
    requires AllAllocatable(end, own) && FreeOk(free, own) && StructOk(mem, own, NOWHERE)
    requires IsLow(own, t, c) && !IsValid(mem[t].w[c]) && perm < 1024 && IsLeaf(perm) && pa % 4096 == 0
    requires !SlotOf(own, t, c).Special() ==> pa in own && own[pa].Held?
    ensures AllAllocatable(end, WithLeaf(own, t, c, pa)) && FreeOk(free, WithLeaf(own, t, c, pa))
    ensures StructOk(SetEntry(mem, t, c, MakePte(pa, perm)), WithLeaf(own, t, c, pa), NOWHERE)
  {
    PteRoundTrip(pa, perm);
    MadeFlags(pa, perm);
    SetLeaf(mem, own, t, c, MakePte(pa, perm));
    if !SlotOf(own, t, c).Special() {
      FreeRelabel(free, own, pa, Leaf(own[t].root, SlotOf(own, t, c), t));
    }
  }

  /** Growing the table and then storing the entry maps exactly one page. */
  lemma MapAfterGrowth(root: nat, s: Slot, pa: nat, e: nat,
                       own0: Owners, mem0: Memory, own: Owners, mem: Memory, t: nat, c: nat)
    requires OnlyGrown(root, own0, mem0, own, mem) && StructOk(mem, own, NOWHERE)
    requires IsLow(own, t, c) && own[t].root == root && SlotOf(own, t, c) == s
    requires IsValid(e) && (!s.Special() ==> pa in own0 && own0[pa].Held?)
    ensures SetsOne(root, s, e, own0, mem0, SetEntry(mem, t, c, e))
    ensures MapsOwn(root, PageOf(s), pa, 1, own0, WithLeaf(own, t, c, pa))
    ensures SameData(own0, mem0, SetEntry(mem, t, c, e))
  {
    FlatSet(mem, own, t, c, e);
    assert SameRoots(own0, own);
    forall r, u: Slot | IsRoot(own0, r) && u.Ok()
      ensures Flat(SetEntry(mem, t, c, e), r, u) == if r == root && u == s then e else Flat(mem0, r, u)
    {
      assert IsRoot(own, r);
    }
    assert WithLeaf(own, t, c, pa).Keys == own.Keys;
    assert own0[t].Table? || own0[t].Free?;
  }

  /** Number of pages touched by [va, va + size). */
  function PageCount(va: nat, size: nat): (n: nat)
    requires size > 0
    ensures n > 0
  {
    (va + size - 1) / 4096 - va / 4096 + 1
  }

  /** The k-th page from pa is in the caller's hands. */
  ghost predicate HeldAt(own: Owners, pa: nat, k: nat) {
    pa + k * 4096 in own && own[pa + k * 4096].Held?
  }

  /** The physical pages to be mapped are in the caller's hands, special pages aside. */
  ghost predicate HeldRange(own: Owners, lo: nat, n: nat, pa: nat) {
    forall k :: 0 <= k < n && !SpecialPage(lo + k) ==> HeldAt(own, pa, k)
  }

  /** Pages lo to lo + n - 1 are not mapped. */
  ghost predicate Unmapped(mem: Memory, root: nat, lo: nat, n: nat) {
    forall u: Slot :: u.Ok() && lo <= PageOf(u) < lo + n ==> Flat(mem, root, u) == 0
  }

  /** The unmapped pages from lo on now map es, whose pages were held, and nothing else changed. */
  ghost predicate MapsRange(root: nat, lo: nat, pa: nat, es: seq<nat>,
                            own: Owners, mem: Memory, own': Owners, mem': Memory)
  {
    && SetsRange(root, lo, es, own, mem, mem')
    && MapsOwn(root, lo, pa, |es|, own, own')
    && SameData(own, mem, mem')
    && Unmapped(mem, root, lo, |es|)
    && (es != [] ==> lo + |es| <= MAXPAGE)
  }

  ghost predicate EntryFor(e: nat, pa: nat, k: nat, perm: nat) {
    perm < 1024 && e == MakePte(pa + k * 4096, perm)
  }

  /** The entries mappages() stores for consecutive pages from pa. */
  ghost predicate EntriesFor(es: seq<nat>, pa: nat, perm: nat) {
    forall k :: 0 <= k < |es| ==> EntryFor(es[k], pa, k, perm)
  }

  lemma EntriesNext(es: seq<nat>, pa: nat, q: nat, perm: nat)
    requires EntriesFor(es, pa, perm) && q == pa + |es| * 4096 && perm < 1024
    ensures EntriesFor(es + [MakePte(q, perm)], pa, perm)
  {
  }

  lemma AlignedNext(pa: nat, k: nat)
    requires pa % 4096 == 0
    ensures (pa + k * 4096) % 4096 == 0
  {
    assert pa + k * 4096 == 4096 * (pa / 4096 + k);
  }

  lemma TurnPage(pa: nat, lo: nat, k: nat, a: nat, q: nat)
    requires pa % 4096 == 0 && a == (lo + k) * 4096 && q == pa + k * 4096
    ensures q % 4096 == 0 && a / 4096 == lo + k
  {
    AlignedNext(pa, k);
    PageBase(lo + k);
  }

  /** What mappages() finds at the next page of its range. */
  lemma RangeNext(root: nat, lo: nat, n: nat, pa: nat, es: seq<nat>,
                  own0: Owners, mem0: Memory, own: Owners, mem: Memory)
    requires |es| < n && IsRoot(own0, root)
    requires MapsRange(root, lo, pa, es, own0, mem0, own, mem) && HeldRange(own0, lo, n, pa)
    ensures !SpecialPage(lo + |es|) ==> HeldAt(own, pa, |es|)
    ensures forall u: Slot :: u.Ok() && PageOf(u) == lo + |es| ==> Flat(mem, root, u) == Flat(mem0, root, u)
  {
    if !SpecialPage(lo + |es|) {
      assert HeldAt(own0, pa, |es|);
    }
  }

  lemma RangeGrown(root: nat, lo: nat, pa: nat, es: seq<nat>,
                   own0: Owners, mem0: Memory, own1: Owners, mem1: Memory, own2: Owners, mem2: Memory)
    requires MapsRange(root, lo, pa, es, own0, mem0, own1, mem1)
    requires OnlyGrown(root, own1, mem1, own2, mem2)
    ensures MapsRange(root, lo, pa, es, own0, mem0, own2, mem2) && SameRoots(own0, own2)
  {
    assert SameRoots(own0, own1);
    forall r, u: Slot | IsRoot(own0, r) && u.Ok()
      ensures Flat(mem2, r, u) == Flat(mem1, r, u)
    {
      assert IsRoot(own1, r);
    }
  }

  lemma RangeMapped(root: nat, lo: nat, pa: nat, es: seq<nat>, s: Slot, e: nat,
                    own0: Owners, mem0: Memory, own1: Owners, mem1: Memory, own2: Owners, mem2: Memory)
    requires s.Ok() && PageOf(s) == lo + |es| < MAXPAGE && IsRoot(own0, root)
    requires MapsRange(root, lo, pa, es, own0, mem0, own1, mem1)
    requires SetsOne(root, s, e, own1, mem1, mem2) && Flat(mem1, root, s) == 0
    requires MapsOwn(root, lo + |es|, pa + |es| * 4096, 1, own1, own2) && SameData(own1, mem1, mem2)
    ensures MapsRange(root, lo, pa, es + [e], own0, mem0, own2, mem2) && SameRoots(own0, own2)
  {
    assert SameRoots(own0, own1);
    SetsRangeStep(root, lo, es, s, e, own0, mem0, own1, mem1, mem2);
    UnmappedNext(root, lo, es, s, own0, mem0, mem1);
  }

  lemma UnmappedNext(root: nat, lo: nat, es: seq<nat>, s: Slot, own0: Owners, mem0: Memory, mem1: Memory)
    requires s.Ok() && PageOf(s) == lo + |es| && IsRoot(own0, root)
    requires SetsRange(root, lo, es, own0, mem0, mem1) && Unmapped(mem0, root, lo, |es|) && Flat(mem1, root, s) == 0
    ensures Unmapped(mem0, root, lo, |es| + 1)
  {
    forall u: Slot | u.Ok() && lo <= PageOf(u) < lo + |es| + 1
      ensures Flat(mem0, root, u) == 0
    {
      if PageOf(u) == lo + |es| {
        PageOfInjective(u, s);
      }
    }
  }

  // ----- Unmapping -----

  function Given(doFree: bool): (o: Owner) {
    if doFree then Free else Held
  }

  /** The page mapped at slot s of the table at root, if any, was given up. */
  ghost predicate DropsLeaf(root: nat, s: Slot, doFree: bool, own: Owners, own': Owners) {
    && own'.Keys == own.Keys
    && forall p :: p in own ==>
         own'[p] == if own[p].Leaf? && own[p].root == root && own[p].slot == s then Given(doFree) else own[p]
  }

  /** Mapped and held pages whose label did not change kept their contents. */
  ghost predicate KeepsData(own: Owners, mem: Memory, own': Owners, mem': Memory) {
    forall p :: p in own && p in own' && own'[p] == own[p] && !own[p].Free? && !own[p].Table? ==>
      p in mem && p in mem' && mem'[p] == mem[p]
  }

  /** A valid entry of the lowest level is never taken for a pointer to a table. */
  lemma LeafFlags(mem: Memory, own: Owners, t: nat, c: nat)
    requires StructOk(mem, own, NOWHERE) && IsLow(own, t, c) && IsValid(mem[t].w[c])
    ensures Flags(mem[t].w[c]) != PTE_V
  {
    assert MapsPage(own, t, c, mem[t].w[c]);
    FlagBits(mem[t].w[c]);
  }

  /** The only page labelled with a slot is the one its entry maps. */
  lemma LeafUnique(mem: Memory, own: Owners, t: nat, c: nat, q: nat)
    requires StructOk(mem, own, NOWHERE) && IsLow(own, t, c) && q in own && own[q].Leaf?
    requires own[q].root == own[t].root && own[q].slot == SlotOf(own, t, c)
    ensures IsValid(mem[t].w[c]) && q == Pte2Pa(mem[t].w[c])
  {
    assert MappedBy(mem, own, q);
    LowOf(mem, own, t, SlotOf(own, t, c));
    LowOf(mem, own, own[q].table, SlotOf(own, t, c));
  }

  lemma UnmapLabels(mem: Memory, own: Owners, t: nat, c: nat, doFree: bool)
    requires StructOk(mem, own, NOWHERE) && IsLow(own, t, c) && IsValid(mem[t].w[c])
    requires doFree ==> !SlotOf(own, t, c).Special()
    ensures !SlotOf(own, t, c).Special() ==>
      Pte2Pa(mem[t].w[c]) in own && own[Pte2Pa(mem[t].w[c])] == Leaf(own[t].root, SlotOf(own, t, c), t)
    ensures !doFree ==>
      DropsLeaf(own[t].root, SlotOf(own, t, c), false, own, WithoutLeaf(own, t, c, Pte2Pa(mem[t].w[c])))
    ensures doFree ==>
      DropsLeaf(own[t].root, SlotOf(own, t, c), true, own,
                WithoutLeaf(own, t, c, Pte2Pa(mem[t].w[c]))[Pte2Pa(mem[t].w[c]) := Free])
  {
    var s, pa := SlotOf(own, t, c), Pte2Pa(mem[t].w[c]);
    assert MapsPage(own, t, c, mem[t].w[c]);
    forall p | p in own && own[p].Leaf? && own[p].root == own[t].root && own[p].slot == s
      ensures p == pa && !s.Special()
    {
      LeafUnique(mem, own, t, c, p);
      assert MappedBy(mem, own, p);
    }
  }

  /** The effect of one turn of uvmunmap() on the flat map. */
  lemma UnmapFlat(mem: Memory, own: Owners, t: nat, c: nat, doFree: bool)
    requires StructOk(mem, own, NOWHERE) && IsLow(own, t, c) && IsValid(mem[t].w[c])
    requires doFree ==> !SlotOf(own, t, c).Special()
    ensures SetsOne(own[t].root, SlotOf(own, t, c), 0, own, mem, SetEntry(mem, t, c, 0))
    ensures doFree ==>
      SetsOne(own[t].root, SlotOf(own, t, c), 0, own, mem, SetEntry(mem, t, c, 0)[Pte2Pa(mem[t].w[c]) := Junk(1)])
  {
    FlatSet(mem, own, t, c, 0);
    if doFree {
      var pa := Pte2Pa(mem[t].w[c]);
      var mem1 := SetEntry(mem, t, c, 0);
      ClearLeaf(mem, own, t, c);
      FlatFrame(mem1, own[pa := Held], mem1[pa := Junk(1)]);
      forall r, u: Slot | IsRoot(own, r) && u.Ok()
        ensures Flat(mem1[pa := Junk(1)], r, u) == Flat(mem1, r, u)
      {
        assert IsRoot(own[pa := Held], r);
      }
    }
  }

  lemma UnmapData(mem: Memory, own: Owners, t: nat, c: nat, own': Owners)
    requires Pages(mem, own) && IsLow(own, t, c) && own'.Keys == own.Keys
    ensures KeepsData(own, mem, own', SetEntry(mem, t, c, 0))
    ensures Pte2Pa(mem[t].w[c]) in own && own'[Pte2Pa(mem[t].w[c])] != own[Pte2Pa(mem[t].w[c])] ==>
      KeepsData(own, mem, own', SetEntry(mem, t, c, 0)[Pte2Pa(mem[t].w[c]) := Junk(1)])
  {
  }

  ghost predicate PageMapped(mem: Memory, root: nat, v: nat) {
    exists u: Slot :: u.Ok() && PageOf(u) == v && v < MAXPAGE && Flat(mem, root, u) != 0
  }

  ghost predicate AllMapped(mem: Memory, root: nat, lo: nat, n: nat) {
    forall v :: lo <= v < lo + n ==> PageMapped(mem, root, v)
  }

  /** The pages mapped at pages lo to lo + n - 1 of the table at root were given up, and only those. */
  ghost predicate DropsRange(root: nat, lo: nat, n: nat, doFree: bool, own: Owners, own': Owners) {
    && own'.Keys == own.Keys
    && forall p :: p in own ==>
         own'[p] ==
           if own[p].Leaf? && own[p].root == root && lo <= PageOf(own[p].slot) < lo + n then Given(doFree) else own[p]
  }

  ghost predicate UnmapsRange(root: nat, lo: nat, n: nat, doFree: bool, own: Owners, mem: Memory, own': Owners,
                              mem': Memory) {
    && ClearsRange(root, lo, n, own, mem, mem')
    && DropsRange(root, lo, n, doFree, own, own')
    && KeepsData(own, mem, own', mem')
  }

  lemma UnmapsStep(root: nat, lo: nat, k: nat, doFree: bool, s: Slot,
                   own0: Owners, mem0: Memory, own1: Owners, mem1: Memory, own2: Owners, mem2: Memory)
    requires s.Ok() && PageOf(s) == lo + k && StructOk(mem0, own0, NOWHERE)
    requires UnmapsRange(root, lo, k, doFree, own0, mem0, own1, mem1)
    requires SetsOne(root, s, 0, own1, mem1, mem2)
    requires DropsLeaf(root, s, doFree, own1, own2) && KeepsData(own1, mem1, own2, mem2)
    ensures UnmapsRange(root, lo, k + 1, doFree, own0, mem0, own2, mem2)
  {
    assert SameRoots(own0, own1);
    ClearsRangeStep(root, lo, k, s, own0, mem0, own1, mem1, mem2);
    DropsStep(root, lo, k, doFree, s, own0, mem0, own1, own2);
  }

  lemma DropsStep(root: nat, lo: nat, k: nat, doFree: bool, s: Slot, own0: Owners, mem0: Memory, own1: Owners,
                  own2: Owners)
    requires s.Ok() && PageOf(s) == lo + k && Pages(mem0, own0) && LeavesUp(mem0, own0)
    requires DropsRange(root, lo, k, doFree, own0, own1) && DropsLeaf(root, s, doFree, own1, own2)
    ensures DropsRange(root, lo, k + 1, doFree, own0, own2)
  {
    forall p | p in own0 && own0[p].Leaf?
      ensures own0[p].slot == s <==> PageOf(own0[p].slot) == lo + k
    {
      assert MappedBy(mem0, own0, p);
      if PageOf(own0[p].slot) == lo + k {
        PageOfInjective(own0[p].slot, s);
      }
    }
  }

  /** What uvmunmap() finds at the next page of its range. */
  lemma UnmapPre(root: nat, lo: nat, k: nat, s: Slot, own0: Owners, mem0: Memory, mem: Memory)
    requires s.Ok() && PageOf(s) == lo + k < MAXPAGE && IsRoot(own0, root)
    requires ClearsRange(root, lo, k, own0, mem0, mem)
    ensures Flat(mem, root, s) == Flat(mem0, root, s)
    ensures Flat(mem, root, s) != 0 <==> PageMapped(mem0, root, lo + k)
  {
    if PageMapped(mem0, root, lo + k) {
      var u: Slot :| u.Ok() && PageOf(u) == lo + k && Flat(mem0, root, u) != 0;
      PageOfInjective(s, u);
    }
  }

  // ----- Arithmetic of page ranges -----

  lemma PageBase(v: nat)
    ensures v * 4096 / 4096 == v && v * 4096 % 4096 == 0
    ensures v * 4096 < MAXVA <==> v < MAXPAGE
  {
  }

  /** The first and last page of a range. */
  lemma RangeEnds(va: nat, size: nat)
    requires size > 0
    ensures PgRoundDown(va) == va / 4096 * 4096
    ensures PgRoundDown(va + size - 1) == (va / 4096 + PageCount(va, size) - 1) * 4096
    ensures va + size <= MAXVA <==> va / 4096 + PageCount(va, size) <= MAXPAGE
  {
  }

  lemma AllMappedStep(mem: Memory, root: nat, lo: nat, k: nat, n: nat)
    requires k < n && AllMapped(mem, root, lo, k)
    ensures PageMapped(mem, root, lo + k) ==> AllMapped(mem, root, lo, k + 1)
    ensures !PageMapped(mem, root, lo + k) ==> !AllMapped(mem, root, lo, n)
  {
  }

  /** The pages from start up to p were freed. */
  ghost predicate FreedBetween(start: nat, p: nat, own0: Owners, own: Owners) {
    && own.Keys == own0.Keys
    && forall q :: q in own ==> own[q] == if start <= q < p then Free else own0[q]
  }

  lemma FirstPage(end: nat, start: nat, own: Owners)
    requires AllAllocatable(end, own)
    ensures FreedBetween(start, PgRoundUp(start), own, own)
  {
    forall q | q in own
      ensures !(start <= q < PgRoundUp(start))
    {
      assert Allocatable(end, q);
    }
  }

  lemma FreedNext(end: nat, start: nat, p: nat, own0: Owners, own: Owners)
    requires AllAllocatable(end, own0) && start <= p && p % 4096 == 0 && p in own && FreedBetween(start, p, own0, own)
    ensures (p + 4096) % 4096 == 0 && FreedBetween(start, p + 4096, own0, own[p := Free])
  {
    assert own[p := Free].Keys == own.Keys;
    forall q | q in own
      ensures !(p < q < p + 4096)
    {
      assert Allocatable(end, q);
    }
  }

  lemma FreedAll(end: nat, start: nat, p: nat, own0: Owners, own: Owners)
    requires AllAllocatable(end, own0) && p % 4096 == 0 && p + 4096 > PHYSTOP && FreedBetween(start, p, own0, own)
    ensures FreedBetween(start, PHYSTOP, own0, own)
  {
    assert p >= PHYSTOP;
    forall q | q in own
      ensures q < PHYSTOP
    {
      assert Allocatable(end, q);
    }
  }
}
