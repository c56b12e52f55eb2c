/**
 The memory of processes over their lives: growproc(), the part of fork() that
 copies an address space, and freeproc(). A process keeps a table that maps
 exactly the pages for its size and the two special pages, so that freeing it
 never panics and gives everything back.
 */
module ProcMemory {
  import opened Sv39
  import opened PageOwner
  import opened PageMap
  import opened VmSteps
  import opened VmFill
  import opened Vm
  import opened UserVm
  import opened ProcTables

  /** The table at root is that of a process of sz bytes. */
  ghost predicate OfSize(mem: Memory, root: nat, sz: nat) {
    sz <= TRAPFRAME && MapsExactly(mem, root, PagesFor(sz), true)
  }

  lemma FilledSize(root: nat, sz: nat, sz': nat, es: seq<nat>, pgs: seq<Page>, own0: Owners, mem0: Memory, own: Owners,
                   mem: Memory)
    requires IsRoot(own0, root) && OfSize(mem0, root, sz) && sz <= sz' <= TRAPFRAME
    requires Fills(root, PagesFor(sz), es, pgs, own0, mem0, own, mem) && |es| == PagesFor(sz') - PagesFor(sz)
    ensures OfSize(mem, root, sz')
  {
    forall s: Slot | s.Ok()
      ensures Flat(mem, root, s) != 0 <==> PageOf(s) < PagesFor(sz') || SpecialPage(PageOf(s))
    {
      var k := PageOf(s) - PagesFor(sz);
      assert 0 <= k < |es| ==> Holds(es[k], pgs[k], own, mem);
    }
  }

  lemma ShrunkSize(root: nat, sz: nat, sz': nat, own0: Owners, mem0: Memory, mem: Memory)
    requires IsRoot(own0, root) && OfSize(mem0, root, sz) && sz' <= sz
    requires ClearsRange(root, PagesFor(sz'), PagesFor(sz) - PagesFor(sz'), own0, mem0, mem)
    ensures OfSize(mem, root, sz')
  {
  }

  lemma SameSize(root: nat, sz: nat, own0: Owners, mem0: Memory, mem: Memory)
    requires IsRoot(own0, root) && OfSize(mem0, root, sz) && SameFlat(own0, mem0, mem)
    ensures OfSize(mem, root, sz)
  {
  }

  lemma RoomAbove(mem: Memory, root: nat, sz: nat, sz': nat)
    requires OfSize(mem, root, sz) && sz <= sz' <= TRAPFRAME
    ensures PagesFor(sz) <= PagesFor(sz') && Unmapped(mem, root, PagesFor(sz), PagesFor(sz') - PagesFor(sz))
  {
    PagesForMonotone(sz, sz');
  }

  // ----- A process is never larger than memory -----

  /** The page of memory behind page v of a process. */
  lemma PageBehind(mem: Memory, own: Owners, root: nat, k: nat, v: nat) returns (pa: nat)
    requires StructOk(mem, own, NOWHERE) && IsRoot(own, root) && MapsExactly(mem, root, k, true) && v < k <= MAXPAGE - 2
    ensures pa in own && own[pa].Leaf? && PageOf(own[pa].slot) == v
  {
    hide StructOk, Flat, PageOf;
    SlotOfPage(v * 4096);
    var s := SlotOfVa(v * 4096);
    SpecialIsPage(s);
    MappedIsLeaf(mem, own, root, s);
    pa := Pte2Pa(Flat(mem, root, s));
  }

  /** Distinct pages of memory behind the first n pages of a process. */
  lemma {:induction false} PagesBehind(mem: Memory, own: Owners, root: nat, k: nat, n: nat) returns (ps: set<nat>)
    requires StructOk(mem, own, NOWHERE) && IsRoot(own, root) && MapsExactly(mem, root, k, true)
    requires n <= k <= MAXPAGE - 2
    ensures |ps| == n && forall p :: p in ps ==> p in own && own[p].Leaf? && PageOf(own[p].slot) < n
    decreases n
  {
    hide StructOk, MapsExactly, IsRoot, PageOf;
    if n == 0 {
      return {};
    }
    ps := PagesBehind(mem, own, root, k, n - 1);
    var pa := PageBehind(mem, own, root, k, n - 1);
    assert pa !in ps;
    ps := ps + {pa};
  }

  /** There are no more pages than memory below n * 4096 has. */
  lemma {:induction false} PagesBelow(ps: set<nat>, n: nat)
    requires forall p :: p in ps ==> p % 4096 == 0 && p < n * 4096
    ensures |ps| <= n
  {
    if n == 0 {
      assert ps == {};
    } else {
      var last := (n - 1) * 4096;
      forall p | p in ps - {last}
        ensures p < last
      {
      }
      PagesBelow(ps - {last}, n - 1);
      assert ps <= (ps - {last}) + {last};
    }
  }

  lemma PagesInMemory(ps: set<nat>, end: nat, own: Owners)
    requires AllAllocatable(end, own) && forall p :: p in ps ==> p in own
    ensures |ps| <= 557056
  {
    forall p | p in ps
      ensures p % 4096 == 0 && p < 557056 * 4096
    {
      assert Allocatable(end, p);
    }
    PagesBelow(ps, 557056);
  }

  /** So a process can grow by any int and stay below its trapframe. */
  lemma SizeBounded(m: Machine, root: nat, sz: nat)
    requires m.Valid() && IsRoot(m.own, root) && OfSize(m.mem, root, sz)
    ensures sz <= PHYSTOP && sz + 0x8000_0000 <= TRAPFRAME
  {
    hide StructOk, FreeOk, AllAllocatable, MapsExactly, Machine.ValidBut;
    ValidParts(m);
    var k := PagesFor(sz);
    var ps := PagesBehind(m.mem, m.own, root, k, k);
    PagesInMemory(ps, m.end, m.own);
  }

  lemma ValidParts(m: Machine)
    requires m.Valid()
    ensures AllAllocatable(m.end, m.own) && StructOk(m.mem, m.own, NOWHERE)
  {
  }

  /** sz + n in 64 bits. */
  function Plus(sz: nat, n: int): (r: nat)
    requires sz < 0x1_0000_0000_0000_0000 && -0x8000_0000 <= n
  {
    if sz + n < 0 then sz + n + 0x1_0000_0000_0000_0000 else sz + n
  }

  lemma MappedBelow(mem: Memory, root: nat, sz: nat, sz': nat)
    requires OfSize(mem, root, sz) && sz' <= sz
    ensures PagesFor(sz') <= PagesFor(sz) && AllMapped(mem, root, PagesFor(sz'), PagesFor(sz) - PagesFor(sz'))
  {
    PagesForMonotone(sz', sz);
    ExactlyMapsAll(mem, root, PagesFor(sz), true);
  }

  /** The process grew: its new pages es are the user's to read and write and hold zeros; nothing else changed. */
  ghost predicate Grew(root: nat, sz: nat, sz': nat, es: seq<nat>, pgs: seq<Page>, own0: Owners, mem0: Memory,
                       own: Owners, mem: Memory) {
    && Fills(root, PagesFor(sz), es, pgs, own0, mem0, own, mem) && |es| == PagesFor(sz') - PagesFor(sz)
    && AllZero(pgs) && AllFlags(es, PTE_R + PTE_U + PTE_W + PTE_V)
  }

  /** The process shrank: its pages above sz' are free again; nothing else changed. */
  ghost predicate Shrank(root: nat, sz: nat, sz': nat, own0: Owners, mem0: Memory, own: Owners, mem: Memory) {
    && PagesFor(sz') <= PagesFor(sz)
    && UnmapsRange(root, PagesFor(sz'), PagesFor(sz) - PagesFor(sz'), true, own0, mem0, own, mem)
  }

  /** growproc() with n > 0. */
  method Grow(m: Machine, root: nat, sz: nat, newsz: nat) returns (sz': nat, ghost es: seq<nat>, ghost pgs: seq<Page>)
    requires m.Valid() && IsRoot(m.own, root) && OfSize(m.mem, root, sz) && sz < newsz <= TRAPFRAME
    modifies m
    ensures m.Valid() && IsRoot(m.own, root) && (sz' == 0 || sz' == newsz)
    ensures sz' == 0 ==> OfSize(m.mem, root, sz) && OnlyGrown(root, old(m.own), old(m.mem), m.own, m.mem)
    ensures sz' == 0 ==> |old(m.freelist)| < 3 * (PagesFor(newsz) - PagesFor(sz))
    ensures sz' != 0 ==> OfSize(m.mem, root, newsz)
    ensures sz' != 0 ==> Grew(root, sz, newsz, es, pgs, old(m.own), old(m.mem), m.own, m.mem)
    ensures KeepsData(old(m.own), old(m.mem), m.own, m.mem)
  {
    assert PTE_W in {0, PTE_W, PTE_X, PTE_W + PTE_X};
    hide StructOk, FreeOk, OfSize, Unmapped, FillsOwn;
    assert sz <= TRAPFRAME by {
      RoomAbove(m.mem, root, sz, newsz);
    }
    RoomAbove(m.mem, root, sz, newsz);
    var r;
    r, sz', es, pgs := Uvmalloc(m, root, sz, newsz, PTE_W);
    if r.NoMemory? {
      SameSize(root, sz, old(m.own), old(m.mem), m.mem);
    } else {
      FilledSize(root, sz, newsz, es, pgs, old(m.own), old(m.mem), m.own, m.mem);
    }
  }

  /** growproc() with n < 0. */
  method Shrink(m: Machine, root: nat, sz: nat, newsz: nat) returns (sz': nat)
    requires m.Valid() && IsRoot(m.own, root) && OfSize(m.mem, root, sz)
    modifies m
    ensures m.Valid() && IsRoot(m.own, root) && sz' == (if newsz < sz then newsz else sz) && OfSize(m.mem, root, sz')
    ensures if newsz < sz then Shrank(root, sz, newsz, old(m.own), old(m.mem), m.own, m.mem) else
      m.own == old(m.own) && m.mem == old(m.mem)
    ensures KeepsData(old(m.own), old(m.mem), m.own, m.mem)
  {
    if newsz < sz {
      MappedBelow(m.mem, root, sz, newsz);
    }
    hide StructOk, FreeOk, AllMapped, DropsRange, MapsExactly;
    var r;
    r, sz' := Uvmdealloc(m, root, sz, newsz);
    if newsz < sz {
      ShrunkSize(root, sz, newsz, old(m.own), old(m.mem), m.mem);
    }
  }

  /**
   Grow or shrink a process of sz bytes by n. The table is then that of a
   process of sz' bytes, the pages it keeps hold what they held, and its new
   pages hold zeros; shrinking beyond 0 does nothing. It fails only for want of
   memory, and never panics.
   */
  method Growproc(m: Machine, root: nat, sz: nat, n: int)
    returns (r: int, sz': nat, ghost es: seq<nat>, ghost pgs: seq<Page>)
    requires m.Valid() && IsRoot(m.own, root) && OfSize(m.mem, root, sz)
    requires -0x8000_0000 <= n < 0x8000_0000
    modifies m
    ensures m.Valid() && IsRoot(m.own, root) && OfSize(m.mem, root, sz')
    ensures r == 0 || r == -1
    ensures r == -1 ==> n > 0 && sz' == sz && OnlyGrown(root, old(m.own), old(m.mem), m.own, m.mem)
    ensures r == -1 ==> |old(m.freelist)| < 3 * (PagesFor(sz + n) - PagesFor(sz))
    ensures r == 0 ==> sz' == if sz + n < 0 then sz else sz + n
    ensures r == 0 && sz' > sz ==> Grew(root, sz, sz', es, pgs, old(m.own), old(m.mem), m.own, m.mem)
    ensures r == 0 && sz' < sz ==> Shrank(root, sz, sz', old(m.own), old(m.mem), m.own, m.mem)
    ensures r == 0 && sz' == sz ==> m.own == old(m.own) && m.mem == old(m.mem)
    ensures KeepsData(old(m.own), old(m.mem), m.own, m.mem)
  {
    SizeBounded(m, root, sz);
    assert KeepsData(m.own, m.mem, m.own, m.mem);
    hide OfSize, StructOk, FreeOk, KeepsData, OnlyGrown, Grew, Shrank;
    r, sz', es, pgs := 0, sz, [], [];
    if n > 0 {
      var newsz;
      newsz, es, pgs := Grow(m, root, sz, Plus(sz, n));
      if newsz == 0 {
        return -1, sz, [], [];
      }
      sz' := newsz;
    } else if n < 0 {
      sz' := Shrink(m, root, sz, Plus(sz, n));
    }
  }

  // ----- fork() -----

  lemma AddedGrown(root: nat, own0: Owners, mem0: Memory, own1: Owners, mem1: Memory, own2: Owners, mem2: Memory)
    requires TableAdded(root, own0, mem0, own1, mem1) && OnlyGrown(root, own1, mem1, own2, mem2)
    requires StructOk(mem0, own0, NOWHERE)
    ensures TableAdded(root, own0, mem0, own2, mem2)
  {
    forall r, s: Slot | IsRoot(own0, r) && s.Ok()
      ensures Flat(mem2, r, s) == Flat(mem0, r, s)
    {
      assert IsRoot(own1, r);
    }
  }

  /** A process was added: a table of its own, and pages that were free, and nothing else changed. */
  ghost predicate ProcessAdded(root: nat, own0: Owners, mem0: Memory, own: Owners, mem: Memory) {
    && root in own0 && own0[root].Free? && IsRoot(own, root) && own.Keys == own0.Keys
    && (forall p :: p in own0 ==> own[p] == own0[p] || (own0[p].Free? && Belongs(own[p], root)))
    && SameFlat(own0, mem0, mem) && SameData(own0, mem0, mem)
  }

  lemma AddedFilled(root: nat, es: seq<nat>, pgs: seq<Page>,
                    own0: Owners, mem0: Memory, own1: Owners, mem1: Memory, own2: Owners, mem2: Memory)
    requires TableAdded(root, own0, mem0, own1, mem1) && Fills(root, 0, es, pgs, own1, mem1, own2, mem2)
    requires StructOk(mem0, own0, NOWHERE)
    ensures ProcessAdded(root, own0, mem0, own2, mem2)
  {
    forall r, s: Slot | IsRoot(own0, r) && s.Ok()
      ensures Flat(mem2, r, s) == Flat(mem0, r, s)
    {
      assert IsRoot(own1, r);
    }
  }

  /** Freeing a process that was added restores the labels, all mappings and all data. */
  lemma ForkThenFree(root: nat, own0: Owners, mem0: Memory, own1: Owners, mem1: Memory, own2: Owners, mem2: Memory)
    requires StructOk(mem0, own0, NOWHERE)
    requires ProcessAdded(root, own0, mem0, own1, mem1) && TableFreed(root, own1, mem1, own2, mem2)
    ensures own2 == own0 && SameFlat(own0, mem0, mem2) && SameData(own0, mem0, mem2)
  {
    forall p | p in own0
      ensures own2[p] == own0[p]
    {
      if own0[p].Leaf? {
        assert MappedBy(mem0, own0, p);
      }
    }
    forall r, s: Slot | IsRoot(own0, r) && s.Ok()
      ensures Flat(mem2, r, s) == Flat(mem0, r, s)
    {
      assert IsRoot(own1, r);
    }
  }

  /** A table added beside it does not change what an address space holds. */
  lemma CopiesBefore(root: nat, sz: nat, es: seq<nat>, pgs: seq<Page>, own0: Owners, mem0: Memory, mem1: Memory)
    requires StructOk(mem0, own0, NOWHERE) && IsRoot(own0, root) && |es| == PagesFor(sz) && sz <= TRAPFRAME
    requires SameFlat(own0, mem0, mem1) && SameData(own0, mem0, mem1) && Copies(mem1, root, es, pgs)
    ensures Copies(mem0, root, es, pgs)
  {
    forall k | 0 <= k < |es|
      ensures CopyOf(mem0, root, k, es[k], pgs[k])
    {
      assert CopyOf(mem1, root, k, es[k], pgs[k]);
      var s: Slot :| s.Ok() && PageOf(s) == k && Flat(mem1, root, s) != 0 && CopyAt(mem1, root, s, es[k], pgs[k]);
      SpecialIsPage(s);
      MappedIsLeaf(mem0, own0, root, s);
      assert CopyAt(mem0, root, s, es[k], pgs[k]);
    }
  }

  /** The first pages of the table at root are es and hold pgs. */
  ghost predicate HoldsPages(root: nat, es: seq<nat>, pgs: seq<Page>, own: Owners, mem: Memory) {
    && |es| == |pgs|
    && forall s: Slot :: s.Ok() && PageOf(s) < |es| ==>
         Flat(mem, root, s) == es[PageOf(s)] && Holds(es[PageOf(s)], pgs[PageOf(s)], own, mem)
  }

  /** freeproc() of a child whose memory could not be copied. */
  method DropChild(m: Machine, child: nat, ghost own0: Owners, ghost mem0: Memory)
    requires m.Valid() && StructOk(mem0, own0, NOWHERE) && TableAdded(child, own0, mem0, m.own, m.mem)
    requires OfSize(m.mem, child, 0)
    modifies m
    ensures m.Valid() && m.own == own0 && SameFlat(own0, mem0, m.mem) && SameData(own0, mem0, m.mem)
  {
    hide StructOk, FreeOk, MapsExactly, TableFreed, TableAdded;
    ghost var own1, mem1 := m.own, m.mem;
    AddedRoot(child, own0, mem0, m.own, m.mem);
    var r := ProcFreepagetable(m, child, 0);
    AddedThenFreed(child, own0, mem0, own1, mem1, m.own, m.mem);
  }

  /** The new table of a process has size 0 and room for sz bytes. */
  lemma NewTableSize(mem: Memory, root: nat, sz: nat)
    requires MapsExactly(mem, root, 0, true) && sz <= TRAPFRAME
    ensures OfSize(mem, root, 0) && PagesFor(0) == 0 && Unmapped(mem, root, 0, PagesFor(sz))
  {
    PagesForWhole(0);
    PagesForMonotone(0, sz);
    RoomAbove(mem, root, 0, sz);
  }

  /** What uvmcopy() finds in fork(). */
  lemma ForkReady(root: nat, child: nat, sz: nat, trampoline: nat, trapframe: nat,
                  own0: Owners, mem0: Memory, own1: Owners, mem1: Memory)
    requires StructOk(mem0, own0, NOWHERE) && IsRoot(own0, root) && OfSize(mem0, root, sz)
    requires TableAdded(child, own0, mem0, own1, mem1) && trampoline % 4096 == 0 && trapframe % 4096 == 0
    requires OnlySpecials(mem1, child, MakePte(trampoline, PTE_R + PTE_X), MakePte(trapframe, PTE_R + PTE_W))
    ensures IsRoot(own1, root) && IsRoot(own1, child) && child != root && sz <= TRAPFRAME
    ensures OfSize(mem1, child, 0) && OfSize(mem1, root, sz)
    ensures AllMapped(mem1, root, 0, PagesFor(sz)) && Unmapped(mem1, child, 0, PagesFor(sz))
  {
    SpecialsAreKernels(mem1, child, trampoline, trapframe);
    hide OnlySpecials, StructOk, MakePte;
    NewTableSize(mem1, child, sz);
    SameSize(root, sz, own0, mem0, mem1);
    MappedBelow(mem1, root, sz, 0);
  }

  /** The special pages of the table at root are e1, the trampoline, and e2, the trapframe. */
  ghost predicate Specials(mem: Memory, root: nat, e1: nat, e2: nat) {
    && (forall s: Slot :: s.Ok() && PageOf(s) == MAXPAGE - 1 ==> Flat(mem, root, s) == e1)
    && (forall s: Slot :: s.Ok() && PageOf(s) == MAXPAGE - 2 ==> Flat(mem, root, s) == e2)
  }

  /** Filling pages below them leaves the special pages alone. */
  lemma SpecialsStay(root: nat, e1: nat, e2: nat, es: seq<nat>, pgs: seq<Page>, own0: Owners, mem0: Memory, own: Owners,
                     mem: Memory)
    requires IsRoot(own0, root) && OnlySpecials(mem0, root, e1, e2) && |es| <= MAXPAGE - 2
    requires Fills(root, 0, es, pgs, own0, mem0, own, mem)
    ensures Specials(mem, root, e1, e2)
  {
  }

  /** What uvmcopy() has made of the child. */
  lemma ForkCopied(root: nat, child: nat, sz: nat, es: seq<nat>, pgs: seq<Page>,
                   own0: Owners, mem0: Memory, own1: Owners, mem1: Memory, own2: Owners, mem2: Memory)
    requires StructOk(mem0, own0, NOWHERE) && IsRoot(own0, root) && OfSize(mem0, root, sz) && OfSize(mem1, child, 0)
    requires TableAdded(child, own0, mem0, own1, mem1) && Fills(child, 0, es, pgs, own1, mem1, own2, mem2)
    requires Copies(mem1, root, es, pgs) && |es| == PagesFor(sz)
    ensures ProcessAdded(child, own0, mem0, own2, mem2) && OfSize(mem2, child, sz) && OfSize(mem2, root, sz)
    ensures Copies(mem0, root, es, pgs) && HoldsPages(child, es, pgs, own2, mem2)
  {
    assert HoldsPages(child, es, pgs, own2, mem2);
    PagesForWhole(0);
    hide StructOk, Copies, HoldsPages;
    AddedFilled(child, es, pgs, own0, mem0, own1, mem1, own2, mem2);
    FilledSize(child, 0, sz, es, pgs, own1, mem1, own2, mem2);
    CopiesBefore(root, sz, es, pgs, own0, mem0, mem1);
    SameSize(root, sz, own0, mem0, mem2);
  }

  /**
   What fork() does to memory: a new table with the child's own trapframe, and
   a copy of the parent's pages with the same permissions and contents. Failing for want of memory, it leaves
   everything as it was. It never panics.
   */
  method ForkMemory(m: Machine, root: nat, sz: nat, trampoline: nat, trapframe: nat)
    returns (child: nat, ghost es: seq<nat>, ghost pgs: seq<Page>)
    requires m.Valid() && IsRoot(m.own, root) && OfSize(m.mem, root, sz) && trampoline % 4096 == 0
    requires trapframe % 4096 == 0
    modifies m
    ensures m.Valid() && IsRoot(m.own, root) && OfSize(m.mem, root, sz)
    ensures child == 0 ==>
      m.own == old(m.own) && SameFlat(m.own, old(m.mem), m.mem) && SameData(m.own, old(m.mem), m.mem)
    ensures child == 0 ==> |old(m.freelist)| < 5 + 3 * PagesFor(sz)
    ensures child != 0 ==> ProcessAdded(child, old(m.own), old(m.mem), m.own, m.mem) && OfSize(m.mem, child, sz)
    ensures child != 0 ==>
      Copies(old(m.mem), root, es, pgs) && HoldsPages(child, es, pgs, m.own, m.mem) && |es| == PagesFor(sz)
    ensures child != 0 ==>
      Specials(m.mem, child, MakePte(trampoline, PTE_R + PTE_X), MakePte(trapframe, PTE_R + PTE_W))
  {
    hide Specials, MakePte;
    hide OfSize, StructOk, FreeOk, SameFlat, SameData, TableAdded, OnlySpecials, OnlyGrown;
    hide Fills, Copies, HoldsPages, ProcessAdded, AllMapped, Unmapped, IsTable;
    es, pgs := [], [];
    child := ProcPagetable(m, trampoline, trapframe);
    if child == 0 {
      SameSize(root, sz, old(m.own), old(m.mem), m.mem);
      return;
    }
    ghost var own1, mem1 := m.own, m.mem;
    ForkReady(root, child, sz, trampoline, trapframe, old(m.own), old(m.mem), m.own, m.mem);
    var r;
    r, es, pgs := Uvmcopy(m, root, child, sz);
    if r.NoMemory? {
      AddedGrown(child, old(m.own), old(m.mem), own1, mem1, m.own, m.mem);
      GrownSame(child, own1, mem1, m.own, m.mem);
      SameSize(child, 0, own1, mem1, m.mem);
      DropChild(m, child, old(m.own), old(m.mem));
      SameSize(root, sz, old(m.own), old(m.mem), m.mem);
      child := 0;
    } else {
      ForkCopied(root, child, sz, es, pgs, old(m.own), old(m.mem), own1, mem1, m.own, m.mem);
      SizeFits(sz);
      SpecialsStay(child, MakePte(trampoline, PTE_R + PTE_X), MakePte(trapframe, PTE_R + PTE_W), es, pgs, own1, mem1,
                   m.own, m.mem);
    }
  }

  lemma SizeFits(sz: nat)
    requires sz <= TRAPFRAME
    ensures PagesFor(sz) <= MAXPAGE - 2
  {
    PagesForMonotone(sz, TRAPFRAME);
  }

  lemma GrownSame(root: nat, own0: Owners, mem0: Memory, own: Owners, mem: Memory)
    requires OnlyGrown(root, own0, mem0, own, mem)
    ensures SameFlat(own0, mem0, mem)
  {
  }
}
