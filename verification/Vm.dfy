/**
 kernel/kalloc.c and kernel/vm.c on one state: physical memory as pages of
 words, and the free list. `own` is the label of every allocatable page; each
 method says what it does to the flat map of every page table and to the labels.
 */
module Vm {
  import opened Sv39
  import opened PageOwner
  import opened PageMap
  import opened VmSteps
  import opened VmFree

  datatype WalkResult = Found(page: nat, index: nat) | Missing | WalkPanic

  datatype Result = Ok | NoMemory | Panic(msg: string)

  class Machine {
    const end: nat
    var mem: Memory
    var freelist: seq<nat>
    ghost var own: Owners

    ghost predicate Valid()
      reads this
    {
      ValidBut(NOWHERE)
    }

    /** Valid except that entry x, as freewalk() leaves it for a moment, may dangle. */
    ghost predicate ValidBut(x: (nat, nat))
      reads this
    {
      && AllAllocatable(end, own)
      && FreeOk(freelist, own)
      && StructOk(mem, own, x)
    }

    // ----- kernel/kalloc.c -----

    /** kinit(): all of memory from the end of the kernel to PHYSTOP goes on the free list. */
    constructor (end: nat, ram: Memory)
      requires KERNBASE <= end
      requires forall p :: Allocatable(end, p) ==> p in ram && |ram[p].w| == 512
      ensures Valid() && this.end == end
      ensures forall p :: p in own <==> Allocatable(end, p)
      ensures forall p :: p in own ==> own[p] == Free
    {
      this.end := end;
      mem := ram;
      freelist := [];
      own := map p | p in ram && Allocatable(end, p) :: Held;
      new;
      Freerange(end);
    }

    /** Free every page from paStart to PHYSTOP. */
    method Freerange(paStart: nat)
      requires Valid() && end <= paStart
      requires forall p :: Allocatable(end, p) ==> p in own && (paStart <= p ==> own[p] == Held)
      modifies this
      ensures Valid() && FreedBetween(paStart, PHYSTOP, old(own), own)
    {
      hide StructOk, FreeOk;
      var p := PgRoundUp(paStart);
      assert FreedBetween(paStart, p, old(own), own) by {
        FirstPage(end, paStart, own);
      }
      while p + 4096 <= PHYSTOP
        invariant Valid() && p % 4096 == 0 && paStart <= p
        invariant FreedBetween(paStart, p, old(own), own)
        decreases PHYSTOP - p
      {
        assert Allocatable(end, p);
        FreedNext(end, paStart, p, old(own), own);
        var r := Kfree(p, NOWHERE);
        p := p + 4096;
      }
      FreedAll(end, paStart, p, old(own), own);
    }

    /** Take the first page of the free list, filled with junk; 0 if there is none. */
    method Kalloc() returns (pa: nat)
      requires Valid()
      modifies this
      ensures Valid()
      ensures pa == 0 <==> old(freelist) == []
      ensures pa == 0 ==> mem == old(mem) && freelist == old(freelist) && own == old(own)
      ensures pa != 0 ==> pa in old(own) && old(own)[pa] == Free && own == old(own)[pa := Held]
      ensures pa != 0 ==> freelist == old(freelist)[1..] && mem == old(mem)[pa := Junk(5)]
    {
      if freelist == [] {
        return 0;
      }
      pa := freelist[0];
      FreePop(freelist, own, Held);
      RelabelPlain(mem, own, NOWHERE, pa, Junk(5), Held);
      freelist := freelist[1..];
      mem := mem[pa := Junk(5)];
      own := own[pa := Held];
    }

    /** Put a page back on the free list; panics on an address that is no allocatable page. */
    method Kfree(pa: nat, ghost x: (nat, nat)) returns (r: Result)
      requires ValidBut(x) && (Allocatable(end, pa) ==> pa in own && own[pa] == Held)
      modifies this
      ensures r.Panic? <==> !Allocatable(end, pa)
      ensures r.Panic? ==> mem == old(mem) && freelist == old(freelist) && own == old(own)
      ensures !r.Panic? ==> r.Ok? && ValidBut(x) && own == old(own)[pa := Free]
      ensures !r.Panic? ==> freelist == [pa] + old(freelist) && mem == old(mem)[pa := Junk(1)]
    {
      if pa % 4096 != 0 || pa < end || pa >= PHYSTOP {
        return Panic("kfree");
      }
      FreePush(freelist, own, pa);
      RelabelPlain(mem, own, x, pa, Junk(1), Free);
      freelist := [pa] + freelist;
      mem := mem[pa := Junk(1)];
      own := own[pa := Free];
      r := Ok;
    }

    // ----- walk -----

    /** Zero the held page q and let entry i of p point to it. */
    method Hang(p: nat, i: nat, q: nat)
      requires Valid() && IsTable(own, p) && own[p].node.level > 0 && i < 512 && !IsValid(mem[p].w[i])
      requires q in own && own[q].Held?
      modifies this`mem, this`own
      ensures Valid() && mem == Hung(old(mem), p, i, q) && own == WithTable(old(own), p, i, q)
    {
      HangOk(end, freelist, mem, own, p, i, q);
      mem := mem[q := Zeroes()];
      mem := SetEntry(mem, p, i, MakePte(q, 0));
      own := WithTable(own, p, i, q);
    }

    /** walk()'s allocating branch: a zeroed page below entry i of p. */
    method NewTable(p: nat, i: nat) returns (q: nat)
      requires Valid() && IsTable(own, p) && own[p].node.level > 0 && i < 512 && !IsValid(mem[p].w[i])
      modifies this
      ensures Valid() && OnlyGrown(old(own)[p].root, old(own), old(mem), own, mem)
      ensures q == 0 ==> freelist == old(freelist) == [] && mem == old(mem) && own == old(own)
      ensures |freelist| + 1 >= |old(freelist)|
      ensures q != 0 ==> q in own && own[q] == Table(old(own)[p].root, old(own)[p].node.Child(i), p)
    {
      q := Kalloc();
      if q != 0 {
        HangGrows(old(mem), old(own), mem, own, p, i, q);
        Hang(p, i, q);
      }
    }

    /** One turn of walk()'s loop: the table below entry i of page p, or 0. */
    method Descend(p: nat, i: nat, alloc: bool) returns (q: nat)
      requires Valid() && IsTable(own, p) && own[p].node.level > 0 && i < 512
      modifies this
      ensures Valid() && OnlyGrown(old(own)[p].root, old(own), old(mem), own, mem)
      ensures q != 0 ==> q in own && own[q] == Table(old(own)[p].root, old(own)[p].node.Child(i), p)
      ensures !alloc ==> mem == old(mem) && freelist == old(freelist) && own == old(own)
      ensures p in own && own[p] == old(own)[p] && (q == 0 ==> !IsValid(mem[p].w[i]))
      ensures |freelist| + 1 >= |old(freelist)| && (alloc && q == 0 ==> old(freelist) == [])
    {
      var pte := mem[p].w[i];
      if IsValid(pte) {
        assert PointsDown(own, p, i, pte);
        q := Pte2Pa(pte);
      } else if alloc {
        q := NewTable(p, i);
      } else {
        q := 0;
      }
    }

    /** The loop of walk(), on the three indices of the address. */
    method WalkSlot(root: nat, s: Slot, alloc: bool) returns (t: nat)
      requires Valid() && IsRoot(own, root) && s.Ok()
      modifies this
      ensures Valid() && OnlyGrown(root, old(own), old(mem), own, mem)
      ensures !alloc ==> mem == old(mem) && freelist == old(freelist) && own == old(own)
      ensures t != 0 ==> IsLow(own, t, s.c) && own[t].root == root && SlotOf(own, t, s.c) == s
      ensures LowTable(mem, root, s) == t
      ensures |freelist| + 2 >= |old(freelist)| && (alloc && t == 0 ==> |old(freelist)| <= 1)
    {
      t := root;
      var level := 2;
      while level > 0
        invariant 0 <= level <= 2 && |freelist| + 2 - level >= |old(freelist)|
        invariant Valid() && IsRoot(own, root) && OnlyGrown(root, old(own), old(mem), own, mem)
        invariant !alloc ==> mem == old(mem) && freelist == old(freelist) && own == old(own)
        invariant IsTable(own, t) && own[t].root == root && own[t].node == NodeAt(level, s)
        decreases level
      {
        ghost var mem1, own1, p := mem, own, t;
        t := Descend(t, if level == 2 then s.a else s.b, alloc);
        OnlyGrownTrans(root, old(own), old(mem), own1, mem1, own, mem);
        if t == 0 {
          NoTableBelow(mem, own, p, level, s);
          return;
        }
        assert own[t].node == NodeAt(level - 1, s);
        level := level - 1;
      }
      LowOf(mem, own, t, s);
    }

    /**
     The entry for va, creating missing table pages when alloc is set. Whatever
     is created, no mapping of any table changes. s is the slot of va's page.
     */
    method Walk(root: nat, va: nat, alloc: bool) returns (r: WalkResult, ghost s: Slot)
      requires Valid() && IsRoot(own, root)
      modifies this
      ensures Valid() && OnlyGrown(root, old(own), old(mem), own, mem)
      ensures r.WalkPanic? <==> va >= MAXVA
      ensures !r.WalkPanic? ==> s.Ok() && PageOf(s) == va / 4096 < MAXPAGE
      ensures !alloc || r.WalkPanic? ==> mem == old(mem) && freelist == old(freelist) && own == old(own)
      ensures r.Found? ==> IsLow(own, r.page, r.index) && own[r.page].root == root
      ensures r.Found? ==> SlotOf(own, r.page, r.index) == s && LowTable(mem, root, s) == r.page
      ensures r.Missing? ==> LowTable(mem, root, s) == 0
      ensures |freelist| + 2 >= |old(freelist)| && (alloc && r.Missing? ==> |old(freelist)| <= 1)
    {
      s := Slot(0, 0, 0);
      if va >= MAXVA {
        return WalkPanic, s;
      }
      var x := SlotOfVa(va);
      s := x;
      SlotOfPage(va);
      var t := WalkSlot(root, x, alloc);
      r := if t == 0 then Missing else Found(t, x.c);
    }

    // ----- mappages -----

    /** *pte = PA2PTE(pa) | perm | PTE_V, where there was no entry. */
    method StoreLeaf(t: nat, c: nat, pa: nat, perm: nat)
      requires Valid() && IsLow(own, t, c) && !IsValid(mem[t].w[c])
      requires perm < 1024 && IsLeaf(perm) && pa % 4096 == 0
      requires !SlotOf(own, t, c).Special() ==> pa in own && own[pa].Held?
      modifies this`mem, this`own
      ensures Valid()
      ensures mem == SetEntry(old(mem), t, c, MakePte(pa, perm)) && own == WithLeaf(old(own), t, c, pa)
    {
      MapOk(end, freelist, mem, own, t, c, pa, perm);
      mem := SetEntry(mem, t, c, MakePte(pa, perm));
      own := WithLeaf(own, t, c, pa);
    }

    /** One turn of mappages()'s loop: map the page at a to pa. */
    method MapPage(root: nat, a: nat, pa: nat, perm: nat) returns (r: Result, ghost s: Slot)
      requires Valid() && IsRoot(own, root) && perm < 1024 && IsLeaf(perm) && pa % 4096 == 0
      requires !SpecialPage(a / 4096) ==> pa in own && own[pa].Held?
      modifies this
      ensures a < MAXVA ==> s.Ok() && PageOf(s) == a / 4096 < MAXPAGE
      ensures r.Panic? <==> a >= MAXVA || Flat(old(mem), root, s) != 0
      ensures !r.Panic? ==> Valid()
      ensures r.NoMemory? ==> |old(freelist)| <= 1 && OnlyGrown(root, old(own), old(mem), own, mem)
      ensures |freelist| + 2 >= |old(freelist)|
      ensures r.Ok? ==> SetsOne(root, s, MakePte(pa, perm), old(own), old(mem), mem)
      ensures r.Ok? ==> MapsOwn(root, PageOf(s), pa, 1, old(own), own) && SameData(old(own), old(mem), mem)
    {
      hide FreeOk, SetsOne, MapsOwn, SameData, IsLeaf, MakePte, UpOk, DownOk, LeavesDown, LeavesUp, TablesOk;
      var w;
      w, s := Walk(root, a, true);
      if w.WalkPanic? {
        return Panic("walk"), s;
      }
      assert Flat(mem, root, s) == Flat(old(mem), root, s);
      if w.Missing? {
        return NoMemory, s;
      }
      if IsValid(mem[w.page].w[w.index]) {
        return Panic("mappages: remap"), s;
      }
      SpecialIsPage(s);
      PteRoundTrip(pa, perm);
      MapAfterGrowth(root, s, pa, MakePte(pa, perm), old(own), old(mem), own, mem, w.page, w.index);
      StoreLeaf(w.page, w.index, pa, perm);
      r := Ok;
    }

    /** MapPage as the step that appends one entry to those stored. */
    method MapNext(root: nat, a: nat, q: nat, perm: nat,
                   ghost lo: nat, ghost n: nat, ghost pa: nat, ghost es: seq<nat>,
                   ghost own0: Owners, ghost mem0: Memory)
      returns (r: Result)
      requires Valid() && IsRoot(own, root) && perm < 1024 && IsLeaf(perm) && q % 4096 == 0
      requires |es| < n && a / 4096 == lo + |es| && q == pa + |es| * 4096
      requires IsRoot(own0, root) && HeldRange(own0, lo, n, pa)
      requires MapsRange(root, lo, pa, es, own0, mem0, own, mem)
      modifies this
      ensures !r.Panic? ==> Valid() && IsRoot(own, root)
      ensures r.Ok? ==> MapsRange(root, lo, pa, es + [MakePte(q, perm)], own0, mem0, own, mem)
      ensures r.NoMemory? ==> |old(freelist)| <= 1 && MapsRange(root, lo, pa, es, own0, mem0, own, mem)
      ensures |freelist| + 2 >= |old(freelist)|
      ensures r.Panic? ==> a >= MAXVA || !Unmapped(mem0, root, lo, n)
    {
      hide MapsRange, FreeOk, StructOk, SetsOne, MapsOwn, SameData, OnlyGrown, IsLeaf, MakePte;
      ghost var own1, mem1 := own, mem;
      RangeNext(root, lo, n, pa, es, own0, mem0, own, mem);
      ghost var s;
      r, s := MapPage(root, a, q, perm);
      if r.NoMemory? {
        RangeGrown(root, lo, pa, es, own0, mem0, own1, mem1, own, mem);
      } else if r.Ok? {
        RangeMapped(root, lo, pa, es, s, MakePte(q, perm), own0, mem0, own1, mem1, own, mem);
      }
    }

    /** One turn of mappages()'s loop, after the entries es. */
    method MapTurn(root: nat, a: nat, q: nat, perm: nat,
                   ghost lo: nat, ghost n: nat, ghost pa: nat, ghost es: seq<nat>,
                   ghost own0: Owners, ghost mem0: Memory)
      returns (r: Result, ghost es': seq<nat>)
      requires Valid() && IsRoot(own, root) && perm < 1024 && IsLeaf(perm) && pa % 4096 == 0
      requires |es| < n && a == (lo + |es|) * 4096 && q == pa + |es| * 4096
      requires IsRoot(own0, root) && HeldRange(own0, lo, n, pa)
      requires EntriesFor(es, pa, perm) && MapsRange(root, lo, pa, es, own0, mem0, own, mem)
      modifies this
      ensures !r.Panic? ==> Valid() && IsRoot(own, root)
      ensures !r.Panic? ==> EntriesFor(es', pa, perm) && MapsRange(root, lo, pa, es', own0, mem0, own, mem)
      ensures r.Ok? ==> |es'| == |es| + 1
      ensures r.NoMemory? ==> es' == es && |old(freelist)| <= 1
      ensures |freelist| + 2 >= |old(freelist)|
      ensures r.Panic? ==> a >= MAXVA || !Unmapped(mem0, root, lo, n)
    {
      TurnPage(pa, lo, |es|, a, q);
      r := MapNext(root, a, q, perm, lo, n, pa, es, own0, mem0);
      es' := es;
      if r.Ok? {
        EntriesNext(es, pa, q, perm);
        es' := es + [MakePte(q, perm)];
      }
    }

    /** The loop of mappages(), from page lo at address `first` to the page at address `last`. */
    method MapLoop(root: nat, first: nat, last: nat, pa: nat, perm: nat, ghost lo: nat, ghost n: nat)
      returns (r: Result, ghost es: seq<nat>)
      requires Valid() && IsRoot(own, root) && perm < 1024 && IsLeaf(perm) && pa % 4096 == 0
      requires n > 0 && first == lo * 4096 && last == (lo + n - 1) * 4096 && HeldRange(own, lo, n, pa)
      modifies this
      ensures !r.Panic? ==> Valid() && IsRoot(own, root) && EntriesFor(es, pa, perm)
      ensures !r.Panic? ==> MapsRange(root, lo, pa, es, old(own), old(mem), own, mem)
      ensures r.Ok? ==> |es| == n
      ensures r.NoMemory? ==> |es| < n && |old(freelist)| < 2 * n
      ensures |freelist| + 2 * n >= |old(freelist)|
      ensures r.Panic? ==> last >= MAXVA || !Unmapped(old(mem), root, lo, n)
    {
      es := [];
      assert EntriesFor(es, pa, perm) && MapsRange(root, lo, pa, es, own, mem, own, mem);
      hide EntriesFor, MapsRange, Unmapped, HeldRange, StructOk, FreeOk, IsLeaf;
      var a, q := first, pa;
      while true
        invariant |es| < n && a == (lo + |es|) * 4096 && q == pa + |es| * 4096
        invariant |freelist| + 2 * |es| >= |old(freelist)|
        invariant Valid() && IsRoot(own, root)
        invariant EntriesFor(es, pa, perm) && MapsRange(root, lo, pa, es, old(own), old(mem), own, mem)
        decreases n - |es|
      {
        r, es := MapTurn(root, a, q, perm, lo, n, pa, es, old(own), old(mem));
        if !r.Ok? {
          return r, es;
        }
        if a == last {
          return Ok, es;
        }
        a, q := a + PGSIZE, q + PGSIZE;
      }
    }

    /**
     Create entries for the pages of [va, va + size), mapping consecutive
     physical pages from pa; `es` are the entries stored. When memory runs out
     these stay; it cannot run out while two pages are free for each page to be
     mapped. Then it panics exactly on an empty range, beyond MAXVA, or on a remap.
     */
    method Mappages(root: nat, va: nat, size: nat, pa: nat, perm: nat) returns (r: Result, ghost es: seq<nat>)
      requires Valid() && IsRoot(own, root) && perm < 1024 && IsLeaf(perm) && pa % 4096 == 0
      requires size > 0 ==> HeldRange(own, va / 4096, PageCount(va, size), pa)
      modifies this
      ensures !r.Panic? ==> Valid() && IsRoot(own, root) && size > 0 && EntriesFor(es, pa, perm)
      ensures !r.Panic? ==> MapsRange(root, va / 4096, pa, es, old(own), old(mem), own, mem)
      ensures r.Ok? ==> |es| == PageCount(va, size)
      ensures r.NoMemory? ==> |es| < PageCount(va, size) && |old(freelist)| < 2 * PageCount(va, size)
      ensures size > 0 ==> |freelist| + 2 * PageCount(va, size) >= |old(freelist)|
      ensures r.Panic? ==> size == 0 || va + size > MAXVA || !Unmapped(old(mem), root, va / 4096, PageCount(va, size))
      ensures r.Ok? ==> va + size <= MAXVA && Unmapped(old(mem), root, va / 4096, PageCount(va, size))
      ensures size == 0 ==> r.Panic?
      ensures size > 0 && |old(freelist)| >= 2 * PageCount(va, size) ==>
        (r.Panic? <==> va + size > MAXVA || !Unmapped(old(mem), root, va / 4096, PageCount(va, size)))
    {
      es := [];
      if size == 0 {
        return Panic("mappages: size"), es;
      }
      RangeEnds(va, size);
      r, es := MapLoop(root, PgRoundDown(va), PgRoundDown(va + size - 1), pa, perm, va / 4096, PageCount(va, size));
    }

    // ----- uvmunmap -----

    /** Zero the entry c of page t; its page, unless special, is then held. */
    method ClearEntry(t: nat, c: nat)
      requires Valid() && IsLow(own, t, c) && IsValid(mem[t].w[c])
      modifies this`mem, this`own
      ensures Valid() && mem == SetEntry(old(mem), t, c, 0)
      ensures own == WithoutLeaf(old(own), t, c, Pte2Pa(old(mem)[t].w[c]))
      ensures !SlotOf(old(own), t, c).Special() ==>
        Pte2Pa(old(mem)[t].w[c]) in own && own[Pte2Pa(old(mem)[t].w[c])].Held?
    {
      ClearLeaf(mem, own, t, c);
      if !SlotOf(own, t, c).Special() {
        FreeRelabel(freelist, own, Pte2Pa(mem[t].w[c]), Held);
      }
      own := WithoutLeaf(own, t, c, Pte2Pa(mem[t].w[c]));
      mem := SetEntry(mem, t, c, 0);
    }

    /**
     One turn of uvmunmap()'s loop. The source frees the page before it zeroes
     the entry; the two writes do not affect each other.
     */
    method UnmapPage(root: nat, a: nat, doFree: bool) returns (r: Result, ghost s: Slot)
      requires Valid() && IsRoot(own, root) && (doFree ==> !SpecialPage(a / 4096))
      modifies this
      ensures a < MAXVA ==> s.Ok() && PageOf(s) == a / 4096 < MAXPAGE
      ensures r.Panic? <==> a >= MAXVA || Flat(old(mem), root, s) == 0
      ensures !r.Panic? ==> r.Ok? && Valid()
      ensures r.Ok? ==> SetsOne(root, s, 0, old(own), old(mem), mem)
      ensures r.Ok? ==> DropsLeaf(root, s, doFree, old(own), own) && KeepsData(old(own), old(mem), own, mem)
    {
      hide FreeOk, SetsOne, DropsLeaf, KeepsData, UpOk, DownOk, LeavesDown, LeavesUp, TablesOk;
      var w;
      w, s := Walk(root, a, false);
      if w.WalkPanic? {
        return Panic("walk"), s;
      }
      if w.Missing? {
        return Panic("uvmunmap: walk"), s;
      }
      var pte := mem[w.page].w[w.index];
      if !IsValid(pte) {
        return Panic("uvmunmap: not mapped"), s;
      }
      LeafFlags(mem, own, w.page, w.index);
      if Flags(pte) == PTE_V {
        return Panic("uvmunmap: not a leaf"), s;
      }
      SpecialIsPage(s);
      UnmapFlat(mem, own, w.page, w.index, doFree);
      UnmapLabels(mem, own, w.page, w.index, doFree);
      ClearEntry(w.page, w.index);
      if doFree {
        var f := Kfree(Pte2Pa(pte), NOWHERE);
      }
      UnmapData(old(mem), old(own), w.page, w.index, own);
      r := Ok;
    }

    /** UnmapPage as the step from k to k + 1 unmapped pages. */
    method UnmapNext(root: nat, a: nat, doFree: bool, ghost lo: nat, ghost k: nat, ghost own0: Owners,
                     ghost mem0: Memory)
      returns (r: Result)
      requires Valid() && IsRoot(own, root) && a / 4096 == lo + k && (doFree ==> lo + k < MAXPAGE - 2)
      requires IsRoot(own0, root) && StructOk(mem0, own0, NOWHERE)
      requires UnmapsRange(root, lo, k, doFree, own0, mem0, own, mem)
      modifies this
      ensures r.Panic? <==> !PageMapped(mem0, root, lo + k)
      ensures !r.Panic? ==> r.Ok? && Valid() && IsRoot(own, root)
      ensures r.Ok? ==> UnmapsRange(root, lo, k + 1, doFree, own0, mem0, own, mem)
    {
      ghost var own1, mem1, s := own, mem, Slot(0, 0, 0);
      r, s := UnmapPage(root, a, doFree);
      SpecialPages();
      if a < MAXVA {
        UnmapPre(root, lo, k, s, own0, mem0, mem1);
      }
      if r.Ok? {
        UnmapsStep(root, lo, k, doFree, s, own0, mem0, own1, mem1, own, mem);
      }
    }

    /**
     Remove the mappings of npages pages from va, giving their pages back to the
     allocator if doFree. Panics exactly when va is not aligned or some page of
     the range is not mapped.
     */
    method Uvmunmap(root: nat, va: nat, npages: nat, doFree: bool) returns (r: Result)
      requires Valid() && IsRoot(own, root)
      requires doFree ==> va / 4096 + npages <= MAXPAGE - 2
      modifies this
      ensures r.Panic? <==> va % 4096 != 0 || !AllMapped(old(mem), root, va / 4096, npages)
      ensures !r.Panic? ==> r.Ok? && Valid() && IsRoot(own, root)
      ensures r.Ok? ==> UnmapsRange(root, va / 4096, npages, doFree, old(own), old(mem), own, mem)
    {
      if va % 4096 != 0 {
        return Panic("uvmunmap: not aligned");
      }
      ghost var lo, k := va / 4096, 0;
      var a := va;
      while a < va + npages * 4096
        invariant k <= npages && a == (lo + k) * 4096 && va == lo * 4096
        invariant Valid() && IsRoot(own, root)
        invariant UnmapsRange(root, lo, k, doFree, old(own), old(mem), own, mem)
        invariant AllMapped(old(mem), root, lo, k)
        decreases npages - k
      {
        PageBase(lo + k);
        r := UnmapNext(root, a, doFree, lo, k, old(own), old(mem));
        AllMappedStep(old(mem), root, lo, k, npages);
        if r.Panic? {
          return r;
        }
        a, k := a + PGSIZE, k + 1;
      }
      r := Ok;
    }

    // ----- freewalk -----

    /** Return the empty table page p; the entry above it, if any, then dangles. */
    method FreeTable(p: nat)
      requires Valid() && IsTable(own, p) && AllInvalid(mem[p])
      modifies this
      ensures ValidBut(Above(old(own), p))
      ensures own == old(own)[p := Free] && mem == old(mem)[p := Junk(1)]
    {
      ghost var x := Above(own, p);
      Detach(end, freelist, mem, own, p);
      own := own[p := Held];
      var r := Kfree(p, x);
    }

    /** One turn of freewalk()'s loop. own0 and mem0 are the state when the loop began. */
    method FreeBranch(p: nat, i: nat, ghost own0: Owners, ghost mem0: Memory) returns (r: Result)
      requires Valid() && IsTable(own, p) && i < 512
      requires StructOk(mem0, own0, NOWHERE) && IsTable(own0, p)
      requires FreedBelow(p, i, own0, mem0, own, mem) && NoLeavesBelow(mem0, own0, p, i)
      modifies this
      ensures !r.Panic? ==> r.Ok? && Valid() && IsTable(own, p)
      ensures !r.Panic? ==> FreedBelow(p, i + 1, own0, mem0, own, mem) && NoLeavesBelow(mem0, own0, p, i + 1)
      ensures r.Panic? ==> !NoLeaves(mem0, own0, p)
      decreases own[p].node.level, 0
    {
      hide FreedBelow, NoLeavesBelow, NoLeaves, Freed, FreeOk, DownOk, UpOk, LeavesDown, LeavesUp, TablesOk;
      ghost var own1, mem1 := own, mem;
      BranchBegins(p, i, own0, mem0, own, mem);
      var pte := mem[p].w[i];
      if IsValid(pte) && !IsLeaf(pte) {
        r := Freewalk(Pte2Pa(pte));
        if r.Panic? {
          return;
        }
        NoLeavesNext(p, i, own0, mem0, own1, mem1);
        BranchEnds(p, i, own0, mem0, own1, mem1, own, mem);
        mem := SetEntry(mem, p, i, 0);
      } else if IsValid(pte) {
        return Panic("freewalk: leaf");
      } else {
        NoLeavesNext(p, i, own0, mem0, own1, mem1);
        BranchEmpty(p, i, own0, mem0, own, mem);
        r := Ok;
      }
    }

    /**
     Return the table page p and every table page under it. Panics exactly if an
     entry under p still maps a page. The entry that pointed to p then dangles.
     */
    method Freewalk(p: nat) returns (r: Result)
      requires Valid() && IsTable(own, p)
      modifies this
      ensures r.Panic? <==> !NoLeaves(old(mem), old(own), p)
      ensures !r.Panic? ==> r.Ok? && ValidBut(Above(old(own), p))
      ensures !r.Panic? ==> Freed(p, old(own), old(mem), own, mem)
      decreases own[p].node.level, 1
    {
      for i := 0 to 512
        invariant Valid() && IsTable(own, p)
        invariant FreedBelow(p, i, old(own), old(mem), own, mem) && NoLeavesBelow(old(mem), old(own), p, i)
      {
        r := FreeBranch(p, i, old(own), old(mem));
        if r.Panic? {
          return;
        }
      }
      NoLeavesBelowAll(old(mem), old(own), p);
      AllFreed(p, old(own), old(mem), own, mem, Junk(1));
      FreeTable(p);
      r := Ok;
    }
  }
}
