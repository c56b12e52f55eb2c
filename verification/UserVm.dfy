/**
 User address spaces of kernel/vm.c: growing, shrinking, copying and freeing them
 on the state of Vm.Machine, with what a failure leaves behind.
 */
module UserVm {
  import opened Sv39
  import opened PageOwner
  import opened PageMap
  import opened VmSteps
  import opened VmFree
  import opened VmFill
  import opened Vm

  /** Number of pages that hold sz bytes: PGROUNDUP(sz) / PGSIZE. */
  function PagesFor(sz: nat): (n: nat)
    ensures n * 4096 == PgRoundUp(sz)
    ensures sz <= TRAPFRAME ==> n <= MAXPAGE - 2
  {
    PgRoundUp(sz) / 4096
  }

  /** A page starts below sz exactly if it is one of the pages for sz. */
  lemma PagesForBound(sz: nat, v: nat)
    ensures v * 4096 < sz <==> v < PagesFor(sz)
  {
  }

  lemma PagesForMonotone(a: nat, b: nat)
    requires a <= b
    ensures PagesFor(a) <= PagesFor(b)
  {
  }

  /** perm | PTE_V */
  function WithV(perm: nat): (f: nat) {
    if perm % 2 == 1 then perm else perm + 1
  }

  /** What mappages() finds for one fresh page. */
  lemma FreshPre(own0: Owners, mem0: Memory, root: nat, v: nat, pa: nat, pg: Page)
    requires StructOk(mem0, own0, NOWHERE) && IsRoot(own0, root) && pa in own0 && own0[pa].Free? && |pg.w| == 512
    ensures HeldRange(own0[pa := Held], v, 1, pa)
    ensures Unmapped(mem0[pa := pg], root, v, 1) <==> Unmapped(mem0, root, v, 1)
    ensures PageMapped(mem0, root, v) <==> v < MAXPAGE && !Unmapped(mem0, root, v, 1)
  {
    TakePage(mem0, own0, pa, pg);
    assert HeldAt(own0[pa := Held], pa, 0);
    if !Unmapped(mem0, root, v, 1) && v < MAXPAGE {
      var u: Slot :| u.Ok() && v <= PageOf(u) < v + 1 && Flat(mem0, root, u) != 0;
      assert PageOf(u) == v;
    }
  }

  lemma {:induction false} OneEntry(es: seq<nat>, pa: nat, perm: nat)
    requires EntriesFor(es, pa, perm) && |es| == 1 && perm < 1024
    ensures es == [MakePte(pa, perm)]
  {
    assert EntryFor(es[0], pa, 0, perm);
  }

  /** mappages() for the one page v at address a. */
  method MapOne(m: Machine, root: nat, a: nat, pa: nat, perm: nat, ghost v: nat) returns (r: Result)
    requires m.Valid() && IsRoot(m.own, root) && a == v * 4096 && perm < 1024 && IsLeaf(perm) && pa % 4096 == 0
    requires HeldRange(m.own, v, 1, pa)
    modifies m
    ensures !r.Panic? ==> m.Valid() && IsRoot(m.own, root)
    ensures r.NoMemory? ==> MapsRange(root, v, pa, [], old(m.own), old(m.mem), m.own, m.mem) && |old(m.freelist)| <= 1
    ensures |m.freelist| + 2 >= |old(m.freelist)|
    ensures r.Ok? ==> MapsRange(root, v, pa, [MakePte(pa, perm)], old(m.own), old(m.mem), m.own, m.mem)
    ensures r.Ok? ==> v < MAXPAGE && Unmapped(old(m.mem), root, v, 1)
    ensures r.Panic? ==> v >= MAXPAGE || !Unmapped(old(m.mem), root, v, 1)
  {
    hide MapsRange, StructOk, FreeOk, AllAllocatable, Unmapped, HeldRange, IsLeaf, MakePte, EntriesFor, PageCount;
    ghost var es;
    PageBase(v);
    OnePage(a);
    r, es := m.Mappages(root, a, PGSIZE, pa, perm);
    if r.NoMemory? {
      assert es == [];
    } else if r.Ok? {
      OneEntry(es, pa, perm);
    }
  }

  /** A page that could not be mapped goes back. */
  method GiveBack(m: Machine, root: nat, pa: nat, pg: Page, ghost v: nat, ghost own0: Owners, ghost mem0: Memory)
    requires m.Valid() && StructOk(mem0, own0, NOWHERE) && AllAllocatable(m.end, own0) && |pg.w| == 512
    requires pa in own0 && own0[pa].Free? && IsRoot(m.own, root)
    requires MapsRange(root, v, pa, [], own0[pa := Held], mem0[pa := pg], m.own, m.mem)
    modifies m
    ensures m.Valid() && IsRoot(m.own, root) && OnlyGrown(root, own0, mem0, m.own, m.mem)
    ensures |m.freelist| == |old(m.freelist)| + 1
  {
    hide MapsRange, OnlyGrown, StructOk, FreeOk;
    MapFailed(root, v, pa, pg, Junk(1), own0, mem0, m.own, m.mem);
    var f := m.Kfree(pa, NOWHERE);
  }

  /** The second half of a turn: mappages(), and kfree() if it fails. */
  method MapFresh(m: Machine, root: nat, a: nat, pa: nat, perm: nat, pg: Page,
                  ghost v: nat, ghost own0: Owners, ghost mem0: Memory)
    returns (r: Result)
    requires m.Valid() && IsRoot(m.own, root) && a == v * 4096 && perm < 1024 && IsLeaf(perm) && |pg.w| == 512
    requires SpecialPage(v) ==> PageMapped(mem0, root, v)
    requires StructOk(mem0, own0, NOWHERE) && IsRoot(own0, root) && AllAllocatable(m.end, own0)
    requires pa in own0 && own0[pa].Free? && m.own == own0[pa := Held] && m.mem == mem0[pa := pg]
    modifies m
    ensures !r.Panic? ==> m.Valid() && IsRoot(m.own, root)
    ensures r.NoMemory? ==> OnlyGrown(root, own0, mem0, m.own, m.mem) && |old(m.freelist)| <= 1
    ensures |m.freelist| + 2 >= |old(m.freelist)|
    ensures r.Ok? ==> v < MAXPAGE - 2 && Fills(root, v, [MakePte(pa, perm)], [pg], own0, mem0, m.own, m.mem)
    ensures r.Panic? ==> v >= MAXPAGE || PageMapped(mem0, root, v)
  {
    hide Fills, MapsRange, OnlyGrown, StructOk, FreeOk, PageMapped, Unmapped, HeldRange, IsLeaf, MakePte;
    FreshPre(own0, mem0, root, v, pa, pg);
    r := MapOne(m, root, a, pa, perm, v);
    if r.NoMemory? {
      GiveBack(m, root, pa, pg, v, own0, mem0);
    } else if r.Ok? {
      MappedFills(root, v, pa, perm, pg, own0, mem0, m.own, m.mem);
    }
  }

  lemma {:induction false} NotGrown(root: nat, own: Owners, mem: Memory)
    requires StructOk(mem, own, NOWHERE)
    ensures OnlyGrown(root, own, mem, own, mem)
  {
  }

  /**
   One turn of the loops of uvmalloc() and uvmcopy(): map a fresh page holding pg
   at a. Failing, it gives the page back.
   */
  method AllocPage(m: Machine, root: nat, a: nat, perm: nat, pg: Page, ghost v: nat) returns (r: Result, ghost e: nat)
    requires m.Valid() && IsRoot(m.own, root) && a == v * 4096 && perm < 1024 && IsLeaf(perm) && |pg.w| == 512
    requires SpecialPage(v) ==> PageMapped(m.mem, root, v)
    modifies m
    ensures !r.Panic? ==> m.Valid() && IsRoot(m.own, root)
    ensures r.NoMemory? ==> OnlyGrown(root, old(m.own), old(m.mem), m.own, m.mem) && |old(m.freelist)| <= 2
    ensures |m.freelist| + 3 >= |old(m.freelist)|
    ensures r.Ok? ==> v < MAXPAGE - 2 && Fills(root, v, [e], [pg], old(m.own), old(m.mem), m.own, m.mem)
    ensures r.Ok? ==> Flags(e) == WithV(perm)
    ensures r.Panic? ==> v >= MAXPAGE || PageMapped(old(m.mem), root, v)
  {
    hide Fills, OnlyGrown, PageMapped, IsLeaf, MakePte, StructOk, FreeOk;
    e := 0;
    var pa := m.Kalloc();
    if pa == 0 {
      NotGrown(root, m.own, m.mem);
      return NoMemory, e;
    }
    WriteLeafPage(m.mem, m.own, NOWHERE, pa, pg);
    m.mem := m.mem[pa := pg];
    r := MapFresh(m, root, a, pa, perm, pg, v, old(m.own), old(m.mem));
    PteRoundTrip(pa, perm);
    e := MakePte(pa, perm);
  }

  /** AllocPage as the step that adds one page, v, to those filled. */
  method FillNext(m: Machine, root: nat, a: nat, perm: nat, pg: Page,
                  ghost lo: nat, ghost v: nat, ghost es: seq<nat>, ghost pgs: seq<Page>,
                  ghost own0: Owners, ghost mem0: Memory)
    returns (r: Result, ghost e: nat)
    requires m.Valid() && IsRoot(m.own, root) && perm < 1024 && IsLeaf(perm) && |pg.w| == 512
    requires a == v * 4096 && v == lo + |es| < MAXPAGE && (SpecialPage(v) ==> PageMapped(m.mem, root, v))
    requires IsRoot(own0, root) && Fills(root, lo, es, pgs, own0, mem0, m.own, m.mem)
    modifies m
    ensures !r.Panic? ==> m.Valid() && IsRoot(m.own, root)
    ensures r.NoMemory? ==> Fills(root, lo, es, pgs, own0, mem0, m.own, m.mem) && |old(m.freelist)| <= 2
    ensures |m.freelist| + 3 >= |old(m.freelist)|
    ensures r.Ok? ==> Fills(root, lo, es + [e], pgs + [pg], own0, mem0, m.own, m.mem)
    ensures r.Ok? ==> v < MAXPAGE - 2 && Flags(e) == WithV(perm)
    ensures r.Panic? ==> PageMapped(old(m.mem), root, v)
  {
    hide *;
    ghost var own1, mem1 := m.own, m.mem;
    r, e := AllocPage(m, root, a, perm, pg, v);
    if r.NoMemory? {
      FillsGrown(root, lo, es, pgs, own0, mem0, own1, mem1, m.own, m.mem);
    } else if r.Ok? {
      FillsNext(root, lo, es, pgs, e, pg, own0, mem0, own1, mem1, m.own, m.mem);
    }
  }

  /** Every page is zeroed. */
  ghost predicate AllZero(pgs: seq<Page>) {
    forall k :: 0 <= k < |pgs| ==> pgs[k] == Zeroes()
  }

  /** Every entry has these flags. */
  ghost predicate AllFlags(es: seq<nat>, flags: nat) {
    forall k :: 0 <= k < |es| ==> Flags(es[k]) == flags
  }

  /**
   Shrink user memory from oldsz to newsz bytes. Panics exactly if one of the
   pages to go is not mapped.
   */
  method Uvmdealloc(m: Machine, root: nat, oldsz: nat, newsz: nat) returns (r: Result, sz: nat)
    requires m.Valid() && IsRoot(m.own, root) && oldsz <= TRAPFRAME
    modifies m
    ensures r.Panic? <==>
      newsz < oldsz && !AllMapped(old(m.mem), root, PagesFor(newsz), PagesFor(oldsz) - PagesFor(newsz))
    ensures !r.Panic? ==> r.Ok? && m.Valid() && IsRoot(m.own, root) && sz == if newsz < oldsz then newsz else oldsz
    ensures r.Ok? && newsz >= oldsz ==> m.mem == old(m.mem) && m.own == old(m.own)
    ensures r.Ok? && newsz < oldsz ==>
      UnmapsRange(root, PagesFor(newsz), PagesFor(oldsz) - PagesFor(newsz), true, old(m.own), old(m.mem), m.own, m.mem)
  {
    if newsz >= oldsz {
      return Ok, oldsz;
    }
    PagesForMonotone(newsz, oldsz);
    sz := newsz;
    r := Ok;
    if PgRoundUp(newsz) < PgRoundUp(oldsz) {
      var npages := (PgRoundUp(oldsz) - PgRoundUp(newsz)) / 4096;
      PagesBetween(newsz, oldsz);
      r := m.Uvmunmap(root, PgRoundUp(newsz), npages, true);
    }
  }

  lemma PagesBetween(a: nat, b: nat)
    requires PgRoundUp(a) < PgRoundUp(b)
    ensures (PgRoundUp(b) - PgRoundUp(a)) / 4096 == PagesFor(b) - PagesFor(a)
    ensures PgRoundUp(a) % 4096 == 0 && PgRoundUp(a) / 4096 == PagesFor(a)
  {
  }

  /** uvmalloc()'s way out: give back the pages mapped so far. */
  method TakeBack(m: Machine, root: nat, a: nat, start: nat, ghost lo: nat, ghost es: seq<nat>, ghost pgs: seq<Page>,
                  ghost own0: Owners, ghost mem0: Memory)
    requires m.Valid() && IsRoot(m.own, root) && a == (lo + |es|) * 4096 && start == lo * 4096
    requires lo + |es| <= MAXPAGE - 2
    requires StructOk(mem0, own0, NOWHERE) && IsRoot(own0, root)
    requires Fills(root, lo, es, pgs, own0, mem0, m.own, m.mem)
    modifies m
    ensures m.Valid() && IsRoot(m.own, root) && OnlyGrown(root, own0, mem0, m.own, m.mem)
  {
    hide Fills, AllMapped, UnmapsRange, OnlyGrown, StructOk, FreeOk;
    ghost var own1, mem1 := m.own, m.mem;
    FilledIsMapped(root, lo, es, pgs, own0, mem0, m.own, m.mem);
    PagesForWhole(lo);
    PagesForWhole(lo + |es|);
    UnmapsNothing(root, lo, m.own, m.mem);
    var r, sz := Uvmdealloc(m, root, a, start);
    assert UnmapsRange(root, lo, |es|, true, own1, mem1, m.own, m.mem);
    FillsUndone(root, lo, es, pgs, own0, mem0, own1, mem1, m.own, m.mem);
  }

  lemma UnmapsNothing(root: nat, lo: nat, own: Owners, mem: Memory)
    requires StructOk(mem, own, NOWHERE)
    ensures UnmapsRange(root, lo, 0, true, own, mem, own, mem)
  {
  }

  lemma PagesForWhole(v: nat)
    ensures PagesFor(v * 4096) == v && PgRoundUp(v * 4096) == v * 4096
  {
  }

  /** Readable, user, and any of the extra permissions: a leaf. */
  lemma PermIsLeaf(xperm: nat)
    requires xperm in {0, PTE_W, PTE_X, PTE_W + PTE_X}
    ensures IsLeaf(PTE_R + PTE_U + xperm) && WithV(PTE_R + PTE_U + xperm) == PTE_R + PTE_U + xperm + PTE_V
  {
    assert Has(PTE_R + PTE_U, PTE_R) && Has(PTE_R + PTE_U + PTE_W, PTE_R);
    assert Has(PTE_R + PTE_U + PTE_X, PTE_R) && Has(PTE_R + PTE_U + PTE_W + PTE_X, PTE_R);
  }

  /** What uvmalloc() finds at its next page. */
  lemma AllocPre(root: nat, lo: nat, es: seq<nat>, newsz: nat, own0: Owners, mem0: Memory, mem: Memory)
    requires IsRoot(own0, root) && SetsRange(root, lo, es, own0, mem0, mem)
    requires newsz <= TRAPFRAME || PageMapped(mem0, root, MAXPAGE - 2)
    requires lo + |es| <= MAXPAGE - 2 && (lo + |es|) * 4096 < newsz
    ensures lo + |es| < PagesFor(newsz)
    ensures SpecialPage(lo + |es|) ==> newsz > TRAPFRAME && PageMapped(mem, root, lo + |es|)
    ensures PageMapped(mem, root, lo + |es|) ==> !Unmapped(mem0, root, lo, PagesFor(newsz) - lo)
  {
    PagesForBound(newsz, lo + |es|);
    if SpecialPage(lo + |es|) {
      var u: Slot :| u.Ok() && PageOf(u) == lo + |es| && Flat(mem0, root, u) != 0;
      assert Flat(mem, root, u) == Flat(mem0, root, u);
    }
    if PageMapped(mem, root, lo + |es|) {
      var u: Slot :| u.Ok() && PageOf(u) == lo + |es| && Flat(mem, root, u) != 0;
      assert Flat(mem, root, u) == Flat(mem0, root, u);
    }
  }

  lemma NextZeroed(es: seq<nat>, pgs: seq<Page>, e: nat, flags: nat)
    requires AllZero(pgs) && AllFlags(es, flags) && Flags(e) == flags
    ensures AllZero(pgs + [Zeroes()]) && AllFlags(es + [e], flags)
  {
  }

  /** One turn of uvmalloc()'s loop. */
  method AllocTurn(m: Machine, root: nat, a: nat, newsz: nat, xperm: nat,
                   ghost lo: nat, ghost es: seq<nat>, ghost pgs: seq<Page>, ghost own0: Owners, ghost mem0: Memory)
    returns (r: Result, ghost es': seq<nat>, ghost pgs': seq<Page>)
    requires m.Valid() && IsRoot(m.own, root) && xperm in {0, PTE_W, PTE_X, PTE_W + PTE_X}
    requires newsz <= TRAPFRAME || PageMapped(mem0, root, MAXPAGE - 2)
    requires a == (lo + |es|) * 4096 < newsz && lo + |es| <= MAXPAGE - 2
    requires IsRoot(own0, root) && Fills(root, lo, es, pgs, own0, mem0, m.own, m.mem)
    requires AllZero(pgs) && AllFlags(es, PTE_R + PTE_U + xperm + PTE_V)
    modifies m
    ensures !r.Panic? ==> m.Valid() && IsRoot(m.own, root) && lo + |es'| <= MAXPAGE - 2
    ensures !r.Panic? ==> Fills(root, lo, es', pgs', own0, mem0, m.own, m.mem)
    ensures !r.Panic? ==> AllZero(pgs') && AllFlags(es', PTE_R + PTE_U + xperm + PTE_V)
    ensures |es'| == (if r.Ok? then |es| + 1 else |es|) && lo + |es| < PagesFor(newsz)
    ensures |m.freelist| + 3 >= |old(m.freelist)| && (r.NoMemory? ==> |old(m.freelist)| <= 2)
    ensures r.Panic? ==> !Unmapped(mem0, root, lo, PagesFor(newsz) - lo)
  {
    assert SetsRange(root, lo, es, own0, mem0, m.mem) && PTE_R + PTE_U + xperm < 1024;
    hide *;
    es', pgs' := es, pgs;
    ghost var e;
    PermIsLeaf(xperm);
    AllocPre(root, lo, es, newsz, own0, mem0, m.mem);
    r, e := FillNext(m, root, a, PTE_R + PTE_U + xperm, Zeroes(), lo, lo + |es|, es, pgs, own0, mem0);
    if r.Ok? {
      NextZeroed(es, pgs, e, PTE_R + PTE_U + xperm + PTE_V);
      es', pgs' := es + [e], pgs + [Zeroes()];
    }
  }

  /**
   Grow user memory from oldsz to newsz bytes: fresh zeroed pages, readable for
   the user, with the extra permissions. Failing, all that may remain is empty
   table pages; it does not fail while three pages are free for each new one.
   */
  method Uvmalloc(m: Machine, root: nat, oldsz: nat, newsz: nat, xperm: nat)
    returns (r: Result, sz: nat, ghost es: seq<nat>, ghost pgs: seq<Page>)
    requires m.Valid() && IsRoot(m.own, root) && xperm in {0, PTE_W, PTE_X, PTE_W + PTE_X}
    requires oldsz <= TRAPFRAME && (newsz <= TRAPFRAME || PageMapped(m.mem, root, MAXPAGE - 2))
    modifies m
    ensures !r.Panic? ==> m.Valid() && IsRoot(m.own, root)
    ensures r.Panic? ==> PagesFor(oldsz) < PagesFor(newsz)
    ensures r.Panic? ==> !Unmapped(old(m.mem), root, PagesFor(oldsz), PagesFor(newsz) - PagesFor(oldsz))
    ensures r.NoMemory? ==> sz == 0 && OnlyGrown(root, old(m.own), old(m.mem), m.own, m.mem)
    ensures r.NoMemory? ==> |old(m.freelist)| < 3 * (PagesFor(newsz) - PagesFor(oldsz))
    ensures r.Ok? && newsz < oldsz ==> sz == oldsz && m.mem == old(m.mem) && m.own == old(m.own)
    ensures r.Ok? && newsz >= oldsz ==> sz == newsz && |es| == PagesFor(newsz) - PagesFor(oldsz)
    ensures r.Ok? && newsz >= oldsz ==> Fills(root, PagesFor(oldsz), es, pgs, old(m.own), old(m.mem), m.own, m.mem)
    ensures r.Ok? && newsz >= oldsz ==> AllZero(pgs) && AllFlags(es, PTE_R + PTE_U + xperm + PTE_V)
  {
    r, sz, es, pgs := Ok, 0, [], [];
    if newsz < oldsz {
      sz := oldsz;
      return;
    }
    PagesForMonotone(oldsz, newsz);
    var start := PgRoundUp(oldsz);
    var a := start;
    ghost var lo := PagesFor(oldsz);
    while a < newsz
      invariant a == (lo + |es|) * 4096 && lo + |es| <= MAXPAGE - 2 && lo + |es| <= PagesFor(newsz)
      invariant |m.freelist| + 3 * |es| >= |old(m.freelist)|
      invariant m.Valid() && IsRoot(m.own, root)
      invariant Fills(root, lo, es, pgs, old(m.own), old(m.mem), m.own, m.mem)
      invariant AllZero(pgs) && AllFlags(es, PTE_R + PTE_U + xperm + PTE_V)
      decreases newsz - a
    {
      r, es, pgs := AllocTurn(m, root, a, newsz, xperm, lo, es, pgs, old(m.own), old(m.mem));
      if r.Panic? {
        return;
      }
      if r.NoMemory? {
        TakeBack(m, root, a, start, lo, es, pgs, old(m.own), old(m.mem));
        return;
      }
      a := a + PGSIZE;
    }
    PagesForBound(newsz, lo + |es|);
    r, sz := Ok, newsz;
  }

  // ----- uvmcopy -----

  /** Entry e and contents pg are those of page v of the table at root. */
  ghost predicate CopyOf(mem: Memory, root: nat, v: nat, e: nat, pg: Page) {
    exists s: Slot :: s.Ok() && PageOf(s) == v && Flat(mem, root, s) != 0 && CopyAt(mem, root, s, e, pg)
  }

  ghost predicate CopyAt(mem: Memory, root: nat, s: Slot, e: nat, pg: Page) {
    && Flags(e) == Flags(Flat(mem, root, s))
    && Pte2Pa(Flat(mem, root, s)) in mem && pg == mem[Pte2Pa(Flat(mem, root, s))]
  }

  /** The entries and contents are those of the first pages of the table at root. */
  ghost predicate Copies(mem: Memory, root: nat, es: seq<nat>, pgs: seq<Page>) {
    |es| == |pgs| && forall k :: 0 <= k < |es| ==> CopyOf(mem, root, k, es[k], pgs[k])
  }

  /** What uvmcopy() reads for its next page is what the table mapped when it began. */
  lemma CopyPre(old_: nat, new_: nat, s: Slot, es: seq<nat>, pgs: seq<Page>,
                own0: Owners, mem0: Memory, own: Owners, mem: Memory)
    requires StructOk(mem0, own0, NOWHERE) && StructOk(mem, own, NOWHERE) && IsRoot(own0, old_) && old_ != new_
    requires Fills(new_, 0, es, pgs, own0, mem0, own, mem) && s.Ok() && PageOf(s) < MAXPAGE - 2
    ensures Flat(mem, old_, s) == Flat(mem0, old_, s)
    ensures Flat(mem0, old_, s) != 0 ==>
      && Pte2Pa(Flat(mem0, old_, s)) in mem0 && Pte2Pa(Flat(mem0, old_, s)) in mem
      && mem[Pte2Pa(Flat(mem0, old_, s))] == mem0[Pte2Pa(Flat(mem0, old_, s))]
      && |mem[Pte2Pa(Flat(mem0, old_, s))].w| == 512
      && IsLeaf(Flags(Flat(mem0, old_, s))) && WithV(Flags(Flat(mem0, old_, s))) == Flags(Flat(mem0, old_, s))
  {
    if Flat(mem0, old_, s) != 0 {
      SpecialIsPage(s);
      MappedIsLeaf(mem0, own0, old_, s);
      FlagBits(Flat(mem0, old_, s));
      FlagsOdd(Flat(mem0, old_, s));
    }
  }

  lemma FlagsOdd(e: nat)
    requires IsValid(e)
    ensures Flags(e) % 2 == 1
  {
    assert e == 2 * (512 * (e / 1024)) + e % 1024;
    Parity(512 * (e / 1024), e % 1024);
  }

  lemma CopyNext(mem0: Memory, root: nat, s: Slot, es: seq<nat>, pgs: seq<Page>, e: nat, pg: Page)
    requires Copies(mem0, root, es, pgs) && s.Ok() && PageOf(s) == |es| && Flat(mem0, root, s) != 0
    requires CopyAt(mem0, root, s, e, pg)
    ensures Copies(mem0, root, es + [e], pgs + [pg])
  {
    assert CopyOf(mem0, root, |es|, e, pg);
  }

  /** The entry of the table at root for page v, through walk(); 0 if there is none. */
  method Entry(m: Machine, root: nat, va: nat, ghost v: nat) returns (found: bool, pte: nat, ghost s: Slot)
    requires m.Valid() && IsRoot(m.own, root) && va == v * 4096 && v < MAXPAGE
    modifies m
    ensures m.mem == old(m.mem) && m.own == old(m.own) && m.freelist == old(m.freelist)
    ensures s.Ok() && PageOf(s) == v
    ensures found && IsValid(pte) <==> Flat(m.mem, root, s) != 0
    ensures found && IsValid(pte) ==> pte == Flat(m.mem, root, s)
  {
    PageBase(v);
    var w;
    w, s := m.Walk(root, va, false);
    found := w.Found?;
    pte := if found then m.mem[w.page].w[w.index] else 0;
  }

  /** One turn of uvmcopy()'s loop. */
  method CopyTurn(m: Machine, old_: nat, new_: nat, i: nat,
                  ghost n: nat, ghost es: seq<nat>, ghost pgs: seq<Page>, ghost own0: Owners, ghost mem0: Memory)
    returns (r: Result, ghost es': seq<nat>, ghost pgs': seq<Page>)
    requires m.Valid() && IsRoot(m.own, old_) && IsRoot(m.own, new_) && old_ != new_
    requires StructOk(mem0, own0, NOWHERE) && IsRoot(own0, old_) && IsRoot(own0, new_)
    requires i == |es| * 4096 && |es| < n <= MAXPAGE - 2
    requires Fills(new_, 0, es, pgs, own0, mem0, m.own, m.mem) && Copies(mem0, old_, es, pgs)
    modifies m
    ensures !r.Panic? ==> m.Valid() && IsRoot(m.own, old_) && IsRoot(m.own, new_)
    ensures !r.Panic? ==> Fills(new_, 0, es', pgs', own0, mem0, m.own, m.mem) && Copies(mem0, old_, es', pgs')
    ensures |es'| == if r.Ok? then |es| + 1 else |es|
    ensures |m.freelist| + 3 >= |old(m.freelist)| && (r.NoMemory? ==> |old(m.freelist)| <= 2)
    ensures r.Panic? ==> !AllMapped(mem0, old_, 0, n) || !Unmapped(mem0, new_, 0, n)
  {
    hide Fills, AllMapped, Unmapped, Copies, StructOk, FreeOk, PageMapped, SetsRange, Flat, IsLeaf, IsTable;
    es', pgs' := es, pgs;
    var found, pte;
    ghost var s, e;
    found, pte, s := Entry(m, old_, i, |es|);
    CopyPre(old_, new_, s, es, pgs, own0, mem0, m.own, m.mem);
    if Flat(mem0, old_, s) == 0 {
      NotAllMapped(mem0, old_, s, n);
    }
    if !found {
      return Panic("uvmcopy: pte should exist"), es', pgs';
    }
    if !IsValid(pte) {
      return Panic("uvmcopy: page not present"), es', pgs';
    }
    StillUnmapped(new_, es, pgs, n, own0, mem0, m.own, m.mem);
    var pg := m.mem[Pte2Pa(pte)];
    r, e := FillNext(m, new_, i, Flags(pte), pg, 0, |es|, es, pgs, own0, mem0);
    if r.Ok? {
      CopyNext(mem0, old_, s, es, pgs, e, pg);
      es', pgs' := es + [e], pgs + [pg];
    }
    if !r.Panic? {
      FillsKeepsRoots(new_, es', pgs', own0, mem0, m.own, m.mem);
    }
  }

  lemma FillsKeepsRoots(root: nat, es: seq<nat>, pgs: seq<Page>, own0: Owners, mem0: Memory, own: Owners, mem: Memory)
    requires Fills(root, 0, es, pgs, own0, mem0, own, mem)
    ensures SameRoots(own0, own)
  {
  }

  lemma NotAllMapped(mem: Memory, root: nat, s: Slot, n: nat)
    requires s.Ok() && PageOf(s) < n && Flat(mem, root, s) == 0
    ensures !AllMapped(mem, root, 0, n)
  {
    if AllMapped(mem, root, 0, n) {
      assert PageMapped(mem, root, PageOf(s));
      var u: Slot :| u.Ok() && PageOf(u) == PageOf(s) && Flat(mem, root, u) != 0;
      PageOfInjective(u, s);
    }
  }

  lemma StillUnmapped(root: nat, es: seq<nat>, pgs: seq<Page>, n: nat, own0: Owners, mem0: Memory, own: Owners,
                      mem: Memory)
    requires Fills(root, 0, es, pgs, own0, mem0, own, mem) && IsRoot(own0, root) && |es| < n
    ensures PageMapped(mem, root, |es|) ==> !Unmapped(mem0, root, 0, n)
  {
  }

  /**
   Copy the first sz bytes of one address space into another: same permissions,
   same contents, fresh pages. Failing, the new table maps what it mapped.
   */
  method Uvmcopy(m: Machine, old_: nat, new_: nat, sz: nat)
    returns (r: Result, ghost es: seq<nat>, ghost pgs: seq<Page>)
    requires m.Valid() && IsRoot(m.own, old_) && IsRoot(m.own, new_) && old_ != new_ && sz <= TRAPFRAME
    modifies m
    ensures !r.Panic? ==> m.Valid() && IsRoot(m.own, old_) && IsRoot(m.own, new_)
    ensures r.Panic? ==> !AllMapped(old(m.mem), old_, 0, PagesFor(sz)) || !Unmapped(old(m.mem), new_, 0, PagesFor(sz))
    ensures r.NoMemory? ==>
      OnlyGrown(new_, old(m.own), old(m.mem), m.own, m.mem) && |old(m.freelist)| < 3 * PagesFor(sz)
    ensures r.Ok? ==> |es| == PagesFor(sz) && Fills(new_, 0, es, pgs, old(m.own), old(m.mem), m.own, m.mem)
    ensures r.Ok? ==> Copies(old(m.mem), old_, es, pgs)
  {
    es, pgs := [], [];
    var i := 0;
    while i < sz
      invariant i == |es| * 4096 && |es| <= PagesFor(sz) && |m.freelist| + 3 * |es| >= |old(m.freelist)|
      invariant m.Valid() && IsRoot(m.own, old_) && IsRoot(m.own, new_)
      invariant Fills(new_, 0, es, pgs, old(m.own), old(m.mem), m.own, m.mem) && Copies(old(m.mem), old_, es, pgs)
      decreases sz - i
    {
      PagesForBound(sz, |es|);
      r, es, pgs := CopyTurn(m, old_, new_, i, PagesFor(sz), es, pgs, old(m.own), old(m.mem));
      if r.Panic? {
        return;
      }
      if r.NoMemory? {
        CopyBack(m, new_, i, es, pgs, old(m.own), old(m.mem));
        return;
      }
      i := i + PGSIZE;
    }
    PagesForBound(sz, |es|);
    r := Ok;
  }

  /** uvmcopy()'s way out: unmap and free the pages copied so far. */
  method CopyBack(m: Machine, root: nat, i: nat, ghost es: seq<nat>, ghost pgs: seq<Page>, ghost own0: Owners,
                  ghost mem0: Memory)
    requires m.Valid() && IsRoot(m.own, root) && i == |es| * 4096 && |es| <= MAXPAGE - 2
    requires StructOk(mem0, own0, NOWHERE) && IsRoot(own0, root)
    requires Fills(root, 0, es, pgs, own0, mem0, m.own, m.mem)
    modifies m
    ensures m.Valid() && IsRoot(m.own, root) && OnlyGrown(root, own0, mem0, m.own, m.mem)
  {
    ghost var own1, mem1 := m.own, m.mem;
    FilledIsMapped(root, 0, es, pgs, own0, mem0, m.own, m.mem);
    PageBase(|es|);
    var r := m.Uvmunmap(root, 0, i / 4096, true);
    FillsUndone(root, 0, es, pgs, own0, mem0, own1, mem1, m.own, m.mem);
  }

  // ----- uvmclear -----

  lemma ClearedFlat(m0: Memory, own: Owners, t: nat, c: nat)
    requires StructOk(m0, own, NOWHERE) && IsLow(own, t, c)
    ensures StructOk(SetEntry(m0, t, c, ClearU(m0[t].w[c])), own, NOWHERE)
    ensures SetsOne(own[t].root, SlotOf(own, t, c), OrZero(ClearU(m0[t].w[c])), own, m0,
                    SetEntry(m0, t, c, ClearU(m0[t].w[c])))
    ensures Flat(m0, own[t].root, SlotOf(own, t, c)) == OrZero(m0[t].w[c])
  {
    var e := ClearU(m0[t].w[c]);
    ClearUKeeps(m0[t].w[c]);
    if IsValid(m0[t].w[c]) {
      assert MapsPage(own, t, c, m0[t].w[c]);
    }
    ChangeFlags(m0, own, t, c, e);
    FlatSet(m0, own, t, c, e);
    LowOf(m0, own, t, SlotOf(own, t, c));
  }

  /**
   Take a page away from the user without unmapping it: exec()'s stack guard.
   Panics exactly if va is not below MAXVA or there is no table page for it.
   */
  method Uvmclear(m: Machine, root: nat, va: nat) returns (r: Result, ghost s: Slot)
    requires m.Valid() && IsRoot(m.own, root)
    modifies m
    ensures va < MAXVA ==> s.Ok() && PageOf(s) == va / 4096
    ensures r.Panic? <==> va >= MAXVA || LowTable(old(m.mem), root, s) == 0
    ensures !r.Panic? ==> r.Ok? && m.Valid() && m.own == old(m.own) && m.freelist == old(m.freelist)
    ensures r.Ok? ==> SetsOne(root, s, ClearU(Flat(old(m.mem), root, s)), m.own, old(m.mem), m.mem)
    ensures r.Ok? ==> SameData(m.own, old(m.mem), m.mem)
  {
    var w;
    w, s := m.Walk(root, va, false);
    if w.WalkPanic? {
      return Panic("walk"), s;
    }
    if w.Missing? {
      return Panic("uvmclear"), s;
    }
    ClearedFlat(m.mem, m.own, w.page, w.index);
    ClearUKeeps(m.mem[w.page].w[w.index]);
    m.mem := SetEntry(m.mem, w.page, w.index, ClearU(m.mem[w.page].w[w.index]));
    r := Ok;
  }
}
