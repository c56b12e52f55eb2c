/**
 Whole page tables: creating one, freeing one, and the tables of processes
 (proc_pagetable and proc_freepagetable of kernel/proc.c). Freeing gives back
 every page of the table and every page it maps; a failed creation gives back
 everything it took.
 */
module ProcTables {
  import opened Sv39
  import opened PageOwner
  import opened PageMap
  import opened VmSteps
  import opened VmFree
  import opened VmFill
  import opened Vm
  import opened UserVm
  import opened UserCopy

  /** The page is part of the table at root, or mapped by it and its own. */
  predicate Belongs(o: Owner, root: nat) {
    (o.Table? || o.Leaf?) && o.root == root
  }

  /** Everything that belonged to the table at root is free; nothing else changed. */
  ghost predicate TableFreed(root: nat, own0: Owners, mem0: Memory, own: Owners, mem: Memory) {
    && own.Keys == own0.Keys
    && (forall p :: p in own0 ==> own[p] == if Belongs(own0[p], root) then Free else own0[p])
    && (forall r, s: Slot :: IsRoot(own0, r) && r != root && s.Ok() ==> Flat(mem, r, s) == Flat(mem0, r, s))
    && KeepsData(own0, mem0, own, mem)
  }

  /** The table maps its first n pages, the special pages if `special`, and nothing else. */
  ghost predicate MapsExactly(mem: Memory, root: nat, n: nat, special: bool) {
    forall s: Slot :: s.Ok() ==>
      (Flat(mem, root, s) != 0 <==> PageOf(s) < n || (special && SpecialPage(PageOf(s))))
  }

  ghost predicate EmptyTable(mem: Memory, root: nat) {
    forall s: Slot :: s.Ok() ==> Flat(mem, root, s) == 0
  }

  // ----- What freewalk() does to a whole table -----

  lemma NoLeavesIsEmpty(mem: Memory, own: Owners, root: nat)
    requires StructOk(mem, own, NOWHERE) && IsRoot(own, root)
    ensures NoLeaves(mem, own, root) <==> EmptyTable(mem, root)
  {
    if NoLeaves(mem, own, root) {
      forall s: Slot | s.Ok()
        ensures Flat(mem, root, s) == 0
      {
        if Flat(mem, root, s) != 0 {
          LowIs(mem, own, root, s);
          assert Under(own, root, LowTable(mem, root, s));
        }
      }
    }
    if EmptyTable(mem, root) {
      forall t, c | IsTable(own, t) && Under(own, root, t) && own[t].node.level == 0 && 0 <= c < 512
        ensures !IsValid(mem[t].w[c])
      {
        LowOf(mem, own, t, SlotOf(own, t, c));
        assert Flat(mem, root, SlotOf(own, t, c)) == 0;
      }
    }
  }

  lemma FreedIsTableFreed(root: nat, own0: Owners, mem0: Memory, own: Owners, mem: Memory)
    requires StructOk(mem0, own0, NOWHERE) && StructOk(mem, own, NOWHERE) && IsRoot(own0, root)
    requires Freed(root, own0, mem0, own, mem) && EmptyTable(mem0, root)
    ensures TableFreed(root, own0, mem0, own, mem)
  {
    forall p | p in own0
      ensures own[p] == if Belongs(own0[p], root) then Free else own0[p]
    {
      if own0[p].Leaf? && own0[p].root == root {
        LeafIsMapped(mem0, own0, p);
      }
      if IsTable(own0, p) && own0[p].root == root {
        assert Under(own0, root, p);
      }
    }
    FlatFrame(mem, own, mem0);
    forall r, s: Slot | IsRoot(own0, r) && r != root && s.Ok()
      ensures Flat(mem, r, s) == Flat(mem0, r, s)
    {
      assert IsRoot(own, r);
    }
  }

  /** Unmapping some pages first makes no difference to what is freed in the end. */
  lemma FreedAfterUnmap(root: nat, lo: nat, n: nat, doFree: bool,
                        own0: Owners, mem0: Memory, own1: Owners, mem1: Memory, own2: Owners, mem2: Memory)
    requires StructOk(mem0, own0, NOWHERE) && (doFree || lo >= MAXPAGE - 2) && lo + n <= MAXPAGE
    requires UnmapsRange(root, lo, n, doFree, own0, mem0, own1, mem1)
    requires TableFreed(root, own1, mem1, own2, mem2)
    ensures TableFreed(root, own0, mem0, own2, mem2)
  {
    forall p | p in own0 && own0[p].Leaf? && own0[p].root == root && lo <= PageOf(own0[p].slot) < lo + n
      ensures doFree
    {
      assert MappedBy(mem0, own0, p);
      SpecialIsPage(own0[p].slot);
    }
    assert SameRoots(own0, own1);
    forall r, s: Slot | IsRoot(own0, r) && r != root && s.Ok()
      ensures Flat(mem2, r, s) == Flat(mem0, r, s)
    {
      assert IsRoot(own1, r);
    }
  }

  /** Mapped throughout, page by page or slot by slot. */
  lemma AllMappedSlots(mem: Memory, root: nat, lo: nat, n: nat)
    requires lo + n <= MAXPAGE
    ensures AllMapped(mem, root, lo, n) <==>
      forall s: Slot :: s.Ok() && lo <= PageOf(s) < lo + n ==> Flat(mem, root, s) != 0
  {
    if AllMapped(mem, root, lo, n) {
      forall s: Slot | s.Ok() && lo <= PageOf(s) < lo + n
        ensures Flat(mem, root, s) != 0
      {
        assert PageMapped(mem, root, PageOf(s));
        var u: Slot :| u.Ok() && PageOf(u) == PageOf(s) && Flat(mem, root, u) != 0;
        PageOfInjective(u, s);
      }
    }
    if forall s: Slot :: s.Ok() && lo <= PageOf(s) < lo + n ==> Flat(mem, root, s) != 0 {
      forall v | lo <= v < lo + n
        ensures PageMapped(mem, root, v)
      {
        var s := PageSlot(v);
        assert Flat(mem, root, s) != 0;
      }
    }
  }

  /** Unmapping the first n pages leaves an empty table exactly if nothing else was mapped. */
  lemma ExactlyUser(root: nat, n: nat, own0: Owners, mem0: Memory, mem1: Memory)
    requires IsRoot(own0, root) && ClearsRange(root, 0, n, own0, mem0, mem1) && n <= MAXPAGE
    requires AllMapped(mem0, root, 0, n)
    ensures MapsExactly(mem0, root, n, false) <==> EmptyTable(mem1, root)
  {
    AllMappedSlots(mem0, root, 0, n);
    if EmptyTable(mem1, root) {
      forall s: Slot | s.Ok()
        ensures Flat(mem0, root, s) != 0 <==> PageOf(s) < n
      {
        assert Flat(mem1, root, s) == 0;
      }
    }
  }

  lemma ExactlyMapsAll(mem: Memory, root: nat, n: nat, special: bool)
    requires MapsExactly(mem, root, n, special) && n <= MAXPAGE
    ensures AllMapped(mem, root, 0, n)
    ensures special ==> AllMapped(mem, root, MAXPAGE - 1, 1) && AllMapped(mem, root, MAXPAGE - 2, 1)
  {
    AllMappedSlots(mem, root, 0, n);
    AllMappedSlots(mem, root, MAXPAGE - 1, 1);
    AllMappedSlots(mem, root, MAXPAGE - 2, 1);
  }

  /** Return all table pages; panics exactly if something is still mapped. */
  method FreeEmpty(m: Machine, root: nat) returns (r: Result)
    requires m.Valid() && IsRoot(m.own, root)
    modifies m
    ensures r.Panic? <==> !EmptyTable(old(m.mem), root)
    ensures !r.Panic? ==> r.Ok? && m.Valid() && TableFreed(root, old(m.own), old(m.mem), m.own, m.mem)
  {
    NoLeavesIsEmpty(m.mem, m.own, root);
    r := m.Freewalk(root);
    if !r.Panic? {
      FreedIsTableFreed(root, old(m.own), old(m.mem), m.own, m.mem);
    }
  }

  /**
   Free the first sz bytes of user memory, then the table. Panics exactly if the
   table maps anything but the pages of those sz bytes, or not all of them.
   */
  method Uvmfree(m: Machine, root: nat, sz: nat) returns (r: Result)
    requires m.Valid() && IsRoot(m.own, root) && sz <= TRAPFRAME
    modifies m
    ensures r.Panic? <==> !MapsExactly(old(m.mem), root, PagesFor(sz), false)
    ensures !r.Panic? ==> r.Ok? && m.Valid() && TableFreed(root, old(m.own), old(m.mem), m.own, m.mem)
  {
    hide MapsExactly, EmptyTable, TableFreed, UnmapsRange, AllMapped, FreeOk, StructOk;
    ghost var n := PagesFor(sz);
    if sz > 0 {
      r := m.Uvmunmap(root, 0, PgRoundUp(sz) / 4096, true);
      if r.Panic? {
        if MapsExactly(old(m.mem), root, n, false) {
          ExactlyMapsAll(old(m.mem), root, n, false);
        }
        return;
      }
      UnmapsClears(root, n, old(m.own), old(m.mem), m.own, m.mem);
      ExactlyUser(root, n, old(m.own), old(m.mem), m.mem);
    } else {
      EmptyIsExactly(m.mem, root);
    }
    ghost var own1, mem1 := m.own, m.mem;
    r := FreeEmpty(m, root);
    if !r.Panic? && sz > 0 {
      FreedAfterUnmap(root, 0, n, true, old(m.own), old(m.mem), own1, mem1, m.own, m.mem);
    }
  }

  lemma UnmapsClears(root: nat, n: nat, own0: Owners, mem0: Memory, own1: Owners, mem1: Memory)
    requires UnmapsRange(root, 0, n, true, own0, mem0, own1, mem1)
    ensures ClearsRange(root, 0, n, own0, mem0, mem1)
  {
  }

  lemma EmptyIsExactly(mem: Memory, root: nat)
    ensures MapsExactly(mem, root, 0, false) <==> EmptyTable(mem, root)
  {
    if MapsExactly(mem, root, 0, false) {
      forall s: Slot | s.Ok()
        ensures Flat(mem, root, s) == 0
      {
      }
    }
  }

  // ----- proc_freepagetable -----

  /** With both special pages mapped, unmapping them leaves user pages exactly if there was nothing else. */
  lemma SpecialsUnmapped(root: nat, n: nat, own0: Owners, mem0: Memory, own1: Owners, mem1: Memory, mem2: Memory)
    requires IsRoot(own0, root) && IsRoot(own1, root) && n <= MAXPAGE - 2
    requires ClearsRange(root, MAXPAGE - 1, 1, own0, mem0, mem1) && ClearsRange(root, MAXPAGE - 2, 1, own1, mem1, mem2)
    requires AllMapped(mem0, root, MAXPAGE - 1, 1) && AllMapped(mem1, root, MAXPAGE - 2, 1)
    ensures MapsExactly(mem0, root, n, true) <==> MapsExactly(mem2, root, n, false)
  {
    AllMappedSlots(mem0, root, MAXPAGE - 1, 1);
    AllMappedSlots(mem1, root, MAXPAGE - 2, 1);
    forall s: Slot | s.Ok()
      ensures Flat(mem2, root, s) == if SpecialPage(PageOf(s)) then 0 else Flat(mem0, root, s)
      ensures SpecialPage(PageOf(s)) ==> Flat(mem0, root, s) != 0
    {
    }
    if MapsExactly(mem2, root, n, false) {
      forall s: Slot | s.Ok()
        ensures Flat(mem0, root, s) != 0 <==> PageOf(s) < n || SpecialPage(PageOf(s))
      {
        assert Flat(mem2, root, s) != 0 <==> PageOf(s) < n;
      }
    }
    if MapsExactly(mem0, root, n, true) {
      forall s: Slot | s.Ok()
        ensures Flat(mem2, root, s) != 0 <==> PageOf(s) < n
      {
        assert Flat(mem0, root, s) != 0 <==> PageOf(s) < n || SpecialPage(PageOf(s));
      }
    }
  }

  lemma UnmapsKeepsRoot(root: nat, lo: nat, n: nat, doFree: bool, own0: Owners, mem0: Memory, own1: Owners,
                        mem1: Memory)
    requires UnmapsRange(root, lo, n, doFree, own0, mem0, own1, mem1)
    ensures ClearsRange(root, lo, n, own0, mem0, mem1) && SameRoots(own0, own1)
  {
  }

  /** Taking away the trampoline's mapping says nothing about the trapframe's. */
  lemma OtherSpecial(root: nat, own0: Owners, mem0: Memory, mem1: Memory)
    requires IsRoot(own0, root) && ClearsRange(root, MAXPAGE - 1, 1, own0, mem0, mem1)
    ensures AllMapped(mem1, root, MAXPAGE - 2, 1) <==> AllMapped(mem0, root, MAXPAGE - 2, 1)
  {
    AllMappedSlots(mem0, root, MAXPAGE - 2, 1);
    AllMappedSlots(mem1, root, MAXPAGE - 2, 1);
  }

  /**
   Free a process's page table and its memory. Panics exactly if the table maps
   anything but the two special pages and the pages of sz bytes, or not all of these.
   */
  method ProcFreepagetable(m: Machine, root: nat, sz: nat) returns (r: Result)
    requires m.Valid() && IsRoot(m.own, root) && sz <= TRAPFRAME
    modifies m
    ensures r.Panic? <==> !MapsExactly(old(m.mem), root, PagesFor(sz), true)
    ensures !r.Panic? ==> r.Ok? && m.Valid() && TableFreed(root, old(m.own), old(m.mem), m.own, m.mem)
  {
    hide MapsExactly, EmptyTable, TableFreed, UnmapsRange, AllMapped, FreeOk, StructOk, ClearsRange;
    ghost var n := PagesFor(sz);
    SpecialPages();
    if MapsExactly(m.mem, root, n, true) {
      ExactlyMapsAll(m.mem, root, n, true);
    }
    r := m.Uvmunmap(root, TRAMPOLINE, 1, false);
    if r.Panic? {
      return;
    }
    ghost var own1, mem1 := m.own, m.mem;
    UnmapsKeepsRoot(root, MAXPAGE - 1, 1, false, old(m.own), old(m.mem), own1, mem1);
    OtherSpecial(root, old(m.own), old(m.mem), mem1);
    r := m.Uvmunmap(root, TRAPFRAME, 1, false);
    if r.Panic? {
      return;
    }
    ghost var own2, mem2 := m.own, m.mem;
    UnmapsKeepsRoot(root, MAXPAGE - 2, 1, false, own1, mem1, own2, mem2);
    SpecialsUnmapped(root, n, old(m.own), old(m.mem), own1, mem1, mem2);
    r := Uvmfree(m, root, sz);
    if !r.Panic? {
      FreedAfterUnmap(root, MAXPAGE - 2, 1, false, own1, mem1, own2, mem2, m.own, m.mem);
      FreedAfterUnmap(root, MAXPAGE - 1, 1, false, old(m.own), old(m.mem), own1, mem1, m.own, m.mem);
    }
  }

  // ----- proc_pagetable -----

  /** A table at root, a page that was free, now exists with its interior pages; nothing else changed. */
  ghost predicate TableAdded(root: nat, own0: Owners, mem0: Memory, own: Owners, mem: Memory) {
    && root in own0 && own0[root].Free? && IsRoot(own, root)
    && own.Keys == own0.Keys
    && (forall p :: p in own0 ==> own[p] == own0[p] || (own0[p].Free? && own[p].Table? && own[p].root == root))
    && (forall r, s: Slot :: IsRoot(own0, r) && s.Ok() ==> Flat(mem, r, s) == Flat(mem0, r, s))
    && SameData(own0, mem0, mem)
  }

  /** Freeing a table that was added restores the labels, all mappings and all data. */
  lemma AddedThenFreed(root: nat, own0: Owners, mem0: Memory, own1: Owners, mem1: Memory, own2: Owners, mem2: Memory)
    requires StructOk(mem0, own0, NOWHERE)
    requires TableAdded(root, own0, mem0, own1, mem1) && TableFreed(root, own1, mem1, own2, mem2)
    ensures own2 == own0 && SameFlat(own0, mem0, mem2) && SameData(own0, mem0, mem2)
  {
    forall p | p in own0
      ensures own2[p] == own0[p]
    {
      if own0[p].Leaf? {
        assert MappedBy(mem0, own0, p);
      }
    }
    forall r, s: Slot | IsRoot(own0, r) && s.Ok()
      ensures Flat(mem2, r, s) == Flat(mem0, r, s)
    {
      assert IsRoot(own1, r);
    }
  }

  /** Creating an empty table from a zeroed page. */
  lemma Created(root: nat, own0: Owners, mem0: Memory, mem1: Memory)
    requires StructOk(mem0, own0, NOWHERE) && root in own0 && own0[root].Free?
    requires mem1 == mem0[root := Zeroes()]
    ensures StructOk(mem1, own0[root := Table(root, ROOT, 0)], NOWHERE)
    ensures TableAdded(root, own0, mem0, own0[root := Table(root, ROOT, 0)], mem1) && EmptyTable(mem1, root)
  {
    WriteLeafPage(mem0, own0, NOWHERE, root, Zeroes());
    FlatFrame(mem0, own0, mem1);
    NewRoot(mem1, own0, root);
    assert own0[root := Table(root, ROOT, 0)].Keys == own0.Keys;
    forall s: Slot | s.Ok()
      ensures Flat(mem1, root, s) == 0
    {
      assert !IsValid(Word(mem1, root, s.a));
    }
  }

  /** Create an empty page table; 0 if out of memory. */
  method Uvmcreate(m: Machine) returns (root: nat)
    requires m.Valid()
    modifies m
    ensures m.Valid()
    ensures root == 0 <==> old(m.freelist) == []
    ensures root == 0 ==> m.own == old(m.own) && m.mem == old(m.mem)
    ensures root != 0 ==> TableAdded(root, old(m.own), old(m.mem), m.own, m.mem) && EmptyTable(m.mem, root)
    ensures root != 0 ==> |m.freelist| + 1 == |old(m.freelist)|
  {
    root := m.Kalloc();
    if root != 0 {
      assert old(m.mem)[root := Junk(5)][root := Zeroes()] == old(m.mem)[root := Zeroes()];
      Created(root, old(m.own), old(m.mem), old(m.mem)[root := Zeroes()]);
      FreeRelabel(m.freelist, m.own, root, Table(root, ROOT, 0));
      assert old(m.own)[root := Held][root := Table(root, ROOT, 0)] == old(m.own)[root := Table(root, ROOT, 0)];
      m.mem := m.mem[root := Zeroes()];
      m.own := m.own[root := Table(root, ROOT, 0)];
    }
  }

  /** Mapping a special page takes no label away from anyone. */
  lemma SpecialMapped(root: nat, v: nat, pa: nat, es: seq<nat>,
                      own0: Owners, mem0: Memory, own1: Owners, mem1: Memory, own2: Owners, mem2: Memory)
    requires TableAdded(root, own0, mem0, own1, mem1) && StructOk(mem0, own0, NOWHERE) && StructOk(mem2, own2, NOWHERE)
    requires SpecialPage(v) && |es| <= 1 && MapsRange(root, v, pa, es, own1, mem1, own2, mem2)
    ensures TableAdded(root, own0, mem0, own2, mem2)
  {
    forall p | p in own1
      ensures own2[p] == own1[p] || (own1[p].Free? && own2[p].Table? && own2[p].root == root)
    {
      if own2[p].Leaf? && own2[p] != own1[p] {
        assert MappedBy(mem2, own2, p);
        SpecialIsPage(own2[p].slot);
      }
    }
    forall r, s: Slot | IsRoot(own0, r) && s.Ok()
      ensures Flat(mem2, r, s) == Flat(mem0, r, s)
    {
      assert IsRoot(own1, r);
    }
  }

  /** Unmapping a special page does not either. */
  lemma SpecialUnmapped(root: nat, v: nat,
                        own0: Owners, mem0: Memory, own1: Owners, mem1: Memory, own2: Owners, mem2: Memory)
    requires TableAdded(root, own0, mem0, own1, mem1) && StructOk(mem0, own0, NOWHERE) && StructOk(mem1, own1, NOWHERE)
    requires SpecialPage(v) && UnmapsRange(root, v, 1, false, own1, mem1, own2, mem2)
    ensures TableAdded(root, own0, mem0, own2, mem2)
  {
    forall p | p in own1
      ensures own2[p] == own1[p]
    {
      if own1[p].Leaf? {
        assert MappedBy(mem1, own1, p);
        SpecialIsPage(own1[p].slot);
      }
    }
    forall r, s: Slot | IsRoot(own0, r) && s.Ok()
      ensures Flat(mem2, r, s) == Flat(mem0, r, s)
    {
      assert IsRoot(own1, r);
    }
  }

  /** mappages() of one special page in a table where it is not mapped. */
  method MapSpecial(m: Machine, root: nat, a: nat, pa: nat, perm: nat, ghost v: nat, ghost own0: Owners,
                    ghost mem0: Memory)
    returns (ok: bool)
    requires m.Valid() && StructOk(mem0, own0, NOWHERE) && TableAdded(root, own0, mem0, m.own, m.mem)
    requires a == v * 4096 && SpecialPage(v) && perm < 1024 && IsLeaf(perm) && pa % 4096 == 0
    requires Unmapped(m.mem, root, v, 1)
    modifies m
    ensures m.Valid() && TableAdded(root, own0, mem0, m.own, m.mem)
    ensures SetsRange(root, v, if ok then [MakePte(pa, perm)] else [], old(m.own), old(m.mem), m.mem)
    ensures |m.freelist| + 2 >= |old(m.freelist)| && (!ok ==> |old(m.freelist)| <= 1)
  {
    ghost var own1, mem1 := m.own, m.mem;
    var r := MapOne(m, root, a, pa, perm, v);
    ok := r.Ok?;
    SpecialMapped(root, v, pa, if ok then [MakePte(pa, perm)] else [], own0, mem0, own1, mem1, m.own, m.mem);
  }

  /** The table maps the two special pages, to these entries, and nothing else. */
  ghost predicate OnlySpecials(mem: Memory, root: nat, e1: nat, e2: nat) {
    forall s: Slot :: s.Ok() ==>
      Flat(mem, root, s) == if PageOf(s) == MAXPAGE - 1 then e1 else if PageOf(s) == MAXPAGE - 2 then e2 else 0
  }

  /** What the table maps after each mapping of a special page. */
  lemma SpecialsSet(root: nat, v: nat, e: nat, set_: bool, own: Owners, mem: Memory, mem': Memory, e1: nat, e2: nat)
    requires IsRoot(own, root) && SpecialPage(v) && OnlySpecials(mem, root, e1, e2)
    requires SetsRange(root, v, if set_ then [e] else [], own, mem, mem')
    ensures OnlySpecials(mem', root, if set_ && v == MAXPAGE - 1 then e else e1,
                         if set_ && v == MAXPAGE - 2 then e else e2)
  {
  }

  lemma OnlyTrampoline(root: nat, own: Owners, mem: Memory, mem': Memory, e1: nat)
    requires IsRoot(own, root) && OnlySpecials(mem, root, e1, 0) && e1 != 0
    requires ClearsRange(root, MAXPAGE - 1, 1, own, mem, mem')
    ensures EmptyTable(mem', root)
  {
  }

  /**
   Create the page table of a process: empty but for the trampoline and the
   trapframe. If memory runs out, 0 is returned and no page is lost; with five
   free pages it does not run out, and it never panics.
   */
  method ProcPagetable(m: Machine, trampoline: nat, trapframe: nat) returns (root: nat)
    requires m.Valid() && trampoline % 4096 == 0 && trapframe % 4096 == 0
    modifies m
    ensures m.Valid()
    ensures root == 0 ==>
      m.own == old(m.own) && SameFlat(m.own, old(m.mem), m.mem) && SameData(m.own, old(m.mem), m.mem)
    ensures if root == 0 then |old(m.freelist)| < 5 else |m.freelist| + 5 >= |old(m.freelist)|
    ensures root != 0 ==> TableAdded(root, old(m.own), old(m.mem), m.own, m.mem)
    ensures root != 0 ==>
      OnlySpecials(m.mem, root, MakePte(trampoline, PTE_R + PTE_X), MakePte(trapframe, PTE_R + PTE_W))
  {
    hide OnlySpecials, TableFreed, SetsRange, EmptyTable, FreeOk, StructOk, MakePte, SameFlat, SameData, UnmapsRange;
    SpecialPages();
    Unchanged(m.own, m.mem);
    root := Uvmcreate(m);
    if root == 0 {
      return;
    }
    ghost var e1, e2 := MakePte(trampoline, PTE_R + PTE_X), MakePte(trapframe, PTE_R + PTE_W);
    EmptyHasNoSpecials(m.mem, root);
    ghost var own1, mem1 := m.own, m.mem;
    var ok := MapSpecial(m, root, TRAMPOLINE, trampoline, PTE_R + PTE_X, MAXPAGE - 1, old(m.own), old(m.mem));
    SpecialsSet(root, MAXPAGE - 1, e1, ok, own1, mem1, m.mem, 0, 0);
    if !ok {
      EmptyHasNoSpecials(m.mem, root);
      Undo(m, root, old(m.own), old(m.mem));
      return 0;
    }
    OtherUnmapped(m.mem, root, e1);
    own1, mem1 := m.own, m.mem;
    ok := MapSpecial(m, root, TRAPFRAME, trapframe, PTE_R + PTE_W, MAXPAGE - 2, old(m.own), old(m.mem));
    SpecialsSet(root, MAXPAGE - 2, e2, ok, own1, mem1, m.mem, e1, 0);
    if !ok {
      PteRoundTrip(trampoline, PTE_R + PTE_X);
      DropTrampoline(m, root, e1, old(m.own), old(m.mem));
      Undo(m, root, old(m.own), old(m.mem));
      return 0;
    }
  }

  lemma Unchanged(own: Owners, mem: Memory)
    requires StructOk(mem, own, NOWHERE)
    ensures SameFlat(own, mem, mem) && SameData(own, mem, mem)
  {
  }

  lemma EmptyHasNoSpecials(mem: Memory, root: nat)
    ensures OnlySpecials(mem, root, 0, 0) <==> EmptyTable(mem, root)
    ensures EmptyTable(mem, root) ==> Unmapped(mem, root, MAXPAGE - 1, 1)
  {
    if OnlySpecials(mem, root, 0, 0) {
      forall s: Slot | s.Ok()
        ensures Flat(mem, root, s) == 0
      {
      }
    }
  }

  lemma OtherUnmapped(mem: Memory, root: nat, e1: nat)
    requires OnlySpecials(mem, root, e1, 0)
    ensures Unmapped(mem, root, MAXPAGE - 2, 1)
  {
  }

  /** uvmunmap(pagetable, TRAMPOLINE, 1, 0) on the way out. */
  method DropTrampoline(m: Machine, root: nat, ghost e1: nat, ghost own0: Owners, ghost mem0: Memory)
    requires m.Valid() && StructOk(mem0, own0, NOWHERE) && TableAdded(root, own0, mem0, m.own, m.mem)
    requires OnlySpecials(m.mem, root, e1, 0) && e1 != 0
    modifies m
    ensures m.Valid() && TableAdded(root, own0, mem0, m.own, m.mem) && EmptyTable(m.mem, root)
  {
    ghost var own1, mem1 := m.own, m.mem;
    SpecialPages();
    AllMappedSlots(m.mem, root, MAXPAGE - 1, 1);
    var r := m.Uvmunmap(root, TRAMPOLINE, 1, false);
    SpecialUnmapped(root, MAXPAGE - 1, own0, mem0, own1, mem1, m.own, m.mem);
    OnlyTrampoline(root, own1, mem1, m.mem, e1);
  }

  /** uvmfree(pagetable, 0) on the way out. */
  method Undo(m: Machine, root: nat, ghost own0: Owners, ghost mem0: Memory)
    requires m.Valid() && StructOk(mem0, own0, NOWHERE) && TableAdded(root, own0, mem0, m.own, m.mem)
    requires EmptyTable(m.mem, root)
    modifies m
    ensures m.Valid() && m.own == own0 && SameFlat(own0, mem0, m.mem) && SameData(own0, mem0, m.mem)
  {
    hide TableAdded, TableFreed, MapsExactly, EmptyTable;
    ghost var own1, mem1 := m.own, m.mem;
    EmptyIsExactly(m.mem, root);
    AddedRoot(root, own0, mem0, m.own, m.mem);
    PagesForWhole(0);
    var r := Uvmfree(m, root, 0);
    AddedThenFreed(root, own0, mem0, own1, mem1, m.own, m.mem);
  }

  lemma AddedRoot(root: nat, own0: Owners, mem0: Memory, own: Owners, mem: Memory)
    requires TableAdded(root, own0, mem0, own, mem)
    ensures IsRoot(own, root)
  {
  }

  /** In the table of a process, user code reaches neither special page. */
  lemma SpecialsAreKernels(mem: Memory, root: nat, trampoline: nat, trapframe: nat)
    requires trampoline % 4096 == 0 && trapframe % 4096 == 0
    requires OnlySpecials(mem, root, MakePte(trampoline, PTE_R + PTE_X), MakePte(trapframe, PTE_R + PTE_W))
    ensures NoUserSpecials(mem, root) && MapsExactly(mem, root, 0, true)
  {
    MadeFlags(trampoline, PTE_R + PTE_X);
    MadeFlags(trapframe, PTE_R + PTE_W);
    PteRoundTrip(trampoline, PTE_R + PTE_X);
    PteRoundTrip(trapframe, PTE_R + PTE_W);
    assert !Has(PTE_R + PTE_X, PTE_U) && !Has(PTE_R + PTE_W, PTE_U);
    forall s: Slot | s.Ok()
      ensures s.Special() ==> !UserMapped(mem, root, s)
    {
      SpecialIsPage(s);
    }
  }
}
