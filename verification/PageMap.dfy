/**
 The flat map a page table stands for. Flat(mem, root, s) is the valid entry the
 three levels below root hold for virtual page s, and zero when there is none. The
 lemmas say how each change to memory changes this map, for every table at once.
 */
module PageMap {
  import opened Sv39
  import opened PageOwner

  function Word(mem: Memory, p: nat, i: nat): (e: nat) {
    if p in mem && i < |mem[p].w| then mem[p].w[i] else 0
  }

  /** The table that entry i of page p points to, or 0. */
  function NextTable(mem: Memory, p: nat, i: nat): (q: nat) {
    if IsValid(Word(mem, p, i)) then Pte2Pa(Word(mem, p, i)) else 0
  }

  /** The lowest-level table page for virtual page s, or 0. */
  function LowTable(mem: Memory, root: nat, s: Slot): (t: nat) {
    var m := NextTable(mem, root, s.a);
    if m == 0 then 0 else NextTable(mem, m, s.b)
  }

  function Flat(mem: Memory, root: nat, s: Slot): (e: nat)
    ensures e != 0 ==> IsValid(e)
  {
    var t := LowTable(mem, root, s);
    if t != 0 && IsValid(Word(mem, t, s.c)) then Word(mem, t, s.c) else 0
  }

  function SlotOfVa(va: nat): (s: Slot)
    ensures s.Ok()
  {
    Slot(Px(2, va), Px(1, va), Px(0, va))
  }

  /** Number of virtual pages below MAXVA. */
  const MAXPAGE: nat := 0x400_0000

  /** The virtual page number of a slot. */
  function PageOf(s: Slot): (v: nat) {
    PageNumber(s.a, s.b, s.c)
  }

  /** The page numbers of TRAPFRAME and TRAMPOLINE. */
  predicate SpecialPage(v: nat) {
    v == MAXPAGE - 2 || v == MAXPAGE - 1
  }

  /** An address below MAXVA has the slot of its page. */
  lemma SlotOfPage(va: nat)
    requires va < MAXVA
    ensures PageOf(SlotOfVa(va)) == va / 4096 < MAXPAGE
  {
    IndicesArePage(va);
  }

  /** Distinct slots are distinct pages. */
  lemma PageOfInjective(s: Slot, u: Slot)
    requires s.Ok() && u.Ok() && PageOf(s) == PageOf(u)
    ensures s == u
  {
    PageIndices(s.a, s.b, s.c);
    PageIndices(u.a, u.b, u.c);
  }

  lemma SpecialIsPage(s: Slot)
    requires s.Ok()
    ensures s.Special() <==> SpecialPage(PageOf(s))
  {
    if SpecialPage(PageOf(s)) {
      PageOfInjective(s, Slot(255, 511, if PageOf(s) == MAXPAGE - 1 then 511 else 510));
    }
  }

  lemma SpecialPages()
    ensures TRAMPOLINE / 4096 == MAXPAGE - 1 && TRAPFRAME / 4096 == MAXPAGE - 2 && MAXVA / 4096 == MAXPAGE
  {
  }

  // ----- Walking follows the labels -----

  lemma MidIs(mem: Memory, own: Owners, r: nat, a: nat)
    requires StructOk(mem, own, NOWHERE) && IsRoot(own, r) && a < 512
    requires NextTable(mem, r, a) != 0
    ensures NextTable(mem, r, a) in own && own[NextTable(mem, r, a)] == Table(r, Node(1, a, 0), r)
  {
    assert PointsDown(own, r, a, mem[r].w[a]);
  }

  lemma LowIs(mem: Memory, own: Owners, r: nat, s: Slot)
    requires StructOk(mem, own, NOWHERE) && IsRoot(own, r) && s.Ok()
    requires LowTable(mem, r, s) != 0
    ensures NextTable(mem, r, s.a) in own
    ensures LowTable(mem, r, s) in own
    ensures own[LowTable(mem, r, s)] == Table(r, Node(0, s.a, s.b), NextTable(mem, r, s.a))
  {
    var m := NextTable(mem, r, s.a);
    MidIs(mem, own, r, s.a);
    assert PointsDown(own, m, s.b, mem[m].w[s.b]);
  }

  /** Every lowest-level page is found from its root. */
  lemma LowOf(mem: Memory, own: Owners, t: nat, s: Slot)
    requires StructOk(mem, own, NOWHERE) && IsTable(own, t) && own[t].node == Node(0, s.a, s.b)
    ensures LowTable(mem, own[t].root, s) == t
  {
    assert PointedTo(mem, own, t);
    assert PointedTo(mem, own, own[t].parent);
  }

  /** Every second-level page is found from its root. */
  lemma MidOf(mem: Memory, own: Owners, m: nat)
    requires StructOk(mem, own, NOWHERE) && IsTable(own, m) && own[m].node.level == 1
    ensures NextTable(mem, own[m].root, own[m].node.a) == m
  {
    assert PointedTo(mem, own, m);
  }

  /** mem' maps what mem maps, for every table. */
  ghost predicate SameFlat(own: Owners, mem: Memory, mem': Memory) {
    forall r, s: Slot :: IsRoot(own, r) && s.Ok() ==> Flat(mem', r, s) == Flat(mem, r, s)
  }

  lemma FlatFrame(mem: Memory, own: Owners, mem': Memory)
    requires StructOk(mem, own, NOWHERE)
    requires forall p :: IsTable(own, p) ==> p in mem' && mem'[p] == mem[p]
    ensures SameFlat(own, mem, mem')
  {
    forall r, s: Slot | IsRoot(own, r) && s.Ok()
      ensures Flat(mem', r, s) == Flat(mem, r, s)
    {
      var m := NextTable(mem, r, s.a);
      if m != 0 {
        MidIs(mem, own, r, s.a);
        if LowTable(mem, r, s) != 0 {
          LowIs(mem, own, r, s);
        }
      }
    }
  }

  /** Hanging an empty table below an invalid entry changes no mapping. */
  lemma FlatAddTable(mem: Memory, own: Owners, p: nat, i: nat, q: nat, e: nat)
    requires StructOk(mem, own, NOWHERE) && CanAddTable(mem, own, p, i, q, e)
    ensures SameFlat(own, mem, SetEntry(mem, p, i, e))
  {
    var mem' := SetEntry(mem, p, i, e);
    assert AllInvalid(mem'[q]);
    forall r, s: Slot | IsRoot(own, r) && s.Ok()
      ensures Flat(mem', r, s) == Flat(mem, r, s)
    {
      FlatAddTableAt(mem, own, p, i, q, e, r, s);
    }
  }

  lemma FlatAddTableAt(mem: Memory, own: Owners, p: nat, i: nat, q: nat, e: nat, r: nat, s: Slot)
    requires StructOk(mem, own, NOWHERE) && CanAddTable(mem, own, p, i, q, e)
    requires IsRoot(own, r) && s.Ok()
    ensures Flat(SetEntry(mem, p, i, e), r, s) == Flat(mem, r, s)
  {
    var mem' := SetEntry(mem, p, i, e);
    assert AllInvalid(mem'[q]);
    var m := NextTable(mem, r, s.a);
    if m != 0 {
      MidIs(mem, own, r, s.a);
      if LowTable(mem, r, s) != 0 {
        LowIs(mem, own, r, s);
      }
    }
  }

  /** What an entry maps: itself if valid. */
  function OrZero(e: nat): (r: nat) {
    if IsValid(e) then e else 0
  }

  /** Storing an entry in a lowest-level page changes the mapping of one page of one table. */
  lemma FlatSet(mem: Memory, own: Owners, t: nat, c: nat, e: nat)
    requires StructOk(mem, own, NOWHERE) && IsLow(own, t, c)
    ensures forall r, s: Slot :: IsRoot(own, r) && s.Ok() ==>
      Flat(SetEntry(mem, t, c, e), r, s) ==
        if r == own[t].root && s == SlotOf(own, t, c) then OrZero(e) else Flat(mem, r, s)
  {
    forall r, s: Slot | IsRoot(own, r) && s.Ok()
      ensures Flat(SetEntry(mem, t, c, e), r, s) ==
        if r == own[t].root && s == SlotOf(own, t, c) then OrZero(e) else Flat(mem, r, s)
    {
      FlatSetAt(mem, own, t, c, e, r, s);
    }
  }

  lemma FlatSetAt(mem: Memory, own: Owners, t: nat, c: nat, e: nat, r: nat, s: Slot)
    requires StructOk(mem, own, NOWHERE) && IsLow(own, t, c) && IsRoot(own, r) && s.Ok()
    ensures Flat(SetEntry(mem, t, c, e), r, s) ==
      if r == own[t].root && s == SlotOf(own, t, c) then OrZero(e) else Flat(mem, r, s)
  {
    LowOf(mem, own, t, SlotOf(own, t, c));
    var m := NextTable(mem, r, s.a);
    if m != 0 {
      MidIs(mem, own, r, s.a);
      if LowTable(mem, r, s) != 0 {
        LowIs(mem, own, r, s);
      }
    }
  }

  lemma SameFlatTrans(own: Owners, own': Owners, m0: Memory, m1: Memory, m2: Memory)
    requires SameFlat(own, m0, m1) && SameFlat(own', m1, m2)
    requires forall r :: IsRoot(own, r) ==> IsRoot(own', r)
    ensures SameFlat(own, m0, m2)
  {
    forall r, s: Slot | IsRoot(own, r) && s.Ok()
      ensures Flat(m2, r, s) == Flat(m0, r, s)
    {
      assert IsRoot(own', r);
      assert Flat(m1, r, s) == Flat(m0, r, s);
    }
  }

  /** Memory once page q is zeroed and hung below entry i of page p. */
  function Hung(mem: Memory, p: nat, i: nat, q: nat): (m: Memory)
    requires p in mem && i < |mem[p].w| && p != q
  {
    SetEntry(mem[q := Zeroes()], p, i, MakePte(q, 0))
  }

  /** walk()'s allocation: the tree grows by one empty page and maps what it mapped. */
  lemma HangTable(mem: Memory, own: Owners, p: nat, i: nat, q: nat)
    requires StructOk(mem, own, NOWHERE) && IsTable(own, p) && own[p].node.level > 0 && i < 512 && !IsValid(mem[p].w[i])
    requires q in own && Plain(own[q]) && q % 4096 == 0
    ensures StructOk(Hung(mem, p, i, q), WithTable(own, p, i, q), NOWHERE)
    ensures SameFlat(own, mem, Hung(mem, p, i, q))
  {
    var e := MakePte(q, 0);
    PteRoundTrip(q, 0);
    MadeFlags(q, 0);
    var mem1 := mem[q := Zeroes()];
    WriteLeafPage(mem, own, NOWHERE, q, Zeroes());
    FlatFrame(mem, own, mem1);
    AddTable(mem1, own, p, i, q, e);
    FlatAddTable(mem1, own, p, i, q, e);
    SameFlatTrans(own, own, mem, mem1, Hung(mem, p, i, q));
  }

  // ----- Ranges of pages -----

  /** Only the mapping of slot s of the table at root changed, to e. */
  ghost predicate SetsOne(root: nat, s: Slot, e: nat, own: Owners, mem: Memory, mem': Memory) {
    forall r, u: Slot :: IsRoot(own, r) && u.Ok() ==>
      Flat(mem', r, u) == if r == root && u == s then e else Flat(mem, r, u)
  }

  /** The pages from lo on of the table at root map the entries es; nothing else changed. */
  ghost predicate SetsRange(root: nat, lo: nat, es: seq<nat>, own: Owners, mem: Memory, mem': Memory) {
    forall r, u: Slot :: IsRoot(own, r) && u.Ok() ==>
      Flat(mem', r, u) ==
        if r == root && lo <= PageOf(u) < lo + |es| then es[PageOf(u) - lo] else Flat(mem, r, u)
  }

  /** Pages lo to lo + n - 1 of the table at root are unmapped; nothing else changed. */
  ghost predicate ClearsRange(root: nat, lo: nat, n: nat, own: Owners, mem: Memory, mem': Memory) {
    forall r, u: Slot :: IsRoot(own, r) && u.Ok() ==>
      Flat(mem', r, u) == if r == root && lo <= PageOf(u) < lo + n then 0 else Flat(mem, r, u)
  }

  ghost predicate SameRoots(own: Owners, own': Owners) {
    forall r :: IsRoot(own, r) ==> IsRoot(own', r)
  }

  lemma SetsRangeStep(root: nat, lo: nat, es: seq<nat>, s: Slot, e: nat,
                      own: Owners, mem: Memory, own': Owners, mem': Memory, mem'': Memory)
    requires s.Ok() && PageOf(s) == lo + |es|
    requires SetsRange(root, lo, es, own, mem, mem')
    requires SameRoots(own, own') && SetsOne(root, s, e, own', mem', mem'')
    ensures SetsRange(root, lo, es + [e], own, mem, mem'')
  {
    forall r, u: Slot | IsRoot(own, r) && u.Ok()
      ensures Flat(mem'', r, u) ==
        if r == root && lo <= PageOf(u) < lo + |es + [e]| then (es + [e])[PageOf(u) - lo] else Flat(mem, r, u)
    {
      assert IsRoot(own', r);
      if PageOf(u) == PageOf(s) {
        PageOfInjective(u, s);
      }
    }
  }

  lemma ClearsRangeStep(root: nat, lo: nat, n: nat, s: Slot,
                        own: Owners, mem: Memory, own': Owners, mem': Memory, mem'': Memory)
    requires s.Ok() && PageOf(s) == lo + n
    requires ClearsRange(root, lo, n, own, mem, mem')
    requires SameRoots(own, own') && SetsOne(root, s, 0, own', mem', mem'')
    ensures ClearsRange(root, lo, n + 1, own, mem, mem'')
  {
    forall r, u: Slot | IsRoot(own, r) && u.Ok()
      ensures Flat(mem'', r, u) == if r == root && lo <= PageOf(u) < lo + n + 1 then 0 else Flat(mem, r, u)
    {
      assert IsRoot(own', r);
      if PageOf(u) == PageOf(s) {
        PageOfInjective(u, s);
      }
    }
  }
}
