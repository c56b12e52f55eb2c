/**
 Who owns each page of physical memory. Page tables are trees of pages; `own`
 labels every allocatable page with the one place it belongs to, and the
 predicates below tie the labels to the entries actually stored in memory.
 A page has one label, so nothing is shared and nothing is lost.
 */
module PageOwner {
  import opened Sv39

  /** A page as 512 words; user pages and tables alike. */
  datatype Page = Page(w: seq<nat>)

  type Memory = map<nat, Page>

  /** A position in a page table: level 2 is the root, a and b the indices on the way down. */
  datatype Node = Node(level: nat, a: nat, b: nat) {
    predicate Ok() {
      && level <= 2 && a < 512 && b < 512
      && (level == 2 ==> a == 0 && b == 0)
      && (level == 1 ==> b == 0)
    }

    function Child(i: nat): Node {
      if level == 2 then Node(1, i, 0) else Node(0, a, i)
    }

    function Parent(): Node {
      if level == 1 then Node(2, 0, 0) else Node(1, a, 0)
    }

    /** The index in the parent's page. */
    function Index(): nat {
      if level == 1 then a else b
    }
  }

  /** The three indices of a virtual page. */
  datatype Slot = Slot(a: nat, b: nat, c: nat) {
    predicate Ok() {
      a < 512 && b < 512 && c < 512
    }

    /** TRAMPOLINE and TRAPFRAME are mapped in every process but owned by none of the tables. */
    predicate Special() {
      a == 255 && b == 511 && (c == 511 || c == 510)
    }
  }

  datatype Owner =
    | Free                                          // on the free list
    | Held                                          // allocated, not reachable from a user page table
    | Table(root: nat, node: Node, parent: nat)     // an interior page of the table at root
    | Leaf(root: nat, slot: Slot, table: nat)       // mapped by that table, in the entry of page `table`

  type Owners = map<nat, Owner>

  predicate Allocatable(end: nat, p: nat) {
    p % 4096 == 0 && end <= p < PHYSTOP
  }

  const ROOT := Node(2, 0, 0)

  predicate IsTable(own: Owners, p: nat) {
    p in own && own[p].Table?
  }

  predicate IsRoot(own: Owners, r: nat) {
    r in own && own[r] == Table(r, ROOT, 0)
  }

  /** Neither part of a page table nor mapped by one. */
  predicate Plain(o: Owner) {
    o.Free? || o.Held?
  }

  // ----- The invariant -----

  /** kfree() accepts every page that has a label. */
  ghost predicate AllAllocatable(end: nat, own: Owners) {
    forall p :: p in own ==> Allocatable(end, p)
  }

  ghost predicate TablesOk(own: Owners) {
    forall p :: IsTable(own, p) ==>
      own[p].node.Ok() && (own[p].node.level == 2 <==> p == own[p].root) && IsRoot(own, own[p].root)
  }

  /** No entry is excepted. */
  const NOWHERE := (0, 0)

  ghost predicate Pages(mem: Memory, own: Owners) {
    forall p :: p in own ==> p != 0 && p in mem && |mem[p].w| == 512
  }

  /** Valid entries of interior levels point to the table page of that position; entry x is excepted. */
  ghost predicate DownOk(mem: Memory, own: Owners, x: (nat, nat))
    requires Pages(mem, own)
  {
    forall p, i :: IsTable(own, p) && own[p].node.level > 0 && 0 <= i < 512 && (p, i) != x && IsValid(mem[p].w[i]) ==>
      PointsDown(own, p, i, mem[p].w[i])
  }

  ghost predicate PointsDown(own: Owners, p: nat, i: nat, e: nat)
    requires IsTable(own, p)
  {
    Pte2Pa(e) in own && own[Pte2Pa(e)] == Table(own[p].root, own[p].node.Child(i), p) && !IsLeaf(e)
  }

  /** Every table page below a root is pointed to by the entry of its parent. */
  ghost predicate UpOk(mem: Memory, own: Owners)
    requires Pages(mem, own) && TablesOk(own)
  {
    forall q :: IsTable(own, q) && own[q].node.level < 2 ==> PointedTo(mem, own, q)
  }

  ghost predicate PointedTo(mem: Memory, own: Owners, q: nat)
    requires Pages(mem, own) && IsTable(own, q) && own[q].node.Ok()
  {
    var o := own[q];
    && IsTable(own, o.parent)
    && own[o.parent].root == o.root && own[o.parent].node == o.node.Parent()
    && IsValid(mem[o.parent].w[o.node.Index()])
    && Pte2Pa(mem[o.parent].w[o.node.Index()]) == q
  }

  /** Valid entries of the lowest level are leaves, and own the page they map unless special. */
  ghost predicate LeavesDown(mem: Memory, own: Owners)
    requires Pages(mem, own)
  {
    forall t, c :: IsTable(own, t) && own[t].node.level == 0 && 0 <= c < 512 && IsValid(mem[t].w[c]) ==>
      MapsPage(own, t, c, mem[t].w[c])
  }

  ghost predicate MapsPage(own: Owners, t: nat, c: nat, e: nat)
    requires IsTable(own, t)
  {
    var s := Slot(own[t].node.a, own[t].node.b, c);
    && IsLeaf(e)
    && (!s.Special() ==> Pte2Pa(e) in own && own[Pte2Pa(e)] == Leaf(own[t].root, s, t))
  }

  /** Every page labelled as a leaf is mapped by the entry its label names. */
  ghost predicate LeavesUp(mem: Memory, own: Owners)
    requires Pages(mem, own)
  {
    forall q :: q in own && own[q].Leaf? ==> MappedBy(mem, own, q)
  }

  ghost predicate MappedBy(mem: Memory, own: Owners, q: nat)
    requires Pages(mem, own) && q in own && own[q].Leaf?
  {
    var o := own[q];
    && o.slot.Ok() && !o.slot.Special()
    && IsTable(own, o.table) && own[o.table].root == o.root && own[o.table].node == Node(0, o.slot.a, o.slot.b)
    && IsValid(mem[o.table].w[o.slot.c])
    && Pte2Pa(mem[o.table].w[o.slot.c]) == q
  }

  ghost predicate StructOk(mem: Memory, own: Owners, x: (nat, nat)) {
    && Pages(mem, own)
    && TablesOk(own)
    && DownOk(mem, own, x)
    && UpOk(mem, own)
    && LeavesDown(mem, own)
    && LeavesUp(mem, own)
  }

  /** The free list holds exactly the pages labelled free, each once. */
  ghost predicate FreeOk(free: seq<nat>, own: Owners) {
    && (forall i :: 0 <= i < |free| ==> free[i] in own && own[free[i]] == Free)
    && (forall i, j :: 0 <= i < j < |free| ==> free[i] != free[j])
    && (forall p :: p in own && own[p] == Free ==> p in free)
  }

  lemma FreePop(free: seq<nat>, own: Owners, o: Owner)
    requires FreeOk(free, own) && free != [] && !o.Free?
    ensures FreeOk(free[1..], own[free[0] := o])
  {
    var own' := own[free[0] := o];
    forall p | p in own' && own'[p] == Free
      ensures p in free[1..]
    {
      assert p in free && p != free[0];
    }
  }

  lemma FreePush(free: seq<nat>, own: Owners, p: nat)
    requires FreeOk(free, own) && p in own && !own[p].Free?
    ensures FreeOk([p] + free, own[p := Free])
  {
    var own', free' := own[p := Free], [p] + free;
    assert forall i :: 0 <= i < |free| ==> free[i] != p;
    forall q | q in own' && own'[q] == Free
      ensures q in free'
    {
      if q != p {
        assert q in free;
      }
    }
  }

  lemma FreeRelabel(free: seq<nat>, own: Owners, p: nat, o: Owner)
    requires FreeOk(free, own) && p in own && !own[p].Free? && !o.Free?
    ensures FreeOk(free, own[p := o])
  {
  }

  // ----- Steps that keep it -----

  /** Both labellings have the same table pages, and the upper levels have the same contents. */
  ghost predicate SameTables(mem: Memory, own: Owners, mem': Memory, own': Owners)
    requires Pages(mem, own) && Pages(mem', own')
  {
    && (forall p :: p in own' && own'[p].Table? ==> p in own && own[p] == own'[p])
    && (forall p :: p in own && own[p].Table? ==> p in own' && own[p] == own'[p])
    && (forall p :: p in own && own[p].Table? && own[p].node.level > 0 ==> mem'[p] == mem[p])
  }

  lemma TablesFrame(mem: Memory, own: Owners, x: (nat, nat), mem': Memory, own': Owners)
    requires Pages(mem, own) && TablesOk(own) && DownOk(mem, own, x) && UpOk(mem, own)
    requires Pages(mem', own') && SameTables(mem, own, mem', own')
    ensures TablesOk(own') && DownOk(mem', own', x) && UpOk(mem', own')
  {
    forall q | IsTable(own', q) && own'[q].node.level < 2
      ensures PointedTo(mem', own', q)
    {
      assert PointedTo(mem, own, q);
    }
  }

  ghost predicate AllInvalid(pg: Page) {
    |pg.w| == 512 && forall i :: 0 <= i < 512 ==> !IsValid(pg.w[i])
  }

  lemma LeavesFrame(mem: Memory, own: Owners, mem': Memory, own': Owners)
    requires Pages(mem, own) && LeavesDown(mem, own) && LeavesUp(mem, own) && Pages(mem', own')
    requires forall q :: q in own' && own'[q].Leaf? ==> q in own && own[q] == own'[q]
    requires forall q :: q in own && own[q].Leaf? ==> q in own' && own'[q] == own[q]
    requires forall q :: q in own && own[q].Leaf? ==>
      && own[q].table in own && own[q].table in own'
      && own'[own[q].table] == own[own[q].table] && mem'[own[q].table] == mem[own[q].table]
    requires forall t :: t in own' && own'[t].Table? && own'[t].node.level == 0 ==>
      AllInvalid(mem'[t]) || (t in own && own[t] == own'[t] && mem'[t] == mem[t])
    ensures LeavesDown(mem', own') && LeavesUp(mem', own')
  {
    forall q | q in own' && own'[q].Leaf?
      ensures MappedBy(mem', own', q)
    {
      assert MappedBy(mem, own, q);
    }
  }

  /** Relabelling a plain page as another plain page, and changing its contents. */
  lemma RelabelPlain(mem: Memory, own: Owners, x: (nat, nat), p: nat, pg: Page, o: Owner)
    requires StructOk(mem, own, x) && p in own && Plain(own[p]) && Plain(o) && |pg.w| == 512
    ensures StructOk(mem[p := pg], own[p := o], x)
  {
    RelabelTables(mem, own, x, p, pg, o);
    RelabelLeaves(mem, own, p, pg, o);
  }

  lemma RelabelTables(mem: Memory, own: Owners, x: (nat, nat), p: nat, pg: Page, o: Owner)
    requires Pages(mem, own) && TablesOk(own) && DownOk(mem, own, x) && UpOk(mem, own)
    requires p in own && Plain(own[p]) && Plain(o) && |pg.w| == 512
    ensures Pages(mem[p := pg], own[p := o]) && TablesOk(own[p := o])
    ensures DownOk(mem[p := pg], own[p := o], x) && UpOk(mem[p := pg], own[p := o])
  {
    TablesFrame(mem, own, x, mem[p := pg], own[p := o]);
  }

  lemma RelabelLeaves(mem: Memory, own: Owners, p: nat, pg: Page, o: Owner)
    requires Pages(mem, own) && LeavesDown(mem, own) && LeavesUp(mem, own)
    requires p in own && Plain(own[p]) && Plain(o) && |pg.w| == 512
    ensures Pages(mem[p := pg], own[p := o])
    ensures LeavesDown(mem[p := pg], own[p := o]) && LeavesUp(mem[p := pg], own[p := o])
  {
  }

  /** The contents of a mapped page are nobody's concern here. */
  lemma WriteLeafPage(mem: Memory, own: Owners, x: (nat, nat), p: nat, pg: Page)
    requires StructOk(mem, own, x) && p in own && !own[p].Table? && |pg.w| == 512
    ensures StructOk(mem[p := pg], own, x)
  {
  }

  /** memset(page, 0, PGSIZE). */
  function Zeroes(): (pg: Page)
    ensures |pg.w| == 512 && forall i :: 0 <= i < 512 ==> pg.w[i] == 0
  {
    Page(seq(512, _ => 0))
  }

  function SetEntry(mem: Memory, p: nat, i: nat, e: nat): (m: Memory)
    requires p in mem && i < |mem[p].w|
  {
    mem[p := Page(mem[p].w[i := e])]
  }

  /** Page q becomes the table below entry i of table page p. */
  function WithTable(own: Owners, p: nat, i: nat, q: nat): (o: Owners)
    requires IsTable(own, p)
  {
    own[q := Table(own[p].root, own[p].node.Child(i), p)]
  }

  /** walk() may hang the zeroed page q below entry i of table page p with entry e. */
  ghost predicate CanAddTable(mem: Memory, own: Owners, p: nat, i: nat, q: nat, e: nat) {
    && Pages(mem, own) && TablesOk(own)
    && IsTable(own, p) && own[p].node.level > 0 && i < 512 && !IsValid(mem[p].w[i])
    && q in own && Plain(own[q]) && mem[q] == Zeroes()
    && IsValid(e) && Pte2Pa(e) == q && !IsLeaf(e)
  }

  lemma AddTableUp(mem: Memory, own: Owners, p: nat, i: nat, q: nat, e: nat)
    requires CanAddTable(mem, own, p, i, q, e) && UpOk(mem, own)
    ensures Pages(SetEntry(mem, p, i, e), WithTable(own, p, i, q)) && TablesOk(WithTable(own, p, i, q))
    ensures UpOk(SetEntry(mem, p, i, e), WithTable(own, p, i, q))
  {
    var mem', own' := SetEntry(mem, p, i, e), WithTable(own, p, i, q);
    forall u | IsTable(own', u) && own'[u].node.level < 2
      ensures PointedTo(mem', own', u)
    {
      if u != q {
        assert PointedTo(mem, own, u);
      }
    }
  }

  lemma AddTableDown(mem: Memory, own: Owners, p: nat, i: nat, q: nat, e: nat)
    requires CanAddTable(mem, own, p, i, q, e) && DownOk(mem, own, NOWHERE)
    ensures Pages(SetEntry(mem, p, i, e), WithTable(own, p, i, q))
    ensures DownOk(SetEntry(mem, p, i, e), WithTable(own, p, i, q), NOWHERE)
  {
    var mem' := SetEntry(mem, p, i, e);
    assert forall j :: 0 <= j < 512 ==> !IsValid(mem'[q].w[j]);
  }

  lemma AddTableLeaves(mem: Memory, own: Owners, p: nat, i: nat, q: nat, e: nat)
    requires CanAddTable(mem, own, p, i, q, e) && LeavesDown(mem, own) && LeavesUp(mem, own)
    ensures Pages(SetEntry(mem, p, i, e), WithTable(own, p, i, q))
    ensures LeavesDown(SetEntry(mem, p, i, e), WithTable(own, p, i, q))
    ensures LeavesUp(SetEntry(mem, p, i, e), WithTable(own, p, i, q))
  {
    var mem' := SetEntry(mem, p, i, e);
    assert forall j :: 0 <= j < 512 ==> !IsValid(mem'[q].w[j]);
  }

  lemma AddTable(mem: Memory, own: Owners, p: nat, i: nat, q: nat, e: nat)
    requires StructOk(mem, own, NOWHERE) && CanAddTable(mem, own, p, i, q, e)
    ensures StructOk(SetEntry(mem, p, i, e), WithTable(own, p, i, q), NOWHERE)
  {
    AddTableUp(mem, own, p, i, q, e);
    AddTableDown(mem, own, p, i, q, e);
    AddTableLeaves(mem, own, p, i, q, e);
  }

  /** Entry c of lowest-level page t. */
  function SlotOf(own: Owners, t: nat, c: nat): (s: Slot)
    requires IsTable(own, t)
  {
    Slot(own[t].node.a, own[t].node.b, c)
  }

  /** The labels once entry c of page t maps page q. */
  function WithLeaf(own: Owners, t: nat, c: nat, q: nat): (o: Owners)
    requires IsTable(own, t)
  {
    if SlotOf(own, t, c).Special() then own else own[q := Leaf(own[t].root, SlotOf(own, t, c), t)]
  }

  /** The labels once entry c of page t no longer maps page q. */
  function WithoutLeaf(own: Owners, t: nat, c: nat, q: nat): (o: Owners)
    requires IsTable(own, t)
  {
    if SlotOf(own, t, c).Special() then own else own[q := Held]
  }

  ghost predicate IsLow(own: Owners, t: nat, c: nat) {
    IsTable(own, t) && own[t].node.level == 0 && c < 512
  }

  lemma SetLeafTables(mem: Memory, own: Owners, t: nat, c: nat, e: nat)
    requires Pages(mem, own) && TablesOk(own) && DownOk(mem, own, NOWHERE) && UpOk(mem, own)
    requires IsLow(own, t, c)
    requires !SlotOf(own, t, c).Special() ==> Pte2Pa(e) in own && Plain(own[Pte2Pa(e)])
    ensures Pages(SetEntry(mem, t, c, e), WithLeaf(own, t, c, Pte2Pa(e))) && TablesOk(WithLeaf(own, t, c, Pte2Pa(e)))
    ensures DownOk(SetEntry(mem, t, c, e), WithLeaf(own, t, c, Pte2Pa(e)), NOWHERE)
    ensures UpOk(SetEntry(mem, t, c, e), WithLeaf(own, t, c, Pte2Pa(e)))
  {
    TablesFrame(mem, own, NOWHERE, SetEntry(mem, t, c, e), WithLeaf(own, t, c, Pte2Pa(e)));
  }

  lemma SetLeafLeaves(mem: Memory, own: Owners, t: nat, c: nat, e: nat)
    requires Pages(mem, own) && TablesOk(own) && LeavesDown(mem, own) && LeavesUp(mem, own)
    requires IsLow(own, t, c) && !IsValid(mem[t].w[c]) && IsValid(e) && IsLeaf(e)
    requires !SlotOf(own, t, c).Special() ==> Pte2Pa(e) in own && Plain(own[Pte2Pa(e)])
    ensures Pages(SetEntry(mem, t, c, e), WithLeaf(own, t, c, Pte2Pa(e)))
    ensures LeavesDown(SetEntry(mem, t, c, e), WithLeaf(own, t, c, Pte2Pa(e)))
    ensures LeavesUp(SetEntry(mem, t, c, e), WithLeaf(own, t, c, Pte2Pa(e)))
  {
  }

  /** mappages() stores a leaf entry where there was none. */
  lemma SetLeaf(mem: Memory, own: Owners, t: nat, c: nat, e: nat)
    requires StructOk(mem, own, NOWHERE) && IsLow(own, t, c)
    requires !IsValid(mem[t].w[c]) && IsValid(e) && IsLeaf(e)
    requires !SlotOf(own, t, c).Special() ==> Pte2Pa(e) in own && Plain(own[Pte2Pa(e)])
    ensures StructOk(SetEntry(mem, t, c, e), WithLeaf(own, t, c, Pte2Pa(e)), NOWHERE)
  {
    SetLeafTables(mem, own, t, c, e);
    SetLeafLeaves(mem, own, t, c, e);
  }

  lemma ClearLeafTables(mem: Memory, own: Owners, t: nat, c: nat)
    requires Pages(mem, own) && TablesOk(own) && DownOk(mem, own, NOWHERE) && UpOk(mem, own) && LeavesDown(mem, own)
    requires IsLow(own, t, c) && IsValid(mem[t].w[c])
    ensures Pages(SetEntry(mem, t, c, 0), WithoutLeaf(own, t, c, Pte2Pa(mem[t].w[c])))
    ensures TablesOk(WithoutLeaf(own, t, c, Pte2Pa(mem[t].w[c])))
    ensures DownOk(SetEntry(mem, t, c, 0), WithoutLeaf(own, t, c, Pte2Pa(mem[t].w[c])), NOWHERE)
    ensures UpOk(SetEntry(mem, t, c, 0), WithoutLeaf(own, t, c, Pte2Pa(mem[t].w[c])))
  {
    var e := mem[t].w[c];
    assert MapsPage(own, t, c, e);
    TablesFrame(mem, own, NOWHERE, SetEntry(mem, t, c, 0), WithoutLeaf(own, t, c, Pte2Pa(e)));
  }

  lemma ClearLeafLeaves(mem: Memory, own: Owners, t: nat, c: nat)
    requires Pages(mem, own) && TablesOk(own) && LeavesDown(mem, own) && LeavesUp(mem, own)
    requires IsLow(own, t, c) && IsValid(mem[t].w[c])
    ensures Pages(SetEntry(mem, t, c, 0), WithoutLeaf(own, t, c, Pte2Pa(mem[t].w[c])))
    ensures LeavesDown(SetEntry(mem, t, c, 0), WithoutLeaf(own, t, c, Pte2Pa(mem[t].w[c])))
    ensures LeavesUp(SetEntry(mem, t, c, 0), WithoutLeaf(own, t, c, Pte2Pa(mem[t].w[c])))
  {
  }

  /** uvmunmap() clears a leaf entry; the page it mapped is in the caller's hands. */
  lemma ClearLeaf(mem: Memory, own: Owners, t: nat, c: nat)
    requires StructOk(mem, own, NOWHERE) && IsLow(own, t, c) && IsValid(mem[t].w[c])
    ensures StructOk(SetEntry(mem, t, c, 0), WithoutLeaf(own, t, c, Pte2Pa(mem[t].w[c])), NOWHERE)
    ensures !SlotOf(own, t, c).Special() ==>
      Pte2Pa(mem[t].w[c]) in own && own[Pte2Pa(mem[t].w[c])] == Leaf(own[t].root, SlotOf(own, t, c), t)
  {
    ClearLeafTables(mem, own, t, c);
    ClearLeafLeaves(mem, own, t, c);
  }

  /** uvmclear() changes the flags of a leaf entry but not the page it maps. */
  lemma ChangeFlags(mem: Memory, own: Owners, t: nat, c: nat, e: nat)
    requires StructOk(mem, own, NOWHERE) && IsLow(own, t, c)
    requires IsValid(e) == IsValid(mem[t].w[c]) && Pte2Pa(e) == Pte2Pa(mem[t].w[c])
    requires IsValid(e) ==> IsLeaf(e)
    ensures StructOk(SetEntry(mem, t, c, e), own, NOWHERE)
  {
    TablesFrame(mem, own, NOWHERE, SetEntry(mem, t, c, e), own);
    ChangeFlagsLeaves(mem, own, t, c, e);
  }

  lemma ChangeFlagsLeaves(mem: Memory, own: Owners, t: nat, c: nat, e: nat)
    requires Pages(mem, own) && TablesOk(own) && LeavesDown(mem, own) && LeavesUp(mem, own) && IsLow(own, t, c)
    requires IsValid(e) == IsValid(mem[t].w[c]) && Pte2Pa(e) == Pte2Pa(mem[t].w[c])
    requires IsValid(e) ==> IsLeaf(e)
    ensures Pages(SetEntry(mem, t, c, e), own)
    ensures LeavesDown(SetEntry(mem, t, c, e), own) && LeavesUp(SetEntry(mem, t, c, e), own)
  {
    var mem' := SetEntry(mem, t, c, e);
    forall q | q in own && own[q].Leaf?
      ensures MappedBy(mem', own, q)
    {
      assert MappedBy(mem, own, q);
    }
  }

  /** A table page without valid entries has nothing below it. */
  lemma NothingBelow(mem: Memory, own: Owners, x: (nat, nat), p: nat)
    requires StructOk(mem, own, x) && IsTable(own, p) && AllInvalid(mem[p])
    ensures forall q :: IsTable(own, q) && own[q].node.level < 2 ==> own[q].parent != p
    ensures forall q :: q in own && own[q].Leaf? ==> own[q].table != p
  {
    forall q | IsTable(own, q) && own[q].node.level < 2
      ensures own[q].parent != p
    {
      assert PointedTo(mem, own, q);
    }
    forall q | q in own && own[q].Leaf?
      ensures own[q].table != p
    {
      assert MappedBy(mem, own, q);
    }
  }

  /** A root without valid entries is the only page of its table. */
  lemma NothingUnderRoot(mem: Memory, own: Owners, x: (nat, nat), r: nat)
    requires StructOk(mem, own, x) && IsRoot(own, r) && AllInvalid(mem[r])
    ensures forall q :: IsTable(own, q) && own[q].root == r ==> q == r
    ensures forall q :: q in own && own[q].Leaf? ==> own[q].root != r
  {
    NothingBelow(mem, own, x, r);
    forall q | IsTable(own, q) && own[q].root == r
      ensures q == r
    {
      assert own[q].node.level < 2 ==> PointedTo(mem, own, q);
    }
    forall q | q in own && own[q].Leaf?
      ensures own[q].root != r
    {
      assert MappedBy(mem, own, q);
    }
  }

  /** The entry that points to a table page below a root. */
  function ParentEntry(own: Owners, q: nat): (x: (nat, nat))
    requires IsTable(own, q)
  {
    (own[q].parent, own[q].node.Index())
  }

  lemma DropTableTables(mem: Memory, own: Owners, q: nat)
    requires StructOk(mem, own, NOWHERE) && IsTable(own, q) && own[q].node.level < 2 && AllInvalid(mem[q])
    ensures TablesOk(own[q := Held]) && Pages(mem, own[q := Held])
    ensures DownOk(mem, own[q := Held], ParentEntry(own, q)) && UpOk(mem, own[q := Held])
  {
    var own' := own[q := Held];
    NothingBelow(mem, own, NOWHERE, q);
    assert PointedTo(mem, own, q);
    forall u | IsTable(own', u) && own'[u].node.level < 2
      ensures PointedTo(mem, own', u)
    {
      assert PointedTo(mem, own, u);
    }
    forall p, i | IsTable(own', p) && own'[p].node.level > 0 && 0 <= i < 512
                  && (p, i) != ParentEntry(own, q) && IsValid(mem[p].w[i])
      ensures PointsDown(own', p, i, mem[p].w[i])
    {
      assert PointsDown(own, p, i, mem[p].w[i]);
      if Pte2Pa(mem[p].w[i]) == q {
        OneParent(own[p].node, i, own[q].node);
      }
    }
  }

  /** A position has one parent entry. */
  lemma OneParent(n: Node, i: nat, m: Node)
    requires n.Ok() && n.level > 0 && m == n.Child(i)
    ensures m.Index() == i && m.Parent() == n
  {
  }

  /** freewalk() returns a table page that has nothing below it; its parent's entry dangles. */
  lemma DropTable(mem: Memory, own: Owners, q: nat)
    requires StructOk(mem, own, NOWHERE) && IsTable(own, q) && own[q].node.level < 2 && AllInvalid(mem[q])
    ensures StructOk(mem, own[q := Held], ParentEntry(own, q))
  {
    var own' := own[q := Held];
    DropTableTables(mem, own, q);
    NothingBelow(mem, own, NOWHERE, q);
    forall u | u in own' && own'[u].Leaf?
      ensures MappedBy(mem, own', u)
    {
      assert MappedBy(mem, own, u);
    }
    forall t, c | IsTable(own', t) && own'[t].node.level == 0 && 0 <= c < 512 && IsValid(mem[t].w[c])
      ensures MapsPage(own', t, c, mem[t].w[c])
    {
      assert MapsPage(own, t, c, mem[t].w[c]);
    }
  }

  /** Clearing the dangling entry restores the invariant. */
  lemma ClearDangling(mem: Memory, own: Owners, p: nat, i: nat)
    requires StructOk(mem, own, (p, i)) && IsTable(own, p) && own[p].node.level > 0 && i < 512
    requires forall q :: IsTable(own, q) && own[q].node.level < 2 ==> (own[q].parent, own[q].node.Index()) != (p, i)
    ensures StructOk(SetEntry(mem, p, i, 0), own, NOWHERE)
  {
    var mem' := SetEntry(mem, p, i, 0);
    forall u | IsTable(own, u) && own[u].node.level < 2
      ensures PointedTo(mem', own, u)
    {
      assert PointedTo(mem, own, u);
    }
    forall u | u in own && own[u].Leaf?
      ensures MappedBy(mem', own, u)
    {
      assert MappedBy(mem, own, u);
    }
  }

  /** A root that has nothing below it can be returned. */
  lemma DropRoot(mem: Memory, own: Owners, r: nat)
    requires StructOk(mem, own, NOWHERE) && IsRoot(own, r) && AllInvalid(mem[r])
    ensures StructOk(mem, own[r := Held], NOWHERE)
  {
    NothingUnderRoot(mem, own, NOWHERE, r);
    DropRootLeaves(mem, own, r);
    var own' := own[r := Held];
    forall u | IsTable(own', u) && own'[u].node.level < 2
      ensures PointedTo(mem, own', u)
    {
      assert PointedTo(mem, own, u);
    }
  }

  lemma DropRootLeaves(mem: Memory, own: Owners, r: nat)
    requires Pages(mem, own) && LeavesDown(mem, own) && LeavesUp(mem, own) && IsRoot(own, r)
    ensures Pages(mem, own[r := Held]) && LeavesDown(mem, own[r := Held]) && LeavesUp(mem, own[r := Held])
  {
    forall q | q in own && own[q].Leaf?
      ensures own[q].table != r && own[q].table in own
    {
      assert MappedBy(mem, own, q);
    }
    LeavesFrame(mem, own, mem, own[r := Held]);
  }

  /** uvmcreate(): a zeroed page becomes the root of an empty table. */
  lemma NewRoot(mem: Memory, own: Owners, r: nat)
    requires StructOk(mem, own, NOWHERE) && r in own && Plain(own[r]) && mem[r] == Zeroes()
    ensures StructOk(mem, own[r := Table(r, ROOT, 0)], NOWHERE)
  {
    var own' := own[r := Table(r, ROOT, 0)];
    NewRootLeaves(mem, own, r);
    assert AllInvalid(mem[r]);
    forall u | IsTable(own', u) && own'[u].node.level < 2
      ensures PointedTo(mem, own', u)
    {
      assert PointedTo(mem, own, u);
    }
  }

  lemma NewRootLeaves(mem: Memory, own: Owners, r: nat)
    requires Pages(mem, own) && LeavesDown(mem, own) && LeavesUp(mem, own) && r in own && Plain(own[r])
    ensures Pages(mem, own[r := Table(r, ROOT, 0)])
    ensures LeavesDown(mem, own[r := Table(r, ROOT, 0)]) && LeavesUp(mem, own[r := Table(r, ROOT, 0)])
  {
    forall q | q in own && own[q].Leaf?
      ensures own[q].table != r && own[q].table in own
    {
      assert MappedBy(mem, own, q);
    }
    LeavesFrame(mem, own, mem, own[r := Table(r, ROOT, 0)]);
  }
}
