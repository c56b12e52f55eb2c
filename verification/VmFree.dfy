/**
 freewalk(): what lies under a page of a page table, and how the labels change
 while the pages under it are returned one by one.
 */
module VmFree {
  import opened Sv39
  import opened PageOwner
  import opened PageMap
  import opened VmSteps

  /** q is the table page p or lies under it. */
  predicate Under(own: Owners, p: nat, q: nat)
    requires IsTable(own, p)
  {
    && IsTable(own, q) && own[q].root == own[p].root
    && own[q].node.level <= own[p].node.level
    && (own[p].node.level < 2 ==> own[q].node.a == own[p].node.a)
    && (own[p].node.level == 0 ==> own[q].node.b == own[p].node.b)
  }

  /** For q strictly under p: the index of the entry of p that leads to q. */
  function Branch(own: Owners, p: nat, q: nat): (i: nat)
    requires IsTable(own, p) && IsTable(own, q)
  {
    if own[p].node.level == 2 then own[q].node.a else own[q].node.b
  }

  /** No entry under p maps a page. */
  ghost predicate NoLeaves(mem: Memory, own: Owners, p: nat)
    requires Pages(mem, own) && IsTable(own, p)
  {
    forall t, c :: IsTable(own, t) && Under(own, p, t) && own[t].node.level == 0 && 0 <= c < 512 ==>
      !IsValid(mem[t].w[c])
  }

  /** A position of a table is held by one page. */
  lemma NodeUnique(mem: Memory, own: Owners, p: nat, q: nat)
    requires StructOk(mem, own, NOWHERE) && IsTable(own, p) && IsTable(own, q)
    requires own[p].root == own[q].root && own[p].node == own[q].node
    ensures p == q
  {
    if own[p].node.level == 1 {
      MidOf(mem, own, p);
      MidOf(mem, own, q);
    } else if own[p].node.level == 0 {
      LowOf(mem, own, p, Slot(own[p].node.a, own[p].node.b, 0));
      LowOf(mem, own, q, Slot(own[p].node.a, own[p].node.b, 0));
    }
  }

  /** What freewalk(p) has done before it looks at entry i. */
  ghost predicate FreedBelow(p: nat, i: nat, own0: Owners, mem0: Memory, own: Owners, mem: Memory)
    requires Pages(mem0, own0) && Pages(mem, own) && IsTable(own0, p) && i <= 512
  {
    && own.Keys == own0.Keys
    && own[p] == own0[p]
    && (forall q :: q in own0 && q != p ==>
          own[q] == if IsTable(own0, q) && Under(own0, p, q) && Branch(own0, p, q) < i then Free else own0[q])
    && (forall q :: q in own0 && q != p && own[q] == own0[q] ==> mem[q] == mem0[q] || own0[q].Free?)
    && (forall j :: 0 <= j < i ==> !IsValid(mem[p].w[j]))
    && (forall j :: i <= j < 512 ==> mem[p].w[j] == mem0[p].w[j])
  }

  /** Entry c of t lies in the first i branches of p. */
  predicate Visited(own: Owners, p: nat, i: nat, t: nat, c: nat)
    requires IsTable(own, p) && IsTable(own, t)
  {
    if t == p then c < i else Branch(own, p, t) < i
  }

  /** No entry in the first i branches of p maps a page. */
  ghost predicate NoLeavesBelow(mem: Memory, own: Owners, p: nat, i: nat)
    requires Pages(mem, own) && IsTable(own, p)
  {
    forall t, c ::
      IsTable(own, t) && Under(own, p, t) && own[t].node.level == 0 && 0 <= c < 512 && Visited(own, p, i, t, c) ==>
      !IsValid(mem[t].w[c])
  }

  lemma NoLeavesBelowAll(mem: Memory, own: Owners, p: nat)
    requires Pages(mem, own) && TablesOk(own) && IsTable(own, p) && NoLeavesBelow(mem, own, p, 512)
    ensures NoLeaves(mem, own, p)
  {
  }

  /** What freewalk(p) has done when it returns. */
  ghost predicate Freed(p: nat, own0: Owners, mem0: Memory, own: Owners, mem: Memory)
    requires Pages(mem0, own0) && Pages(mem, own) && IsTable(own0, p)
  {
    && own.Keys == own0.Keys
    && (forall q :: q in own0 ==> own[q] == if IsTable(own0, q) && Under(own0, p, q) then Free else own0[q])
    && (forall q :: q in own0 && own[q] == own0[q] ==> mem[q] == mem0[q] || own0[q].Free?)
  }

  /** A lowest-level or childless page: nothing else lies under it. */
  lemma OnlyItself(mem: Memory, own: Owners, p: nat, q: nat)
    requires StructOk(mem, own, NOWHERE) && IsTable(own, p) && Under(own, p, q)
    requires own[q].node.level == own[p].node.level
    ensures p == q
  {
    NodeUnique(mem, own, p, q);
  }

  /** What is freed once the branch of a child is, for one page. */
  lemma BranchLabel(p: nat, i: nat, child: nat, own0: Owners, mem0: Memory, own1: Owners, mem1: Memory, own2: Owners,
                    mem2: Memory, q: nat)
    requires StructOk(mem0, own0, NOWHERE) && Pages(mem1, own1) && Pages(mem2, own2)
    requires IsTable(own0, p) && own0[p].node.level > 0 && i < 512
    requires FreedBelow(p, i, own0, mem0, own1, mem1)
    requires child in own0 && own0[child] == Table(own0[p].root, own0[p].node.Child(i), p) && own1[child] == own0[child]
    requires Freed(child, own1, mem1, own2, mem2) && q in own0 && q != p
    ensures own2[q] == if IsTable(own0, q) && Under(own0, p, q) && Branch(own0, p, q) < i + 1 then Free else own0[q]
  {
    if IsTable(own0, q) && Under(own0, p, q) && own0[q].node.level == own0[p].node.level {
      OnlyItself(mem0, own0, p, q);
    }
  }

  /** The pages that keep their labels keep their contents, but for entry i of p. */
  lemma {:induction false} BranchPages(p: nat, i: nat, child: nat, own0: Owners, mem0: Memory, own1: Owners,
                                       mem1: Memory, own2: Owners, mem2: Memory)
    requires Pages(mem0, own0) && Pages(mem1, own1) && Pages(mem2, own2)
    requires IsTable(own0, p) && own0[p].node.level > 0 && i < 512
    requires FreedBelow(p, i, own0, mem0, own1, mem1)
    requires child in own0 && own0[child] == Table(own0[p].root, own0[p].node.Child(i), p) && own1[child] == own0[child]
    requires Freed(child, own1, mem1, own2, mem2)
    ensures own2.Keys == own0.Keys && own2[p] == own0[p]
    ensures forall q :: q in own0 && q != p && own2[q] == own0[q] ==> mem2[q] == mem0[q] || own0[q].Free?
    ensures forall j :: 0 <= j < i ==> !IsValid(mem2[p].w[j])
    ensures forall j :: i <= j < 512 ==> mem2[p].w[j] == mem0[p].w[j]
  {
    assert !Under(own1, child, p) && own2[p] == own1[p];
    forall q | q in own0 && q != p && own2[q] == own0[q]
      ensures mem2[q] == mem0[q] || own0[q].Free?
    {
      assert own1[q] == own0[q];
    }
  }

  /** Clearing entry i is all that is left to do. */
  lemma {:induction false} BranchCleared(p: nat, i: nat, own0: Owners, mem0: Memory, own: Owners, mem: Memory)
    requires Pages(mem0, own0) && Pages(mem, own) && IsTable(own0, p) && i < 512
    requires own.Keys == own0.Keys && own[p] == own0[p]
    requires forall q :: q in own0 && q != p ==>
      own[q] == if IsTable(own0, q) && Under(own0, p, q) && Branch(own0, p, q) < i + 1 then Free else own0[q]
    requires forall q :: q in own0 && q != p && own[q] == own0[q] ==> mem[q] == mem0[q] || own0[q].Free?
    requires forall j :: 0 <= j < i ==> !IsValid(mem[p].w[j])
    requires forall j :: i <= j < 512 ==> mem[p].w[j] == mem0[p].w[j]
    ensures FreedBelow(p, i + 1, own0, mem0, own, SetEntry(mem, p, i, 0))
  {
    hide Under, Branch;
  }

  /** What is freed once the branch of a child is. */
  lemma {:induction false} BranchLabels(p: nat, i: nat, child: nat, own0: Owners, mem0: Memory, own1: Owners,
                                        mem1: Memory, own2: Owners, mem2: Memory)
    requires StructOk(mem0, own0, NOWHERE) && Pages(mem1, own1) && Pages(mem2, own2)
    requires IsTable(own0, p) && own0[p].node.level > 0 && i < 512
    requires FreedBelow(p, i, own0, mem0, own1, mem1)
    requires child in own0 && own0[child] == Table(own0[p].root, own0[p].node.Child(i), p) && own1[child] == own0[child]
    requires Freed(child, own1, mem1, own2, mem2)
    ensures own2.Keys == own0.Keys
    ensures forall q :: q in own0 && q != p ==>
      own2[q] == if IsTable(own0, q) && Under(own0, p, q) && Branch(own0, p, q) < i + 1 then Free else own0[q]
  {
    forall q | q in own0 && q != p
      ensures own2[q] == if IsTable(own0, q) && Under(own0, p, q) && Branch(own0, p, q) < i + 1 then Free else own0[q]
    {
      hide StructOk, FreedBelow, Freed, Under, Branch;
      BranchLabel(p, i, child, own0, mem0, own1, mem1, own2, mem2, q);
    }
  }

  /** An entry without a table below it: nothing lies in that branch. */
  lemma BranchEmpty(p: nat, i: nat, own0: Owners, mem0: Memory, own1: Owners, mem1: Memory)
    requires StructOk(mem0, own0, NOWHERE) && StructOk(mem1, own1, NOWHERE)
    requires IsTable(own0, p) && i < 512
    requires FreedBelow(p, i, own0, mem0, own1, mem1) && !IsValid(mem1[p].w[i])
    ensures FreedBelow(p, i + 1, own0, mem0, own1, mem1)
  {
    forall q | q in own0 && q != p
      ensures own1[q] == if IsTable(own0, q) && Under(own0, p, q) && Branch(own0, p, q) < i + 1 then Free else own0[q]
    {
      if IsTable(own0, q) && Under(own0, p, q) && Branch(own0, p, q) == i {
        NotInBranch(mem0, own0, p, i, q);
      }
    }
  }

  lemma NotInBranch(mem: Memory, own: Owners, p: nat, i: nat, q: nat)
    requires StructOk(mem, own, NOWHERE) && IsTable(own, p) && i < 512 && !IsValid(mem[p].w[i])
    requires q != p && Under(own, p, q)
    ensures Branch(own, p, q) != i
  {
    if own[q].node.level == own[p].node.level {
      OnlyItself(mem, own, p, q);
      assert false;
    }
    assert PointedTo(mem, own, q);
    var m := own[q].parent;
    if own[m].node.level == own[p].node.level {
      NodeUnique(mem, own, m, p);
    } else {
      assert PointedTo(mem, own, m);
      NodeUnique(mem, own, own[m].parent, p);
    }
  }

  /** A valid entry that is no leaf belongs to an upper level and points to a child. */
  lemma IsBranch(mem: Memory, own: Owners, p: nat, i: nat)
    requires StructOk(mem, own, NOWHERE) && IsTable(own, p) && i < 512 && IsValid(mem[p].w[i])
    ensures IsLeaf(mem[p].w[i]) <==> own[p].node.level == 0
    ensures own[p].node.level > 0 ==> PointsDown(own, p, i, mem[p].w[i])
  {
    if own[p].node.level == 0 {
      assert MapsPage(own, p, i, mem[p].w[i]);
    } else {
      assert PointsDown(own, p, i, mem[p].w[i]);
    }
  }

  lemma {:induction false} NoLeafAt(p: nat, i: nat, child: nat, own0: Owners, mem0: Memory, own1: Owners, mem1: Memory,
                                    t: nat, c: nat)
    requires Pages(mem0, own0) && Pages(mem1, own1) && IsTable(own0, p) && own0[p].node.level > 0 && i < 512
    requires FreedBelow(p, i, own0, mem0, own1, mem1)
    requires child in own1 && own1[child] == Table(own0[p].root, own0[p].node.Child(i), p) && NoLeaves(mem0, own0, p)
    requires IsTable(own1, t) && Under(own1, child, t) && own1[t].node.level == 0 && c < 512
    ensures !IsValid(mem1[t].w[c])
  {
    assert Under(own0, p, t);
  }

  lemma {:induction false} NoLeavesInBranch(p: nat, i: nat, child: nat, own0: Owners, mem0: Memory, own1: Owners,
                                            mem1: Memory)
    requires StructOk(mem0, own0, NOWHERE) && StructOk(mem1, own1, NOWHERE)
    requires IsTable(own0, p) && own0[p].node.level > 0 && i < 512
    requires FreedBelow(p, i, own0, mem0, own1, mem1)
    requires child in own1 && own1[child] == Table(own0[p].root, own0[p].node.Child(i), p)
    requires NoLeaves(mem0, own0, p)
    ensures NoLeaves(mem1, own1, child)
  {
    forall t, c | IsTable(own1, t) && Under(own1, child, t) && own1[t].node.level == 0 && 0 <= c < 512
      ensures !IsValid(mem1[t].w[c])
    {
      hide StructOk, FreedBelow, NoLeaves, Under, IsTable;
      NoLeafAt(p, i, child, own0, mem0, own1, mem1, t, c);
    }
  }

  /** Once the child is gone, no table page names entry i of p as its parent's. */
  lemma NoOtherChild(mem: Memory, own: Owners, p: nat, i: nat)
    requires StructOk(mem, own, (p, i)) && IsTable(own, p) && i < 512 && !IsTable(own, Pte2Pa(mem[p].w[i]))
    ensures forall q :: IsTable(own, q) && own[q].node.level < 2 ==> (own[q].parent, own[q].node.Index()) != (p, i)
  {
    forall q | IsTable(own, q) && own[q].node.level < 2
      ensures (own[q].parent, own[q].node.Index()) != (p, i)
    {
      assert PointedTo(mem, own, q);
    }
  }

  /** What freewalk() needs to know before it looks at entry i of p. */
  lemma BranchBegins(p: nat, i: nat, own0: Owners, mem0: Memory, own1: Owners, mem1: Memory)
    requires StructOk(mem0, own0, NOWHERE) && StructOk(mem1, own1, NOWHERE) && IsTable(own0, p) && i < 512
    requires FreedBelow(p, i, own0, mem0, own1, mem1)
    ensures own1[p] == own0[p]
    ensures IsValid(mem1[p].w[i]) && !IsLeaf(mem1[p].w[i]) ==>
      && IsTable(own1, Pte2Pa(mem1[p].w[i])) && 0 <= own1[Pte2Pa(mem1[p].w[i])].node.level < own0[p].node.level
      && (NoLeaves(mem0, own0, p) ==> NoLeaves(mem1, own1, Pte2Pa(mem1[p].w[i])))
    ensures IsValid(mem1[p].w[i]) && IsLeaf(mem1[p].w[i]) ==> !NoLeaves(mem0, own0, p)
  {
    if IsValid(mem1[p].w[i]) {
      IsBranch(mem1, own1, p, i);
      if IsLeaf(mem1[p].w[i]) {
        assert Under(own0, p, p);
      } else if NoLeaves(mem0, own0, p) {
        NoLeavesInBranch(p, i, Pte2Pa(mem1[p].w[i]), own0, mem0, own1, mem1);
      }
    }
  }

  /** Where the entry of a child's parent dangles once freewalk() has returned the child. */
  function Above(own: Owners, p: nat): (x: (nat, nat))
    requires IsTable(own, p)
  {
    if own[p].node.level == 2 then NOWHERE else ParentEntry(own, p)
  }

  /** What freewalk() has after it returned from the child at entry i of p and cleared the entry. */
  lemma BranchEnds(p: nat, i: nat, own0: Owners, mem0: Memory, own1: Owners, mem1: Memory, own2: Owners, mem2: Memory)
    requires StructOk(mem0, own0, NOWHERE) && StructOk(mem1, own1, NOWHERE) && IsTable(own0, p) && i < 512
    requires FreedBelow(p, i, own0, mem0, own1, mem1)
    requires IsValid(mem1[p].w[i]) && !IsLeaf(mem1[p].w[i]) && IsTable(own1, Pte2Pa(mem1[p].w[i]))
    requires StructOk(mem2, own2, Above(own1, Pte2Pa(mem1[p].w[i])))
    requires Freed(Pte2Pa(mem1[p].w[i]), own1, mem1, own2, mem2)
    ensures IsTable(own2, p)
    ensures StructOk(SetEntry(mem2, p, i, 0), own2, NOWHERE)
    ensures FreedBelow(p, i + 1, own0, mem0, own2, SetEntry(mem2, p, i, 0))
  {
    var child := Pte2Pa(mem1[p].w[i]);
    IsBranch(mem1, own1, p, i);
    BranchLabels(p, i, child, own0, mem0, own1, mem1, own2, mem2);
    BranchPages(p, i, child, own0, mem0, own1, mem1, own2, mem2);
    BranchCleared(p, i, own0, mem0, own2, mem2);
    OneParent(own0[p].node, i, own0[p].node.Child(i));
    assert Above(own1, child) == (p, i);
    assert mem2[p] == mem1[p];
    assert !IsTable(own2, child) by {
      assert Under(own1, child, child);
    }
    NoOtherChild(mem2, own2, p, i);
    ClearDangling(mem2, own2, p, i);
  }

  /** An empty table page can be taken out of its tree. */
  lemma Detach(end: nat, free: seq<nat>, mem: Memory, own: Owners, p: nat)
    requires AllAllocatable(end, own) && FreeOk(free, own) && StructOk(mem, own, NOWHERE)
    requires IsTable(own, p) && AllInvalid(mem[p])
    ensures AllAllocatable(end, own[p := Held]) && FreeOk(free, own[p := Held])
    ensures StructOk(mem, own[p := Held], Above(own, p))
    ensures own[p := Held][p := Free] == own[p := Free]
  {
    FreeRelabel(free, own, p, Held);
    if own[p].node.level == 2 {
      DropRoot(mem, own, p);
    } else {
      DropTable(mem, own, p);
    }
  }

  lemma NoLeavesNext(p: nat, i: nat, own0: Owners, mem0: Memory, own1: Owners, mem1: Memory)
    requires StructOk(mem0, own0, NOWHERE) && StructOk(mem1, own1, NOWHERE) && IsTable(own0, p) && i < 512
    requires FreedBelow(p, i, own0, mem0, own1, mem1) && NoLeavesBelow(mem0, own0, p, i)
    requires IsValid(mem1[p].w[i]) ==>
      !IsLeaf(mem1[p].w[i]) && IsTable(own1, Pte2Pa(mem1[p].w[i])) && NoLeaves(mem1, own1, Pte2Pa(mem1[p].w[i]))
    ensures NoLeavesBelow(mem0, own0, p, i + 1)
  {
    forall t, c | IsTable(own0, t) && Under(own0, p, t) && own0[t].node.level == 0 && 0 <= c < 512
                  && Visited(own0, p, i + 1, t, c)
      ensures !IsValid(mem0[t].w[c])
    {
      if IsValid(mem1[p].w[i]) {
        IsBranch(mem1, own1, p, i);
        if t != p && Branch(own0, p, t) == i {
          assert Under(own1, Pte2Pa(mem1[p].w[i]), t) by {
            if own0[t].node.level == own0[p].node.level {
              OnlyItself(mem0, own0, p, t);
            }
          }
        }
      } else if t != p && Branch(own0, p, t) == i {
        NotInBranch(mem0, own0, p, i, t);
      }
    }
  }

  /** The last step: p itself. */
  lemma AllFreed(p: nat, own0: Owners, mem0: Memory, own: Owners, mem: Memory, pg: Page)
    requires Pages(mem0, own0) && TablesOk(own0) && Pages(mem, own) && IsTable(own0, p) && |pg.w| == 512
    requires FreedBelow(p, 512, own0, mem0, own, mem)
    ensures Pages(mem[p := pg], own[p := Free]) && Freed(p, own0, mem0, own[p := Free], mem[p := pg])
  {
    assert own[p := Free].Keys == own.Keys;
  }
}
