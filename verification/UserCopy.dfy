/**
 Copying between the kernel and a user address space: copyout, copyin and
 copyinstr of kernel/vm.c, stated on the bytes the process sees.
 */
module UserCopy {
  import opened Sv39
  import opened PageOwner
  import opened PageMap
  import opened VmSteps
  import opened VmFill
  import opened Vm
  import opened ByteWords
  import opened Bytes

  /** The page is mapped and user code may access it: what walkaddr() asks. */
  predicate UserMapped(mem: Memory, root: nat, s: Slot) {
    Flat(mem, root, s) != 0 && Has(Flat(mem, root, s), PTE_U)
  }

  /** Trampoline and trapframe are mapped without PTE_U. */
  ghost predicate NoUserSpecials(mem: Memory, root: nat) {
    forall s: Slot :: s.Ok() && s.Special() ==> !UserMapped(mem, root, s)
  }

  function UserPa(mem: Memory, root: nat, s: Slot): (pa: nat) {
    Pte2Pa(Flat(mem, root, s))
  }

  /** Byte j of page s as the process sees it. */
  function UserByte(mem: Memory, root: nat, s: Slot, j: nat): (b: byte)
    requires j < 4096
  {
    var pa := UserPa(mem, root, s);
    if pa in mem && |mem[pa].w| == 512 then PageByte(mem[pa], j) else 0
  }

  function Addr(s: Slot, j: nat): (va: nat) {
    PageOf(s) * 4096 + j
  }

  ghost predicate PageUser(mem: Memory, root: nat, v: nat) {
    exists s: Slot :: s.Ok() && PageOf(s) == v && v < MAXPAGE && UserMapped(mem, root, s)
  }

  /** Page v overlaps the len bytes from lo. */
  predicate Touches(lo: nat, len: nat, v: nat) {
    len > 0 && v * 4096 < lo + len && lo < (v + 1) * 4096
  }

  /** Every page of the range is mapped for the user. */
  ghost predicate AllUser(mem: Memory, root: nat, lo: nat, len: nat) {
    forall v :: Touches(lo, len, v) ==> PageUser(mem, root, v)
  }

  /** A mapped user page is a page of its own, with this label. */
  lemma UserIsLeaf(mem: Memory, own: Owners, root: nat, s: Slot)
    requires StructOk(mem, own, NOWHERE) && IsRoot(own, root) && s.Ok() && NoUserSpecials(mem, root)
    requires UserMapped(mem, root, s)
    ensures UserPa(mem, root, s) in own && own[UserPa(mem, root, s)] == Leaf(root, s, LowTable(mem, root, s))
    ensures UserPa(mem, root, s) != 0 && UserPa(mem, root, s) in mem && |mem[UserPa(mem, root, s)].w| == 512
  {
    MappedIsLeaf(mem, own, root, s);
  }

  /**
   The physical page of a user address, or 0. s is the slot of the page.
   */
  method Walkaddr(m: Machine, root: nat, va: nat, ghost v: nat) returns (pa: nat, ghost s: Slot)
    requires m.Valid() && IsRoot(m.own, root) && NoUserSpecials(m.mem, root) && va == v * 4096
    modifies m
    ensures m.mem == old(m.mem) && m.own == old(m.own) && m.freelist == old(m.freelist)
    ensures pa != 0 ==> s.Ok() && PageOf(s) == v < MAXPAGE && UserMapped(m.mem, root, s) && pa == UserPa(m.mem, root, s)
    ensures pa == 0 ==> !PageUser(m.mem, root, v)
  {
    s := Slot(0, 0, 0);
    PageBase(v);
    if va >= MAXVA {
      return 0, s;
    }
    var w;
    w, s := m.Walk(root, va, false);
    OnlySlot(m.mem, root, s);
    if w.Missing? {
      return 0, s;
    }
    var pte := m.mem[w.page].w[w.index];
    if !IsValid(pte) {
      return 0, s;
    }
    if !Has(pte, PTE_U) {
      return 0, s;
    }
    UserIsLeaf(m.mem, m.own, root, s);
    pa := Pte2Pa(pte);
  }

  lemma OnlySlot(mem: Memory, root: nat, s: Slot)
    requires s.Ok()
    ensures PageUser(mem, root, PageOf(s)) ==> UserMapped(mem, root, s)
  {
    if PageUser(mem, root, PageOf(s)) {
      var u: Slot :| u.Ok() && PageOf(u) == PageOf(s) && UserMapped(mem, root, u);
      PageOfInjective(u, s);
    }
  }

  // ----- Writing -----

  /**
   The process at root now sees bs at address lo, and everything else as before.
   No mapping changed, and no page but those mapped by this table.
   */
  ghost predicate Wrote(root: nat, lo: nat, bs: seq<byte>, own: Owners, mem0: Memory, mem: Memory) {
    && SameFlat(own, mem0, mem)
    && (forall p :: p in own && !(own[p].Leaf? && own[p].root == root) ==> p in mem0 && p in mem && mem[p] == mem0[p])
    && (forall s: Slot, j :: s.Ok() && 0 <= j < 4096 && UserMapped(mem0, root, s) ==>
          UserByte(mem, root, s, j) ==
            if lo <= Addr(s, j) < lo + |bs| then bs[Addr(s, j) - lo] else UserByte(mem0, root, s, j))
  }

  lemma WroteTrans(root: nat, lo: nat, a: seq<byte>, b: seq<byte>, own: Owners, mem0: Memory, mem1: Memory,
                   mem2: Memory)
    requires IsRoot(own, root) && Wrote(root, lo, a, own, mem0, mem1) && Wrote(root, lo + |a|, b, own, mem1, mem2)
    ensures Wrote(root, lo, a + b, own, mem0, mem2)
  {
    SameFlatTrans(own, own, mem0, mem1, mem2);
    forall s: Slot, j | s.Ok() && 0 <= j < 4096 && UserMapped(mem0, root, s)
      ensures UserByte(mem2, root, s, j) ==
        if lo <= Addr(s, j) < lo + |a + b| then (a + b)[Addr(s, j) - lo] else UserByte(mem0, root, s, j)
    {
      hide Wrote, SameFlat, UserByte, UserMapped;
      WroteByteTrans(root, lo, a, b, own, mem0, mem1, mem2, s, j);
    }
    PagesTrans(root, lo, a, b, own, mem0, mem1, mem2);
  }

  lemma PagesTrans(root: nat, lo: nat, a: seq<byte>, b: seq<byte>, own: Owners, mem0: Memory, mem1: Memory,
                   mem2: Memory)
    requires Wrote(root, lo, a, own, mem0, mem1) && Wrote(root, lo + |a|, b, own, mem1, mem2)
    ensures forall p :: p in own && !(own[p].Leaf? && own[p].root == root) ==>
      p in mem0 && p in mem2 && mem2[p] == mem0[p]
  {
    hide UserByte, UserMapped, SameFlat, Addr;
  }

  /** The write at one byte of one page. */
  lemma {:induction false} WroteByte(root: nat, lo: nat, bs: seq<byte>, own: Owners, mem0: Memory, mem: Memory,
                                     s: Slot, j: nat)
    requires IsRoot(own, root) && Wrote(root, lo, bs, own, mem0, mem)
    requires s.Ok() && j < 4096 && UserMapped(mem0, root, s)
    ensures UserMapped(mem, root, s)
    ensures UserByte(mem, root, s, j) ==
      if lo <= Addr(s, j) < lo + |bs| then bs[Addr(s, j) - lo] else UserByte(mem0, root, s, j)
  {
    hide UserByte, Addr;
  }

  lemma {:induction false} WroteByteTrans(root: nat, lo: nat, a: seq<byte>, b: seq<byte>, own: Owners,
                                          mem0: Memory, mem1: Memory, mem2: Memory, s: Slot, j: nat)
    requires IsRoot(own, root) && Wrote(root, lo, a, own, mem0, mem1) && Wrote(root, lo + |a|, b, own, mem1, mem2)
    requires s.Ok() && j < 4096 && UserMapped(mem0, root, s)
    ensures UserByte(mem2, root, s, j) ==
      if lo <= Addr(s, j) < lo + |a + b| then (a + b)[Addr(s, j) - lo] else UserByte(mem0, root, s, j)
  {
    hide *;
    WroteByte(root, lo, a, own, mem0, mem1, s, j);
    WroteByte(root, lo + |a|, b, own, mem1, mem2, s, j);
  }

  /** Distinct user pages are distinct pages of memory. */
  lemma UserPagesDistinct(mem: Memory, own: Owners, root: nat, s: Slot, u: Slot)
    requires StructOk(mem, own, NOWHERE) && IsRoot(own, root) && s.Ok() && u.Ok() && s != u
    requires NoUserSpecials(mem, root) && UserMapped(mem, root, s) && UserMapped(mem, root, u)
    ensures UserPa(mem, root, s) != UserPa(mem, root, u) && PageOf(s) != PageOf(u)
  {
    UserIsLeaf(mem, own, root, s);
    UserIsLeaf(mem, own, root, u);
    if PageOf(u) == PageOf(s) {
      PageOfInjective(u, s);
    }
  }

  /** Memory after memmove() into one user page. */
  function ChunkWritten(mem: Memory, pa: nat, off: nat, bs: seq<byte>): (m: Memory)
    requires pa in mem && |mem[pa].w| == 512 && off + |bs| <= 4096
  {
    mem[pa := SetPageBytes(mem[pa], off, bs)]
  }

  lemma ChunkByte(root: nat, s: Slot, off: nat, bs: seq<byte>, own: Owners, mem: Memory, u: Slot, j: nat)
    requires StructOk(mem, own, NOWHERE) && IsRoot(own, root) && s.Ok() && NoUserSpecials(mem, root)
    requires UserMapped(mem, root, s)
    requires off + |bs| <= 4096 && u.Ok() && j < 4096 && UserMapped(mem, root, u)
    requires UserPa(mem, root, s) in mem && |mem[UserPa(mem, root, s)].w| == 512
    requires SameFlat(own, mem, ChunkWritten(mem, UserPa(mem, root, s), off, bs))
    ensures UserByte(ChunkWritten(mem, UserPa(mem, root, s), off, bs), root, u, j) ==
      if Addr(s, off) <= Addr(u, j) < Addr(s, off) + |bs| then bs[Addr(u, j) - Addr(s, off)]
      else UserByte(mem, root, u, j)
  {
    if u == s {
      PageBytesSet(mem[UserPa(mem, root, s)], off, bs, j);
    } else {
      UserPagesDistinct(mem, own, root, s, u);
    }
  }

  lemma WriteChunk(root: nat, s: Slot, off: nat, bs: seq<byte>, own: Owners, mem: Memory)
    requires StructOk(mem, own, NOWHERE) && IsRoot(own, root) && s.Ok() && NoUserSpecials(mem, root)
    requires UserMapped(mem, root, s)
    requires off + |bs| <= 4096
    ensures UserPa(mem, root, s) in mem && |mem[UserPa(mem, root, s)].w| == 512
    ensures StructOk(ChunkWritten(mem, UserPa(mem, root, s), off, bs), own, NOWHERE)
    ensures Wrote(root, Addr(s, off), bs, own, mem, ChunkWritten(mem, UserPa(mem, root, s), off, bs))
  {
    UserIsLeaf(mem, own, root, s);
    var pa := UserPa(mem, root, s);
    var mem' := ChunkWritten(mem, pa, off, bs);
    WriteLeafPage(mem, own, NOWHERE, pa, mem'[pa]);
    FlatFrame(mem, own, mem');
    forall u: Slot, j | u.Ok() && 0 <= j < 4096 && UserMapped(mem, root, u)
      ensures UserByte(mem', root, u, j) ==
        if Addr(s, off) <= Addr(u, j) < Addr(s, off) + |bs| then bs[Addr(u, j) - Addr(s, off)]
        else UserByte(mem, root, u, j)
    {
      ChunkByte(root, s, off, bs, own, mem, u, j);
    }
  }

  // ----- Reading -----

  /** bs are the bytes the process sees from lo on, all of them mapped. */
  ghost predicate Reads(root: nat, lo: nat, bs: seq<byte>, mem: Memory) {
    forall s: Slot, j :: s.Ok() && 0 <= j < 4096 && lo <= Addr(s, j) < lo + |bs| ==>
      UserMapped(mem, root, s) && bs[Addr(s, j) - lo] == UserByte(mem, root, s, j)
  }

  lemma ReadsMore(root: nat, lo: nat, a: seq<byte>, b: seq<byte>, mem: Memory)
    requires Reads(root, lo, a, mem) && Reads(root, lo + |a|, b, mem)
    ensures Reads(root, lo, a + b, mem)
  {
  }

  lemma ReadsNothing(root: nat, lo: nat, mem: Memory)
    ensures Reads(root, lo, [], mem)
  {
  }

  /** memmove() out of one user page. */
  lemma ReadChunk(root: nat, s: Slot, off: nat, n: nat, own: Owners, mem: Memory)
    requires StructOk(mem, own, NOWHERE) && IsRoot(own, root) && s.Ok() && NoUserSpecials(mem, root)
    requires UserMapped(mem, root, s)
    requires off + n <= 4096
    ensures UserPa(mem, root, s) in mem && |mem[UserPa(mem, root, s)].w| == 512
    ensures Reads(root, Addr(s, off), PageBytes(mem[UserPa(mem, root, s)], off, n), mem)
  {
    UserIsLeaf(mem, own, root, s);
    var bs := PageBytes(mem[UserPa(mem, root, s)], off, n);
    forall u: Slot, j | u.Ok() && 0 <= j < 4096 && Addr(s, off) <= Addr(u, j) < Addr(s, off) + |bs|
      ensures UserMapped(mem, root, u) && bs[Addr(u, j) - Addr(s, off)] == UserByte(mem, root, u, j)
    {
      assert PageOf(u) == PageOf(s);
      PageOfInjective(u, s);
    }
  }

  /** An address below MAXVA has a slot and an offset. */
  lemma AddrSlot(va: nat) returns (s: Slot, j: nat)
    requires va < MAXVA
    ensures s.Ok() && j < 4096 && Addr(s, j) == va && PageOf(s) == va / 4096
  {
    SlotOfPage(va);
    s, j := SlotOfVa(va), va % 4096;
  }

  /** What is mapped for the user lies below MAXVA. */
  lemma AllUserBelow(mem: Memory, root: nat, lo: nat, len: nat, i: nat)
    requires AllUser(mem, root, lo, len) && i < len
    ensures lo + i < MAXVA && PageUser(mem, root, (lo + i) / 4096)
  {
    assert Touches(lo, len, (lo + i) / 4096);
  }

  /** Two readings of the same bytes agree. */
  lemma ReadsUnique(root: nat, lo: nat, a: seq<byte>, b: seq<byte>, mem: Memory, i: nat)
    requires Reads(root, lo, a, mem) && Reads(root, lo, b, mem) && i < |a| && i < |b| && lo + i < MAXVA
    ensures a[i] == b[i]
  {
    var s, j := AddrSlot(lo + i);
    ReadsAt(root, lo, a, mem, i, s, j);
    ReadsAt(root, lo, b, mem, i, s, j);
  }

  lemma ReadsAt(root: nat, lo: nat, bs: seq<byte>, mem: Memory, i: nat, s: Slot, j: nat)
    requires Reads(root, lo, bs, mem) && i < |bs| && s.Ok() && j < 4096 && Addr(s, j) == lo + i
    ensures UserMapped(mem, root, s) && bs[i] == UserByte(mem, root, s, j)
  {
    assert bs[Addr(s, j) - lo] == UserByte(mem, root, s, j);
  }

  /** What copyout() wrote, copyin() reads back. */
  lemma WriteThenRead(root: nat, lo: nat, bs: seq<byte>, rd: seq<byte>, own: Owners, mem0: Memory, mem: Memory)
    requires IsRoot(own, root) && AllUser(mem0, root, lo, |bs|)
    requires Wrote(root, lo, bs, own, mem0, mem) && Reads(root, lo, rd, mem) && |rd| == |bs|
    ensures rd == bs
  {
    forall i | 0 <= i < |bs|
      ensures rd[i] == bs[i]
    {
      hide Wrote, Reads, AllUser;
      AllUserBelow(mem0, root, lo, |bs|, i);
      var s, j := AddrSlot(lo + i);
      WroteAt(root, lo, bs, own, mem0, mem, i, s, j);
      ReadsAt(root, lo, rd, mem, i, s, j);
    }
  }

  lemma WroteAt(root: nat, lo: nat, bs: seq<byte>, own: Owners, mem0: Memory, mem: Memory, i: nat, s: Slot, j: nat)
    requires Wrote(root, lo, bs, own, mem0, mem) && AllUser(mem0, root, lo, |bs|)
    requires i < |bs| && s.Ok() && j < 4096 && Addr(s, j) == lo + i
    ensures UserByte(mem, root, s, j) == bs[i]
  {
    assert Touches(lo, |bs|, PageOf(s));
    OnlySlot(mem0, root, s);
    assert UserByte(mem, root, s, j) == bs[Addr(s, j) - lo];
  }

  // ----- The three functions -----

  /** A chunk within one page: its page, its offset, its length. */
  lemma Chunk(va: nat, len: nat)
    requires len > 0
    ensures PgRoundDown(va) == va / 4096 * 4096 && va - PgRoundDown(va) < 4096
    ensures Touches(va, len, va / 4096)
    ensures forall s: Slot :: PageOf(s) == va / 4096 ==> Addr(s, va - PgRoundDown(va)) == va
    ensures va - PgRoundDown(va) == va % 4096
  {
  }

  lemma UserPage(mem: Memory, root: nat, s: Slot)
    requires s.Ok() && PageOf(s) < MAXPAGE && UserMapped(mem, root, s)
    ensures PageUser(mem, root, PageOf(s))
  {
  }

  /** Pages touched by n more bytes that end with page v or with the range. */
  lemma AllUserNext(mem: Memory, root: nat, lo: nat, n: nat, k: nat, len: nat)
    requires AllUser(mem, root, lo, n) && k > 0 && n + k <= len && PageUser(mem, root, (lo + n) / 4096)
    requires (lo + n) % 4096 + k <= 4096
    ensures AllUser(mem, root, lo, n + k)
  {
    forall v | Touches(lo, n + k, v)
      ensures PageUser(mem, root, v)
    {
      if !Touches(lo, n, v) {
        assert v == (lo + n) / 4096;
      }
    }
  }

  lemma SameUser(root: nat, own: Owners, mem0: Memory, mem: Memory)
    requires SameFlat(own, mem0, mem) && IsRoot(own, root)
    ensures NoUserSpecials(mem0, root) <==> NoUserSpecials(mem, root)
    ensures forall v :: PageUser(mem0, root, v) <==> PageUser(mem, root, v)
  {
    forall s: Slot | s.Ok()
      ensures UserMapped(mem0, root, s) <==> UserMapped(mem, root, s)
    {
    }
    if NoUserSpecials(mem, root) {
      forall s: Slot | s.Ok() && s.Special()
        ensures !UserMapped(mem0, root, s)
      {
        assert !UserMapped(mem, root, s);
      }
    }
  }

  /** One turn of copyout(): the bytes that go to the page of va, or 0 if it is not mapped for the user. */
  method CopyoutTurn(m: Machine, root: nat, va: nat, src: seq<byte>) returns (n: nat)
    requires m.Valid() && IsRoot(m.own, root) && NoUserSpecials(m.mem, root) && src != []
    modifies m
    ensures m.Valid() && m.own == old(m.own) && m.freelist == old(m.freelist)
    ensures n <= |src| && Wrote(root, va, src[..n], m.own, old(m.mem), m.mem)
    ensures n > 0 <==> PageUser(old(m.mem), root, va / 4096)
    ensures n > 0 ==> n == |src| || va % 4096 + n == 4096
    ensures va % 4096 + n <= 4096 && (n == 0 ==> m.mem == old(m.mem))
  {
    hide Wrote, PageUser, FreeOk, NoUserSpecials, SetPageBytes, PageOf, Flat, StructOk;
    var va0 := PgRoundDown(va);
    Chunk(va, |src|);
    var pa0, s := Walkaddr(m, root, va0, va / 4096);
    if pa0 == 0 {
      CopyBegins(root, va, m.own, m.mem);
      return 0;
    }
    n := 4096 - (va - va0);
    if n > |src| {
      n := |src|;
    }
    UserPage(m.mem, root, s);
    WriteChunk(root, s, va - va0, src[..n], m.own, m.mem);
    m.mem := ChunkWritten(m.mem, pa0, va - va0, src[..n]);
  }

  /**
   Copy src to address dstva of the process. Succeeds exactly if every page of
   the range is mapped for the user; otherwise the n bytes up to the first page
   that is not have been written.
   */
  method Copyout(m: Machine, root: nat, dstva: nat, src: seq<byte>) returns (ok: bool, ghost n: nat)
    requires m.Valid() && IsRoot(m.own, root) && NoUserSpecials(m.mem, root)
    modifies m
    ensures m.Valid() && m.own == old(m.own) && m.freelist == old(m.freelist)
    ensures n <= |src| && Wrote(root, dstva, src[..n], m.own, old(m.mem), m.mem)
    ensures ok <==> AllUser(old(m.mem), root, dstva, |src|)
    ensures ok <==> n == |src|
    ensures !ok ==> AllUser(old(m.mem), root, dstva, n) && !PageUser(old(m.mem), root, (dstva + n) / 4096)
  {
    hide Wrote, AllUser, PageUser, StructOk, FreeOk, NoUserSpecials, Touches;
    n := 0;
    var rest, va := src, dstva;
    CopyBegins(root, dstva, m.own, m.mem);
    assert src[..0] == [];
    while rest != []
      invariant n <= |src| && rest == src[n..]
      invariant rest != [] ==> va == dstva + n
      invariant m.Valid() && m.own == old(m.own) && m.freelist == old(m.freelist)
      invariant Wrote(root, dstva, src[..n], m.own, old(m.mem), m.mem)
      invariant NoUserSpecials(m.mem, root) && AllUser(old(m.mem), root, dstva, n)
      decreases |rest|
    {
      ghost var mem1 := m.mem;
      WroteSame(root, dstva, src[..n], m.own, old(m.mem), m.mem);
      var k := CopyoutTurn(m, root, va, rest);
      if k == 0 {
        AllUserFails(old(m.mem), root, dstva, n, |src|);
        return false, n;
      }
      assert src[..n] + rest[..k] == src[..n + k];
      WroteTrans(root, dstva, src[..n], rest[..k], m.own, old(m.mem), mem1, m.mem);
      AllUserNext(old(m.mem), root, dstva, n, k, |src|);
      WroteSame(root, dstva, src[..n + k], m.own, old(m.mem), m.mem);
      n := n + k;
      rest := rest[k..];
      va := PgRoundDown(va) + PGSIZE;
    }
    ok := true;
  }

  lemma CopyBegins(root: nat, lo: nat, own: Owners, mem: Memory)
    requires StructOk(mem, own, NOWHERE)
    ensures Wrote(root, lo, [], own, mem, mem) && AllUser(mem, root, lo, 0) && Reads(root, lo, [], mem)
  {
  }

  lemma WroteSame(root: nat, lo: nat, bs: seq<byte>, own: Owners, mem0: Memory, mem: Memory)
    requires Wrote(root, lo, bs, own, mem0, mem) && IsRoot(own, root)
    ensures NoUserSpecials(mem0, root) <==> NoUserSpecials(mem, root)
    ensures forall v :: PageUser(mem0, root, v) <==> PageUser(mem, root, v)
  {
    SameUser(root, own, mem0, mem);
  }

  lemma AllUserFails(mem: Memory, root: nat, lo: nat, n: nat, len: nat)
    requires n < len && !PageUser(mem, root, (lo + n) / 4096)
    ensures !AllUser(mem, root, lo, len)
  {
    assert Touches(lo, len, (lo + n) / 4096);
  }

  /** One turn of copyin(): the bytes of the page of va, or none if it is not mapped for the user. */
  method CopyinTurn(m: Machine, root: nat, va: nat, len: nat) returns (bs: seq<byte>)
    requires m.Valid() && IsRoot(m.own, root) && NoUserSpecials(m.mem, root) && len > 0
    modifies m
    ensures m.mem == old(m.mem) && m.own == old(m.own) && m.freelist == old(m.freelist)
    ensures |bs| <= len && Reads(root, va, bs, m.mem)
    ensures bs != [] <==> PageUser(m.mem, root, va / 4096)
    ensures bs != [] ==> |bs| == len || va % 4096 + |bs| == 4096
    ensures va % 4096 + |bs| <= 4096
  {
    hide Reads, PageUser, FreeOk, NoUserSpecials, PageOf, Flat, StructOk;
    ReadsNothing(root, va, m.mem);
    var va0 := PgRoundDown(va);
    Chunk(va, len);
    var pa0, s := Walkaddr(m, root, va0, va / 4096);
    if pa0 == 0 {
      return [];
    }
    var n := 4096 - (va - va0);
    if n > len {
      n := len;
    }
    UserPage(m.mem, root, s);
    ReadChunk(root, s, va - va0, n, m.own, m.mem);
    bs := PageBytes(m.mem[pa0], va - va0, n);
  }

  /**
   Copy len bytes from address srcva of the process. Succeeds exactly if every
   page of the range is mapped for the user, and then yields what the process sees.
   */
  method Copyin(m: Machine, root: nat, srcva: nat, len: nat) returns (ok: bool, dst: seq<byte>)
    requires m.Valid() && IsRoot(m.own, root) && NoUserSpecials(m.mem, root)
    modifies m
    ensures m.mem == old(m.mem) && m.own == old(m.own) && m.freelist == old(m.freelist)
    ensures ok <==> AllUser(m.mem, root, srcva, len)
    ensures |dst| <= len && Reads(root, srcva, dst, m.mem) && (ok <==> |dst| == len)
  {
    hide Reads, AllUser, PageUser, StructOk, FreeOk, NoUserSpecials, Touches;
    dst := [];
    var rest: nat, va := len, srcva;
    CopyBegins(root, srcva, m.own, m.mem);
    while rest > 0
      invariant |dst| + rest == len && (rest > 0 ==> va == srcva + |dst|)
      invariant m.mem == old(m.mem) && m.own == old(m.own) && m.freelist == old(m.freelist)
      invariant Reads(root, srcva, dst, m.mem) && AllUser(m.mem, root, srcva, |dst|)
    {
      var bs := CopyinTurn(m, root, va, rest);
      if bs == [] {
        AllUserFails(m.mem, root, srcva, |dst|, len);
        return false, dst;
      }
      ReadsMore(root, srcva, dst, bs, m.mem);
      AllUserNext(m.mem, root, srcva, |dst|, |bs|, len);
      rest, dst := rest - |bs|, dst + bs;
      va := PgRoundDown(va) + PGSIZE;
    }
    ok := true;
  }

  // ----- copyinstr -----

  predicate NoZero(bs: seq<byte>) {
    forall i :: 0 <= i < |bs| ==> bs[i] != 0
  }

  /** A string with its terminating zero. */
  predicate IsString(bs: seq<byte>) {
    bs != [] && bs[|bs| - 1] == 0 && NoZero(bs[..|bs| - 1])
  }

  /** The inner loop of copyinstr(): bytes of a page up to a zero, at most n. */
  method ScanPage(pg: Page, off: nat, n: nat) returns (bs: seq<byte>)
    requires |pg.w| == 512 && off + n <= 4096
    ensures |bs| <= n && bs == PageBytes(pg, off, |bs|)
    ensures IsString(bs) || (NoZero(bs) && |bs| == n)
  {
    bs := [];
    while |bs| < n
      invariant |bs| <= n && bs == PageBytes(pg, off, |bs|) && NoZero(bs)
    {
      var b := PageByte(pg, off + |bs|);
      ghost var before := bs;
      bs := bs + [b];
      if b == 0 {
        assert bs[..|bs| - 1] == before;
        return;
      }
    }
  }

  /** One turn of copyinstr()'s outer loop. */
  method StringTurn(m: Machine, root: nat, va: nat, max: nat) returns (bs: seq<byte>)
    requires m.Valid() && IsRoot(m.own, root) && NoUserSpecials(m.mem, root) && max > 0
    modifies m
    ensures m.mem == old(m.mem) && m.own == old(m.own) && m.freelist == old(m.freelist)
    ensures |bs| <= max && Reads(root, va, bs, m.mem)
    ensures bs != [] <==> PageUser(m.mem, root, va / 4096)
    ensures IsString(bs) || (NoZero(bs) && (bs == [] || |bs| == max || va % 4096 + |bs| == 4096))
    ensures va % 4096 + |bs| <= 4096
  {
    hide Reads, PageUser, FreeOk, NoUserSpecials, PageOf, Flat, StructOk;
    ReadsNothing(root, va, m.mem);
    var va0 := PgRoundDown(va);
    Chunk(va, max);
    var pa0, s := Walkaddr(m, root, va0, va / 4096);
    if pa0 == 0 {
      return [];
    }
    var n := 4096 - (va - va0);
    if n > max {
      n := max;
    }
    UserPage(m.mem, root, s);
    UserIsLeaf(m.mem, m.own, root, s);
    bs := ScanPage(m.mem[pa0], va - va0, n);
    ReadChunk(root, s, va - va0, |bs|, m.own, m.mem);
  }

  /** The process has the string str at srcva, with all its bytes in pages mapped for the user. */
  ghost predicate StringAt(mem: Memory, root: nat, srcva: nat, str: seq<byte>) {
    IsString(str) && AllUser(mem, root, srcva, |str|) && Reads(root, srcva, str, mem)
  }

  /**
   Copy a string of at most max bytes, zero included, from address srcva of the
   process. Succeeds exactly if the process has one there; otherwise what was
   copied holds no zero and cannot be continued.
   */
  method Copyinstr(m: Machine, root: nat, srcva: nat, max: nat) returns (ok: bool, dst: seq<byte>)
    requires m.Valid() && IsRoot(m.own, root) && NoUserSpecials(m.mem, root)
    modifies m
    ensures m.mem == old(m.mem) && m.own == old(m.own) && m.freelist == old(m.freelist)
    ensures |dst| <= max && Reads(root, srcva, dst, m.mem) && AllUser(m.mem, root, srcva, |dst|)
    ensures ok <==> exists str :: |str| <= max && StringAt(m.mem, root, srcva, str)
    ensures ok ==> StringAt(m.mem, root, srcva, dst)
    ensures !ok ==> NoZero(dst) && (|dst| == max || !PageUser(m.mem, root, (srcva + |dst|) / 4096))
  {
    hide Reads, AllUser, PageUser, StructOk, FreeOk, NoUserSpecials, Touches, IsString, NoZero, StringAt;
    dst := [];
    ok := false;
    var rest: nat, va := max, srcva;
    CopyBegins(root, srcva, m.own, m.mem);
    NothingScanned();
    while !ok && rest > 0
      invariant |dst| + rest == max && (!ok && rest > 0 ==> va == srcva + |dst|)
      invariant m.mem == old(m.mem) && m.own == old(m.own) && m.freelist == old(m.freelist)
      invariant Reads(root, srcva, dst, m.mem) && (if ok then IsString(dst) else NoZero(dst))
      invariant AllUser(m.mem, root, srcva, |dst|)
      decreases !ok, rest
    {
      var bs := StringTurn(m, root, va, rest);
      if bs == [] {
        NoStringMissed(root, srcva, max, dst, m.mem);
        return false, dst;
      }
      ReadsMore(root, srcva, dst, bs, m.mem);
      Scanned(dst, bs);
      AllUserNext(m.mem, root, srcva, |dst|, |bs|, max);
      ok := bs[|bs| - 1] == 0;
      rest, dst := rest - |bs|, dst + bs;
      va := PgRoundDown(va) + PGSIZE;
    }
    if ok {
      StringFound(m.mem, root, srcva, dst);
    } else {
      NoStringMissed(root, srcva, max, dst, m.mem);
    }
  }

  lemma StringFound(mem: Memory, root: nat, srcva: nat, str: seq<byte>)
    requires IsString(str) && AllUser(mem, root, srcva, |str|) && Reads(root, srcva, str, mem)
    ensures StringAt(mem, root, srcva, str)
  {
  }

  lemma NothingScanned()
    ensures NoZero([])
  {
  }

  lemma Scanned(dst: seq<byte>, bs: seq<byte>)
    requires NoZero(dst) && bs != [] && (IsString(bs) || NoZero(bs))
    ensures IsString(bs) <==> bs[|bs| - 1] == 0
    ensures IsString(bs) ==> IsString(dst + bs)
    ensures NoZero(bs) ==> NoZero(dst + bs)
  {
    assert (dst + bs)[..|dst + bs| - 1] == dst + bs[..|bs| - 1];
  }

  /** What copyinstr() scanned when it gives up rules out every string at srcva. */
  lemma NoStringMissed(root: nat, srcva: nat, max: nat, dst: seq<byte>, mem: Memory)
    requires Reads(root, srcva, dst, mem) && NoZero(dst) && |dst| <= max
    requires |dst| == max || !PageUser(mem, root, (srcva + |dst|) / 4096)
    ensures forall str :: |str| <= max ==> !StringAt(mem, root, srcva, str)
  {
    forall str | |str| <= max
      ensures !StringAt(mem, root, srcva, str)
    {
      hide Reads, NoZero, PageUser, StringAt;
      NotThisString(root, srcva, max, dst, str, mem);
    }
  }

  lemma NotThisString(root: nat, srcva: nat, max: nat, dst: seq<byte>, str: seq<byte>, mem: Memory)
    requires Reads(root, srcva, dst, mem) && NoZero(dst) && |dst| <= max && |str| <= max
    requires |dst| == max || !PageUser(mem, root, (srcva + |dst|) / 4096)
    ensures !StringAt(mem, root, srcva, str)
  {
    hide Reads, PageUser, AllUser;
    if StringAt(mem, root, srcva, str) {
      if |str| <= |dst| {
        AllUserBelow(mem, root, srcva, |str|, |str| - 1);
        ReadsUnique(root, srcva, str, dst, mem, |str| - 1);
      } else {
        AllUserBelow(mem, root, srcva, |str|, |dst|);
      }
    }
  }
}
