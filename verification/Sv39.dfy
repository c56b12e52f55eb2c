/**
 The address arithmetic of kernel/riscv.h (Sv39, section 4.4 of the RISC-V
 Privileged Architecture, volume II) on unbounded naturals: a right shift is a
 division, a mask of low bits a remainder.
 */
module Sv39 {

  // Written out as 4096 wherever it multiplies, divides or masks.
  const PGSIZE: nat := 4096
  const MAXVA: nat := 0x40_0000_0000        // 1 << 38
  const TRAMPOLINE: nat := MAXVA - PGSIZE
  const TRAPFRAME: nat := TRAMPOLINE - PGSIZE
  const KERNBASE: nat := 0x8000_0000
  const PHYSTOP: nat := KERNBASE + 128 * 1024 * 1024

  const PTE_V: nat := 1
  const PTE_R: nat := 2
  const PTE_W: nat := 4
  const PTE_X: nat := 8
  const PTE_U: nat := 16

  function PgRoundDown(a: nat): (r: nat)
    ensures r <= a < r + PGSIZE && r % 4096 == 0
  {
    a / 4096 * 4096
  }

  function PgRoundUp(a: nat): (r: nat)
    ensures a <= r < a + PGSIZE && r % 4096 == 0
  {
    (a + PGSIZE - 1) / 4096 * 4096
  }

  /** PX(level, va): the 9-bit index into the table at a level. */
  function Px(level: nat, va: nat): (i: nat)
    ensures i < 512
  {
    if level == 0 then va / 4096 % 512
    else if level == 1 then va / 0x20_0000 % 512
    else va / 0x4000_0000 % 512
  }

  /** Does a page table entry have the given bit? The argument is the bit's value. */
  predicate Has(pte: nat, bit: nat)
    requires bit > 0
  {
    pte / bit % 2 == 1
  }

  predicate IsValid(pte: nat) {
    pte % 2 == 1
  }

  /** Any of R, W and X: what distinguishes a leaf from a pointer to a table. */
  predicate IsLeaf(pte: nat) {
    Has(pte, PTE_R) || Has(pte, PTE_W) || Has(pte, PTE_X)
  }

  function Pte2Pa(pte: nat): (pa: nat) {
    pte / 1024 * 4096
  }

  function Flags(pte: nat): (f: nat) {
    pte % 1024
  }

  /** PA2PTE(pa) | perm | PTE_V, for perm within the ten flag bits. */
  function MakePte(pa: nat, perm: nat): (pte: nat)
    requires perm < 1024
  {
    pa / 4096 * 1024 + (if perm % 2 == 1 then perm else perm + 1)
  }

  /** An entry gives back the page it was made from, and the permissions with V added. */
  lemma PteRoundTrip(pa: nat, perm: nat)
    requires pa % 4096 == 0 && perm < 1024
    ensures Pte2Pa(MakePte(pa, perm)) == pa
    ensures IsValid(MakePte(pa, perm))
    ensures Flags(MakePte(pa, perm)) == if perm % 2 == 1 then perm else perm + 1
  {
    var f := if perm % 2 == 1 then perm else perm + 1;
    LowBits(pa / 4096, f);
    assert MakePte(pa, perm) == pa / 4096 * 1024 + f;
  }

  lemma LowBits(k: nat, f: nat)
    requires f < 1024
    ensures (k * 1024 + f) / 1024 == k
    ensures (k * 1024 + f) % 1024 == f
    ensures (k * 1024 + f) % 2 == f % 2
  {
    Parity(512 * k, f);
  }

  lemma Parity(a: nat, f: nat)
    ensures (2 * a + f) % 2 == f % 2
  {
  }

  lemma BitR(k: nat, f: nat)
    ensures Has(k * 1024 + f, PTE_R) == Has(f, PTE_R)
  {
    assert (k * 1024 + f) / 2 == 2 * (256 * k) + f / 2;
  }

  lemma BitW(k: nat, f: nat)
    ensures Has(k * 1024 + f, PTE_W) == Has(f, PTE_W)
  {
    assert (k * 1024 + f) / 4 == 2 * (128 * k) + f / 4;
  }

  lemma BitX(k: nat, f: nat)
    ensures Has(k * 1024 + f, PTE_X) == Has(f, PTE_X)
  {
    assert (k * 1024 + f) / 8 == 2 * (64 * k) + f / 8;
  }

  lemma BitU(k: nat, f: nat)
    ensures Has(k * 1024 + f, PTE_U) == Has(f, PTE_U)
  {
    assert (k * 1024 + f) / 16 == 2 * (32 * k) + f / 16;
  }

  /** The flags of an entry are those of its low ten bits. */
  lemma FlagBits(pte: nat)
    ensures IsLeaf(pte) == IsLeaf(Flags(pte))
    ensures Has(pte, PTE_U) == Has(Flags(pte), PTE_U)
  {
    var k, f := pte / 1024, pte % 1024;
    assert pte == k * 1024 + f;
    BitR(k, f);
    BitW(k, f);
    BitX(k, f);
    BitU(k, f);
  }

  /** Adding PTE_V to permissions changes none of the other flags. */
  lemma AddV(perm: nat)
    requires perm % 2 == 0
    ensures IsLeaf(perm + 1) == IsLeaf(perm)
    ensures Has(perm + 1, PTE_U) == Has(perm, PTE_U)
  {
    assert (perm + 1) / 2 == perm / 2;
    assert (perm + 1) / 4 == (perm + 1) / 2 / 2 == perm / 2 / 2 == perm / 4;
    assert (perm + 1) / 8 == (perm + 1) / 4 / 2 == perm / 4 / 2 == perm / 8;
    assert (perm + 1) / 16 == (perm + 1) / 8 / 2 == perm / 8 / 2 == perm / 16;
  }

  /** What mappages stores is a leaf exactly when the permissions say so. */
  lemma MadeFlags(pa: nat, perm: nat)
    requires pa % 4096 == 0 && perm < 1024
    ensures IsLeaf(MakePte(pa, perm)) == IsLeaf(perm)
    ensures Has(MakePte(pa, perm), PTE_U) == Has(perm, PTE_U)
  {
    PteRoundTrip(pa, perm);
    FlagBits(MakePte(pa, perm));
    if perm % 2 == 0 {
      AddV(perm);
    }
  }

  /** pte & ~PTE_U */
  function ClearU(pte: nat): (r: nat) {
    if Has(pte, PTE_U) then pte - 16 else pte
  }

  lemma NibbleV(m: nat, low: nat)
    ensures IsValid(16 * m + low) == IsValid(low)
  {
    assert 16 * m + low == 2 * (8 * m) + low;
  }

  lemma NibbleR(m: nat, low: nat)
    ensures Has(16 * m + low, PTE_R) == Has(low, PTE_R)
  {
    assert (16 * m + low) / 2 == 2 * (4 * m) + low / 2;
  }

  lemma NibbleW(m: nat, low: nat)
    ensures Has(16 * m + low, PTE_W) == Has(low, PTE_W)
  {
    assert (16 * m + low) / 4 == 2 * (2 * m) + low / 4;
  }

  lemma NibbleX(m: nat, low: nat)
    ensures Has(16 * m + low, PTE_X) == Has(low, PTE_X)
  {
    assert (16 * m + low) / 8 == 2 * m + low / 8;
  }

  lemma LowNibble(m: nat, low: nat)
    ensures IsValid(16 * m + low) == IsValid(low)
    ensures Has(16 * m + low, PTE_R) == Has(low, PTE_R) && Has(16 * m + low, PTE_W) == Has(low, PTE_W)
    ensures Has(16 * m + low, PTE_X) == Has(low, PTE_X) && IsLeaf(16 * m + low) == IsLeaf(low)
  {
    NibbleV(m, low);
    NibbleR(m, low);
    NibbleW(m, low);
    NibbleX(m, low);
  }

  lemma PaOfNibbles(m: nat, low: nat)
    requires low < 16
    ensures (16 * m + low) / 1024 == m / 64
    ensures (16 * m + low) / 16 == m
  {
  }

  lemma DropOdd(m: nat, low: nat)
    requires low < 16 && m % 2 == 1
    ensures Pte2Pa(16 * (m - 1) + low) == Pte2Pa(16 * m + low)
    ensures !Has(16 * (m - 1) + low, PTE_U)
  {
    PaOfNibbles(m, low);
    PaOfNibbles(m - 1, low);
    assert m / 64 == (m - 1) / 64;
  }

  /** Clearing U leaves the page, the validity and the other permissions alone. */
  lemma ClearUKeeps(pte: nat)
    ensures IsValid(ClearU(pte)) == IsValid(pte) && Pte2Pa(ClearU(pte)) == Pte2Pa(pte)
    ensures Has(ClearU(pte), PTE_R) == Has(pte, PTE_R) && Has(ClearU(pte), PTE_W) == Has(pte, PTE_W)
    ensures Has(ClearU(pte), PTE_X) == Has(pte, PTE_X) && !Has(ClearU(pte), PTE_U)
    ensures IsLeaf(ClearU(pte)) == IsLeaf(pte)
  {
    if Has(pte, PTE_U) {
      var m, low := pte / 16, pte % 16;
      assert pte == 16 * m + low && ClearU(pte) == 16 * (m - 1) + low;
      LowNibble(m, low);
      LowNibble(m - 1, low);
      DropOdd(m, low);
    }
  }

  /** The page number of the address whose three indices are a, b and c. */
  function PageNumber(a: nat, b: nat, c: nat): (v: nat) {
    a * 0x4_0000 + b * 512 + c
  }

  /** Below MAXVA the three indices of an address determine its page, and conversely. */
  lemma IndicesArePage(va: nat)
    requires va < MAXVA
    ensures PageNumber(Px(2, va), Px(1, va), Px(0, va)) == va / 4096
    ensures Px(2, va) < 256
  {
    var v := va / 4096;
    assert va / 0x20_0000 == v / 512;
    assert va / 0x4000_0000 == v / 0x4_0000;
    assert v / 512 / 512 == v / 0x4_0000;
    assert v < 0x400_0000;
  }

  lemma PageIndices(a: nat, b: nat, c: nat)
    requires a < 512 && b < 512 && c < 512
    ensures Px(2, PageNumber(a, b, c) * 4096) == a
    ensures Px(1, PageNumber(a, b, c) * 4096) == b
    ensures Px(0, PageNumber(a, b, c) * 4096) == c
  {
    var v := PageNumber(a, b, c);
    assert v * 4096 / 4096 == v;
    assert v * 4096 / 0x20_0000 == v / 512 == a * 512 + b;
    assert v * 4096 / 0x4000_0000 == v / 0x4_0000 == a;
  }
}
