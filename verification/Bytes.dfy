/** The bytes of a page of 64-bit little-endian words. */
module Bytes {
  import opened PageOwner
  import opened ByteWords

  /** Byte j of a page. */
  function PageByte(pg: Page, j: nat): (b: byte)
    requires |pg.w| == 512 && j < 4096
  {
    ByteOf(pg.w[j / 8], j % 8)
  }

  function SetPageByte(pg: Page, j: nat, b: byte): (r: Page)
    requires |pg.w| == 512 && j < 4096
    ensures |r.w| == 512
  {
    Page(pg.w[j / 8 := WithByte(pg.w[j / 8], j % 8, b)])
  }

  lemma PageByteSet(pg: Page, j: nat, b: byte, i: nat)
    requires |pg.w| == 512 && j < 4096 && i < 4096
    ensures PageByte(SetPageByte(pg, j, b), i) == if i == j then b else PageByte(pg, i)
  {
    if i / 8 == j / 8 {
      ByteWritten(pg.w[j / 8], j % 8, b, i % 8);
    }
  }

  /** memmove() of bs to offset off of a page. */
  function SetPageBytes(pg: Page, off: nat, bs: seq<byte>): (r: Page)
    requires |pg.w| == 512 && off + |bs| <= 4096
    ensures |r.w| == 512
  {
    if bs == [] then pg else SetPageByte(SetPageBytes(pg, off, bs[..|bs| - 1]), off + |bs| - 1, bs[|bs| - 1])
  }

  lemma {:induction false} PageBytesSet(pg: Page, off: nat, bs: seq<byte>, i: nat)
    requires |pg.w| == 512 && off + |bs| <= 4096 && i < 4096
    ensures PageByte(SetPageBytes(pg, off, bs), i) == if off <= i < off + |bs| then bs[i - off] else PageByte(pg, i)
  {
    if bs != [] {
      var n := |bs| - 1;
      PageBytesSet(pg, off, bs[..n], i);
      PageByteSet(SetPageBytes(pg, off, bs[..n]), off + n, bs[n], i);
    }
  }

  /** memmove() of n bytes from offset off of a page. */
  function PageBytes(pg: Page, off: nat, n: nat): (bs: seq<byte>)
    requires |pg.w| == 512 && off + n <= 4096
    ensures |bs| == n
    ensures forall i :: 0 <= i < n ==> bs[i] == PageByte(pg, off + i)
  {
    if n == 0 then [] else PageBytes(pg, off, n - 1) + [PageByte(pg, off + n - 1)]
  }
}
