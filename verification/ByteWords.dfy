/** The bytes of a little-endian word. */
module ByteWords {
  type byte = b: nat | b < 256

  /** Byte k of a word. */
  function ByteOf(w: nat, k: nat): (b: byte) {
    if k == 0 then w % 256 else ByteOf(w / 256, k - 1)
  }

  /** The word with byte k replaced. */
  function WithByte(w: nat, k: nat, b: byte): (r: nat)
  {
    if k == 0 then w / 256 * 256 + b else WithByte(w / 256, k - 1, b) * 256 + w % 256
  }

  lemma {:induction false} Split(q: nat, r: nat)
    requires r < 256
    ensures (q * 256 + r) / 256 == q && (q * 256 + r) % 256 == r
  {
  }

  /** The byte written is the byte read, and the others are kept. */
  lemma {:induction false} ByteWritten(w: nat, k: nat, b: byte, j: nat)
    ensures ByteOf(WithByte(w, k, b), j) == if j == k then b else ByteOf(w, j)
  {
    if k == 0 {
      Split(w / 256, b);
    } else {
      Split(WithByte(w / 256, k - 1, b), w % 256);
      if j > 0 {
        ByteWritten(w / 256, k - 1, b, j - 1);
      }
    }
  }
}
