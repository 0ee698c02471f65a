/**
 * readCommand8/16/32 of LGFX_Device: the panel's readCommand returns up to
 * four bytes packed into a 32-bit word, the first byte read in the low
 * eight bits.  The 8-bit form keeps the low byte; the 16- and 32-bit forms
 * reverse the byte order (`__builtin_bswap16` on the low 16 bits,
 * `__builtin_bswap32`) so that the first byte read becomes the most
 * significant one.
 */
module ReadCommand {
  import opened BusTrace

  /** Byte `k` (0 = least significant) of a 32-bit word. */
  function ByteAt(v: uint32, k: nat): uint8
    requires k < 4
  {
    if k == 0 then v % 0x100
    else if k == 1 then (v / 0x100) % 0x100
    else if k == 2 then (v / 0x1_0000) % 0x100
    else v / 0x100_0000
  }

  /** The word whose bytes, least significant first, are b0, b1, b2, b3. */
  function Word(b0: uint8, b1: uint8, b2: uint8, b3: uint8): uint32
  {
    b0 + 0x100 * b1 + 0x1_0000 * b2 + 0x100_0000 * b3
  }

  /** A word is determined by its bytes, and each byte of Word is the one it was built from. */
  lemma WordBytes(b0: uint8, b1: uint8, b2: uint8, b3: uint8)
    ensures var v := Word(b0, b1, b2, b3);
            ByteAt(v, 0) == b0 && ByteAt(v, 1) == b1 && ByteAt(v, 2) == b2 && ByteAt(v, 3) == b3
  {
    var v := Word(b0, b1, b2, b3);
    assert v / 0x100 == b1 + 0x100 * b2 + 0x1_0000 * b3;
    assert v / 0x1_0000 == b2 + 0x100 * b3;
  }

  lemma ByteAtWord(v: uint32)
    ensures Word(ByteAt(v, 0), ByteAt(v, 1), ByteAt(v, 2), ByteAt(v, 3)) == v
  {
    var q1, q2, q3 := v / 0x100, v / 0x1_0000, v / 0x100_0000;
    assert v == 0x100 * q1 + v % 0x100;
    assert q1 == 0x100 * q2 + q1 % 0x100;
    assert q2 == 0x100 * q3 + q2 % 0x100;
  }

  /** readCommand8: the reply truncated to its low byte. */
  function Read8(reply: uint32): uint8
  {
    reply % 0x100
  }

  /** `__builtin_bswap16` of the reply truncated to 16 bits. */
  function Read16(reply: uint32): (r: uint16)
    ensures r / 0x100 == ByteAt(reply, 0) && r % 0x100 == ByteAt(reply, 1)
  {
    var low := reply % 0x1_0000;
    LowHalfBytes(reply);
    (low % 0x100) * 0x100 + low / 0x100
  }

  /** The low 16 bits of a word hold its bytes 0 and 1. */
  lemma LowHalfBytes(v: uint32)
    ensures (v % 0x1_0000) % 0x100 == ByteAt(v, 0)
    ensures (v % 0x1_0000) / 0x100 == ByteAt(v, 1)
  {
    var q := v / 0x1_0000;
    var low := v % 0x1_0000;
    assert v == 0x1_0000 * q + low;
    assert v == 0x100 * (0x100 * q + low / 0x100) + low % 0x100;
    assert v / 0x100 == 0x100 * q + low / 0x100;
  }

  /** `__builtin_bswap32`: the bytes of the reply in reverse order. */
  function Bswap32(v: uint32): (r: uint32)
    ensures forall k :: 0 <= k < 4 ==> ByteAt(r, k) == ByteAt(v, 3 - k)
  {
    WordBytes(ByteAt(v, 3), ByteAt(v, 2), ByteAt(v, 1), ByteAt(v, 0));
    Word(ByteAt(v, 3), ByteAt(v, 2), ByteAt(v, 1), ByteAt(v, 0))
  }

  /** Swapping twice gives the reply back. */
  lemma Bswap32Involution(v: uint32)
    ensures Bswap32(Bswap32(v)) == v
  {
    var r := Bswap32(v);
    assert ByteAt(r, 0) == ByteAt(v, 3) && ByteAt(r, 3) == ByteAt(v, 0);
    assert ByteAt(r, 1) == ByteAt(v, 2) && ByteAt(r, 2) == ByteAt(v, 1);
    ByteAtWord(v);
  }

  /**
   * The three widths agree: the 16-bit result is the top half of the 32-bit
   * one, and the 8-bit result is the top byte of both. This is about the
   * byte swaps only: the three reads are separate bus transactions, and
   * nothing here says their replies are related.
   */
  lemma ReadWidthsAgree(reply: uint32)
    ensures Read16(reply) == Bswap32(reply) / 0x1_0000
    ensures Read8(reply) == Read16(reply) / 0x100
  {
    var r := Bswap32(reply);
    assert ByteAt(r, 3) == ByteAt(reply, 0) && ByteAt(r, 2) == ByteAt(reply, 1);
  }
}
