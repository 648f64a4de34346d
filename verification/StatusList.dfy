/** The bitstring behind a status list. The gzip and base64url coding of the
    source is a bijection, so a list is its decoded byte buffer here. */
module StatusList {
  import opened Common

  const DEFAULT_BITS: nat := 131072
  const DEFAULT_BYTES: nat := 16384

  type Bits = seq<bv8>

  /** The mask of bit k of a byte, counting from the left. */
  function Mask(k: nat): bv8
    requires k < 8
  {
    [128, 64, 32, 16, 8, 4, 2, 1][k]
  }

  lemma ShiftIsMask(k: nat, byte: bv8)
    requires k < 8
    ensures (1 << (7 - k)) == Mask(k)
    ensures (byte >> (7 - k)) & 1 == 1 <==> byte & Mask(k) != 0
  {
  }

  /** The byte setBit stores, as the source computes it with a shift. */
  function Written(byte: bv8, k: nat, on: bool): (r: bv8)
    requires k < 8
    ensures r == if on then byte | Mask(k) else byte & !Mask(k)
  {
    ShiftIsMask(k, byte);
    if on then byte | (1 << (7 - k)) else byte & !(1 << (7 - k))
  }

  /** Bit `index`, the leftmost bit of byte 0 being bit 0. */
  predicate Bit(bits: Bits, index: int)
    requires 0 <= index < 8 * |bits|
  {
    bits[index / 8] & Mask(index % 8) != 0
  }

  function Flipped(bits: Bits, index: int, on: bool): Bits
    requires 0 <= index < 8 * |bits|
  {
    var byte, m := bits[index / 8], Mask(index % 8);
    bits[index / 8 := if on then byte | m else byte & !m]
  }

  /** Writing one bit changes that bit and no other. */
  lemma FlippedBit(bits: Bits, index: int, on: bool, j: int)
    requires 0 <= index < 8 * |bits| && 0 <= j < 8 * |bits|
    ensures |Flipped(bits, index, on)| == |bits|
    ensures Bit(Flipped(bits, index, on), j) == if j == index then on else Bit(bits, j)
  {
  }

  /** A fresh list of `size` bits, every bit clear. */
  function Empty(size: nat): (bits: Bits)
    ensures |bits| == (size + 7) / 8
    ensures forall i :: 0 <= i < 8 * |bits| ==> !Bit(bits, i)
  {
    seq((size + 7) / 8, _ => 0)
  }

  /** setBit: decodes into a buffer, writes one byte in place, encodes it again.
      None stands for the error thrown for an index outside the buffer. */
  method SetBit(encoded: Bits, index: int, on: bool) returns (r: Option<Bits>)
    ensures r == SetBitSpec(encoded, index, on)
  {
    var buffer := new bv8[|encoded|](i requires 0 <= i < |encoded| => encoded[i]);
    assert buffer[..] == encoded;
    var byteIndex := index / 8;
    var bitIndex := index % 8;
    if !(0 <= byteIndex < buffer.Length) {
      return None;
    }
    var byte := buffer[byteIndex];
    buffer[byteIndex] := Written(byte, bitIndex, on);
    assert buffer[..] == encoded[byteIndex := Written(byte, bitIndex, on)];
    return Some(buffer[..]);
  }

  function SetBitSpec(encoded: Bits, index: int, on: bool): Option<Bits> {
    if 0 <= index < 8 * |encoded| then Some(Flipped(encoded, index, on)) else None
  }

  /** getBit; None for an index outside the buffer. */
  function GetBit(encoded: Bits, index: int): Option<bool> {
    if 0 <= index < 8 * |encoded|
    then Some((encoded[index / 8] >> (7 - index % 8)) & 1 == 1)
    else None
  }

  /** Reading back by shifting down agrees with the mask that setBit writes. */
  lemma GetBitIsBit(encoded: Bits, index: int)
    requires 0 <= index < 8 * |encoded|
    ensures GetBit(encoded, index) == Some(Bit(encoded, index))
  {
  }

  function Length(encoded: Bits): nat {
    8 * |encoded|
  }

  /** A written bit reads back, every other bit reads as before. */
  lemma WriteThenRead(encoded: Bits, index: int, on: bool, j: int)
    requires 0 <= index < Length(encoded)
    ensures var after := SetBitSpec(encoded, index, on);
            && after.Some?
            && Length(after.value) == Length(encoded)
            && GetBit(after.value, j) == if j == index then Some(on) else GetBit(encoded, j)
  {
  }
}
