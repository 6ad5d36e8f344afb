/** Bytes and the fixed-width integers stored in them. */
module Bytes {

  type byte = b: int | 0 <= b < 256

  const SPACE: byte := 0x20
  const DOT: byte := 0x2E

  /** A C string: no zero byte before its end. */
  type CString = s: seq<byte> | 0 !in s witness []

  const TWO16 := 0x1_0000
  const TWO32 := 0x1_0000_0000

  /** Little-endian 16-bit word at offset `o`. */
  function Le16(b: seq<byte>, o: nat): (v: nat)
    requires o + 2 <= |b|
    ensures v < TWO16
  {
    b[o] as int + 256 * (b[o + 1] as int)
  }

  /** Little-endian 32-bit word at offset `o`. */
  function Le32(b: seq<byte>, o: nat): (v: nat)
    requires o + 4 <= |b|
    ensures v < TWO32
  {
    Le16(b, o) + TWO16 * Le16(b, o + 2)
  }

  /** Big-endian 16-bit word at offset `o`. */
  function Be16(b: seq<byte>, o: nat): (v: nat)
    requires o + 2 <= |b|
    ensures v < TWO16
  {
    256 * (b[o] as int) + b[o + 1] as int
  }

  /** Big-endian 32-bit word at offset `o`. */
  function Be32(b: seq<byte>, o: nat): (v: nat)
    requires o + 4 <= |b|
    ensures v < TWO32
  {
    TWO16 * Be16(b, o) + Be16(b, o + 2)
  }

  function ToLe16(v: nat): (b: seq<byte>)
    requires v < TWO16
    ensures |b| == 2 && Le16(b, 0) == v
  {
    [v % 256, v / 256]
  }

  function ToLe32(v: nat): (b: seq<byte>)
    requires v < TWO32
    ensures |b| == 4 && Le32(b, 0) == v
  {
    ToLe16(v % TWO16) + ToLe16(v / TWO16)
  }

  function ToBe16(v: nat): (b: seq<byte>)
    requires v < TWO16
    ensures |b| == 2 && Be16(b, 0) == v
  {
    [v / 256, v % 256]
  }

  function ToBe32(v: nat): (b: seq<byte>)
    requires v < TWO32
    ensures |b| == 4 && Be32(b, 0) == v
  {
    ToBe16(v / TWO16) + ToBe16(v % TWO16)
  }

  /** The first byte is the high one. */
  lemma ToBe16Bytes(v: nat)
    requires v < TWO16
    ensures 256 * (ToBe16(v)[0] as int) + ToBe16(v)[1] as int == v
  {
  }

  lemma ToBe32Bytes(v: nat)
    requires v < TWO32
    ensures var b := ToBe32(v);
            0x100_0000 * (b[0] as int) + 0x1_0000 * (b[1] as int) + 0x100 * (b[2] as int) + b[3] as int == v
  {
    ToBe16Bytes(v / TWO16);
    ToBe16Bytes(v % TWO16);
    hide ToBe16;
  }

  lemma ToLeBytes(v: nat)
    requires v < TWO32
    ensures v < TWO16 ==> ToLe16(v)[0] as int + 0x100 * (ToLe16(v)[1] as int) == v
    ensures var b := ToLe32(v);
            b[0] as int + 0x100 * (b[1] as int) + 0x1_0000 * (b[2] as int) + 0x100_0000 * (b[3] as int) == v
  {
  }
}
