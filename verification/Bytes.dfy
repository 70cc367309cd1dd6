/** Bytes, and 16-bit numbers in network byte order. */
module Bytes {
  newtype Byte = b: int | 0 <= b < 256

  const MAX_UINT16 := 0xFFFF

  function Uint16(high: Byte, low: Byte): (n: nat)
    ensures n <= MAX_UINT16 && n / 256 == high as int && n % 256 == low as int
  {
    256 * (high as int) + low as int
  }

  function Bytes16(n: nat): (bytes: seq<Byte>)
    ensures |bytes| == 2
    ensures n <= MAX_UINT16 ==> Uint16(bytes[0], bytes[1]) == n
    ensures n <= MAX_UINT16 ==> bytes[0] as int == n / 256 && bytes[1] as int == n % 256
  {
    [(n / 256 % 256) as Byte, (n % 256) as Byte]
  }

  lemma Bytes16OfUint16(high: Byte, low: Byte)
    ensures Bytes16(Uint16(high, low)) == [high, low]
  {}
}
