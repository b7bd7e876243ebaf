/** The fields of a header byte and of a path length byte, by mask and shift as the decoder reads them
    (backend/internal/meshcore/decode.go). */
module PacketBits {
  import opened PacketCodec

  lemma RouteIsMasked(b: bv8)
    ensures RouteBits(b as byte) == (b & 0x03) as int
  {
  }

  lemma ShiftedByTwo(b: bv8)
    ensures (b >> 2) as int == b as int / 4
  {
  }

  lemma LowFour(c: bv8)
    ensures (c & 0x0F) as int == c as int % 16
  {
  }

  /** Transport codes follow when the two low bits agree: flood and direct with transport. */
  lemma TransportWhenBitsAgree(b: bv8)
    ensures HasTransportCodes(RouteBits(b as byte)) <==> b & 0x03 == 0x00 || b & 0x03 == 0x03
  {
    RouteIsMasked(b);
  }

  lemma TypeIsMasked(b: bv8)
    ensures TypeBits(b as byte) == ((b >> 2) & 0x0F) as int
  {
    ShiftedByTwo(b);
    LowFour(b >> 2);
  }

  lemma VersionIsMasked(b: bv8)
    ensures VersionBits(b as byte) == ((b >> 6) & 0x03) as int
  {
  }

  lemma SizeIsShifted(b: bv8)
    ensures SizeBits(b as byte) == (b >> 6) as int + 1
  {
  }

  lemma HopsAreMasked(b: bv8)
    ensures HopBits(b as byte) == (b & 0x3F) as int
  {
  }

  /** All of them together. */
  lemma BytesAreMasked(b: bv8)
    ensures RouteBits(b as byte) == (b & 0x03) as int
    ensures TypeBits(b as byte) == ((b >> 2) & 0x0F) as int
    ensures VersionBits(b as byte) == ((b >> 6) & 0x03) as int
    ensures SizeBits(b as byte) == (b >> 6) as int + 1
    ensures HopBits(b as byte) == (b & 0x3F) as int
    ensures HasTransportCodes(RouteBits(b as byte)) <==> b & 0x03 == 0x00 || b & 0x03 == 0x03
  {
    TransportWhenBitsAgree(b);
    RouteIsMasked(b);
    TypeIsMasked(b);
    VersionIsMasked(b);
    SizeIsShifted(b);
    HopsAreMasked(b);
  }
}
