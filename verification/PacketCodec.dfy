/** The wire format of mesh packets and adverts (backend/internal/meshcore/decode.go). */
module PacketCodec {

  newtype byte = x: int | 0 <= x < 256

  datatype Result<T> = Ok(value: T) | Err(error: Error)

  datatype Error = TooShort | TooShortForTransport | MissingPathLength | PathTooShort

  /** The fields of a packet as they lie on the wire. */
  datatype Fields = Fields(
    routeType: int, payloadType: int, payloadVersion: int, transportCodes: seq<byte>,
    hashSize: int, hopCount: int, path: seq<byte>, payload: seq<byte>)

  datatype ParsedPacket = ParsedPacket(fields: Fields, rawHex: string, pathChunks: seq<string>, invalidForMap: bool)

  const ROUTE_TRANSPORT_FLOOD := 0
  const ROUTE_TRANSPORT_DIRECT := 3
  const PAYLOAD_TRACE := 9

  predicate HasTransportCodes(routeType: int) {
    routeType == ROUTE_TRANSPORT_FLOOD || routeType == ROUTE_TRANSPORT_DIRECT
  }

  // ---------------------------------------------------------------------------
  // The layout
  // ---------------------------------------------------------------------------

  predicate WellFormed(f: Fields) {
    && 0 <= f.routeType < 4 && 0 <= f.payloadType < 16 && 0 <= f.payloadVersion < 4
    && |f.transportCodes| == (if HasTransportCodes(f.routeType) then 4 else 0)
    && 1 <= f.hashSize <= 4 && 0 <= f.hopCount < 64 && |f.path| == f.hashSize * f.hopCount
  }

  /** Header bits: version, payload type, route type. */
  function Header(f: Fields): byte
    requires WellFormed(f)
  {
    (f.payloadVersion * 64 + f.payloadType * 4 + f.routeType) as byte
  }

  function PathLength(f: Fields): byte
    requires WellFormed(f)
  {
    ((f.hashSize - 1) * 64 + f.hopCount) as byte
  }

  function Layout(f: Fields): seq<byte>
    requires WellFormed(f)
  {
    [Header(f)] + f.transportCodes + [PathLength(f)] + f.path + f.payload
  }

  function RouteBits(b: byte): int { b as int % 4 }

  function TypeBits(b: byte): int { b as int / 4 % 16 }

  function VersionBits(b: byte): int { b as int / 64 % 4 }

  function SizeBits(b: byte): int { b as int / 64 + 1 }

  function HopBits(b: byte): int { b as int % 64 }

  lemma HeaderFromBits(b: byte)
    ensures VersionBits(b) * 64 + TypeBits(b) * 4 + RouteBits(b) == b as int
    ensures 0 <= VersionBits(b) < 4 && 0 <= TypeBits(b) < 16 && 0 <= RouteBits(b) < 4
  {
    var n := b as int;
    assert n / 4 / 16 == n / 64;
  }

  lemma PathLengthRoundTrip(size: int, hops: int)
    requires 1 <= size <= 4 && 0 <= hops < 64
    ensures var b := ((size - 1) * 64 + hops) as byte; SizeBits(b) == size && HopBits(b) == hops
  {
  }

  lemma PathLengthFromBits(b: byte)
    ensures (SizeBits(b) - 1) * 64 + HopBits(b) == b as int && 1 <= SizeBits(b) <= 4 && 0 <= HopBits(b) < 64
  {
  }

  // ---------------------------------------------------------------------------
  // Hexadecimal text and path chunks
  // ---------------------------------------------------------------------------

  function HexDigit(n: int): char
    requires 0 <= n < 16
  {
    "0123456789ABCDEF"[n]
  }

  function Hex(bytes: seq<byte>): string {
    if bytes == [] then ""
    else
      var b := bytes[|bytes| - 1] as int;
      Hex(bytes[..|bytes| - 1]) + [HexDigit(b / 16), HexDigit(b % 16)]
  }

  lemma {:induction false} HexConcat(a: seq<byte>, b: seq<byte>)
    ensures Hex(a + b) == Hex(a) + Hex(b)
  {
    if b == [] {
      assert a + b == a;
    } else {
      assert (a + b)[..|a + b| - 1] == a + b[..|b| - 1];
      HexConcat(a, b[..|b| - 1]);
    }
  }

  lemma {:induction false} HexLength(a: seq<byte>)
    ensures |Hex(a)| == 2 * |a|
  {
    if a != [] { HexLength(a[..|a| - 1]); }
  }

  /** The value a hexadecimal digit stands for, -1 for any other character. */
  function DigitValue(c: char): int {
    if '0' <= c <= '9' then c as int - '0' as int
    else if 'A' <= c <= 'F' then c as int - 'A' as int + 10
    else -1
  }

  lemma DigitStandsFor(n: int)
    requires 0 <= n < 16
    ensures DigitValue(HexDigit(n)) == n
  {
  }

  /** Each byte is written as two digits, the high one first. */
  lemma {:induction false} HexDigits(a: seq<byte>, k: nat)
    requires k < |a|
    ensures |Hex(a)| == 2 * |a|
    ensures var high, low := DigitValue(Hex(a)[2 * k]), DigitValue(Hex(a)[2 * k + 1]);
            0 <= high && 0 <= low && a[k] as int == 16 * high + low
  {
    var n := |a| - 1;
    HexLength(a);
    HexLength(a[..n]);
    DigitStandsFor(a[n] as int / 16);
    DigitStandsFor(a[n] as int % 16);
    if k < n { HexDigits(a[..n], k); }
  }

  /** Hexadecimal text determines its bytes. */
  lemma HexInjective(a: seq<byte>, b: seq<byte>)
    requires Hex(a) == Hex(b)
    ensures a == b
  {
    HexLength(a);
    HexLength(b);
    forall k | 0 <= k < |a| ensures a[k] == b[k] {
      HexDigits(a, k);
      HexDigits(b, k);
    }
  }

  function Joined(chunks: seq<string>): string {
    if chunks == [] then "" else Joined(chunks[..|chunks| - 1]) + chunks[|chunks| - 1]
  }

  /** The chunks are whole and join to the first i bytes of the path. */
  ghost predicate Chunked(out: seq<string>, path: seq<byte>, size: int, i: int) {
    && 0 <= i <= |path| && i == size * |out| && Joined(out) == Hex(path[..i])
    && forall k | 0 <= k < |out| :: |out[k]| == 2 * size
  }

  lemma JoinedSnoc(out: seq<string>, chunk: string)
    ensures Joined(out + [chunk]) == Joined(out) + chunk
  {
    assert (out + [chunk])[..|out|] == out;
  }

  lemma ChunkSnoc(out: seq<string>, path: seq<byte>, size: int, i: int)
    requires size > 0 && Chunked(out, path, size, i) && i + size <= |path|
    ensures Chunked(out + [Hex(path[i..i + size])], path, size, i + size)
  {
    HexLength(path[i..i + size]);
    HexConcat(path[..i], path[i..i + size]);
    assert path[..i] + path[i..i + size] == path[..i + size];
    JoinedSnoc(out, Hex(path[i..i + size]));
    OneMore(size, |out|);
  }

  /** chunkPath: whole chunks from the front, as many as fit; the bytes of a last partial one are
      left out. */
  method ChunkPath(path: seq<byte>, hashSize: int) returns (out: seq<string>)
    ensures hashSize <= 0 ==> out == []
    ensures hashSize > 0 ==>
              && hashSize * |out| <= |path| < hashSize * |out| + hashSize
              && Joined(out) == Hex(path[..hashSize * |out|])
    ensures forall k | 0 <= k < |out| :: |out[k]| == 2 * hashSize
  {
    out := [];
    if hashSize <= 0 || |path| == 0 { return; }
    var i := 0;
    while i + hashSize <= |path|
      invariant Chunked(out, path, hashSize, i)
      decreases |path| - i
    {
      ChunkSnoc(out, path, hashSize, i);
      out := out + [Hex(path[i..i + hashSize])];
      i := i + hashSize;
    }
  }

  lemma OneMore(size: int, count: int)
    ensures size * (count + 1) == size * count + size
  {
  }

  lemma TimesOrder(size: int, a: int, b: int)
    requires size > 0 && a <= b
    ensures size * a <= size * b
  {
    assert size * (b - a) >= 0;
  }

  // ---------------------------------------------------------------------------
  // Parsing
  // ---------------------------------------------------------------------------

  predicate Reads(p: ParsedPacket, f: Fields) {
    && p.fields == f && p.invalidForMap == (f.hashSize == 4 && f.payloadType != PAYLOAD_TRACE)
    && |p.pathChunks| == f.hopCount && Joined(p.pathChunks) == Hex(f.path)
    && forall k | 0 <= k < |p.pathChunks| :: |p.pathChunks[k]| == 2 * f.hashSize
  }

  /** The fields of a raw packet whose path length byte sits at `at`. */
  function FieldsAt(raw: seq<byte>, at: int): Fields
    requires 1 <= at < |raw| && at + 1 + SizeBits(raw[at]) * HopBits(raw[at]) <= |raw|
             && SizeBits(raw[at]) * HopBits(raw[at]) >= 0
  {
    var n := SizeBits(raw[at]) * HopBits(raw[at]);
    Fields(RouteBits(raw[0]), TypeBits(raw[0]), VersionBits(raw[0]), raw[1..at], SizeBits(raw[at]), HopBits(raw[at]),
           raw[at + 1..at + 1 + n], raw[at + 1 + n..])
  }

  function PathAt(raw: seq<byte>): int
    requires raw != []
  {
    if HasTransportCodes(RouteBits(raw[0])) then 5 else 1
  }

  lemma PathBytesBound(b: byte)
    ensures 0 <= SizeBits(b) * HopBits(b)
  {
    PathLengthFromBits(b);
  }

  /** What the parser reads is laid out as it came. */
  lemma FieldsRebuild(raw: seq<byte>)
    requires raw != [] && PathAt(raw) < |raw|
    requires var b := raw[PathAt(raw)];
             0 <= SizeBits(b) * HopBits(b) && PathAt(raw) + 1 + SizeBits(b) * HopBits(b) <= |raw|
    ensures var f := FieldsAt(raw, PathAt(raw)); WellFormed(f) && Layout(f) == raw
  {
    var at := PathAt(raw);
    var f := FieldsAt(raw, at);
    HeaderFromBits(raw[0]);
    PathLengthFromBits(raw[at]);
    InPieces(raw, at, SizeBits(raw[at]) * HopBits(raw[at]));
  }

  lemma InPieces(raw: seq<byte>, at: nat, n: nat)
    requires 1 <= at && at + 1 + n <= |raw|
    ensures raw == [raw[0]] + raw[1..at] + [raw[at]] + raw[at + 1..at + 1 + n] + raw[at + 1 + n..]
  {
  }

  lemma PiecesOf(head: byte, codes: seq<byte>, length: byte, path: seq<byte>, payload: seq<byte>)
    ensures var raw, at := [head] + codes + [length] + path + payload, 1 + |codes|;
            && raw[0] == head && raw[1..at] == codes && raw[at] == length
            && raw[at + 1..at + 1 + |path|] == path && raw[at + 1 + |path|..] == payload
  {
  }

  /** Any well-formed fields laid out as the raw bytes are the ones the parser reads. */
  lemma FieldsDetermined(raw: seq<byte>, f: Fields)
    requires WellFormed(f) && Layout(f) == raw
    ensures raw != [] && PathAt(raw) < |raw|
    ensures var b := raw[PathAt(raw)];
            0 <= SizeBits(b) * HopBits(b) && PathAt(raw) + 1 + SizeBits(b) * HopBits(b) <= |raw|
    ensures FieldsAt(raw, PathAt(raw)) == f
  {
    PathLengthRoundTrip(f.hashSize, f.hopCount);
    PiecesOf(Header(f), f.transportCodes, PathLength(f), f.path, f.payload);
  }

  predicate Accepts(raw: seq<byte>) {
    && |raw| >= 2 && PathAt(raw) < |raw|
    && 0 <= SizeBits(raw[PathAt(raw)]) * HopBits(raw[PathAt(raw)]) <= |raw| - PathAt(raw) - 1
  }

  /** Why bytes are refused. A missing path length is never the reason: the earlier checks see it. */
  predicate Explains(raw: seq<byte>, error: Error) {
    match error
    case TooShort => |raw| < 2
    case TooShortForTransport => 2 <= |raw| < 6 && HasTransportCodes(RouteBits(raw[0]))
    case MissingPathLength => false
    case PathTooShort =>
      && 2 <= |raw| && PathAt(raw) < |raw|
      && |raw| < PathAt(raw) + 1 + SizeBits(raw[PathAt(raw)]) * HopBits(raw[PathAt(raw)])
  }

  method ParsePacket(raw: seq<byte>) returns (r: Result<ParsedPacket>)
    // accepted exactly when some well-formed fields are laid out as these bytes, and read as those
    ensures r.Ok? ==> WellFormed(r.value.fields) && Layout(r.value.fields) == raw && Reads(r.value, r.value.fields)
    ensures r.Ok? ==> r.value.rawHex == Hex(raw)
    // reserved: four-byte path hashes, but in a trace
    ensures r.Ok? ==> (r.value.invalidForMap <==> r.value.fields.hashSize == 4 && r.value.fields.payloadType != 9)
    ensures forall f | WellFormed(f) && Layout(f) == raw :: r.Ok? && r.value.fields == f
    ensures r.Err? ==> Explains(raw, r.error)
  {
    forall f | WellFormed(f) && Layout(f) == raw ensures Accepts(raw) && FieldsAt(raw, PathAt(raw)) == f {
      FieldsDetermined(raw, f);
    }
    if |raw| < 2 { return Err(TooShort); }
    var header := raw[0];
    var routeType, payloadType, payloadVersion := RouteBits(header), TypeBits(header), VersionBits(header);
    var offset := 1;
    var transport: seq<byte> := [];
    if HasTransportCodes(routeType) {
      if |raw| < offset + 4 + 1 { return Err(TooShortForTransport); }
      transport := raw[offset..offset + 4];
      offset := offset + 4;
    }
    if |raw| < offset + 1 { return Err(MissingPathLength); }
    var pathLength := raw[offset];
    offset := offset + 1;
    var hashSize, hopCount := SizeBits(pathLength), HopBits(pathLength);
    PathLengthFromBits(pathLength);
    PathBytesBound(pathLength);
    var pathBytesLen := hashSize * hopCount;
    if |raw| < offset + pathBytesLen { return Err(PathTooShort); }
    var path := raw[offset..offset + pathBytesLen];
    offset := offset + pathBytesLen;
    FieldsRebuild(raw);
    var chunks := ChunkPath(path, hashSize);
    ChunkCount(hashSize, |chunks|, hopCount);
    assert path[..|path|] == path;
    var fields := Fields(routeType, payloadType, payloadVersion, transport, hashSize, hopCount, path, raw[offset..]);
    r := Ok(ParsedPacket(fields, Hex(raw), chunks, hashSize == 4 && payloadType != PAYLOAD_TRACE));
  }

  /** A path of whole hops leaves no partial chunk. */
  lemma ChunkCount(size: int, count: int, hops: int)
    requires size > 0 && size * count <= size * hops < size * count + size
    ensures count == hops
  {
    if count < hops {
      TimesOrder(size, count + 1, hops);
      OneMore(size, count);
    } else if hops < count {
      TimesOrder(size, hops + 1, count);
      OneMore(size, hops);
    }
  }

  /** Two well-formed packets with the same bytes are the same. */
  lemma LayoutInjective(f: Fields, g: Fields)
    requires WellFormed(f) && WellFormed(g) && Layout(f) == Layout(g)
    ensures f == g
  {
    FieldsDetermined(Layout(f), f);
    FieldsDetermined(Layout(f), g);
  }
}
