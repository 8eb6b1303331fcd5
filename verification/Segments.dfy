// Segments of the modern layout: section 2 of the Cassandra native protocol v5 (native_protocol_v5.spec),
// as built and read by frame.go:2453-2664.
module Segments {
  import opened Common
  import opened Bytes
  import opened Crc

  const MAX_PAYLOAD := 0x1FFFF

  type uint32 = x: int | 0 <= x < 0x1_0000_0000

  datatype Codec = Codec(compress: bytes -> Result<bytes>, decompress: (bytes, nat) -> Result<bytes>)

  /** What the connection was set up with: CRC-32 (IEEE) and the negotiated compressor. */
  datatype Env = Env(ieee: bytes -> uint32, codec: Option<Codec>)

  ghost predicate CodecOk(env: Env) {
    env.codec.Some? ==> forall x: bytes :: env.codec.value.compress(x).Ok? ==>
      env.codec.value.decompress(env.codec.value.compress(x).value, |x|) == Ok(x)
  }

  function Crc32(env: Env, b: bytes): uint32 {
    (env.ieee)([0xfa, 0x2d, 0x55, 0xca] + b)
  }

  // ---------------------------------------------------------------- little-endian fields

  /** The low n bytes of x, least significant first. */
  function Le(x: nat, n: nat): (r: bytes)
    ensures |r| == n
  {
    if n == 0 then [] else [x % 256] + Le(x / 256, n - 1)
  }

  function FromLe(s: bytes): nat {
    if s == [] then 0 else s[0] + 256 * FromLe(s[1..])
  }

  lemma {:induction false} LeRoundTrip(x: nat, n: nat)
    requires x < Pow256(n)
    ensures FromLe(Le(x, n)) == x
  {
    if n > 0 {
      assert Le(x, n)[1..] == Le(x / 256, n - 1);
      LeRoundTrip(x / 256, n - 1);
    }
  }

  function LowByte(x: bv32): byte {
    ((x & 0xFF) as bv8) as int
  }

  /** The checksum's three low bytes, least significant first. */
  function CrcBytes(crc: bv32): (r: bytes)
    ensures |r| == 3
  {
    [LowByte(crc), LowByte(crc >> (8 as bv6)), LowByte(crc >> (16 as bv6))]
  }

  function Join(a: bv32, b: bv32, c: bv32): bv32 {
    (a | (b << (8 as bv6))) | (c << (16 as bv6))
  }

  function CrcFrom(s: bytes): bv32
    requires |s| == 3
  {
    Join(Low(s[0]), Low(s[1]), Low(s[2]))
  }

  lemma CrcParts(crc: bv32)
    requires Is24(crc)
    ensures Join(crc & 0xFF, (crc >> (8 as bv6)) & 0xFF, (crc >> (16 as bv6)) & 0xFF) == crc
  {
  }

  lemma LowOfByte(x: bv32)
    ensures Low(LowByte(x)) == x & 0xFF
  {
    BitsByte((x & 0xFF) as bv8);
  }

  lemma CrcRoundTrip(crc: bv32)
    requires Is24(crc)
    ensures CrcFrom(CrcBytes(crc)) == crc
  {
    hide Low, Is24, LowByte, Join;
    LowOfByte(crc);
    LowOfByte(crc >> (8 as bv6));
    LowOfByte(crc >> (16 as bv6));
    CrcParts(crc);
  }

  // ---------------------------------------------------------------- building a segment

  const SELF_CONTAINED := 0x20000

  /** A header and a body, each followed by its checksum. */
  function Seal(env: Env, header: bytes, body: bytes): (r: bytes)
    ensures |r| == |header| + 3 + |body| + 4
  {
    header + CrcBytes(Crc24Of(header)) + body + Le(Crc32(env, body), 4)
  }

  /** Payload lengths are below 2^17, so setting a flag above them is an addition. */
  function Uncompressed(env: Env, payload: bytes, selfContained: bool): bytes {
    Seal(env, Le(|payload| + (if selfContained then SELF_CONTAINED else 0), 3), payload)
  }

  function Compressed(env: Env, body: bytes, uncompressedLen: nat, selfContained: bool): bytes {
    Seal(env, Le(|body| + uncompressedLen * 0x20000 + (if selfContained then 0x4_0000_0000 else 0), 5), body)
  }

  function Encode(env: Env, payload: bytes, selfContained: bool): Result<bytes> {
    if |payload| > MAX_PAYLOAD then Err
    else if env.codec.None? then Ok(Uncompressed(env, payload, selfContained))
    else
      match (env.codec.value.compress)(payload)
      case Err => Err
      case Ok(z) =>
        if |payload| < |z| then Ok(Compressed(env, payload, 0, selfContained))
        else Ok(Compressed(env, z, |payload|, selfContained))
  }

  method NewUncompressedSegment(env: Env, payload: bytes, selfContained: bool) returns (r: Result<bytes>)
    ensures r == if |payload| > MAX_PAYLOAD then Err else Ok(Uncompressed(env, payload, selfContained))
  {
    hide Crc24Of, Le, CrcBytes, Crc32;
    if |payload| > MAX_PAYLOAD {
      return Err;
    }
    var n := |payload|;
    var segment := new byte[6 + n + 4];
    var headerInt := n + if selfContained then SELF_CONTAINED else 0;
    segment[0], segment[1], segment[2] := headerInt % 256, headerInt / 256 % 256, headerInt / 65536 % 256;
    Le3(headerInt);
    assert segment[..3] == Le(headerInt, 3);
    var crc := Crc24(segment[..3]);
    var crcBytes := CrcBytes(crc);
    segment[3], segment[4], segment[5] := crcBytes[0], crcBytes[1], crcBytes[2];
    forall i | 0 <= i < n {
      segment[6 + i] := payload[i];
    }
    var sum := Le(Crc32(env, payload), 4);
    forall i | 0 <= i < 4 {
      segment[6 + n + i] := sum[i];
    }
    assert segment[..3] == Le(headerInt, 3) && segment[3..6] == crcBytes;
    assert segment[6..6 + n] == payload && segment[6 + n..] == sum;
    assert segment[..] == segment[..3] + segment[3..6] + segment[6..6 + n] + segment[6 + n..];
    return Ok(segment[..]);
  }

  lemma Le3(x: nat)
    ensures Le(x, 3) == [x % 256, x / 256 % 256, x / 65536 % 256]
  {
    assert Le(x / 65536, 1) == [x / 65536 % 256] + Le(x / 65536 / 256, 0);
    assert x / 256 / 256 == x / 65536;
    assert Le(x / 256, 2) == [x / 256 % 256] + Le(x / 65536, 1);
  }

  method NewCompressedSegment(env: Env, payload: bytes, selfContained: bool) returns (r: Result<bytes>)
    requires env.codec.Some?
    ensures r == Encode(env, payload, selfContained)
  {
    hide Crc24Of, Le, CrcBytes, Crc32;
    var uncompressedLen := |payload|;
    if uncompressedLen > MAX_PAYLOAD {
      return Err;
    }
    var compressed := (env.codec.value.compress)(payload);
    if compressed.Err? {
      return Err;
    }
    var body := compressed.value;
    if uncompressedLen < |body| {
      body, uncompressedLen := payload, 0;
    }
    var combined := |body| + uncompressedLen * 0x20000 + if selfContained then 0x4_0000_0000 else 0;
    var buf := Le(combined, 5);
    var crc := Crc24(buf);
    buf := buf + CrcBytes(crc);
    buf := buf + body;
    buf := buf + Le(Crc32(env, body), 4);
    return Ok(buf);
  }

  // ---------------------------------------------------------------- reading a segment

  datatype Read = Got(payload: bytes, selfContained: bool, rest: bytes) | Failed

  /** The header of n bytes at the front, when its checksum holds. */
  function Header(s: bytes, n: nat): (r: Result<bytes>)
    ensures r.Ok? ==> |r.value| == n <= |s| - 3 && r.value == s[..n]
  {
    if |s| < n + 3 || CrcFrom(s[n..n + 3]) != Crc24Of(s[..n]) then Err else Ok(s[..n])
  }

  function Body(env: Env, s: bytes, n: nat, selfContained: bool): Read {
    if |s| < n + 4 || FromLe(s[n..n + 4]) != Crc32(env, s[..n]) then Failed
    else Got(s[..n], selfContained, s[n + 4..])
  }

  function DecodeUncompressed(env: Env, s: bytes): Read {
    match Header(s, 3)
    case Err => Failed
    case Ok(h) => Body(env, s[6..], FromLe(h) % 0x20000, FromLe(h) / 0x20000 % 2 == 1)
  }

  /** The first 17 bits of a compressed header. */
  function CompressedLen(h: bytes): nat
    requires |h| == 5
  {
    h[0] as int + 256 * (h[1] as int) + 65536 * (h[2] as int % 2)
  }

  /** The next 17 bits. */
  function UncompressedLen(h: bytes): nat
    requires |h| == 5
  {
    h[2] as int / 2 + 128 * (h[3] as int) + 32768 * (h[4] as int % 4)
  }

  function DecodeCompressed(env: Env, codec: Codec, s: bytes): Read {
    match Header(s, 5)
    case Err => Failed
    case Ok(h) =>
      match Body(env, s[8..], CompressedLen(h), h[4] / 4 % 2 == 1)
      case Failed => Failed
      case Got(body, selfContained, rest) => Inflate(codec, body, UncompressedLen(h), selfContained, rest)
  }

  function Inflate(codec: Codec, body: bytes, uncompressedLen: nat, selfContained: bool, rest: bytes): Read {
    if uncompressedLen == 0 then Got(body, selfContained, rest)
    else
      match (codec.decompress)(body, uncompressedLen)
      case Err => Failed
      case Ok(payload) => if |payload| != uncompressedLen then Failed else Got(payload, selfContained, rest)
  }

  function Decode(env: Env, s: bytes): Read {
    match env.codec
    case None => DecodeUncompressed(env, s)
    case Some(codec) => DecodeCompressed(env, codec, s)
  }

  /** Every segment read takes bytes off the wire. */
  lemma DecodeConsumes(env: Env, s: bytes)
    ensures Decode(env, s).Got? ==> |Decode(env, s).rest| < |s|
  {
    hide Crc24Of, FromLe, CrcFrom, Crc32;
  }

  // ---------------------------------------------------------------- round trip

  lemma HeaderOfSeal(env: Env, h: bytes, body: bytes, rest: bytes)
    ensures Header(Seal(env, h, body) + rest, |h|) == Ok(h)
    ensures (Seal(env, h, body) + rest)[|h| + 3..] == body + Le(Crc32(env, body), 4) + rest
  {
    hide Update, Is24, CrcFrom, CrcBytes, Crc32, Le;
    var s := Seal(env, h, body) + rest;
    assert s[..|h|] == h && s[|h|..|h| + 3] == CrcBytes(Crc24Of(h));
    InitIs24();
    CrcIs24(CRC24_INIT, h);
    CrcRoundTrip(Crc24Of(h));
  }

  lemma BodyOfSeal(env: Env, body: bytes, rest: bytes, selfContained: bool)
    ensures Body(env, body + Le(Crc32(env, body), 4) + rest, |body|, selfContained) == Got(body, selfContained, rest)
  {
    hide Crc32, Le, FromLe;
    var sum := Le(Crc32(env, body), 4);
    var s := body + sum + rest;
    assert s[..|body|] == body && s[|body|..|body| + 4] == sum && s[|body| + 4..] == rest;
    assert Pow256(4) == 0x1_0000_0000 by { assert Pow256(2) == 65536; }
    LeRoundTrip(Crc32(env, body), 4);
  }

  lemma UncompressedRoundTrip(env: Env, payload: bytes, selfContained: bool, rest: bytes)
    requires |payload| <= MAX_PAYLOAD
    ensures DecodeUncompressed(env, Uncompressed(env, payload, selfContained) + rest)
         == Got(payload, selfContained, rest)
  {
    hide Header, Body, Seal, Le, FromLe, Crc32;
    var n := |payload| + if selfContained then SELF_CONTAINED else 0;
    HeaderOfSeal(env, Le(n, 3), payload, rest);
    assert Pow256(3) == 0x1000000;
    LeRoundTrip(n, 3);
    BodyOfSeal(env, payload, rest, selfContained);
  }

  /** The three fields of a compressed header, put together again. */
  lemma CompressedFields(h: bytes)
    requires |h| == 5
    ensures FromLe(h) == CompressedLen(h) + 0x20000 * UncompressedLen(h) + 0x4_0000_0000 * (h[4] as int / 4)
  {
    assert FromLe(h[4..]) == h[4] + 256 * FromLe(h[4..][1..]) == h[4];
    assert FromLe(h[3..]) == h[3] + 256 * FromLe(h[4..]) by { assert h[3..][1..] == h[4..]; }
    assert FromLe(h[2..]) == h[2] + 256 * FromLe(h[3..]) by { assert h[2..][1..] == h[3..]; }
    assert FromLe(h[1..]) == h[1] + 256 * FromLe(h[2..]) by { assert h[1..][1..] == h[2..]; }
  }

  lemma FieldsUnique(c: nat, u: nat, t: nat, c': nat, u': nat, t': nat)
    requires c < 0x20000 && c' < 0x20000 && u < 0x20000 && u' < 0x20000
    requires c + 0x20000 * u + 0x4_0000_0000 * t == c' + 0x20000 * u' + 0x4_0000_0000 * t'
    ensures c == c' && u == u' && t == t'
  {
  }

  lemma CompressedHeader(c: nat, u: nat, selfContained: bool)
    requires c <= MAX_PAYLOAD && u <= MAX_PAYLOAD
    ensures var h := Le(c + u * 0x20000 + (if selfContained then 0x4_0000_0000 else 0), 5);
      CompressedLen(h) == c && UncompressedLen(h) == u
      && (h[4] / 4 % 2 == 1) == selfContained
  {
    hide Le, FromLe;
    var n := c + u * 0x20000 + if selfContained then 0x4_0000_0000 else 0;
    assert Pow256(5) == 0x100_0000_0000 by { assert Pow256(3) == 0x1000000; }
    LeRoundTrip(n, 5);
    var h := Le(n, 5);
    CompressedFields(h);
    FieldsUnique(c, u, if selfContained then 1 else 0,
      CompressedLen(h), UncompressedLen(h), h[4] as int / 4);
  }

  lemma CompressedRoundTrip(env: Env, codec: Codec, body: bytes, uncompressedLen: nat, selfContained: bool, rest: bytes)
    requires |body| <= MAX_PAYLOAD && uncompressedLen <= MAX_PAYLOAD
    ensures DecodeCompressed(env, codec, Compressed(env, body, uncompressedLen, selfContained) + rest)
         == Inflate(codec, body, uncompressedLen, selfContained, rest)
  {
    hide Header, Body, Seal, Le, FromLe, Crc32, Inflate;
    var h := Le(|body| + uncompressedLen * 0x20000 + (if selfContained then 0x4_0000_0000 else 0), 5);
    HeaderOfSeal(env, h, body, rest);
    CompressedHeader(|body|, uncompressedLen, selfContained);
    BodyOfSeal(env, body, rest, selfContained);
  }

  /** w is a segment for this payload, however the peer compresses. */
  ghost predicate Encodes(env: Env, w: bytes, payload: bytes, selfContained: bool) {
    && |payload| <= MAX_PAYLOAD
    && match env.codec
       case None => w == Uncompressed(env, payload, selfContained)
       case Some(codec) =>
         && |w| >= 12
         && var body := w[8..|w| - 4];
            && |body| <= MAX_PAYLOAD
            && (|| (body == payload && w == Compressed(env, body, 0, selfContained))
                || (payload != [] && (codec.decompress)(body, |payload|) == Ok(payload)
                    && w == Compressed(env, body, |payload|, selfContained)))
  }

  lemma DecodeEncodes(env: Env, w: bytes, payload: bytes, selfContained: bool, rest: bytes)
    requires Encodes(env, w, payload, selfContained)
    ensures Decode(env, w + rest) == Got(payload, selfContained, rest)
  {
    hide Compressed, Uncompressed, DecodeCompressed, DecodeUncompressed;
    match env.codec
    case None => UncompressedRoundTrip(env, payload, selfContained, rest);
    case Some(codec) =>
      var body := w[8..|w| - 4];
      CompressedRoundTrip(env, codec, body, 0, selfContained, rest);
      CompressedRoundTrip(env, codec, body, |payload|, selfContained, rest);
  }

  lemma CompressedBody(env: Env, body: bytes, uncompressedLen: nat, selfContained: bool)
    ensures var w := Compressed(env, body, uncompressedLen, selfContained); |w| == |body| + 12 && w[8..|w| - 4] == body
  {
    hide CrcBytes, Crc24Of, Le, Crc32;
  }

  /** What the driver writes is such a segment. */
  lemma EncodeEncodes(env: Env, payload: bytes, selfContained: bool)
    requires CodecOk(env) && Encode(env, payload, selfContained).Ok?
    ensures Encodes(env, Encode(env, payload, selfContained).value, payload, selfContained)
  {
    hide Compressed, Uncompressed;
    match env.codec
    case None =>
    case Some(codec) =>
      var z := (codec.compress)(payload).value;
      CompressedBody(env, payload, 0, selfContained);
      CompressedBody(env, z, |payload|, selfContained);
  }

  // ---------------------------------------------------------------- what the header checksum stops

  lemma HeaderRejected(h: bytes, bad: bytes, s: bytes, before: bytes, x: bytes, y: bytes, after: bytes)
    requires h == before + x + after && bad == before + y + after && |x| == |y| <= 3 && x != y
    requires |s| >= |h| + 3 && s[..|h|] == bad && s[|h|..|h| + 3] == CrcBytes(Crc24Of(h))
    ensures Header(s, |h|) == Err
  {
    hide Update, CrcBytes, CrcFrom, Is24;
    InitIs24();
    CrcIs24(CRC24_INIT, h);
    CrcRoundTrip(Crc24Of(h));
    BurstDetected(before, x, y, after);
  }

  /** Changing a header within three consecutive bytes is always noticed; an uncompressed
      segment's header is only that long. */
  lemma DamagedHeaderFails(env: Env, payload: bytes, selfContained: bool, bad: bytes, rest: bytes)
    requires env.codec.None? && |bad| == 3
    requires bad != Uncompressed(env, payload, selfContained)[..3]
    ensures Decode(env, bad + Uncompressed(env, payload, selfContained)[3..] + rest) == Failed
  {
    hide Crc24Of, CrcBytes, Le, Crc32;
    var w := Uncompressed(env, payload, selfContained);
    var h := Le(|payload| + (if selfContained then SELF_CONTAINED else 0), 3);
    var s := bad + w[3..] + rest;
    assert w[..3] == h && w[3..6] == CrcBytes(Crc24Of(h)) && s[..3] == bad && s[3..6] == w[3..6];
    assert h == [] + h + [] && bad == [] + bad + [];
    HeaderRejected(h, bad, s, [], h, bad, []);
  }

  lemma DamagedCompressedHeaderFails(env: Env, body: bytes, uncompressedLen: nat, selfContained: bool,
                                     before: bytes, x: bytes, y: bytes, after: bytes, rest: bytes)
    requires env.codec.Some? && Compressed(env, body, uncompressedLen, selfContained)[..5] == before + x + after
    requires |x| == |y| <= 3 && x != y
    ensures var sealed := Compressed(env, body, uncompressedLen, selfContained)[5..];
      Decode(env, before + y + after + sealed + rest) == Failed
  {
    hide Crc24Of, CrcBytes, Le, Crc32;
    var w := Compressed(env, body, uncompressedLen, selfContained);
    var h := Le(|body| + uncompressedLen * 0x20000 + (if selfContained then 0x4_0000_0000 else 0), 5);
    var bad := before + y + after;
    var s := bad + w[5..] + rest;
    assert w[..5] == h && w[5..8] == CrcBytes(Crc24Of(h));
    assert |bad| == 5 && s[..5] == bad && s[5..8] == w[5..8];
    HeaderRejected(h, bad, s, before, x, y, after);
  }

  // ---------------------------------------------------------------- what the rest of a segment is checked for

  lemma OtherEnd(env: Env, h: bytes, body: bytes, tail: bytes)
    ensures var w := Seal(env, h, body); var s := w[..|w| - |body| - 4] + tail;
      Header(s, |h|) == Ok(h) && s[|h| + 3..] == tail
  {
    hide CrcBytes, Crc24Of, Le, Crc32, CrcFrom;
    HeaderOfSeal(env, h, body, []);
    var w := Seal(env, h, body);
    var s := w[..|h| + 3] + tail;
    assert w + [] == w && s[..|h|] == w[..|h|] && s[|h|..|h| + 3] == w[|h|..|h| + 3];
  }

  /** Another checksum after the payload, or no room for it, and the segment is refused. */
  lemma DamagedBodyFails(env: Env, payload: bytes, selfContained: bool, tail: bytes)
    requires env.codec.None? && |payload| <= MAX_PAYLOAD
    requires |tail| < |payload| + 4 || FromLe(tail[|payload|..|payload| + 4]) != Crc32(env, tail[..|payload|])
    ensures Decode(env, Uncompressed(env, payload, selfContained)[..6] + tail) == Failed
  {
    hide Header, Seal, Le, FromLe, Crc32;
    var n := |payload| + if selfContained then SELF_CONTAINED else 0;
    OtherEnd(env, Le(n, 3), payload, tail);
    assert Pow256(3) == 0x1000000;
    LeRoundTrip(n, 3);
  }

  /** The same with a compressor; and what then does not decompress to the stated length is refused too. */
  lemma DamagedCompressedBodyFails(env: Env, body: bytes, uncompressedLen: nat, selfContained: bool, tail: bytes)
    requires env.codec.Some? && |body| <= MAX_PAYLOAD && uncompressedLen <= MAX_PAYLOAD
    requires |tail| < |body| + 4 || FromLe(tail[|body|..|body| + 4]) != Crc32(env, tail[..|body|])
    ensures Decode(env, Compressed(env, body, uncompressedLen, selfContained)[..8] + tail) == Failed
  {
    hide Header, Seal, Le, FromLe, Crc32, CompressedLen, UncompressedLen;
    OtherEnd(env, Le(|body| + uncompressedLen * 0x20000 + (if selfContained then 0x4_0000_0000 else 0), 5), body, tail);
    CompressedHeader(|body|, uncompressedLen, selfContained);
  }

  lemma BadCompressionFails(env: Env, body: bytes, uncompressedLen: nat, selfContained: bool, rest: bytes)
    requires env.codec.Some? && |body| <= MAX_PAYLOAD && 0 < uncompressedLen <= MAX_PAYLOAD
    requires var r := (env.codec.value.decompress)(body, uncompressedLen); r.Err? || |r.value| != uncompressedLen
    ensures Decode(env, Compressed(env, body, uncompressedLen, selfContained) + rest) == Failed
  {
    hide Compressed, DecodeCompressed;
    CompressedRoundTrip(env, env.codec.value, body, uncompressedLen, selfContained, rest);
  }

  // ---------------------------------------------------------------- the bytes themselves

  lemma LeCons(b: byte, y: nat, n: nat)
    requires n > 0
    ensures Le(b + 256 * y, n) == [b] + Le(y, n - 1)
  {
    assert (b + 256 * y) % 256 == b && (b + 256 * y) / 256 == y;
  }

  lemma LeOne(b: byte)
    ensures Le(b, 1) == [b]
  {
    assert Le(b, 1) == [b % 256] + Le(b / 256, 0);
  }

  /** Bytes in their places. */
  function Places(bs: bytes): nat {
    if bs == [] then 0 else bs[0] + 256 * Places(bs[1..])
  }

  lemma {:induction false} LePlaces(bs: bytes)
    ensures Le(Places(bs), |bs|) == bs
  {
    hide Le;
    if bs == [] {
      assert Le(0, 0) == [] by { LeNone(); }
    } else {
      LePlaces(bs[1..]);
      LeCons(bs[0], Places(bs[1..]), |bs|);
    }
  }

  lemma LeNone()
    ensures Le(0, 0) == []
  {
  }

  lemma Places2(a: byte, b: byte)
    ensures Places([a, b]) == a as int + 256 * (b as int)
  {
    assert [a, b][1..] == [b] && [b][1..] == [];
    assert Places([b]) == b + 256 * Places([]);
  }

  lemma Places3(a: byte, b: byte, c: byte)
    ensures Places([a, b, c]) == a as int + 256 * (b as int) + 65536 * (c as int)
  {
    hide Places;
    Places2(b, c);
    PlacesStep([a, b, c]);
    assert [a, b, c][1..] == [b, c];
  }

  lemma PlacesStep(bs: bytes)
    requires bs != []
    ensures Places(bs) == bs[0] + 256 * Places(bs[1..])
  {
  }

  lemma Places5(a: byte, b: byte, c: byte, d: byte, e: byte)
    ensures Places([a, b, c, d, e])
         == a as int + 256 * (b as int) + 65536 * (c as int) + 0x100_0000 * (d as int) + 0x1_0000_0000 * (e as int)
  {
    hide Places;
    Places3(c, d, e);
    PlacesStep([b, c, d, e]);
    PlacesStep([a, b, c, d, e]);
    assert [a, b, c, d, e][1..] == [b, c, d, e] && [b, c, d, e][1..] == [c, d, e];
  }

  lemma Le4(x: nat)
    requires x < 0x1_0000_0000
    ensures x / 256 / 256 / 256 < 256
    ensures Le(x, 4) == [x % 256, x / 256 % 256, x / 256 / 256 % 256, x / 256 / 256 / 256]
  {
    hide Le;
    var y := x / 256;
    var z := y / 256;
    var w := z / 256;
    assert y < 0x100_0000 && z < 0x1_0000 && w < 256;
    LeCons(x % 256, y, 4);
    LeCons(y % 256, z, 3);
    LeCons(z % 256, w, 2);
    LeOne(w);
  }

  /** Three bytes of header checksum and four of body checksum, both least significant first; CRC-32
      starts from four fixed bytes. */
  lemma SealBytes(env: Env, header: bytes, body: bytes)
    ensures (env.ieee)([0xfa, 0x2d, 0x55, 0xca] + body) / 256 / 256 / 256 < 256
    ensures var c, d := Crc24Of(header), (env.ieee)([0xfa, 0x2d, 0x55, 0xca] + body);
      var c0, c1, c2 := (c & 0xFF) as bv8, ((c >> (8 as bv6)) & 0xFF) as bv8, ((c >> (16 as bv6)) & 0xFF) as bv8;
      Seal(env, header, body) == header + [c0 as int, c1 as int, c2 as int] + body
                                 + [d % 256, d / 256 % 256, d / 256 / 256 % 256, d / 256 / 256 / 256]
  {
    hide Crc24Of, Le;
    Le4(Crc32(env, body));
  }

  lemma ThreeBytes(n: nat, flag: nat)
    requires n <= 131_071 && flag <= 1
    ensures Le(n + flag * 0x20000, 3) == [n % 256, n / 256 % 256, n / 65536 + 2 * flag]
  {
    hide Le, Places;
    Places3(n % 256, n / 256 % 256, n / 65536 + 2 * flag);
    LePlaces([n % 256, n / 256 % 256, n / 65536 + 2 * flag]);
  }

  /** 17 bits of length, the flag above them; least significant byte first. */
  lemma UncompressedHeaderBytes(env: Env, payload: bytes, selfContained: bool)
    requires |payload| <= 131_071
    ensures var n, flag := |payload|, if selfContained then 1 else 0;
      Uncompressed(env, payload, selfContained)[..3] == [n % 256, n / 256 % 256, n / 65536 + 2 * flag]
  {
    hide Le, Crc24Of, CrcBytes, Crc32;
    ThreeBytes(|payload|, if selfContained then 1 else 0);
  }

  lemma LengthParts(n: nat)
    requires n <= 131_071
    ensures n == n % 256 + 256 * (n / 256 % 256) + 65536 * (n / 65536) && n / 65536 < 2
  {
  }

  lemma OtherParts(u: nat)
    requires u <= 131_071
    ensures u == u % 128 + 128 * (u / 128 % 256) + 32768 * (u / 32768) && u / 32768 < 4
  {
  }

  lemma FivePlaced(a: byte, b: byte, c: nat, u: nat, d: byte, e: nat, flag: nat)
    requires c < 2 && u < 128 && e < 4 && flag < 2
    ensures Le((a as int + 256 * (b as int) + 65536 * c) + (u + 128 * (d as int) + 32768 * e) * 0x20000
               + flag * 0x4_0000_0000, 5)
         == [a, b, c + 2 * u, d, e + 4 * flag]
  {
    hide Le, Places;
    Places5(a, b, c + 2 * u, d, e + 4 * flag);
    LePlaces([a, b, c + 2 * u, d, e + 4 * flag]);
  }

  lemma FiveBytes(n: nat, u: nat, flag: nat)
    requires n <= 131_071 && u <= 131_071 && flag <= 1
    ensures Le(n + u * 0x20000 + flag * 0x4_0000_0000, 5)
         == [n % 256, n / 256 % 256, n / 65536 + 2 * (u % 128), u / 128 % 256, u / 32768 + 4 * flag]
  {
    hide Le, Places;
    LengthParts(n);
    OtherParts(u);
    FivePlaced(n % 256, n / 256 % 256, n / 65536, u % 128, u / 128 % 256, u / 32768, flag);
  }

  /** 17 bits of length, 17 bits of length before compression, the flag above them. */
  lemma CompressedHeaderBytes(env: Env, body: bytes, u: nat, selfContained: bool)
    requires |body| <= 131_071 && u <= 131_071
    ensures var n, flag := |body|, if selfContained then 1 else 0;
      Compressed(env, body, u, selfContained)[..5]
      == [n % 256, n / 256 % 256, n / 65536 + 2 * (u % 128), u / 128 % 256, u / 32768 + 4 * flag]
  {
    hide Le, Crc24Of, CrcBytes, Crc32;
    FiveBytes(|body|, u, if selfContained then 1 else 0);
  }

  // ---------------------------------------------------------------- what is read from any bytes

  lemma LowBits(low: nat, high: nat)
    requires low < 0x20000
    ensures (low + 0x20000 * high) % 0x20000 == low && (low + 0x20000 * high) / 0x20000 == high
  {
  }

  lemma ThreeRead(h: bytes)
    requires |h| == 3
    ensures FromLe(h) % 0x20000 == h[0] as int + 256 * h[1] as int + 65536 * (h[2] as int % 2)
    ensures FromLe(h) / 0x20000 == h[2] as int / 2
  {
    assert FromLe(h) == h[0] as int + 256 * FromLe(h[1..]);
    assert FromLe(h[1..]) == h[1] as int + 256 * FromLe(h[2..]);
    assert FromLe(h[2..]) == h[2] as int;
    LowBits(h[0] as int + 256 * h[1] as int + 65536 * (h[2] as int % 2), h[2] as int / 2);
  }

  /** The payload at position `at`, if its checksum follows it. */
  predicate Intact(env: Env, s: bytes, at: nat, n: nat) {
    |s| >= at + n + 4 && FromLe(s[at + n..at + n + 4]) == Crc32(env, s[at..at + n])
  }

  /** What comes of any bytes without a compressor; bits above the flag mean nothing. */
  lemma UncompressedRead(env: Env, s: bytes)
    requires env.codec.None? && |s| >= 6
    ensures var n, r := s[0] as int + 256 * s[1] as int + 65536 * (s[2] as int % 2), Decode(env, s);
      && (r.Got? <==> CrcFrom(s[3..6]) == Crc24Of(s[..3]) && Intact(env, s, 6, n))
      && (r.Got? ==> r == Got(s[6..6 + n], s[2] as int / 2 % 2 == 1, s[10 + n..]))
  {
    hide Crc24Of, FromLe, CrcFrom, Crc32;
    var n := s[0] as int + 256 * s[1] as int + 65536 * (s[2] as int % 2);
    ThreeRead(s[..3]);
    if |s| >= 10 + n {
      assert s[6..][..n] == s[6..6 + n] && s[6..][n..n + 4] == s[6 + n..10 + n] && s[6..][n + 4..] == s[10 + n..];
    }
  }

  /** The same with one; a length of 0 before compression says that there was none. */
  lemma CompressedRead(env: Env, s: bytes)
    requires env.codec.Some? && |s| >= 8
    ensures var n := s[0] as int + 256 * s[1] as int + 65536 * (s[2] as int % 2);
      var u, r := s[2] as int / 2 + 128 * s[3] as int + 32768 * (s[4] as int % 4), Decode(env, s);
      && (r.Got? ==> CrcFrom(s[5..8]) == Crc24Of(s[..5]) && Intact(env, s, 8, n))
      && (CrcFrom(s[5..8]) == Crc24Of(s[..5]) && Intact(env, s, 8, n) ==>
        r == Inflate(env.codec.value, s[8..8 + n], u, s[4] as int / 4 % 2 == 1, s[12 + n..]))
  {
    hide Crc24Of, FromLe, CrcFrom, Crc32, Inflate;
    var n := s[0] as int + 256 * s[1] as int + 65536 * (s[2] as int % 2);
    if |s| >= 12 + n {
      assert s[8..][..n] == s[8..8 + n] && s[8..][n..n + 4] == s[8 + n..12 + n] && s[8..][n + 4..] == s[12 + n..];
    }
  }

  /** A payload of up to 131071 bytes becomes one segment, unless the compressor fails, and takes the
      shorter of its two forms. */
  lemma SegmentLength(env: Env, payload: bytes, selfContained: bool)
    ensures var r := Encode(env, payload, selfContained);
      match env.codec
      case None => if |payload| > 131_071 then r == Err else r.Ok? && |r.value| == 10 + |payload|
      case Some(codec) =>
        var z := (codec.compress)(payload);
        if |payload| > 131_071 || z.Err? then r == Err
        else r.Ok? && |r.value| == 12 + if |z.value| <= |payload| then |z.value| else |payload|
  {
    hide Crc24Of, CrcBytes, Crc32, Le;
  }
}
