// Variable-length integers: the zig-zag vints of durations (marshal.go:1687-1753) and the unsigned
// vints of vectors (vector.go:210-250), which share one layout.
module Vint {
  import opened Common
  import opened Bytes

  const TWO63 := 0x8000_0000_0000_0000
  const TWO64 := 0x1_0000_0000_0000_0000

  type uint64 = x: nat | x < 0x1_0000_0000_0000_0000
  type int64 = x: int | -0x8000_0000_0000_0000 <= x < 0x8000_0000_0000_0000
  type int32 = x: int | -0x8000_0000 <= x < 0x8000_0000

  // ---------------------------------------------------------------- powers and big-endian bytes

  function Pow2(n: nat): (r: nat)
    ensures r > 0
  {
    if n == 0 then 1 else 2 * Pow2(n - 1)
  }

  function BitLen(v: nat): nat {
    if v == 0 then 0 else 1 + BitLen(v / 2)
  }

  function Be(v: nat, n: nat): (r: bytes)
    ensures |r| == n
  {
    if n == 0 then [] else Be(v / 256, n - 1) + [v % 256]
  }

  function FromBe(s: bytes): nat {
    if s == [] then 0 else 256 * FromBe(s[..|s| - 1]) + s[|s| - 1]
  }

  lemma Pow2Small()
    ensures Pow2(0) == 1 && Pow2(1) == 2 && Pow2(2) == 4 && Pow2(3) == 8 && Pow2(4) == 16
    ensures Pow2(5) == 32 && Pow2(6) == 64 && Pow2(7) == 128 && Pow2(8) == 256
  {
  }

  lemma {:induction false} Pow2Split(k: nat, m: nat)
    ensures Pow2(k + 8 * m) == Pow2(k) * Pow256(m)
  {
    if m > 0 {
      Pow2Split(k, m - 1);
      var n := k + 8 * (m - 1);
      assert Pow2(n + 8) == 256 * Pow2(n) by { Pow2Eight(n); }
      assert Pow2(k) * Pow256(m) == 256 * (Pow2(k) * Pow256(m - 1));
    }
  }

  lemma Pow2Eight(n: nat)
    ensures Pow2(n + 8) == 256 * Pow2(n)
  {
    assert Pow2(n + 2) == 4 * Pow2(n);
    assert Pow2(n + 4) == 4 * Pow2(n + 2);
    assert Pow2(n + 6) == 4 * Pow2(n + 4);
  }

  lemma {:induction false} Pow2Grows(a: nat, b: nat)
    requires a <= b
    ensures Pow2(a) <= Pow2(b)
  {
    if a < b {
      Pow2Grows(a, b - 1);
    }
  }

  /** BitLen is the least number of bits that hold v. */
  lemma {:induction false} BitLenHolds(v: nat)
    ensures v < Pow2(BitLen(v)) && (v > 0 ==> v >= Pow2(BitLen(v) - 1))
  {
    if v > 0 {
      BitLenHolds(v / 2);
    }
  }

  lemma {:induction false} BitLenBelow(v: nat, n: nat)
    requires v < Pow2(n)
    ensures BitLen(v) <= n
  {
    if v > 0 {
      BitLenBelow(v / 2, n - 1);
    }
  }

  lemma Pow64()
    ensures Pow2(64) == TWO64
  {
    Pow2Split(0, 8);
    assert Pow256(4) == 0x1_0000_0000 by { assert Pow256(2) == 0x1_0000; }
    assert Pow256(6) == 0x1_0000 * Pow256(4);
    assert Pow256(8) == 0x1_0000 * Pow256(6);
  }

  /** Big-endian bytes give back a value that fits, and its top byte holds its top bits. */
  lemma {:induction false} BeTop(v: nat, m: nat, k: nat)
    requires k <= 8 && v < Pow2(k) * Pow256(m)
    ensures FromBe(Be(v, m + 1)) == v && Be(v, m + 1)[0] < Pow2(k)
  {
    Pow2Small();
    Pow2Grows(k, 8);
    var s := Be(v, m + 1);
    assert s[..m] == Be(v / 256, m);
    if m == 0 {
      assert Be(v, 1) == Be(v / 256, 0) + [v % 256];
      assert FromBe(s) == 256 * FromBe(s[..0]) + s[0];
    } else {
      assert Pow2(k) * Pow256(m) == 256 * (Pow2(k) * Pow256(m - 1));
      BeTop(v / 256, m - 1, k);
      assert s[0] == s[..m][0];
    }
  }

  // ---------------------------------------------------------------- the layout

  /** computeUnsignedVIntSize, from 64 minus the leading zeros; 0 for 0. */
  function Size(v: uint64): (n: nat)
    ensures n <= 9
  {
    Pow64();
    BitLenBelow(v, 64);
    (639 - (64 - BitLen(v)) * 9) / 64
  }

  /** `extra` leading one bits. */
  function Marker(extra: nat): (r: byte)
    requires 1 <= extra <= 8
    ensures r == 256 - Pow2(8 - extra)
  {
    Pow2Small();
    Pow2Grows(8 - extra, 8);
    256 - Pow2(8 - extra)
  }

  lemma SizeIs(v: uint64)
    ensures BitLen(v) <= 64 && Size(v) <= 9
    ensures BitLen(v) <= 63 ==> Size(v) == (BitLen(v) + 6) / 7
    ensures BitLen(v) == 64 ==> Size(v) == 9
  {
    Pow64();
    BitLenBelow(v, 64);
  }

  lemma SizeFits(v: uint64)
    ensures Size(v) <= 1 ==> v < 128
    ensures 2 <= Size(v) <= 8 ==> v < Pow2(8 - Size(v)) * Pow256(Size(v) - 1)
    ensures Size(v) == 9 ==> v < Pow2(0) * Pow256(8)
  {
    SizeIs(v);
    BitLenHolds(v);
    Pow2Small();
    var n := Size(v);
    if n <= 1 {
      Pow2Grows(BitLen(v), 7);
    } else if n <= 8 {
      Pow2Grows(BitLen(v), 7 * n);
      Pow2Split(8 - n, n - 1);
      assert 8 - n + 8 * (n - 1) == 7 * n;
    } else {
      Pow64();
      Pow2Split(0, 8);
    }
  }

  /** The top bits left for the value beside the marker. */
  function TopBits(size: nat): nat
    requires 2 <= size <= 9
  {
    if size == 9 then 0 else 8 - size
  }

  lemma TopByteFits(v: uint64)
    requires Size(v) > 1
    ensures Be(v, Size(v))[0] < Pow2(TopBits(Size(v))) && FromBe(Be(v, Size(v))) == v
    ensures Be(v, Size(v))[0] as int + Marker(Size(v) - 1) as int < 256
  {
    SizeIs(v);
    SizeFits(v);
    var n := Size(v);
    BeTop(v, n - 1, TopBits(n));
    Pow2Small();
    Pow2Grows(TopBits(n), 8 - (n - 1));
  }

  function EncodeUnsigned(v: uint64): (r: bytes)
    ensures |r| == if Size(v) <= 1 then 1 else Size(v)
  {
    if Size(v) <= 1 then
      SizeFits(v);
      [v]
    else
      TopByteFits(v);
      SizeIs(v);
      var s := Be(v, Size(v));
      s[0 := s[0] + Marker(Size(v) - 1)]
  }

  function LeadingOnes(b: byte): (n: nat)
    ensures n <= 8
  {
    if b < 128 then 0 else if b < 192 then 1 else if b < 224 then 2 else if b < 240 then 3
    else if b < 248 then 4 else if b < 252 then 5 else if b < 254 then 6 else if b < 255 then 7 else 8
  }

  /** The value at the front and how many bytes it took. */
  function DecodeUnsigned(s: bytes): Result<(nat, nat)> {
    if s == [] then Err
    else
      var extra := LeadingOnes(s[0]);
      if |s| < extra + 1 then Err
      else Ok((FromBe([s[0] % Pow2(8 - extra)] + s[1..extra + 1]), extra + 1))
  }

  lemma MarkerRead(top: nat, extra: nat)
    requires 1 <= extra <= 8 && top < Pow2(if extra == 8 then 0 else 7 - extra) && top + Marker(extra) as int < 256
    ensures LeadingOnes(top + Marker(extra)) == extra && (top + Marker(extra)) % Pow2(8 - extra) == top
  {
    Pow2Small();
    match extra
    case 1 => case 2 => case 3 => case 4 => case 5 => case 6 => case 7 => case 8 =>
  }

  /** Decoding inverts encoding whatever bytes follow. */
  lemma UnsignedRoundTrip(v: uint64, rest: bytes)
    ensures DecodeUnsigned(EncodeUnsigned(v) + rest) == Ok((v, |EncodeUnsigned(v)|))
  {
    hide Size, BitLen, LeadingOnes, Be, Pow2, Pow256, FromBe;
    SizeIs(v);
    SizeFits(v);
    var n := Size(v);
    var w := EncodeUnsigned(v);
    var s := w + rest;
    if n <= 1 {
      SmallRead(v, s);
    } else {
      TopByteFits(v);
      var b := Be(v, n);
      MarkerRead(b[0], n - 1);
      assert s[1..n] == b[1..];
      assert [b[0]] + b[1..] == b;
    }
  }

  lemma SmallRead(v: uint64, s: bytes)
    requires v < 128 && s != [] && s[0] == v
    ensures DecodeUnsigned(s) == Ok((v, 1 as nat))
  {
    Pow2Small();
    assert [s[0] % Pow2(8)] + s[1..1] == [v];
    assert FromBe([v]) == 256 * FromBe([v][..0]) + v;
  }

  /** One byte for each seven bits or part of seven, at least one, but never more than nine. */
  lemma UnsignedLength(v: uint64)
    ensures var n := (BitLen(v) + 6) / 7; |EncodeUnsigned(v)| == if n <= 1 then 1 else if n <= 9 then n else 9
  {
    SizeIs(v);
  }

  /** A full 64-bit value takes nine bytes, although it has more than nine times seven bits. */
  lemma SixtyFourBits(v: uint64)
    ensures |EncodeUnsigned(v)| == (if v == 0 then 1 else (BitLen(v) + 6) / 7) <==> v < TWO63
  {
    SizeIs(v);
    BitLenHolds(v);
    Pow64();
    assert Pow2(63) == TWO63 by { assert Pow2(64) == 2 * Pow2(63); }
    if v < TWO63 {
      BitLenBelow(v, 63);
    } else if BitLen(v) <= 63 {
      Pow2Grows(BitLen(v), 63);
    }
  }

  lemma {:induction false} FromBeBound(s: bytes, k: nat)
    requires s != [] && s[0] < Pow2(k)
    ensures FromBe(s) < Pow2(k) * Pow256(|s| - 1)
  {
    var n := |s| - 1;
    if n == 0 {
      assert FromBe(s) == 256 * FromBe(s[..0]) + s[0];
    } else {
      FromBeBound(s[..n], k);
      assert Pow2(k) * Pow256(n) == 256 * (Pow2(k) * Pow256(n - 1));
    }
  }

  /** No input overflows the 64 bits the value is gathered in. */
  lemma DecodedFits(s: bytes)
    ensures DecodeUnsigned(s).Ok? ==> DecodeUnsigned(s).value.0 < TWO64
  {
    hide FromBe, Pow256;
    if DecodeUnsigned(s).Ok? {
      var extra := LeadingOnes(s[0]);
      FromBeBound([s[0] % Pow2(8 - extra)] + s[1..extra + 1], 8 - extra);
      Pow2Split(8 - extra, extra);
      Pow2Grows(8 - extra + 8 * extra, 64);
      Pow64();
    }
  }

  /** The value's bytes, filled in from the last. */
  method PutBytes(v: nat, n: nat) returns (tmp: array<byte>)
    ensures fresh(tmp) && tmp[..] == Be(v, n)
  {
    tmp := new byte[n];
    var rest: nat := v;
    var i := n;
    while i > 0
      invariant 0 <= i <= n
      invariant Be(v, n) == Be(rest, i) + tmp[i..]
    {
      i := i - 1;
      ghost var later := tmp[i + 1..];
      tmp[i] := rest % 256;
      assert tmp[i..] == [rest % 256] + later;
      assert Be(rest, i + 1) + later == Be(rest / 256, i) + ([rest % 256] + later);
      rest := rest / 256;
    }
    assert Be(rest, 0) + tmp[0..] == tmp[..];
  }

  method WriteUnsignedVInt(v: uint64) returns (r: bytes)
    ensures r == EncodeUnsigned(v)
  {
    hide FromBe, BitLen, Pow256, Pow2, Be, Size;
    var numBytes := Size(v);
    if numBytes <= 1 {
      SizeFits(v);
      return [v];
    }
    var tmp := PutBytes(v, numBytes);
    TopByteFits(v);
    SizeIs(v);
    assert tmp[0] == Be(v, numBytes)[0];
    tmp[0] := tmp[0] + Marker(numBytes - 1);
    return tmp[..];
  }

  /** A count of bytes taken, as the position after them. */
  function From<T>(start: nat, r: Result<(T, nat)>): Result<(T, nat)> {
    match r
    case Err => Err
    case Ok((v, n)) => Ok((v, start + n))
  }

  /** readUnsignedVInt, from `start` as decVint has it: the value and the position after it. */
  method ReadUnsignedVInt(data: bytes, start: nat) returns (r: Result<(nat, nat)>)
    ensures r == if start > |data| then Err else From(start, DecodeUnsigned(data[start..]))
  {
    hide LeadingOnes, Pow2, FromBe;
    if |data| <= start {
      return Err;
    }
    ghost var s := data[start..];
    var firstByte := data[start];
    var extra := LeadingOnes(firstByte);
    if |data| < start + extra + 1 {
      return Err;
    }
    ghost var top: byte := firstByte % Pow2(8 - extra);
    var ret: nat := firstByte % Pow2(8 - extra);
    assert [top] + s[1..1] == [] + [top];
    FromBeSnoc([], top);
    for i := 0 to extra
      invariant ret == FromBe([top] + s[1..i + 1])
    {
      assert [top] + s[1..i + 2] == ([top] + s[1..i + 1]) + [s[i + 1]];
      FromBeSnoc([top] + s[1..i + 1], s[i + 1]);
      ret := 256 * ret + data[start + i + 1];
    }
    return Ok((ret, start + extra + 1));
  }

  lemma FromBeSnoc(s: bytes, b: byte)
    ensures FromBe(s + [b]) == 256 * FromBe(s) + b && FromBe([]) == 0
  {
    assert (s + [b])[..|s|] == s;
  }

  // ---------------------------------------------------------------- zig-zag

  /** (n >> 63) ^ (n << 1): the sign bit spread over all bits flips the doubled value. */
  function EncZigZag(n: int64): uint64 {
    var shl := (2 * n) % TWO64;
    if n < 0 then TWO64 - 1 - shl else shl
  }

  function Signed64(x: uint64): int64 {
    if x >= TWO63 then x - TWO64 else x
  }

  function DecZigZag(n: uint64): int64 {
    Signed64(if n % 2 == 1 then TWO64 - 1 - n / 2 else n / 2)
  }

  /** Small magnitudes get small codes: 0, -1, 1, -2, 2 and so on become 0, 1, 2, 3, 4. */
  lemma ZigZagMeaning(n: int64)
    ensures EncZigZag(n) == if n < 0 then -2 * n - 1 else 2 * n
    ensures DecZigZag(EncZigZag(n)) == n
  {
    if n < 0 {
      assert (2 * n) % TWO64 == 2 * n + TWO64;
    }
  }

  function EncodeVint(v: int64): bytes {
    EncodeUnsigned(EncZigZag(v))
  }

  function DecodeVint(s: bytes): Result<(int64, nat)> {
    match DecodeUnsigned(s)
    case Err => Err
    case Ok((v, n)) => DecodedFits(s); Ok((DecZigZag(v), n))
  }

  lemma VintRoundTrip(v: int64, rest: bytes)
    ensures DecodeVint(EncodeVint(v) + rest) == Ok((v, |EncodeVint(v)|))
  {
    hide EncodeUnsigned, DecodeUnsigned, EncZigZag, DecZigZag;
    UnsignedRoundTrip(EncZigZag(v), rest);
    ZigZagMeaning(v);
  }

  // ---------------------------------------------------------------- durations

  datatype Duration = Duration(months: int32, days: int32, nanos: int64)

  /** Conversion to int32 keeps the low 32 bits. */
  function Trunc32(x: int64): int32 {
    (x + 0x8000_0000) % 0x1_0000_0000 - 0x8000_0000
  }

  function EncodeDuration(d: Duration): bytes {
    EncodeVint(d.months) + EncodeVint(d.days) + EncodeVint(d.nanos)
  }

  function DecodeDuration(s: bytes): Result<Duration> {
    match DecodeVint(s)
    case Err => Err
    case Ok((months, i)) =>
      if i > |s| then Err
      else match DecodeVint(s[i..])
      case Err => Err
      case Ok((days, j)) =>
        if i + j > |s| then Err
        else match DecodeVint(s[i + j..])
        case Err => Err
        case Ok((nanos, _)) => Ok(Duration(Trunc32(months), Trunc32(days), nanos))
  }

  lemma DurationRoundTrip(d: Duration, rest: bytes)
    ensures DecodeDuration(EncodeDuration(d) + rest) == Ok(d)
  {
    hide EncodeVint, DecodeVint;
    var a, b, c := EncodeVint(d.months), EncodeVint(d.days), EncodeVint(d.nanos);
    var s := EncodeDuration(d) + rest;
    assert s == a + (b + c + rest);
    VintRoundTrip(d.months, b + c + rest);
    assert s[|a|..] == b + (c + rest);
    VintRoundTrip(d.days, c + rest);
    assert s[|a| + |b|..] == c + rest;
    VintRoundTrip(d.nanos, rest);
  }

  method EncVint(v: int64) returns (r: bytes)
    ensures r == EncodeVint(v)
  {
    r := WriteUnsignedVInt(EncZigZag(v));
  }

  method DecVint(data: bytes, start: nat) returns (r: Result<(int64, nat)>)
    ensures r == if start > |data| then Err else From(start, DecodeVint(data[start..]))
  {
    hide DecodeUnsigned, DecZigZag;
    var u := ReadUnsignedVInt(data, start);
    if u.Err? {
      return Err;
    }
    DecodedFits(data[start..]);
    return Ok((DecZigZag(u.value.0), u.value.1));
  }

  method EncVints(d: Duration) returns (r: bytes)
    ensures r == EncodeDuration(d)
  {
    hide EncodeVint;
    var months := EncVint(d.months);
    var days := EncVint(d.days);
    var nanos := EncVint(d.nanos);
    return months + days + nanos;
  }

  method DecVints(data: bytes) returns (r: Result<Duration>)
    ensures r == DecodeDuration(data)
  {
    hide DecodeVint, Trunc32;
    assert data[0..] == data;
    var months := DecVint(data, 0);
    if months.Err? {
      return Err;
    }
    var days := DecVint(data, months.value.1);
    if days.Err? {
      return Err;
    }
    var nanos := DecVint(data, days.value.1);
    if nanos.Err? {
      return Err;
    }
    return Ok(Duration(Trunc32(months.value.0), Trunc32(days.value.0), nanos.value.0));
  }
}
