// Integers of any size as shortest two's complement, for varint (marshal.go:742-835, 1318-1353).
module BigInt {
  import opened Common
  import opened Bytes
  import opened Vint

  /** decBigInt2C: the big-endian two's complement value; nothing is zero. */
  function TwosComp(s: bytes): int {
    FromBe(s) - if s != [] && s[0] >= 128 then Pow256(|s|) else 0
  }

  /** What n bytes of two's complement can hold. */
  predicate Fits(v: int, n: nat)
    requires n > 0
  {
    -128 * Pow256(n - 1) <= v < 128 * Pow256(n - 1)
  }

  /** A leading byte that only repeats the sign. */
  predicate Redundant(b0: byte, b1: byte) {
    (b0 == 0 && b1 < 128) || (b0 == 255 && b1 >= 128)
  }

  predicate Shortest(s: bytes) {
    |s| >= 1 && (|s| >= 2 ==> !Redundant(s[0], s[1]))
  }

  // ---------------------------------------------------------------- values and ranges

  lemma {:induction false} FromBeHead(s: bytes)
    requires s != []
    ensures FromBe(s) == s[0] * Pow256(|s| - 1) + FromBe(s[1..]) && FromBe(s[1..]) < Pow256(|s| - 1)
  {
    var n := |s| - 1;
    if n == 0 {
      assert FromBe(s) == 256 * FromBe(s[..0]) + s[0];
    } else {
      FromBeHead(s[..n]);
      assert s[1..][..n - 1] == s[..n][1..];
      assert FromBe(s[1..]) == 256 * FromBe(s[1..][..n - 1]) + s[n];
      Distribute(s[0], Pow256(n - 1));
    }
  }

  lemma Distribute(a: int, p: int)
    ensures 256 * (a * p) == a * (256 * p)
  {
  }

  function Sign(b: byte): int {
    if b >= 128 then b - 256 else b
  }

  lemma TwosCompHead(s: bytes)
    requires s != []
    ensures TwosComp(s) == Sign(s[0]) * Pow256(|s| - 1) + FromBe(s[1..]) && 0 <= FromBe(s[1..]) < Pow256(|s| - 1)
  {
    FromBeHead(s);
    hide FromBe;
    SignTimes(s[0], Pow256(|s| - 1));
  }

  lemma SignTimes(b: byte, p: nat)
    ensures Sign(b) * p == b * p - if b >= 128 then 256 * p else 0
  {
  }

  lemma LeadingZero(b: bytes)
    ensures FromBe([0] + b) == FromBe(b)
  {
    FromBeHead([0] + b);
    assert ([0] + b)[1..] == b;
  }

  lemma Times(a: nat, b: nat, p: nat)
    requires a <= b
    ensures a * p <= b * p
  {
  }

  lemma Between(x: int, q: nat, r: nat, a: int, b: int)
    requires r < q
    ensures a * q <= x * q + r < b * q <==> a <= x < b
  {
    Below(x, q, r, a);
    Below(x, q, r, b);
  }

  lemma Below(x: int, q: nat, r: nat, b: int)
    requires r < q
    ensures x * q + r < b * q <==> x < b
  {
    var d := b - x;
    assert b * q == x * q + d * q;
    Multiple(d, q);
  }

  lemma Multiple(d: int, q: nat)
    ensures d >= 1 ==> d * q >= q
    ensures d <= 0 ==> d * q <= 0
  {
  }

  lemma TwosCompFits(s: bytes)
    requires s != []
    ensures Fits(TwosComp(s), |s|) && (TwosComp(s) < 0 <==> s[0] >= 128)
  {
    hide TwosComp, FromBe, Pow256;
    TwosCompHead(s);
    Between(Sign(s[0]), Pow256(|s| - 1), FromBe(s[1..]), -128, 128);
    Between(Sign(s[0]), Pow256(|s| - 1), FromBe(s[1..]), -128, 0);
  }

  /** A leading byte is redundant exactly when the value fits without it, and then it goes without harm. */
  lemma RedundantIff(s: bytes)
    requires |s| >= 2
    ensures Redundant(s[0], s[1]) <==> Fits(TwosComp(s), |s| - 1)
    ensures Redundant(s[0], s[1]) ==> TwosComp(s[1..]) == TwosComp(s)
  {
    var q, r := Pow256(|s| - 2), FromBe(s[1..][1..]);
    TwosCompHead(s);
    TwosCompHead(s[1..]);
    FromBeHead(s[1..]);
    var x := 256 * Sign(s[0]) + s[1];
    assert TwosComp(s) == x * q + r by {
      hide TwosComp, FromBe;
      Combine(Sign(s[0]), s[1], q);
    }
    Between(x, q, r, -128, 128);
  }

  lemma Combine(t: int, b: int, q: int)
    ensures t * (256 * q) + b * q == (256 * t + b) * q
  {
  }

  lemma {:induction false} FitsMore(v: int, m: nat, n: nat)
    requires 0 < m <= n && Fits(v, m)
    ensures Fits(v, n)
  {
    if m < n {
      FitsMore(v, m, n - 1);
    }
  }

  lemma {:induction false} FromBeInjective(a: bytes, b: bytes)
    requires |a| == |b| && FromBe(a) == FromBe(b)
    ensures a == b
  {
    if a != [] {
      var n := |a| - 1;
      FromBeInjective(a[..n], b[..n]);
      assert a == a[..n] + [a[n]] && b == b[..n] + [b[n]];
    }
  }

  lemma ShortestIs(s: bytes, v: int, n: nat)
    requires Shortest(s) && TwosComp(s) == v && n > 0 && Fits(v, n)
    ensures |s| <= n
  {
    hide TwosComp, Redundant, Fits;
    if |s| > n {
      RedundantIff(s);
      FitsMore(v, n, |s| - 1);
    }
  }

  /** Every integer has one shortest form. */
  lemma ShortestUnique(a: bytes, b: bytes)
    requires Shortest(a) && Shortest(b) && TwosComp(a) == TwosComp(b)
    ensures a == b
  {
    TwosCompFits(a);
    TwosCompFits(b);
    ShortestIs(a, TwosComp(a), |b|);
    ShortestIs(b, TwosComp(b), |a|);
    FromBeInjective(a, b);
  }

  // ---------------------------------------------------------------- trimming

  function Trim(s: bytes): bytes {
    if |s| >= 2 && Redundant(s[0], s[1]) then Trim(s[1..]) else s
  }

  /** Trimming keeps the value and leaves its shortest form, which no other form undercuts. */
  lemma {:induction false} TrimIsShortest(s: bytes)
    requires s != []
    ensures Shortest(Trim(s)) && TwosComp(Trim(s)) == TwosComp(s)
  {
    hide TwosComp;
    if |s| >= 2 && Redundant(s[0], s[1]) {
      RedundantIff(s);
      TrimIsShortest(s[1..]);
    }
  }

  lemma NoShorterForm(s: bytes, t: bytes)
    requires s != [] && t != [] && TwosComp(s) == TwosComp(t)
    ensures |Trim(s)| <= |t|
  {
    TrimIsShortest(s);
    TwosCompFits(t);
    ShortestIs(Trim(s), TwosComp(s), |t|);
  }

  /** The loop at the end of the varint encoder. */
  method TrimBytes(retBytes: bytes) returns (r: bytes)
    ensures r == Trim(retBytes)
  {
    var i := 0;
    while i < |retBytes| - 1
      invariant 0 <= i <= |retBytes| && Trim(retBytes[i..]) == Trim(retBytes)
    {
      var b0 := retBytes[i];
      if b0 != 0 && b0 != 255 {
        break;
      }
      var b1 := retBytes[i + 1];
      assert retBytes[i..][1..] == retBytes[i + 1..];
      if b0 == 0 && b1 != 0 {
        if b1 < 128 {
          i := i + 1;
        }
        assert Trim(retBytes[i..]) == retBytes[i..];
        break;
      }
      if b0 == 255 && b1 != 255 {
        if b1 >= 128 {
          i := i + 1;
        }
        assert Trim(retBytes[i..]) == retBytes[i..];
        break;
      }
      i := i + 1;
    }
    return retBytes[i..];
  }

  // ---------------------------------------------------------------- encoding

  /** big.Int's Bytes: big-endian without leading zeros. */
  function MinBe(m: nat): bytes {
    if m == 0 then [] else MinBe(m / 256) + [m % 256]
  }

  lemma {:induction false} MinBeIs(m: nat)
    ensures FromBe(MinBe(m)) == m && (m > 0 ==> MinBe(m) != [] && MinBe(m)[0] > 0)
  {
    if m > 0 {
      MinBeIs(m / 256);
      FromBeSnoc(MinBe(m / 256), m % 256);
    }
  }

  function EncBigInt2C(n: int): bytes {
    if n == 0 then [0]
    else if n > 0 then
      MinBeIs(n);
      var b := MinBe(n);
      if b[0] >= 128 then [0] + b else b
    else
      var length := BitLen(-n) / 8 + 1;
      LongEnough(n, length);
      var b := MinBe(n + Pow256(length));
      if |b| >= 2 && b[0] == 255 && b[1] >= 128 then b[1..] else b
  }

  /** The length chosen for a negative number holds it, and at most one byte less would. */
  lemma LongEnough(n: int, length: nat)
    requires n < 0 && length == BitLen(-n) / 8 + 1
    ensures -128 * Pow256(length - 1) < n
    ensures length >= 3 ==> n <= -128 * Pow256(length - 2)
  {
    BitLenHolds(-n);
    Pow2Small();
    Pow2Grows(BitLen(-n), 7 + 8 * (length - 1));
    Pow2Split(7, length - 1);
    if length >= 3 {
      Pow2Grows(7 + 8 * (length - 2), BitLen(-n) - 1);
      Pow2Split(7, length - 2);
    }
  }

  lemma EncPositive(n: nat)
    requires n > 0
    ensures Shortest(EncBigInt2C(n)) && TwosComp(EncBigInt2C(n)) == n
  {
    hide FromBe, MinBe;
    MinBeIs(n);
    LeadingZero(MinBe(n));
  }

  lemma {:induction false} Pow256Grows(a: nat, b: nat)
    requires a <= b
    ensures Pow256(a) <= Pow256(b)
  {
    if a < b {
      Pow256Grows(a, b - 1);
    }
  }

  /** A number with its top bit among k bytes has exactly k bytes. */
  lemma MinBeLength(m: nat, k: nat)
    requires k > 0 && 128 * Pow256(k - 1) <= m < Pow256(k)
    ensures |MinBe(m)| == k && MinBe(m)[0] >= 128
  {
    hide FromBe, MinBe, Pow256;
    MinBeIs(m);
    var b := MinBe(m);
    FromBeHead(b);
    NextPower(|b| - 1);
    if |b| < k {
      Pow256Grows(|b|, k - 1);
      Times(b[0], 255, Pow256(|b| - 1));
    } else if |b| > k {
      Pow256Grows(k, |b| - 1);
      Times(1, b[0], Pow256(|b| - 1));
    } else if b[0] < 128 {
      Times(b[0], 127, Pow256(k - 1));
    }
  }

  lemma NextPower(k: nat)
    ensures Pow256(k + 1) == 256 * Pow256(k)
  {
  }

  lemma EncNegative(n: int)
    requires n < 0
    ensures Shortest(EncBigInt2C(n)) && TwosComp(EncBigInt2C(n)) == n
  {
    hide MinBe, BitLen, FromBe;
    var k := BitLen(-n) / 8 + 1;
    LongEnough(n, k);
    var b := MinBe(n + Pow256(k));
    MinBeIs(n + Pow256(k));
    MinBeLength(n + Pow256(k), k);
    if |b| >= 2 {
      RedundantIff(b);
      if |b| >= 3 && b[0] == 255 && b[1] >= 128 {
        RedundantIff(b[1..]);
        Pow256Grows(k - 3, k - 2);
      }
    }
  }

  /** For every integer, of any size: decoding inverts encoding, and the encoding is the shortest. */
  lemma BigIntRoundTrip(n: int)
    ensures Shortest(EncBigInt2C(n)) && TwosComp(EncBigInt2C(n)) == n
  {
    if n > 0 {
      EncPositive(n);
    } else if n < 0 {
      EncNegative(n);
    } else {
      assert FromBe([0]) == 256 * FromBe([0][..0]) + 0;
    }
  }

  // ---------------------------------------------------------------- the machine-integer routes

  function FromUint64(v: uint64): bytes {
    if v >= TWO63 then [0] + Be(v, 8) else Be(v, 8)
  }

  /** encBigInt: the eight bytes of an int64. */
  function FromInt64(v: int64): bytes {
    Be(v % TWO64, 8)
  }

  lemma Pow64Bytes()
    ensures 128 * Pow256(7) == TWO63 && Pow256(8) == TWO64
    ensures Pow2(7) * Pow256(7) == TWO63 && Pow2(8) * Pow256(7) == TWO64
  {
    Pow64();
    Pow2Split(0, 8);
    Pow2Small();
  }

  lemma EightBytes(u: uint64)
    ensures FromBe(Be(u, 8)) == u && (Be(u, 8)[0] >= 128 <==> u >= TWO63)
  {
    hide FromBe, Be, Pow256, Pow2;
    Pow64Bytes();
    BeTop(u, 7, 8);
    var s := Be(u, 8);
    FromBeHead(s);
    if s[0] < 128 {
      assert s[0] * Pow256(7) <= 127 * Pow256(7);
    } else {
      assert s[0] * Pow256(7) >= 128 * Pow256(7);
    }
  }

  lemma Uint64Value(v: uint64)
    ensures TwosComp(FromUint64(v)) == v
  {
    hide Be, FromBe;
    EightBytes(v);
    LeadingZero(Be(v, 8));
  }

  lemma Int64Value(v: int64)
    ensures TwosComp(FromInt64(v)) == v
  {
    hide Be, FromBe, Pow256;
    EightBytes(v % TWO64);
    Pow64Bytes();
    if v < 0 {
      assert v % TWO64 == v + TWO64;
    }
  }

  lemma ShortestIsTrimmed(s: bytes)
    requires Shortest(s)
    ensures Trim(s) == s
  {
  }

  /** The routes through uint64, int64 and big.Int write the same bytes for the same number. */
  lemma RoutesAgree(v: int)
    ensures Trim(EncBigInt2C(v)) == EncBigInt2C(v)
    ensures -TWO63 <= v < TWO63 ==> Trim(FromInt64(v)) == EncBigInt2C(v)
    ensures 0 <= v < TWO64 ==> Trim(FromUint64(v)) == EncBigInt2C(v)
  {
    hide EncBigInt2C, TwosComp, Trim, FromInt64, FromUint64, Shortest;
    BigIntRoundTrip(v);
    ShortestIsTrimmed(EncBigInt2C(v));
    if -TWO63 <= v < TWO63 {
      Int64Value(v);
      assert FromInt64(v) != [] by { Eight(v); }
      TrimIsShortest(FromInt64(v));
      ShortestUnique(Trim(FromInt64(v)), EncBigInt2C(v));
    }
    if 0 <= v < TWO64 {
      Uint64Value(v);
      assert FromUint64(v) != [] by { EightOrNine(v); }
      TrimIsShortest(FromUint64(v));
      ShortestUnique(Trim(FromUint64(v)), EncBigInt2C(v));
    }
  }

  lemma Eight(v: int64)
    ensures |FromInt64(v)| == 8
  {
  }

  lemma EightOrNine(v: uint64)
    ensures |FromUint64(v)| == 8 || |FromUint64(v)| == 9
  {
  }

  /** bytesToInt64 before the sign: each byte shifted to its place. */
  method GatherBytes(data: bytes) returns (ret: nat)
    ensures ret == FromBe(data)
  {
    ret := 0;
    for i := 0 to |data|
      invariant ret == FromBe(data[..i]) * Pow256(|data| - i)
    {
      FromBeSnoc(data[..i], data[i]);
      assert data[..i + 1] == data[..i] + [data[i]];
      var p := Pow256(|data| - i - 1);
      Place(FromBe(data[..i]), data[i], p);
      ret := ret + data[i] * p;
    }
    assert data[..|data|] == data;
  }

  lemma Place(x: nat, b: byte, p: nat)
    ensures x * (256 * p) + b * p == (256 * x + b) * p
  {
  }

  /** A varint read into an int64: at most eight bytes, and the same value as for big.Int. */
  method UnmarshalInt64(data: bytes) returns (r: Result<int64>)
    ensures r.Ok? <==> |data| <= 8
    ensures r.Ok? ==> r.value == TwosComp(data)
  {
    hide FromBe, Pow256;
    if |data| > 8 {
      return Err;
    }
    var u := GatherBytes(data);
    if data == [] {
      EmptyIsZero();
      return Ok(0);
    }
    TwosCompFits(data);
    TwosCompHead(data);
    FromBeHead(data);
    Pow64Bytes();
    Pow256Grows(|data|, 8);
    Pow256Grows(|data| - 1, 7);
    if |data| < 8 && data[0] >= 128 {
      return Ok(u - Pow256(|data|));
    }
    return Ok(if u >= TWO63 then u - TWO64 else u);
  }

  lemma EmptyIsZero()
    ensures TwosComp([]) == 0
  {
  }
}
