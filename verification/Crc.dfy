// The 24-bit checksum of segment headers (crc.go:38-58).
module Crc {
  import opened Bytes

  const CRC24_INIT: bv32 := 0x875060

  function Xor(a: bv32, b: bv32): bv32 {
    a ^ b
  }

  function Left(a: bv32): bv32 {
    a << (1 as bv6)
  }

  predicate Carry(a: bv32) {
    a & 0x1000000 != 0
  }

  /** One bit: shift left and, when bit 24 comes out, subtract the polynomial. */
  function Shift(crc: bv32): bv32 {
    if Carry(Left(crc)) then Xor(Left(crc), 0x1974F0B) else Left(crc)
  }

  function Shifts(crc: bv32, n: nat): bv32 {
    if n == 0 then crc else Shift(Shifts(crc, n - 1))
  }

  /** A byte moved to bits 16..23. */
  function High(b: byte): bv32 {
    ((b as bv8) as bv32) << (16 as bv6)
  }

  function ByteStep(crc: bv32, b: byte): bv32 {
    Shifts(Xor(crc, High(b)), 8)
  }

  function Update(crc: bv32, buf: bytes): bv32 {
    if buf == [] then crc else ByteStep(Update(crc, buf[..|buf| - 1]), buf[|buf| - 1])
  }

  function Crc24Of(buf: bytes): bv32 {
    Update(CRC24_INIT, buf)
  }

  method EightShifts(start: bv32) returns (crc: bv32)
    ensures crc == Shifts(start, 8)
  {
    crc := start;
    for i := 0 to 8
      invariant crc == Shifts(start, i)
    {
      crc := crc << (1 as bv6);
      if crc & 0x1000000 != 0 {
        crc := crc ^ 0x1974F0B;
      }
    }
  }

  method Crc24(buf: bytes) returns (crc: bv32)
    ensures crc == Crc24Of(buf)
  {
    hide Shifts, High, Xor;
    crc := CRC24_INIT;
    for k := 0 to |buf|
      invariant crc == Update(CRC24_INIT, buf[..k])
    {
      assert buf[..k + 1][..k] == buf[..k];
      crc := EightShifts(Xor(crc, High(buf[k])));
    }
    assert buf[..|buf|] == buf;
  }

  // ---------------------------------------------------------------- 24 bits

  predicate Is24(c: bv32) {
    c & 0xFF000000 == 0
  }

  lemma ShiftKeeps24(c: bv32)
    requires Is24(c)
    ensures Is24(Shift(c))
  {
  }

  lemma ShiftLinear(a: bv32, b: bv32)
    requires Is24(a) && Is24(b)
    ensures Shift(Xor(a, b)) == Xor(Shift(a), Shift(b))
  {
    hide Left, Carry, Xor;
    LeftXor(a, b);
    CarryXor(Left(a), Left(b));
    XorLaws(Left(a), Left(b), 0x1974F0B);
  }

  lemma LeftXor(x: bv32, y: bv32)
    ensures Left(Xor(x, y)) == Xor(Left(x), Left(y))
  {
  }

  lemma CarryXor(x: bv32, y: bv32)
    ensures Carry(Xor(x, y)) == (Carry(x) != Carry(y))
  {
  }

  lemma XorLaws(x: bv32, y: bv32, p: bv32)
    ensures Xor(Xor(x, p), y) == Xor(Xor(x, y), p)
    ensures Xor(x, Xor(y, p)) == Xor(Xor(x, y), p)
    ensures Xor(Xor(x, p), Xor(y, p)) == Xor(x, y)
  {
  }

  /** The polynomial's low bit stays behind when it is subtracted, so only zero shifts to zero. */
  lemma ShiftZero(x: bv32)
    requires Is24(x) && Shift(x) == 0
    ensures x == 0
  {
  }

  lemma Xor24(a: bv32, b: bv32)
    requires Is24(a) && Is24(b)
    ensures Is24(Xor(a, b))
  {
  }

  lemma XorZero(a: bv32, b: bv32)
    requires Xor(a, b) == 0
    ensures a == b
  {
    assert (a ^ b) ^ b == a;
  }

  lemma XorSelf(a: bv32)
    ensures Xor(a, a) == 0
  {
  }

  lemma XorCancel(a: bv32, b: bv32, h: bv32)
    requires Xor(a, h) == Xor(b, h)
    ensures a == b
  {
    assert (a ^ h) ^ h == a;
    assert (b ^ h) ^ h == b;
  }

  lemma ShiftInjective(a: bv32, b: bv32)
    requires Is24(a) && Is24(b) && Shift(a) == Shift(b)
    ensures a == b
  {
    hide Shift, Is24, Xor;
    ShiftLinear(a, b);
    XorSelf(Shift(a));
    Xor24(a, b);
    ShiftZero(Xor(a, b));
    XorZero(a, b);
  }

  lemma {:induction false} ShiftsKeep24(c: bv32, n: nat)
    requires Is24(c)
    ensures Is24(Shifts(c, n))
  {
    hide Shift, Is24;
    if n > 0 {
      ShiftsKeep24(c, n - 1);
      ShiftKeeps24(Shifts(c, n - 1));
    }
  }

  lemma {:induction false} ShiftsInjective(a: bv32, b: bv32, n: nat)
    requires Is24(a) && Is24(b) && Shifts(a, n) == Shifts(b, n)
    ensures a == b
  {
    hide Shift, Is24;
    if n > 0 {
      ShiftsKeep24(a, n - 1);
      ShiftsKeep24(b, n - 1);
      ShiftInjective(Shifts(a, n - 1), Shifts(b, n - 1));
      ShiftsInjective(a, b, n - 1);
    }
  }

  lemma {:induction false} ShiftsLinear(a: bv32, b: bv32, n: nat)
    requires Is24(a) && Is24(b)
    ensures Shifts(Xor(a, b), n) == Xor(Shifts(a, n), Shifts(b, n))
  {
    hide Shift, Is24, Xor;
    if n > 0 {
      ShiftsLinear(a, b, n - 1);
      ShiftsKeep24(a, n - 1);
      ShiftsKeep24(b, n - 1);
      ShiftLinear(Shifts(a, n - 1), Shifts(b, n - 1));
    }
  }

  lemma {:induction false} ShiftsAdd(c: bv32, m: nat, n: nat)
    ensures Shifts(Shifts(c, m), n) == Shifts(c, m + n)
  {
    hide Shift;
    if n > 0 {
      ShiftsAdd(c, m, n - 1);
    }
  }

  lemma PlainStep(x: bv32, m: bv32)
    requires m & 0xFF800000 == 0 && x & m == x
    ensures Shift(x) == Left(x) && Left(x) & Left(m) == Left(x)
  {
    assert x & 0x800000 == 0;
  }

  function Lefts(x: bv32, n: nat): bv32 {
    if n == 0 then x else Left(Lefts(x, n - 1))
  }

  lemma {:induction false} ShiftsUnder(x: bv32, m: bv32, n: nat)
    requires x & m == x && forall k :: 0 <= k < n ==> Lefts(m, k) & 0xFF800000 == 0
    ensures Shifts(x, n) == Lefts(x, n) && Lefts(x, n) & Lefts(m, n) == Lefts(x, n)
  {
    hide Left, Shift;
    if n > 0 {
      ShiftsUnder(x, m, n - 1);
      PlainStep(Lefts(x, n - 1), Lefts(m, n - 1));
    }
  }

  lemma LeftsLow()
    ensures forall k :: 0 <= k < 8 ==> Lefts(0xFFFF, k) & 0xFF800000 == 0
  {
    assert Lefts(0xFFFF, 1) == 0x1FFFE;
    assert Lefts(0xFFFF, 2) == 0x3FFFC;
    assert Lefts(0xFFFF, 3) == 0x7FFF8;
    assert Lefts(0xFFFF, 4) == 0xFFFF0;
    assert Lefts(0xFFFF, 5) == 0x1FFFE0;
    assert Lefts(0xFFFF, 6) == 0x3FFFC0;
    assert Lefts(0xFFFF, 7) == 0x7FFF80;
  }

  lemma {:induction false} LeftsAdd(x: bv32, m: nat, n: nat)
    ensures Lefts(Lefts(x, m), n) == Lefts(x, m + n)
  {
    hide Left;
    if n > 0 {
      LeftsAdd(x, m, n - 1);
    }
  }

  lemma Lefts2(x: bv32)
    ensures Lefts(x, 2) == x << (2 as bv6)
  {
    assert Lefts(x, 2) == Left(Lefts(x, 1)) == Left(Left(x));
  }

  lemma Lefts8(x: bv32)
    ensures Lefts(x, 8) == x << (8 as bv6)
  {
    hide Lefts;
    Lefts2(x);
    Lefts2(Lefts(x, 2));
    LeftsAdd(x, 2, 2);
    Lefts2(Lefts(x, 4));
    LeftsAdd(x, 4, 2);
    Lefts2(Lefts(x, 6));
    LeftsAdd(x, 6, 2);
  }

  /** Below bit 16, eight shifts never meet the polynomial. */
  lemma ShiftsPlain(x: bv32)
    requires x & 0xFFFF == x
    ensures Shifts(x, 8) == x << (8 as bv6)
  {
    hide Shifts, Lefts;
    LeftsLow();
    ShiftsUnder(x, 0xFFFF, 8);
    Lefts8(x);
  }

  lemma HighIs24(b: byte)
    ensures Is24(High(b))
  {
    var x := (b as bv8) as bv32;
    assert x & 0xFFFFFF00 == 0;
  }

  lemma {:induction false} CrcIs24(crc: bv32, buf: bytes)
    requires Is24(crc)
    ensures Is24(Update(crc, buf))
  {
    hide Is24, High, Shifts, Xor;
    if buf != [] {
      CrcIs24(crc, buf[..|buf| - 1]);
      HighIs24(buf[|buf| - 1]);
      Xor24(Update(crc, buf[..|buf| - 1]), High(buf[|buf| - 1]));
      ShiftsKeep24(Xor(Update(crc, buf[..|buf| - 1]), High(buf[|buf| - 1])), 8);
    }
  }

  // ---------------------------------------------------------------- what the checksum detects

  lemma {:induction false} CrcConcat(crc: bv32, a: bytes, b: bytes)
    ensures Update(crc, a + b) == Update(Update(crc, a), b)
  {
    hide ByteStep;
    if b == [] {
      assert a + b == a;
    } else {
      assert (a + b)[..|a + b| - 1] == a + b[..|b| - 1];
      CrcConcat(crc, a, b[..|b| - 1]);
    }
  }

  /** The same bytes after two states keep the states apart. */
  lemma {:induction false} CrcInjective(a: bv32, b: bv32, buf: bytes)
    requires Is24(a) && Is24(b) && Update(a, buf) == Update(b, buf)
    ensures a == b
  {
    hide Is24, High, Shifts, Xor;
    if buf != [] {
      var before, h := buf[..|buf| - 1], High(buf[|buf| - 1]);
      CrcIs24(a, before);
      CrcIs24(b, before);
      HighIs24(buf[|buf| - 1]);
      Xor24(Update(a, before), h);
      Xor24(Update(b, before), h);
      ShiftsInjective(Xor(Update(a, before), h), Xor(Update(b, before), h), 8);
      XorCancel(Update(a, before), Update(b, before), h);
      CrcInjective(a, b, before);
    }
  }

  function Mid(b: byte): bv32 {
    ((b as bv8) as bv32) << (8 as bv6)
  }

  function Low(b: byte): bv32 {
    (b as bv8) as bv32
  }

  function Word(a: byte, b: byte, c: byte): bv32 {
    Xor(Xor(High(a), Mid(b)), Low(c))
  }

  lemma Pieces24(b: byte)
    ensures Is24(High(b)) && Is24(Mid(b)) && Is24(Low(b))
    ensures Mid(b) & 0xFFFF == Mid(b) && Low(b) & 0xFFFF == Low(b)
  {
    var x := (b as bv8) as bv32;
    assert x & 0xFF == x;
  }

  lemma ShiftUp(b: byte)
    ensures Shifts(Low(b), 8) == Mid(b) && Shifts(Mid(b), 8) == High(b)
  {
    hide Shifts;
    Pieces24(b);
    ShiftsPlain(Low(b));
    ShiftsPlain(Mid(b));
    var x := (b as bv8) as bv32;
    assert (x << (8 as bv6)) << (8 as bv6) == x << (16 as bv6);
  }

  lemma XorAssoc(a: bv32, b: bv32, c: bv32)
    ensures Xor(Xor(a, b), c) == Xor(a, Xor(b, c))
  {
  }

  /** A byte taken later is the same byte shifted less. */
  lemma StepWithin(x: bv32, b: byte)
    requires Is24(x)
    ensures Xor(Shifts(x, 8), High(b)) == Shifts(Xor(x, Mid(b)), 8)
    ensures Xor(Shifts(x, 16), High(b)) == Shifts(Xor(x, Low(b)), 16)
  {
    hide Shifts, Is24, Xor, High, Mid, Low;
    Pieces24(b);
    ShiftUp(b);
    ShiftsLinear(x, Mid(b), 8);
    ShiftsLinear(x, Low(b), 16);
    ShiftsAdd(Low(b), 8, 8);
  }

  lemma CrcThree(s: bv32, a: byte, b: byte, c: byte)
    ensures Update(s, [a, b, c]) == ByteStep(ByteStep(ByteStep(s, a), b), c)
  {
    hide ByteStep;
    assert [a, b, c][..2] == [a, b] && [a, b][..1] == [a] && [a][..0] == [];
    assert Update(s, [a]) == ByteStep(Update(s, []), a);
    assert Update(s, [a, b]) == ByteStep(Update(s, [a]), b);
  }

  lemma ThreeBytes(s: bv32, a: byte, b: byte, c: byte)
    requires Is24(s)
    ensures Update(s, [a, b, c]) == Shifts(Xor(s, Word(a, b, c)), 24)
  {
    hide Shifts, Is24, Xor, High, Mid, Low;
    CrcThree(s, a, b, c);
    Pieces24(a);
    Pieces24(b);
    Xor24(s, High(a));
    var x := Xor(s, High(a));
    StepWithin(x, b);
    Xor24(x, Mid(b));
    var y := Xor(x, Mid(b));
    ShiftsAdd(y, 8, 8);
    StepWithin(y, c);
    ShiftsAdd(Xor(y, Low(c)), 16, 8);
    XorAssoc(s, High(a), Mid(b));
    XorAssoc(s, Xor(High(a), Mid(b)), Low(c));
  }

  lemma Parts(x: bv8, y: bv8, z: bv8)
    ensures var w := (((x as bv32) << (16 as bv6)) ^ ((y as bv32) << (8 as bv6))) ^ (z as bv32);
      w & 0xFF == z as bv32 && (w >> (8 as bv6)) & 0xFF == y as bv32 && (w >> (16 as bv6)) & 0xFF == x as bv32
  {
  }

  lemma LowInjective(a: byte, b: byte)
    requires Low(a) == Low(b)
    ensures a == b
  {
    Widen(a as bv8, b as bv8);
    ByteBits(a);
    ByteBits(b);
  }

  lemma Widen(x: bv8, y: bv8)
    requires x as bv32 == y as bv32
    ensures x == y
  {
  }

  lemma WordInjective(a: byte, b: byte, c: byte, a': byte, b': byte, c': byte)
    requires Word(a, b, c) == Word(a', b', c')
    ensures a == a' && b == b' && c == c'
  {
    Parts(a as bv8, b as bv8, c as bv8);
    Parts(a' as bv8, b' as bv8, c' as bv8);
    LowInjective(a, a');
    LowInjective(b, b');
    LowInjective(c, c');
  }

  lemma ThreeInjective(s: bv32, x: bytes, y: bytes)
    requires Is24(s) && |x| == |y| == 3 && Update(s, x) == Update(s, y)
    ensures x == y
  {
    hide Shifts, Is24, Xor, Word;
    assert x == [x[0], x[1], x[2]] && y == [y[0], y[1], y[2]];
    ThreeBytes(s, x[0], x[1], x[2]);
    ThreeBytes(s, y[0], y[1], y[2]);
    var v, w := Word(x[0], x[1], x[2]), Word(y[0], y[1], y[2]);
    WordIs24(x[0], x[1], x[2]);
    WordIs24(y[0], y[1], y[2]);
    Xor24(s, v);
    Xor24(s, w);
    ShiftsInjective(Xor(s, v), Xor(s, w), 24);
    XorCommutes(s, v);
    XorCommutes(s, w);
    XorCancel(v, w, s);
    WordInjective(x[0], x[1], x[2], y[0], y[1], y[2]);
  }

  lemma WordIs24(a: byte, b: byte, c: byte)
    ensures Is24(Word(a, b, c))
  {
    hide Is24, Xor, High, Mid, Low;
    Pieces24(a);
    Pieces24(b);
    Pieces24(c);
    Xor24(High(a), Mid(b));
    Xor24(Xor(High(a), Mid(b)), Low(c));
  }

  lemma XorCommutes(a: bv32, b: bv32)
    ensures Xor(a, b) == Xor(b, a)
  {
  }

  lemma BurstFrom(s: bv32, x: bytes, y: bytes)
    requires Is24(s) && |x| == |y| <= 3 && Update(s, x) == Update(s, y)
    ensures x == y
  {
    hide Is24, ByteStep;
    var pad: bytes := seq(3 - |x|, _ => 0);
    CrcConcat(s, x, pad);
    CrcConcat(s, y, pad);
    ThreeInjective(s, x + pad, y + pad);
    assert x == (x + pad)[..|x|] && y == (y + pad)[..|x|];
  }

  /** Whatever surrounds it, a change confined to three consecutive bytes changes the checksum. */
  lemma BurstDetected(before: bytes, x: bytes, y: bytes, after: bytes)
    requires |x| == |y| <= 3 && x != y
    ensures Crc24Of(before + x + after) != Crc24Of(before + y + after)
  {
    hide Is24, Update;
    var s := Crc24Of(before);
    assert Is24(CRC24_INIT) by { InitIs24(); }
    CrcIs24(CRC24_INIT, before);
    if Crc24Of(before + x + after) == Crc24Of(before + y + after) {
      CrcConcat(CRC24_INIT, before + x, after);
      CrcConcat(CRC24_INIT, before + y, after);
      CrcConcat(CRC24_INIT, before, x);
      CrcConcat(CRC24_INIT, before, y);
      CrcIs24(s, x);
      CrcIs24(s, y);
      CrcInjective(Update(s, x), Update(s, y), after);
      BurstFrom(s, x, y);
    }
  }

  lemma InitIs24()
    ensures Is24(CRC24_INIT)
  {
  }

  // ---------------------------------------------------------------- values

  /** One byte's shifts, one by one. */
  lemma EightTimes(a: bv32, b: bv32, c: bv32, d: bv32, e: bv32, f: bv32, g: bv32, h: bv32, i: bv32)
    requires Shift(a) == b && Shift(b) == c && Shift(c) == d && Shift(d) == e
    requires Shift(e) == f && Shift(f) == g && Shift(g) == h && Shift(h) == i
    ensures Shifts(a, 8) == i
  {
    hide Shift;
    assert Shifts(a, 0) == a && Shifts(a, 1) == b && Shifts(a, 2) == c && Shifts(a, 3) == d;
    assert Shifts(a, 4) == e && Shifts(a, 5) == f && Shifts(a, 6) == g && Shifts(a, 7) == h;
  }

  lemma KnownByte0()
    ensures ByteStep(0x875060, 64) == 0x4d9dd8
  {
    assert Xor(0x875060, High(64)) == 0xc75060;
    hide Shifts, Xor, High;
    EightTimes(0xc75060, 0x19efcb, 0x33df96, 0x67bf2c, 0xcf7e58,
               0x9b3bb, 0x136776, 0x26ceec, 0x4d9dd8);
  }

  lemma KnownByte1()
    ensures ByteStep(0x4d9dd8, 226) == 0x7ed04b
  {
    assert Xor(0x4d9dd8, High(226)) == 0xaf9dd8;
    hide Shifts, Xor, High;
    EightTimes(0xaf9dd8, 0xc874bb, 0x7a67d, 0xf4cfa, 0x1e99f4,
               0x3d33e8, 0x7a67d0, 0xf4cfa0, 0x7ed04b);
  }

  lemma KnownByte2()
    ensures ByteStep(0x7ed04b, 1) == 0x59e766
  {
    assert Xor(0x7ed04b, High(1)) == 0x7fd04b;
    hide Shifts, Xor, High;
    EightTimes(0x7fd04b, 0xffa096, 0x680e27, 0xd01c4e, 0x377797,
               0x6eef2e, 0xddde5c, 0x2cf3b3, 0x59e766);
  }

  lemma UpdateSnoc(buf: bytes, b: byte)
    ensures Update(CRC24_INIT, buf + [b]) == ByteStep(Update(CRC24_INIT, buf), b)
  {
    hide ByteStep;
    assert (buf + [b])[..|buf|] == buf;
  }

  /** A checksum by Cassandra's own implementation, which the start value and the polynomial must give. */
  lemma KnownChecksum()
    ensures Crc24Of([]) == 0x875060 && Crc24Of([64, 226, 1]) == 5_891_942
  {
    KnownByte0();
    KnownByte1();
    KnownByte2();
    hide ByteStep;
    assert Update(CRC24_INIT, []) == 0x875060;
    UpdateSnoc([], 64);
    assert [] + [64] == [64];
    UpdateSnoc([64], 226);
    assert [64] + [226] == [64, 226];
    UpdateSnoc([64, 226], 1);
    assert [64, 226] + [1] == [64, 226, 1];
  }
}
