// The bytes values become on the wire, with the numbers written out: sections 3 and 6 of the Cassandra
// native protocol v5 (native_protocol_v5.spec).
module CqlBytes {
  import opened Common
  import opened Bytes
  import opened Vint
  import opened BigInt
  import opened Cells
  import opened Cql
  import opened CqlRoundTrip

  // ---------------------------------------------------------------- lengths

  /** Four bytes, most significant first; -1, which stands for null, is all ones. */
  lemma LengthBytes(n: nat)
    requires n <= 0x7FFF_FFFF
    ensures n / 256 / 256 / 256 < 256
    ensures Int4(n) == [n / 256 / 256 / 256, n / 256 / 256 % 256, n / 256 % 256, n % 256]
    ensures Cell(None) == Int4(-1) == [255, 255, 255, 255]
  {
    Be4(n);
    Be4(0xFFFF_FFFF);
  }

  lemma Be4(n: nat)
    requires n < 0x1_0000_0000
    ensures n / 256 / 256 / 256 < 256
    ensures Be(n, 4) == [n / 256 / 256 / 256, n / 256 / 256 % 256, n / 256 % 256, n % 256]
  {
    var y := n / 256;
    var z := y / 256;
    var w := z / 256;
    assert y < 0x100_0000 && z < 0x1_0000 && w < 256;
    assert Be(w, 1) == Be(w / 256, 0) + [w % 256] == [w];
    assert Be(z, 2) == Be(w, 1) + [z % 256];
    assert Be(y, 3) == Be(z, 2) + [y % 256];
    assert Be(n, 4) == Be(y, 3) + [n % 256];
  }

  /** The first bytes of a vint, by how many follow. */
  const MARKERS: seq<int> := [0x00, 0x80, 0xC0, 0xE0, 0xF0, 0xF8, 0xFC, 0xFE, 0xFF]

  /** An unsigned vint: as many leading ones as bytes follow, and the value in the bits left over and those
      bytes, most significant first. */
  lemma VintBytes(v: uint64)
    ensures var s := EncodeUnsigned(v); var n := |s| - 1;
      && 0 <= n <= 8 && MARKERS[n] <= s[0] && (n < 8 ==> s[0] < MARKERS[n + 1])
      && FromBe([s[0] - MARKERS[n]] + s[1..]) == v
  {
    hide FromBe, Be, BitLen, Size, Pow256;
    SizeIs(v);
    SizeFits(v);
    var s := EncodeUnsigned(v);
    var n := |s| - 1;
    Pow2Small();
    if Size(v) <= 1 {
      assert FromBe([v]) == v by { OneByte(v); }
      assert [s[0] - MARKERS[0]] + s[1..] == [v];
    } else {
      TopByteFits(v);
      var b := Be(v, Size(v));
      MarkerIs(n);
      assert [s[0] - MARKERS[n]] + s[1..] == b;
    }
  }

  /** And so it is read, whatever the bytes are. */
  lemma VintReads(s: bytes, n: nat)
    requires s != [] && n <= 8 && MARKERS[n] <= s[0] && (n < 8 ==> s[0] < MARKERS[n + 1])
    ensures var next: nat := n + 1;
      DecodeUnsigned(s) == if |s| <= n then Err else Ok((FromBe([s[0] - MARKERS[n]] + s[1..next]), next))
  {
    hide FromBe;
    Pow2Small();
    match n
    case 0 => case 1 => case 2 => case 3 => case 4 => case 5 => case 6 => case 7 => case 8 =>
  }

  lemma OneByte(b: byte)
    ensures FromBe([b]) == b
  {
    assert [b][..0] == [];
  }

  lemma MarkerIs(extra: nat)
    requires 1 <= extra <= 8
    ensures Marker(extra) == MARKERS[extra] && Pow2(TopBits(extra + 1)) <= 256 - MARKERS[extra]
    ensures extra < 8 ==> MARKERS[extra] + Pow2(TopBits(extra + 1)) == MARKERS[extra + 1]
  {
    Pow2Small();
    match extra
    case 1 => case 2 => case 3 => case 4 => case 5 => case 6 => case 7 => case 8 =>
  }

  function ZigZag(x: int64): uint64 {
    if x >= 0 then 2 * x else -2 * x - 1
  }

  /** A duration is three vints: months, days, nanoseconds. */
  lemma DurationBytes(d: Vint.Duration)
    ensures EncodeDuration(d)
         == EncodeUnsigned(ZigZag(d.months)) + EncodeUnsigned(ZigZag(d.days)) + EncodeUnsigned(ZigZag(d.nanos))
  {
    hide EncodeUnsigned, EncZigZag;
    ZigZagMeaning(d.months);
    ZigZagMeaning(d.days);
    ZigZagMeaning(d.nanos);
  }

  // ---------------------------------------------------------------- scalars

  /** A two's complement number of w bytes, most significant first. */
  predicate Number(s: bytes, i: int, w: nat, range: int) {
    |s| == w && -range <= 2 * i < range && FromBe(s) == if i < 0 then i + range else i
  }

  lemma {:induction false} BeBack(u: nat, w: nat)
    requires u < Pow256(w)
    ensures FromBe(Be(u, w)) == u
  {
    if w > 0 {
      BeBack(u / 256, w - 1);
      assert Be(u, w)[..w - 1] == Be(u / 256, w - 1);
    }
  }

  lemma FixedBytes(i: int, w: nat)
    requires w > 0 && Fits(i, w)
    ensures Number(FixedInt(i, w), i, w, Pow256(w))
  {
    hide Be, FromBe, TwosComp, Pow2;
    FixedRoundTrip(i, w);
    assert Pow256(w) == 256 * Pow256(w - 1);
    BeBack(Unsigned(i, w), w);
  }

  lemma Ranges()
    ensures Pow256(1) == 0x100 && Pow256(2) == 0x1_0000 && Pow256(4) == 0x1_0000_0000
    ensures Pow256(8) == 0x1_0000_0000_0000_0000
  {
    assert Pow256(2) == 0x1_0000;
    assert Pow256(4) == 0x1_0000 * Pow256(2);
    assert Pow256(6) == 0x1_0000 * Pow256(4);
    assert Pow256(8) == 0x1_0000 * Pow256(6);
  }

  /** The bytes of every scalar kind. */
  lemma ScalarBytes(k: Kind, v: Value)
    requires EncodeScalar(k, v).Ok?
    ensures var s := EncodeScalar(k, v).value;
      match k
      case Boolean => v.BoolV? && s == [if v.b then 1 else 0]
      case TinyInt => v.IntV? && Number(s, v.i, 1, 0x100)
      case SmallInt => v.IntV? && Number(s, v.i, 2, 0x1_0000)
      case Int => v.IntV? && Number(s, v.i, 4, 0x1_0000_0000)
      case Float => v.IntV? && Number(s, v.i, 4, 0x1_0000_0000)
      case BigInt => v.IntV? && Number(s, v.i, 8, 0x1_0000_0000_0000_0000)
      case Timestamp => v.IntV? && Number(s, v.i, 8, 0x1_0000_0000_0000_0000)
      case Double => v.IntV? && Number(s, v.i, 8, 0x1_0000_0000_0000_0000)
      case Uuid => v.RawV? && s == v.raw && |s| == 16
      case TimeUuid => v.RawV? && s == v.raw && |s| == 16
      case Text => v.RawV? && s == v.raw
      case Blob => v.RawV? && s == v.raw
      case Varint => v.IntV? && Shortest(s) && TwosComp(s) == v.i
      case Decimal =>
        && v.DecimalV? && |s| > 4 && Number(s[..4], v.scale, 4, 0x1_0000_0000)
        && Shortest(s[4..]) && TwosComp(s[4..]) == v.unscaled
      case Duration => v.DurationV? && s == EncodeDuration(v.duration)
  {
    hide FixedInt, TwosComp, EncBigInt2C, Trim, Shortest, Number, EncodeDuration, Fits, Pow256, Be, FromBe;
    Ranges();
    if Width(k) > 0 {
      FixedBytes(v.i, Width(k));
    } else if k == Varint {
      BigIntRoundTrip(v.i);
      RoutesAgree(v.i);
    } else if k == Decimal {
      FixedBytes(v.scale, 4);
      BigIntRoundTrip(v.unscaled);
      NotEmpty(EncBigInt2C(v.unscaled));
      var s := EncodeScalar(k, v).value;
      FixedLength4(v.scale);
      assert s[..4] == FixedInt(v.scale, 4) && s[4..] == EncBigInt2C(v.unscaled);
    }
  }

  lemma NotEmpty(s: bytes)
    requires Shortest(s)
    ensures s != []
  {
  }

  lemma FixedLength4(i: int)
    requires Fits(i, 4)
    ensures |FixedInt(i, 4)| == 4
  {
    hide Be;
  }

  /** Which bytes each scalar kind accepts; no bytes at all are a zero value where there is one. */
  lemma ScalarAccepts(k: Kind, s: bytes)
    ensures DecodeScalar(k, s).Ok? <==>
      match k
      case Boolean => |s| <= 1
      case TinyInt => |s| == 0 || |s| == 1
      case SmallInt => |s| == 0 || |s| == 2
      case Int => |s| == 0 || |s| == 4
      case Float => |s| == 0 || |s| == 4
      case BigInt => |s| == 0 || |s| == 8
      case Timestamp => |s| == 0 || |s| == 8
      case Double => |s| == 0 || |s| == 8
      case Uuid => |s| == 0 || |s| == 16
      case TimeUuid => |s| == 0 || |s| == 16
      case Text => true
      case Blob => true
      case Varint => true
      case Decimal => |s| >= 4
      case Duration => |s| == 0 || DecodeDuration(s).Ok?
    ensures s == [] && k != Decimal ==> DecodeScalar(k, s) == Ok(
      if k == Boolean then BoolV(false)
      else if k == Text || k == Blob then RawV([])
      else if k == Uuid || k == TimeUuid then RawV([0, 0, 0, 0, 0, 0, 0, 0, 0, 0, 0, 0, 0, 0, 0, 0])
      else if k == Kind.Duration then DurationV(Vint.Duration(0, 0, 0))
      else IntV(0))
    ensures DecodeScalar(k, s).Ok? && s != [] ==>
      match k
      case Boolean => DecodeScalar(k, s).value == BoolV(s[0] != 0)
      case Uuid => DecodeScalar(k, s).value == RawV(s)
      case TimeUuid => DecodeScalar(k, s).value == RawV(s)
      case Text => DecodeScalar(k, s).value == RawV(s)
      case Blob => DecodeScalar(k, s).value == RawV(s)
      case Decimal => DecodeScalar(k, s).value == DecimalV(TwosComp(s[..4]), TwosComp(s[4..]))
      case Duration => DecodeScalar(k, s).value == DurationV(DecodeDuration(s).value)
      case _ => DecodeScalar(k, s).value == IntV(TwosComp(s))
  {
    hide TwosComp, DecodeDuration;
    ZeroBytes();
  }

  lemma ZeroBytes()
    ensures TwosComp([]) == 0
    ensures seq(16, _ => 0 as byte) == [0, 0, 0, 0, 0, 0, 0, 0, 0, 0, 0, 0, 0, 0, 0, 0]
  {
  }

  // ---------------------------------------------------------------- composite values

  function Four(n: nat): bytes {
    [n / 256 / 256 / 256 % 256, n / 256 / 256 % 256, n / 256 % 256, n % 256]
  }

  /** Each value after its length; null is the length -1 alone. */
  function Laid(cells: seq<Option<bytes>>): bytes {
    if cells == [] then []
    else (if cells[0].Some? then Four(|cells[0].value|) + cells[0].value else [255, 255, 255, 255]) + Laid(cells[1..])
  }

  lemma FourIs(n: nat)
    requires n <= 0x7FFF_FFFF
    ensures Int4(n) == Four(n)
  {
    LengthBytes(n);
  }

  lemma {:induction false} LaidIs(cells: seq<Option<bytes>>)
    requires SmallCells(cells)
    ensures PutCells(cells) == Laid(cells)
  {
    hide Int4, Four;
    if cells != [] {
      assert cells[0] in cells;
      if cells[0].Some? {
        FourIs(|cells[0].value|);
      } else {
        LengthBytes(0);
      }
      LaidIs(cells[1..]);
    }
  }

  /** Elements of type a and b by turns are encoded one by one. */
  lemma {:induction false} AlternatingAt(a: Type, b: Type, items: seq<Value>, i: nat)
    requires EncodeAlternating(a, b, items).Ok? && i < |items|
    ensures i < |EncodeAlternating(a, b, items).value|
    ensures Encode(if i % 2 == 0 then a else b, items[i]) == Ok(EncodeAlternating(a, b, items).value[i])
    decreases i
  {
    hide Encode;
    if i > 0 {
      AlternatingAt(b, a, items[1..], i - 1);
    }
  }

  lemma {:induction false} FieldAt(tuple: bool, ts: seq<Type>, items: seq<Value>, i: nat)
    requires |ts| == |items| && EncodeFields(tuple, ts, items).Ok? && i < |items|
    ensures i < |EncodeFields(tuple, ts, items).value| && Encode(ts[i], items[i]).Ok?
    ensures EncodeFields(tuple, ts, items).value[i] == FieldCell(tuple, items[i], Encode(ts[i], items[i]).value)
    decreases i
  {
    hide Encode;
    if i > 0 {
      FieldAt(tuple, ts[1..], items[1..], i - 1);
    }
  }

  /** A list or set: the number of elements, then each of them. */
  lemma ListBytes(elem: Type, items: seq<Value>, s: bytes) returns (cells: seq<Option<bytes>>)
    requires Encode(List(elem), ListV(items)) == Ok(Some(s))
    ensures |cells| == |items| && forall i :: 0 <= i < |items| ==> Encode(elem, items[i]) == Ok(cells[i])
    ensures s == Four(|items|) + Laid(cells)
  {
    cells := EncodeAlternating(elem, elem, items).value;
    assert s == Int4(|items|) + PutCells(cells) && SmallCells(cells);
    hide Encode, PutCells, Int4, Four;
    AlternatingCount(elem, elem, items);
    forall i | 0 <= i < |items|
      ensures Encode(elem, items[i]) == Ok(cells[i])
    {
      AlternatingAt(elem, elem, items, i);
    }
    FourIs(|items|);
    LaidIs(cells);
  }

  /** A map: the number of entries, then each key before its value. */
  lemma MapBytes(key: Type, elem: Type, items: seq<Value>, s: bytes) returns (cells: seq<Option<bytes>>)
    requires Encode(Map(key, elem), MapV(items)) == Ok(Some(s))
    ensures |cells| == |items| == 2 * (|items| / 2)
    ensures forall i :: 0 <= i < |items| ==> Encode(if i % 2 == 0 then key else elem, items[i]) == Ok(cells[i])
    ensures s == Four(|items| / 2) + Laid(cells)
  {
    cells := EncodeAlternating(key, elem, items).value;
    assert s == Int4(|items| / 2) + PutCells(cells) && SmallCells(cells);
    hide Encode, PutCells, Int4, Four;
    AlternatingCount(key, elem, items);
    forall i | 0 <= i < |items|
      ensures Encode(if i % 2 == 0 then key else elem, items[i]) == Ok(cells[i])
    {
      AlternatingAt(key, elem, items, i);
    }
    FourIs(|items| / 2);
    LaidIs(cells);
  }

  predicate TupleField(t: Type, v: Value, cell: Option<bytes>) {
    Encode(t, v).Ok? && cell == if v.Null? then None else Some(Content(Encode(t, v).value))
  }

  /** A tuple: each field, null only if it is. */
  lemma TupleBytes(elems: seq<Type>, items: seq<Value>, s: bytes) returns (cells: seq<Option<bytes>>)
    requires Encode(Tuple(elems), TupleV(items)) == Ok(Some(s)) && |s| <= 0x7FFF_FFFF
    ensures |cells| == |items| == |elems| && s == Laid(cells)
    ensures forall i :: 0 <= i < |items| ==> TupleField(elems[i], items[i], cells[i])
  {
    cells := EncodeFields(true, elems, items).value;
    assert s == PutCells(cells);
    hide PutCells, Int4;
    FieldsCount(true, elems, items);
    forall i | 0 <= i < |items|
      ensures TupleField(elems[i], items[i], cells[i])
    {
      FieldAt(true, elems, items, i);
      NullEncodes(elems[i]);
    }
    CellsAreSmall(cells, 0x7FFF_FFFF);
    LaidIs(cells);
  }

  /** A user type: each field by position, null if it has no bytes. */
  lemma UdtBytes(fields: seq<Type>, items: seq<Value>, s: bytes) returns (cells: seq<Option<bytes>>)
    requires Encode(Udt(fields), TupleV(items)) == Ok(Some(s)) && |s| <= 0x7FFF_FFFF
    ensures |cells| == |items| == |fields| && s == Laid(cells)
    ensures forall i :: 0 <= i < |items| ==> Encode(fields[i], items[i]) == Ok(cells[i])
  {
    cells := EncodeFields(false, fields, items).value;
    assert s == PutCells(cells);
    hide PutCells, Int4;
    FieldsCount(false, fields, items);
    forall i | 0 <= i < |items|
      ensures Encode(fields[i], items[i]) == Ok(cells[i])
    {
      FieldAt(false, fields, items, i);
    }
    CellsAreSmall(cells, 0x7FFF_FFFF);
    LaidIs(cells);
  }

  // ---------------------------------------------------------------- vectors

  /** Which elements of a vector go with their lengths. */
  predicate WithLength(t: Type) {
    match t
    case Scalar(k) => k in {TinyInt, SmallInt, Text, Blob, Varint, Decimal, Kind.Duration}
    case Vector(elem, _) => WithLength(elem)
    case _ => true
  }

  lemma {:induction false} WithLengthIs(t: Type)
    ensures WithLength(t) == Variable(t)
    decreases t
  {
    match t
    case Scalar(k) =>
      match k {
        case Boolean => case TinyInt => case SmallInt => case Int => case BigInt => case Timestamp => case Float =>
        case Double => case Uuid => case TimeUuid => case Text => case Blob => case Varint => case Decimal =>
        case Duration =>
      }
    case Vector(elem, _) => WithLengthIs(elem);
    case _ =>
  }

  function OneByOne(lengths: bool, elements: seq<bytes>): bytes
    requires Addressable(elements)
  {
    if elements == [] then []
    else (if lengths then EncodeUnsigned(|elements[0]|) else []) + elements[0] + OneByOne(lengths, elements[1..])
  }

  lemma {:induction false} OneByOneIs(lengths: bool, elements: seq<bytes>)
    requires Addressable(elements)
    ensures PutVector(lengths, elements) == OneByOne(lengths, elements)
  {
    hide EncodeUnsigned;
    if elements != [] {
      OneByOneIs(lengths, elements[1..]);
      assert [] + elements[0] == elements[0];
    }
  }

  /** A vector: its elements, each after its length as an unsigned vint unless the type has one size; no
      number of elements, and nothing for a null element but an empty length. */
  lemma VectorBytes(elem: Type, n: nat, items: seq<Value>, c: Option<bytes>) returns (elements: seq<bytes>)
    requires Encode(Vector(elem, n), VectorV(items)) == Ok(c)
    ensures |elements| == |items| == n && Addressable(elements)
    ensures forall i :: 0 <= i < n ==> IsContent(elem, items[i], elements[i])
    ensures Content(c) == OneByOne(WithLength(elem), elements) && (c.None? <==> Content(c) == [])
  {
    var cells := EncodeAlternating(elem, elem, items).value;
    elements := Contents(cells);
    assert Content(c) == PutVector(Variable(elem), elements);
    hide Encode, PutVector, WithLength, Variable, OneByOne;
    AlternatingCount(elem, elem, items);
    forall i | 0 <= i < n
      ensures IsContent(elem, items[i], elements[i])
    {
      AlternatingAt(elem, elem, items, i);
    }
    WithLengthIs(elem);
    OneByOneIs(Variable(elem), elements);
  }

  predicate IsContent(t: Type, v: Value, b: bytes) {
    Encode(t, v).Ok? && b == Content(Encode(t, v).value)
  }

  /** The kinds of one size, and their sizes. */
  function SizeIn(k: Kind): Option<nat> {
    match k
    case Boolean => Some(1)
    case Int => Some(4)
    case Float => Some(4)
    case BigInt => Some(8)
    case Timestamp => Some(8)
    case Double => Some(8)
    case Uuid => Some(16)
    case TimeUuid => Some(16)
    case _ => None
  }

  lemma {:induction false} EvenSize(elements: seq<bytes>, size: nat)
    requires Addressable(elements) && forall i :: 0 <= i < |elements| ==> |elements[i]| == size
    ensures |OneByOne(false, elements)| == |elements| * size
  {
    if elements != [] {
      EvenSize(elements[1..], size);
      OneMore(|elements| - 1, size);
    }
  }

  /** A vector of n booleans takes n bytes, of ints or floats 4n, of bigints, timestamps or doubles 8n, of
      uuids 16n, and nothing besides; the elements of every other kind carry their lengths. */
  lemma ScalarVectorBytes(k: Kind, n: nat, items: seq<Value>, c: Option<bytes>) returns (elements: seq<bytes>)
    requires Encode(Vector(Scalar(k), n), VectorV(items)) == Ok(c) && NoNulls(items)
    ensures |elements| == |items| == n && Addressable(elements)
    ensures forall i :: 0 <= i < n ==> EncodeScalar(k, items[i]) == Ok(elements[i])
    ensures if SizeIn(k).Some? then |Content(c)| == n * SizeIn(k).value && Content(c) == OneByOne(false, elements)
      else Content(c) == OneByOne(true, elements)
  {
    hide EncodeUnsigned, OneByOne, EncodeScalar;
    elements := VectorBytes(Scalar(k), n, items, c);
    forall i | 0 <= i < n
      ensures EncodeScalar(k, items[i]) == Ok(elements[i])
      ensures SizeIn(k).Some? ==> |elements[i]| == SizeIn(k).value
    {
      assert IsContent(Scalar(k), items[i], elements[i]);
      ScalarBytes(k, items[i]);
    }
    if SizeIn(k).Some? {
      EvenSize(elements, SizeIn(k).value);
    }
  }

  // ---------------------------------------------------------------- what is missing at the end

  lemma {:induction false} FieldsThenNulls(ts: seq<Type>, cells: seq<Option<bytes>>, more: seq<Option<bytes>>)
    requires |ts| == |cells| + |more| && forall i :: 0 <= i < |more| ==> more[i].None?
    ensures DecodeFields(ts, cells + more)
         == match DecodeFields(ts[..|cells|], cells)
            case Err => Err
            case Ok(items) => Ok(items + NullValues(|more|))
    decreases |ts|
  {
    hide Decode;
    if cells != [] {
      FieldsThenNulls(ts[1..], cells[1..], more);
      assert (cells + more)[1..] == cells[1..] + more && ts[..|cells|][1..] == ts[1..][..|cells| - 1];
      var r := DecodeFields(ts[1..][..|cells| - 1], cells[1..]);
      var first := Decode(ts[0], cells[0]);
      if r.Ok? && first.Ok? {
        assert [first.value] + (r.value + NullValues(|more|)) == [first.value] + r.value + NullValues(|more|);
      }
    } else if more != [] {
      FieldsThenNulls(ts[1..], [], more[1..]);
      assert cells + more == more && [] + more[1..] == more[1..];
      DecodeNone(ts[0]);
      assert [Null] + ([] + NullValues(|more| - 1)) == [] + NullValues(|more|);
    }
  }

  function NullValues(n: nat): (r: seq<Value>)
    ensures |r| == n && forall i :: 0 <= i < n ==> r[i].Null?
  {
    seq(n, _ => Null)
  }

  /** The fields read, and null for each that is not there. */
  function Padded(ts: seq<Type>, cells: seq<Option<bytes>>): Result<Value>
    requires |cells| < |ts|
  {
    match DecodeFields(ts[..|cells|], cells)
    case Err => Err
    case Ok(items) => Ok(TupleV(items + NullValues(|ts| - |cells|)))
  }

  lemma DecodeTupleIs(ts: seq<Type>, data: bytes, cells: seq<Option<bytes>>)
    requires TakeCells(IsNull, |ts|, data) == Ok(cells) && |cells| == |ts|
    ensures Decode(Tuple(ts), Some(data)) == Gathered(InTuple, DecodeFields(ts, cells))
  {
    hide TakeCells, DecodeFields;
  }

  lemma DecodeUdtIs(ts: seq<Type>, data: bytes)
    ensures match TakeCells(EndsUdt, |ts|, data)
      case Err => Decode(Udt(ts), Some(data)) == Err
      case Ok(cells) => |cells| == |ts| ==> Decode(Udt(ts), Some(data)) == Gathered(InTuple, DecodeFields(ts, cells))
  {
    hide TakeCells, DecodeFields;
  }

  lemma PaddedIs(ts: seq<Type>, cells: seq<Option<bytes>>)
    requires |cells| < |ts|
    ensures Gathered(InTuple, DecodeFields(ts, cells + Nulls(|ts| - |cells|))) == Padded(ts, cells)
  {
    hide DecodeFields;
    FieldsThenNulls(ts, cells, Nulls(|ts| - |cells|));
  }

  /** Fields that are not there are null in a tuple. */
  lemma MissingInTuple(ts: seq<Type>, cells: seq<Option<bytes>>, tail: bytes)
    requires SmallCells(cells) && |cells| < |ts| && |tail| < 4
    ensures Decode(Tuple(ts), Some(PutCells(cells) + tail)) == Padded(ts, cells)
  {
    hide PutCells, TakeCells, DecodeFields, Decode, Padded, Gathered;
    MissingCells(IsNull, cells, |ts|, tail);
    PaddedIs(ts, cells);
    DecodeTupleIs(ts, PutCells(cells) + tail, cells + Nulls(|ts| - |cells|));
  }

  /** In a user type they are if nothing else is left over, which is otherwise an error. */
  lemma MissingInUdt(ts: seq<Type>, cells: seq<Option<bytes>>, tail: bytes)
    requires SmallCells(cells) && |cells| < |ts| && |tail| < 4
    ensures Decode(Udt(ts), Some(PutCells(cells) + tail)) == if tail == [] then Padded(ts, cells) else Err
  {
    hide PutCells, TakeCells, DecodeFields, Decode, Padded, Gathered;
    MissingCells(EndsUdt, cells, |ts|, tail);
    PaddedIs(ts, cells);
    DecodeUdtIs(ts, PutCells(cells) + tail);
  }

  /** A list, set or map with fewer elements than it says is an error. */
  lemma MissingElements(key: Type, elem: Type, cells: seq<Option<bytes>>, n: nat, tail: bytes)
    requires SmallCells(cells) && n <= 0x7FFF_FFFF && |tail| < 4
    ensures |cells| < n ==> Decode(List(elem), Some(Four(n) + (PutCells(cells) + tail))) == Err
    ensures |cells| < 2 * n ==> Decode(Map(key, elem), Some(Four(n) + (PutCells(cells) + tail))) == Err
  {
    hide PutCells, TakeCells, TwosComp, Int4, Four;
    FourIs(n);
    Int4RoundTrip(n);
    var data := Int4(n) + (PutCells(cells) + tail);
    assert data[..4] == Int4(n) && data[4..] == PutCells(cells) + tail;
    if |cells| < n {
      MissingCells(Fails, cells, n, tail);
    }
    if |cells| < 2 * n {
      MissingCells(Fails, cells, 2 * n, tail);
    }
  }

  /** Without four bytes for their number, or with a negative number, elements are not read. */
  lemma NoCount(key: Type, elem: Type, s: bytes)
    requires |s| < 4 || s[0] >= 128
    ensures Decode(List(elem), Some(s)) == Err && Decode(Map(key, elem), Some(s)) == Err
  {
    hide TakeCells, TwosComp;
    if |s| >= 4 {
      TwosCompFits(s[..4]);
    }
  }
}
