// CQL type trees and their values (marshal.go, vector.go): what Marshal writes and Unmarshal reads,
// with Go's reflection replaced by a typed value.
module Cql {
  import opened Common
  import opened Bytes
  import opened Vint
  import opened BigInt
  import opened Cells

  datatype Kind =
    | Boolean | TinyInt | SmallInt | Int | BigInt | Timestamp | Float | Double | Uuid | TimeUuid
    | Text | Blob | Varint | Decimal | Duration

  datatype Type =
    | Scalar(kind: Kind)
    | List(elem: Type)              // and set, which has the same layout
    | Map(key: Type, elem: Type)
    | Tuple(elems: seq<Type>)
    | Udt(fields: seq<Type>)        // by position; names play no part in the bytes
    | Vector(elem: Type, dimensions: nat)

  /** A value, or null. Floats are their bit patterns, timestamps their milliseconds. A map is its
      keys and values in the order they are visited, each key before its value. A field missing
      from a user type is null. */
  datatype Value =
    | Null
    | BoolV(b: bool)
    | IntV(i: int)
    | RawV(raw: bytes)
    | DecimalV(scale: int, unscaled: int)
    | DurationV(duration: Vint.Duration)
    | ListV(items: seq<Value>)
    | MapV(items: seq<Value>)
    | TupleV(items: seq<Value>)
    | VectorV(items: seq<Value>)

  // ---------------------------------------------------------------- scalars

  /** Bytes of a fixed-width integer kind, and 0 for the others. */
  function Width(k: Kind): nat {
    match k
    case TinyInt => 1
    case SmallInt => 2
    case Int => 4
    case Float => 4
    case BigInt => 8
    case Timestamp => 8
    case Double => 8
    case _ => 0
  }

  function FixedInt(v: int, width: nat): bytes
    requires width > 0 && Fits(v, width)
  {
    FixedRoundTrip(v, width);
    Be(Unsigned(v, width), width)
  }

  function EncodeScalar(k: Kind, v: Value): Result<bytes> {
    if Width(k) > 0 then
      if v.IntV? && Fits(v.i, Width(k)) then Ok(FixedInt(v.i, Width(k))) else Err
    else
      match k
      case Boolean => if v.BoolV? then Ok([if v.b then 1 else 0]) else Err
      case Uuid => if v.RawV? && |v.raw| == 16 then Ok(v.raw) else Err
      case TimeUuid => if v.RawV? && |v.raw| == 16 then Ok(v.raw) else Err
      case Varint => if v.IntV? then Ok(Trim(EncBigInt2C(v.i))) else Err
      case Decimal =>
        if v.DecimalV? && Fits(v.scale, 4) then Ok(FixedInt(v.scale, 4) + EncBigInt2C(v.unscaled)) else Err
      case Duration => if v.DurationV? then Ok(EncodeDuration(v.duration)) else Err
      case _ => if v.RawV? then Ok(v.raw) else Err
  }

  function DecodeFixed(width: nat, s: bytes): Result<Value> {
    if s == [] then Ok(IntV(0)) else if |s| != width then Err else Ok(IntV(TwosComp(s)))
  }

  function DecodeUuid(s: bytes): Result<Value> {
    if s == [] then Ok(RawV(seq(16, _ => 0))) else if |s| != 16 then Err else Ok(RawV(s))
  }

  function DecodeScalar(k: Kind, s: bytes): Result<Value> {
    if Width(k) > 0 then DecodeFixed(Width(k), s)
    else
      match k
      case Boolean => if s == [] then Ok(BoolV(false)) else if |s| != 1 then Err else Ok(BoolV(s[0] != 0))
      case Uuid => DecodeUuid(s)
      case TimeUuid => DecodeUuid(s)
      case Varint => Ok(IntV(TwosComp(s)))
      case Decimal => if |s| < 4 then Err else Ok(DecimalV(TwosComp(s[..4]), TwosComp(s[4..])))
      case Duration =>
        if s == [] then Ok(DurationV(Vint.Duration(0, 0, 0)))
        else (match DecodeDuration(s) case Err => Err case Ok(d) => Ok(DurationV(d)))
      case _ => Ok(RawV(s))
  }

  lemma ScalarRoundTrip(k: Kind, v: Value)
    requires EncodeScalar(k, v).Ok?
    ensures DecodeScalar(k, EncodeScalar(k, v).value) == Ok(v)
  {
    hide TwosComp, Be, EncBigInt2C, Trim, EncodeDuration, DecodeDuration, Fits;
    if Width(k) > 0 {
      FixedRoundTrip(v.i, Width(k));
    } else {
      match k
      case Boolean =>
      case Uuid =>
      case TimeUuid =>
      case Varint =>
        BigIntRoundTrip(v.i);
        RoutesAgree(v.i);
      case Decimal =>
        FixedRoundTrip(v.scale, 4);
        BigIntRoundTrip(v.unscaled);
        var s := FixedInt(v.scale, 4) + EncBigInt2C(v.unscaled);
        assert s[..4] == FixedInt(v.scale, 4) && s[4..] == EncBigInt2C(v.unscaled);
      case Duration =>
        DurationRoundTrip(v.duration, []);
        assert EncodeDuration(v.duration) + [] == EncodeDuration(v.duration);
        DurationNotEmpty(v.duration);
      case Text =>
      case Blob =>
    }
  }

  lemma DurationNotEmpty(d: Vint.Duration)
    ensures EncodeDuration(d) != []
  {
    hide EncodeUnsigned;
    assert |EncodeUnsigned(EncZigZag(d.months))| > 0;
  }

  // ---------------------------------------------------------------- which types need lengths in a vector

  const FIXED_KINDS := {BigInt, Boolean, Timestamp, Double, Float, Int, TimeUuid, Uuid}

  /** isVectorVariableLengthType */
  predicate Variable(t: Type) {
    match t
    case Scalar(k) => k !in FIXED_KINDS
    case Vector(elem, _) => Variable(elem)
    case _ => true
  }

  /** The one length of every value of a type that is not variable. */
  function FixedSize(t: Type): nat
    requires !Variable(t)
  {
    match t
    case Scalar(k) => if k == Boolean then 1 else if k == Uuid || k == TimeUuid then 16 else Width(k)
    case Vector(elem, n) => n * FixedSize(elem)
  }

  // ---------------------------------------------------------------- encoding

  /** Marshal: null is no bytes at all. */
  function Encode(t: Type, v: Value): Result<Option<bytes>>
    decreases v
  {
    if v.Null? then Ok(None)
    else
      match t
      case Scalar(k) =>
        (match EncodeScalar(k, v) case Err => Err case Ok(b) => Ok(Some(b)))
      case List(elem) =>
        if !v.ListV? || |v.items| > MAX_INT32 then Err
        else Counted(|v.items|, EncodeAlternating(elem, elem, v.items))
      case Map(key, elem) =>
        if !v.MapV? || |v.items| % 2 != 0 || |v.items| / 2 > MAX_INT32 then Err
        else Counted(|v.items| / 2, EncodeAlternating(key, elem, v.items))
      case Tuple(elems) =>
        if !v.TupleV? || |v.items| != |elems| then Err
        else Joined(EncodeFields(true, elems, v.items))
      case Udt(fields) =>
        if !v.TupleV? || |v.items| != |fields| then Err
        else Joined(EncodeFields(false, fields, v.items))
      case Vector(elem, n) =>
        if !v.VectorV? || |v.items| != n then Err
        else JoinedVector(Variable(elem), EncodeAlternating(elem, elem, v.items))
  }

  /** Elements of type a and b by turns: keys and values, or one type throughout. */
  function EncodeAlternating(a: Type, b: Type, items: seq<Value>): Result<seq<Option<bytes>>>
    decreases items
  {
    if items == [] then Ok([])
    else
      match Encode(a, items[0])
      case Err => Err
      case Ok(c) =>
        match EncodeAlternating(b, a, items[1..])
        case Err => Err
        case Ok(more) => Ok([c] + more)
  }

  /** What the cell of a field holds. A tuple tells null from the value, a user type from the bytes. */
  function FieldCell(tuple: bool, v: Value, c: Option<bytes>): Option<bytes> {
    if tuple && !v.Null? && c.None? then Some([]) else c
  }

  function EncodeFields(tuple: bool, ts: seq<Type>, items: seq<Value>): Result<seq<Option<bytes>>>
    requires |ts| == |items|
    decreases items
  {
    if items == [] then Ok([])
    else
      match Encode(ts[0], items[0])
      case Err => Err
      case Ok(c) =>
        match EncodeFields(tuple, ts[1..], items[1..])
        case Err => Err
        case Ok(more) => Ok([FieldCell(tuple, items[0], c)] + more)
  }

  /** A count, then cells whose lengths are checked. */
  function Counted(n: nat, r: Result<seq<Option<bytes>>>): Result<Option<bytes>> {
    match r
    case Err => Err
    case Ok(cells) => if SmallCells(cells) then Ok(Some(Int4(n) + PutCells(cells))) else Err
  }

  /** Cells alone; without any, the buffer stays nil, which reads as null. */
  function Joined(r: Result<seq<Option<bytes>>>): Result<Option<bytes>> {
    match r
    case Err => Err
    case Ok(cells) => if cells == [] then Ok(None) else Ok(Some(PutCells(cells)))
  }

  /** A null element leaves no bytes behind. */
  function Content(c: Option<bytes>): bytes {
    if c.Some? then c.value else []
  }

  function Contents(cells: seq<Option<bytes>>): (r: seq<bytes>)
    ensures |r| == |cells| && forall i :: 0 <= i < |cells| ==> r[i] == Content(cells[i])
  {
    seq(|cells|, i requires 0 <= i < |cells| => Content(cells[i]))
  }

  predicate Addressable(cells: seq<bytes>) {
    forall b :: b in cells ==> |b| < TWO63
  }

  function JoinedVector(variable: bool, r: Result<seq<Option<bytes>>>): Result<Option<bytes>> {
    match r
    case Err => Err
    case Ok(cells) =>
      if !Addressable(Contents(cells)) then Err
      else
        var buf := PutVector(variable, Contents(cells));
        if buf == [] then Ok(None) else Ok(Some(buf))
  }

  // ---------------------------------------------------------------- decoding

  function TypeSize(t: Type): (n: nat)
    ensures n > 0
    decreases t
  {
    match t
    case Scalar(_) => 1
    case List(elem) => 1 + 2 * TypeSize(elem)
    case Map(key, elem) => 1 + TypeSize(key) + TypeSize(elem)
    case Tuple(elems) => 1 + TypesSize(elems)
    case Udt(fields) => 1 + TypesSize(fields)
    case Vector(elem, _) => 1 + 2 * TypeSize(elem)
  }

  function TypesSize(ts: seq<Type>): nat
    decreases ts
  {
    if ts == [] then 0 else TypeSize(ts[0]) + TypesSize(ts[1..])
  }

  datatype Container = InList | InMap | InTuple | InVector

  function Gathered(c: Container, r: Result<seq<Value>>): Result<Value> {
    match r
    case Err => Err
    case Ok(items) =>
      match c
      case InList => Ok(ListV(items))
      case InMap => Ok(MapV(Collect([], items)))
      case InTuple => Ok(TupleV(items))
      case InVector => Ok(VectorV(items))
  }

  function Decode(t: Type, data: Option<bytes>): Result<Value>
    decreases TypeSize(t), 0
  {
    if data.None? then Ok(Null)
    else
      match t
      case Scalar(k) => DecodeScalar(k, data.value)
      case List(elem) =>
        if |data.value| < 4 then Err
        else
          var n := TwosComp(data.value[..4]);
          if n < 0 then Err
          else (match TakeCells(Fails, n, data.value[4..])
            case Err => Err
            case Ok(cells) => Gathered(InList, DecodeAlternating(elem, elem, cells)))
      case Map(key, elem) =>
        if |data.value| < 4 then Err
        else
          var n := TwosComp(data.value[..4]);
          if n < 0 then Err
          else (match TakeCells(Fails, 2 * n, data.value[4..])
            case Err => Err
            case Ok(cells) => Gathered(InMap, DecodeAlternating(key, elem, cells)))
      case Tuple(elems) =>
        (match TakeCells(IsNull, |elems|, data.value)
          case Err => Err
          case Ok(cells) =>
            TakeCellsCount(IsNull, |elems|, data.value);
            Gathered(InTuple, DecodeFields(elems, cells)))
      case Udt(fields) =>
        (match TakeCells(EndsUdt, |fields|, data.value)
          case Err => Err
          case Ok(cells) =>
            TakeCellsCount(EndsUdt, |fields|, data.value);
            Gathered(InTuple, DecodeFields(fields, cells)))
      case Vector(elem, n) =>
        if n == 0 then Err
        else (match TakeVector(Variable(elem), n, Share(|data.value|, n), data.value)
          case Err => Err
          case Ok(elements) => Gathered(InVector, DecodeAlternating(elem, elem, elements)))
  }

  /** The size of each element when the bytes are shared evenly. */
  function Share(total: nat, n: nat): nat
    requires n > 0
  {
    total / n
  }

  lemma {:induction false} TakeCellsCount(short: Short, n: nat, data: bytes)
    ensures TakeCells(short, n, data).Ok? ==> |TakeCells(short, n, data).value| == n
  {
    if n > 0 && TakeCell(short, data).Take? {
      TakeCellsCount(short, n - 1, TakeCell(short, data).rest);
    }
  }

  function DecodeAlternating(a: Type, b: Type, cells: seq<Option<bytes>>): Result<seq<Value>>
    decreases TypeSize(a) + TypeSize(b), |cells|
  {
    if cells == [] then Ok([])
    else
      match Decode(a, cells[0])
      case Err => Err
      case Ok(v) =>
        match DecodeAlternating(b, a, cells[1..])
        case Err => Err
        case Ok(more) => Ok([v] + more)
  }

  function DecodeFields(ts: seq<Type>, cells: seq<Option<bytes>>): Result<seq<Value>>
    requires |ts| == |cells|
    decreases TypesSize(ts), |cells|
  {
    if cells == [] then Ok([])
    else
      match Decode(ts[0], cells[0])
      case Err => Err
      case Ok(v) =>
        match DecodeFields(ts[1..], cells[1..])
        case Err => Err
        case Ok(more) => Ok([v] + more)
  }

  /** SetMapIndex on the flattened map: a key seen before gets the new value. */
  function Put(acc: seq<Value>, k: Value, v: Value): seq<Value> {
    if |acc| < 2 then [k, v]
    else if acc[0] == k then [k, v] + acc[2..]
    else [acc[0], acc[1]] + Put(acc[2..], k, v)
  }

  function Collect(acc: seq<Value>, items: seq<Value>): seq<Value>
    decreases |items|
  {
    if |items| < 2 then acc else Collect(Put(acc, items[0], items[1]), items[2..])
  }
}
