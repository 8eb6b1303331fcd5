// Which values can be marshalled as which types (marshal.go:196-2920, vector.go:86-121).
module CqlTypes {
  import opened Common
  import opened Bytes
  import opened Vint
  import opened BigInt
  import opened Cells
  import opened Cql
  import opened CqlBytes

  predicate InRange(v: Value, range: int) {
    v.IntV? && -range <= v.i < range
  }

  predicate KindTakes(k: Kind, v: Value) {
    match k
    case Boolean => v.BoolV?
    case TinyInt => InRange(v, 0x80)
    case SmallInt => InRange(v, 0x8000)
    case Int => InRange(v, 0x8000_0000)
    case Float => InRange(v, 0x8000_0000)
    case BigInt => InRange(v, 0x8000_0000_0000_0000)
    case Timestamp => InRange(v, 0x8000_0000_0000_0000)
    case Double => InRange(v, 0x8000_0000_0000_0000)
    case Uuid => v.RawV? && |v.raw| == 16
    case TimeUuid => v.RawV? && |v.raw| == 16
    case Text => v.RawV?
    case Blob => v.RawV?
    case Varint => v.IntV?
    case Decimal => v.DecimalV? && -0x8000_0000 <= v.scale < 0x8000_0000
    case Duration => v.DurationV?
  }

  /** A value of the type, with every number in range and, in collections and vectors, every length
      one that can be written. Tuples and user types write any length, modulo 2^32. */
  predicate Takes(t: Type, v: Value)
    decreases v
  {
    v.Null? ||
    match t
    case Scalar(k) => KindTakes(k, v)
    case List(elem) =>
      && v.ListV? && |v.items| <= 0x7FFF_FFFF
      && ByTurns(elem, elem, v.items) && AtMost(0x7FFF_FFFF, elem, elem, v.items)
    case Map(key, elem) =>
      && v.MapV? && |v.items| % 2 == 0 && |v.items| <= 0xFFFF_FFFE
      && ByTurns(key, elem, v.items) && AtMost(0x7FFF_FFFF, key, elem, v.items)
    case Tuple(elems) => v.TupleV? && |v.items| == |elems| && OneEach(elems, v.items)
    case Udt(fields) => v.TupleV? && |v.items| == |fields| && OneEach(fields, v.items)
    case Vector(elem, n) =>
      && v.VectorV? && |v.items| == n
      && ByTurns(elem, elem, v.items) && AtMost(0x7FFF_FFFF_FFFF_FFFF, elem, elem, v.items)
  }

  /** Values of type a and b by turns. */
  predicate ByTurns(a: Type, b: Type, items: seq<Value>)
    decreases items
  {
    items == [] || (Takes(a, items[0]) && ByTurns(b, a, items[1..]))
  }

  predicate OneEach(ts: seq<Type>, items: seq<Value>)
    requires |ts| == |items|
    decreases items
  {
    items == [] || (Takes(ts[0], items[0]) && OneEach(ts[1..], items[1..]))
  }

  predicate Within(limit: nat, r: Result<Option<bytes>>) {
    r.Ok? && r.value.Some? ==> |r.value.value| <= limit
  }

  predicate AtMost(limit: nat, a: Type, b: Type, items: seq<Value>)
    decreases |items|
  {
    items == [] || (Within(limit, Encode(a, items[0])) && AtMost(limit, b, a, items[1..]))
  }

  // ---------------------------------------------------------------- proof

  lemma FitsIs(i: int)
    ensures Fits(i, 1) <==> -0x80 <= i < 0x80
    ensures Fits(i, 2) <==> -0x8000 <= i < 0x8000
    ensures Fits(i, 4) <==> -0x8000_0000 <= i < 0x8000_0000
    ensures Fits(i, 8) <==> -0x8000_0000_0000_0000 <= i < 0x8000_0000_0000_0000
  {
    Ranges();
    assert Pow256(4) == 256 * Pow256(3);
    assert Pow256(8) == 256 * Pow256(7);
  }

  lemma KindTakesIff(k: Kind, v: Value)
    ensures EncodeScalar(k, v).Ok? <==> KindTakes(k, v)
  {
    hide FixedInt, EncBigInt2C, Trim, EncodeDuration, Fits;
    FitsIs(if v.IntV? then v.i else if v.DecimalV? then v.scale else 0);
  }

  lemma {:induction false} AlternatingTaken(a: Type, b: Type, items: seq<Value>)
    ensures EncodeAlternating(a, b, items).Ok? <==> ByTurns(a, b, items)
    decreases items, 0
  {
    hide Encode, Takes;
    if items != [] {
      TakenIff(a, items[0]);
      AlternatingTaken(b, a, items[1..]);
    }
  }

  lemma {:induction false} FieldsTaken(tuple: bool, ts: seq<Type>, items: seq<Value>)
    requires |ts| == |items|
    ensures EncodeFields(tuple, ts, items).Ok? <==> OneEach(ts, items)
    decreases items
  {
    hide Encode, Takes;
    if items != [] {
      TakenIff(ts[0], items[0]);
      FieldsTaken(tuple, ts[1..], items[1..]);
    }
  }

  lemma {:induction false} CellsWithin(a: Type, b: Type, items: seq<Value>)
    requires EncodeAlternating(a, b, items).Ok?
    ensures SmallCells(EncodeAlternating(a, b, items).value) <==> AtMost(0x7FFF_FFFF, a, b, items)
    decreases |items|
  {
    hide Encode;
    if items != [] {
      CellsWithin(b, a, items[1..]);
      var more := EncodeAlternating(b, a, items[1..]).value;
      assert EncodeAlternating(a, b, items).value == [Encode(a, items[0]).value] + more;
    }
  }

  lemma {:induction false} ContentsWithin(a: Type, b: Type, items: seq<Value>)
    requires EncodeAlternating(a, b, items).Ok?
    ensures Addressable(Contents(EncodeAlternating(a, b, items).value))
        <==> AtMost(0x7FFF_FFFF_FFFF_FFFF, a, b, items)
    decreases |items|
  {
    hide Encode;
    if items != [] {
      ContentsWithin(b, a, items[1..]);
      var c, more := Encode(a, items[0]).value, EncodeAlternating(b, a, items[1..]).value;
      assert EncodeAlternating(a, b, items).value == [c] + more;
      assert Contents([c] + more) == [Content(c)] + Contents(more);
    }
  }

  lemma {:induction false} CollectionTaken(a: Type, b: Type, items: seq<Value>)
    ensures Counted(0, EncodeAlternating(a, b, items)).Ok?
       <==> ByTurns(a, b, items) && AtMost(0x7FFF_FFFF, a, b, items)
    decreases items, 1
  {
    hide EncodeAlternating, SmallCells, PutCells, Int4, ByTurns, AtMost;
    AlternatingTaken(a, b, items);
    if EncodeAlternating(a, b, items).Ok? {
      CellsWithin(a, b, items);
    }
  }

  /** Marshal fails on exactly the values that are not of the type. */
  lemma {:induction false} TakenIff(t: Type, v: Value)
    ensures Encode(t, v).Ok? <==> Takes(t, v)
    decreases v
  {
    hide EncodeScalar, EncodeAlternating, EncodeFields, SmallCells, Addressable, Contents, PutCells, PutVector, Int4,
      KindTakes, ByTurns, OneEach, AtMost;
    if !v.Null? {
      match t
      case Scalar(k) => KindTakesIff(k, v);
      case List(elem) =>
        if v.ListV? && |v.items| <= MAX_INT32 {
          CollectionTaken(elem, elem, v.items);
        }
      case Map(key, elem) =>
        if v.MapV? && |v.items| % 2 == 0 && |v.items| / 2 <= MAX_INT32 {
          CollectionTaken(key, elem, v.items);
        }
      case Tuple(elems) =>
        if v.TupleV? && |v.items| == |elems| {
          FieldsTaken(true, elems, v.items);
        }
      case Udt(fields) =>
        if v.TupleV? && |v.items| == |fields| {
          FieldsTaken(false, fields, v.items);
        }
      case Vector(elem, n) =>
        if v.VectorV? && |v.items| == n {
          AlternatingTaken(elem, elem, v.items);
          if EncodeAlternating(elem, elem, v.items).Ok? {
            ContentsWithin(elem, elem, v.items);
          }
        }
    }
  }
}
