// Exactly which values decoding gives back, for every type tree.
module CqlRoundTrip {
  import opened Common
  import opened Bytes
  import opened Vint
  import opened BigInt
  import opened Cells
  import opened Cql

  /** Whether decoding gives a value back that is not null: maps need distinct keys, vectors an element
      and no nulls among them. `present` says that the container writes the value even when it has no
      bytes: without that a tuple or user type needs a field. */
  predicate Survives(t: Type, v: Value, present: bool)
    decreases v
  {
    match t
    case Scalar(_) => true
    case List(elem) => v.ListV? ==> SurviveAlternating(elem, elem, v.items)
    case Map(key, elem) => v.MapV? ==> SurviveAlternating(key, elem, v.items) && DistinctKeys(v.items)
    case Tuple(elems) =>
      v.TupleV? && |v.items| == |elems| ==> (present || elems != []) && SurviveFields(true, elems, v.items)
    case Udt(fields) =>
      v.TupleV? && |v.items| == |fields| ==> (present || fields != []) && SurviveFields(false, fields, v.items)
    case Vector(elem, n) => v.VectorV? ==> n > 0 && NoNulls(v.items) && SurviveElements(elem, v.items)
  }

  predicate SurviveAlternating(a: Type, b: Type, items: seq<Value>)
    decreases items
  {
    items == [] || ((items[0].Null? || Survives(a, items[0], false)) && SurviveAlternating(b, a, items[1..]))
  }

  /** A tuple writes every field that is not null, a user type only those with bytes. */
  predicate SurviveFields(tuple: bool, ts: seq<Type>, items: seq<Value>)
    requires |ts| == |items|
    decreases items
  {
    items == [] || ((items[0].Null? || Survives(ts[0], items[0], tuple)) && SurviveFields(tuple, ts[1..], items[1..]))
  }

  predicate SurviveElements(elem: Type, items: seq<Value>)
    decreases items
  {
    items == [] || (Survives(elem, items[0], true) && SurviveElements(elem, items[1..]))
  }

  predicate DistinctKeys(items: seq<Value>) {
    forall i, j :: 0 <= i < j < |items| && i % 2 == 0 && j % 2 == 0 ==> items[i] != items[j]
  }

  predicate NoNulls(items: seq<Value>) {
    forall i :: 0 <= i < |items| ==> !items[i].Null?
  }

  // ---------------------------------------------------------------- maps

  lemma {:induction false} PutNew(acc: seq<Value>, k: Value, v: Value)
    requires |acc| % 2 == 0 && forall i :: 0 <= i < |acc| && i % 2 == 0 ==> acc[i] != k
    ensures Put(acc, k, v) == acc + [k, v]
  {
    if |acc| >= 2 {
      PutNew(acc[2..], k, v);
    }
  }

  lemma {:induction false} CollectDistinct(acc: seq<Value>, items: seq<Value>)
    requires |acc| % 2 == 0 && |items| % 2 == 0 && DistinctKeys(acc + items)
    ensures Collect(acc, items) == acc + items
    decreases |items|
  {
    var all := acc + items;
    if |items| >= 2 {
      forall i | 0 <= i < |acc| && i % 2 == 0
        ensures acc[i] != items[0]
      {
        assert all[i] != all[|acc|];
      }
      PutNew(acc, items[0], items[1]);
      assert acc + [items[0], items[1]] + items[2..] == all;
      CollectDistinct(acc + [items[0], items[1]], items[2..]);
    }
  }

  lemma {:induction false} PutLength(acc: seq<Value>, k: Value, v: Value)
    requires |acc| % 2 == 0
    ensures |Put(acc, k, v)| % 2 == 0 && |acc| <= |Put(acc, k, v)| <= |acc| + 2
    ensures |Put(acc, k, v)| == |acc| + 2 ==> forall i :: 0 <= i < |acc| && i % 2 == 0 ==> acc[i] != k
  {
    if |acc| >= 2 && acc[0] != k {
      PutLength(acc[2..], k, v);
      assert forall i :: 2 <= i < |acc| ==> acc[i] == acc[2..][i - 2];
    }
  }

  lemma {:induction false} CollectLength(acc: seq<Value>, items: seq<Value>)
    requires |acc| % 2 == 0 && |items| % 2 == 0
    ensures |Collect(acc, items)| <= |acc| + |items|
    decreases |items|
  {
    hide Put;
    if |items| >= 2 {
      PutLength(acc, items[0], items[1]);
      CollectLength(Put(acc, items[0], items[1]), items[2..]);
    }
  }

  lemma NewKey(acc: seq<Value>, k: Value, v: Value)
    requires |acc| % 2 == 0 && DistinctKeys(acc) && forall i :: 0 <= i < |acc| && i % 2 == 0 ==> acc[i] != k
    ensures DistinctKeys(acc + [k, v])
  {
  }

  /** A map that keeps all its entries had distinct keys. */
  lemma {:induction false} CollectAll(acc: seq<Value>, items: seq<Value>)
    requires |acc| % 2 == 0 && |items| % 2 == 0 && DistinctKeys(acc)
    requires |Collect(acc, items)| == |acc| + |items|
    ensures DistinctKeys(acc + items)
    decreases |items|
  {
    hide DistinctKeys, Put;
    if |items| < 2 {
      assert acc + items == acc;
    } else {
      var k, v, rest := items[0], items[1], items[2..];
      PutLength(acc, k, v);
      CollectLength(Put(acc, k, v), rest);
      PutNew(acc, k, v);
      NewKey(acc, k, v);
      assert acc + [k, v] + rest == acc + items;
      CollectAll(acc + [k, v], rest);
    }
  }

  /** The value of a key in a map as it is kept. */
  function ValueOf(items: seq<Value>, k: Value): Option<Value> {
    if |items| < 2 then None else if items[0] == k then Some(items[1]) else ValueOf(items[2..], k)
  }

  /** The last value that comes with a key. */
  function LastOf(items: seq<Value>, k: Value): Option<Value> {
    if |items| < 2 then None
    else
      var later := LastOf(items[2..], k);
      if later.Some? then later else if items[0] == k then Some(items[1]) else None
  }

  lemma {:induction false} PutValue(acc: seq<Value>, k: Value, v: Value, l: Value)
    requires |acc| % 2 == 0
    ensures ValueOf(Put(acc, k, v), l) == if l == k then Some(v) else ValueOf(acc, l)
  {
    if |acc| < 2 {
      assert ValueOf([k, v][2..], l) == None;
    } else if acc[0] == k {
      assert ([k, v] + acc[2..])[2..] == acc[2..];
    } else {
      PutValue(acc[2..], k, v, l);
      assert ([acc[0], acc[1]] + Put(acc[2..], k, v))[2..] == Put(acc[2..], k, v);
    }
  }

  /** A key read again gets the new value: of each key the last value is kept. */
  lemma {:induction false} LastWins(acc: seq<Value>, items: seq<Value>, k: Value)
    requires |acc| % 2 == 0 && |items| % 2 == 0
    ensures ValueOf(Collect(acc, items), k) == if LastOf(items, k).Some? then LastOf(items, k) else ValueOf(acc, k)
    decreases |items|
  {
    hide Put, ValueOf;
    if |items| >= 2 {
      PutLength(acc, items[0], items[1]);
      PutValue(acc, items[0], items[1], k);
      LastWins(Put(acc, items[0], items[1]), items[2..], k);
    }
  }

  // ---------------------------------------------------------------- fixed lengths

  lemma {:induction false} AlternatingCount(a: Type, b: Type, items: seq<Value>)
    requires EncodeAlternating(a, b, items).Ok?
    ensures |EncodeAlternating(a, b, items).value| == |items|
    decreases |items|
  {
    hide Encode;
    if items != [] {
      AlternatingCount(b, a, items[1..]);
    }
  }

  /** A kind inside any number of vectors. */
  function Nested(k: Kind, dims: seq<nat>): Type {
    if dims == [] then Scalar(k) else Vector(Nested(k, dims[1..]), dims[0])
  }

  function Product(dims: seq<nat>): nat {
    if dims == [] then 1 else dims[0] * Product(dims[1..])
  }

  ghost predicate IsNested(t: Type) {
    exists k, dims :: k in FIXED_KINDS && t == Nested(k, dims)
  }

  /** The types without lengths in a vector are the eight fixed kinds, inside any number of vectors. */
  lemma {:induction false} FixedIffNested(t: Type)
    ensures !Variable(t) <==> IsNested(t)
    decreases t
  {
    match t
    case Scalar(k) => assert t == Nested(k, []);
    case Vector(elem, n) =>
      FixedIffNested(elem);
      if IsNested(elem) {
        var k, dims :| k in FIXED_KINDS && elem == Nested(k, dims);
        assert ([n] + dims)[1..] == dims;
        assert t == Nested(k, [n] + dims);
      }
      if IsNested(t) {
        var k, dims :| k in FIXED_KINDS && t == Nested(k, dims);
        assert elem == Nested(k, dims[1..]);
      }
    case _ =>
  }

  lemma TimesAssoc(a: nat, b: nat, c: nat)
    ensures a * (b * c) == a * b * c
  {
  }

  /** Such a type takes the bytes of its kind times all the dimensions. */
  lemma {:induction false} FixedSizeOf(k: Kind, dims: seq<nat>)
    requires !Variable(Scalar(k))
    ensures !Variable(Nested(k, dims)) && FixedSize(Nested(k, dims)) == Product(dims) * FixedSize(Scalar(k))
  {
    if dims != [] {
      FixedSizeOf(k, dims[1..]);
      TimesAssoc(dims[0], Product(dims[1..]), FixedSize(Scalar(k)));
    }
  }

  /** Every value of a type that is not variable has the same length. */
  lemma {:induction false} FixedLength(t: Type, v: Value)
    requires !Variable(t) && Survives(t, v, true) && !v.Null? && Encode(t, v).Ok?
    ensures Encode(t, v).value.Some? && |Encode(t, v).value.value| == FixedSize(t) > 0
    decreases v
  {
    match t
    case Scalar(k) =>
    case Vector(elem, n) =>
      var cells := EncodeAlternating(elem, elem, v.items).value;
      AlternatingCount(elem, elem, v.items);
      FixedLengths(elem, v.items);
      EvenLength(FixedSize(elem), Contents(cells));
      assert n * FixedSize(elem) > 0;
  }

  lemma {:induction false} FixedLengths(elem: Type, items: seq<Value>)
    requires !Variable(elem) && SurviveElements(elem, items) && NoNulls(items)
    requires EncodeAlternating(elem, elem, items).Ok?
    ensures forall c :: c in EncodeAlternating(elem, elem, items).value ==> c.Some? && |c.value| == FixedSize(elem) > 0
    decreases items
  {
    hide Encode;
    if items != [] {
      FixedLength(elem, items[0]);
      FixedLengths(elem, items[1..]);
    }
  }

  lemma NeverNull(t: Type, data: bytes)
    ensures Decode(t, Some(data)) != Ok(Null)
  {
    hide TakeCells, TakeVector, DecodeAlternating, DecodeFields, Share, TwosComp, Variable, Collect;
  }

  lemma {:induction false} FixedElements(n: nat, size: nat, data: bytes)
    requires TakeVector(false, n, size, data).Ok?
    ensures forall e :: e in TakeVector(false, n, size, data).value ==> e.Some?
  {
    if n > 0 {
      FixedElements(n - 1, size, data[size..]);
    }
  }

  /** What is read as a type that is not variable has no nulls and no empty vectors in it. */
  lemma {:induction false} DecodedFixed(t: Type, data: bytes, v: Value)
    requires !Variable(t) && Decode(t, Some(data)) == Ok(v)
    ensures !v.Null? && Survives(t, v, true)
    decreases t, 0
  {
    hide TakeVector, Share, DecodeScalar;
    NeverNull(t, data);
    match t
    case Scalar(k) =>
    case Vector(elem, n) =>
      var elements := TakeVector(false, n, Share(|data|, n), data).value;
      FixedElements(n, Share(|data|, n), data);
      DecodedElements(elem, elements, v.items);
  }

  lemma {:induction false} DecodedElements(elem: Type, elements: seq<Option<bytes>>, items: seq<Value>)
    requires !Variable(elem) && (forall e :: e in elements ==> e.Some?)
    requires DecodeAlternating(elem, elem, elements) == Ok(items)
    ensures NoNulls(items) && SurviveElements(elem, items)
    decreases elem, |elements|
  {
    hide Decode, Survives, Variable;
    if elements != [] {
      assert elements[0] in elements;
      DecodedFixed(elem, elements[0].value, items[0]);
      assert items[1..] == DecodeAlternating(elem, elem, elements[1..]).value;
      DecodedElements(elem, elements[1..], items[1..]);
    }
  }

  // ---------------------------------------------------------------- the round trip

  predicate Small(c: Option<bytes>) {
    c.Some? ==> |c.value| <= MAX_INT32
  }

  /** For every type tree: decoding the encoding of a value gives the value, its nulls included, if and
      only if it is null or survives. The bound is the greatest length a cell can state. */
  lemma {:induction false} RoundTripIff(t: Type, v: Value)
    requires Encode(t, v).Ok? && Small(Encode(t, v).value)
    ensures Decode(t, Encode(t, v).value) == Ok(v) <==> v.Null? || Survives(t, v, false)
    decreases v, 2
  {
    hide Encode, Survives;
    if v.Null? {
      assert Encode(t, v) == Ok(None) by { NullEncodes(t); }
    } else {
      PresentIff(t, v);
      BytesOrNot(t, v);
    }
    hide Decode;
    DecodeNone(t);
  }

  lemma NullEncodes(t: Type)
    ensures Encode(t, Null) == Ok(None)
  {
  }

  lemma DecodeNone(t: Type)
    ensures Decode(t, None) == Ok(Null)
  {
  }

  /** Only without bytes does it matter whether a container writes the value all the same. */
  lemma BytesOrNot(t: Type, v: Value)
    requires !v.Null? && Encode(t, v).Ok?
    ensures if Encode(t, v).value.Some? then Survives(t, v, false) <==> Survives(t, v, true) else !Survives(t, v, false)
  {
    hide PutCells, PutVector, Int4, SurviveFields, SurviveAlternating, SurviveElements, EncodeScalar, Variable;
    match t
    case Scalar(_) =>
    case List(_) =>
    case Map(_, _) =>
    case Tuple(elems) => FieldsCount(true, elems, v.items);
    case Udt(fields) => FieldsCount(false, fields, v.items);
    case Vector(elem, n) =>
      if n > 0 && NoNulls(v.items) && SurviveElements(elem, v.items) {
        AlternatingCount(elem, elem, v.items);
        VectorBuffer(elem, v.items, EncodeAlternating(elem, elem, v.items).value);
      }
  }

  /** The same with the value written by its container. */
  lemma {:induction false} PresentIff(t: Type, v: Value)
    requires !v.Null? && Encode(t, v).Ok? && Small(Encode(t, v).value)
    ensures Decode(t, Some(Content(Encode(t, v).value))) == Ok(v) <==> Survives(t, v, true)
    decreases v, 1
  {
    hide TwosComp, Int4, DecodeScalar, EncodeScalar;
    match t
    case Scalar(k) => ScalarRoundTrip(k, v);
    case List(elem) => ListIff(elem, v);
    case Map(key, elem) => MapIff(key, elem, v);
    case Tuple(elems) => TupleIff(elems, v);
    case Udt(fields) => UdtIff(fields, v);
    case Vector(elem, n) => VectorIff(elem, n, v);
  }

  lemma CountAndCells(n: nat, cells: seq<Option<bytes>>)
    requires n <= MAX_INT32 && SmallCells(cells)
    ensures var s := Int4(n) + PutCells(cells);
      TwosComp(s[..4]) == n && TakeCells(Fails, |cells|, s[4..]) == Ok(cells)
  {
    hide Share, TwosComp, Int4, PutCells, TakeCells;
    var s := Int4(n) + PutCells(cells);
    assert s[..4] == Int4(n) && s[4..] == PutCells(cells) + [];
    Int4RoundTrip(n);
    CellsRoundTrip(Fails, cells, []);
  }

  lemma {:induction false} ListIff(elem: Type, v: Value)
    requires v.ListV? && Encode(List(elem), v).Ok?
    ensures Decode(List(elem), Some(Content(Encode(List(elem), v).value))) == Ok(v) <==> Survives(List(elem), v, true)
    decreases v, 0
  {
    hide TwosComp, Int4, TakeCells, PutCells;
    var cells := EncodeAlternating(elem, elem, v.items).value;
    AlternatingIff(elem, elem, v.items);
    CountAndCells(|v.items|, cells);
  }

  lemma {:induction false} MapIff(key: Type, elem: Type, v: Value)
    requires v.MapV? && Encode(Map(key, elem), v).Ok?
    ensures Decode(Map(key, elem), Some(Content(Encode(Map(key, elem), v).value))) == Ok(v)
      <==> Survives(Map(key, elem), v, true)
    decreases v, 0
  {
    hide TwosComp, Int4, TakeCells, PutCells, Collect, DistinctKeys;
    hide SurviveAlternating, DecodeAlternating, EncodeAlternating;
    var cells := EncodeAlternating(key, elem, v.items).value;
    AlternatingIff(key, elem, v.items);
    CountAndCells(|v.items| / 2, cells);
    KeepsEntries(key, elem, cells, v.items);
  }

  /** Entries put one by one are all there at the end if and only if their keys differ. */
  lemma KeepsEntries(key: Type, elem: Type, cells: seq<Option<bytes>>, items: seq<Value>)
    requires |cells| == |items| && |items| % 2 == 0
    ensures var r := DecodeAlternating(key, elem, cells);
      r.Ok? && Collect([], r.value) == items <==> r == Ok(items) && DistinctKeys(items)
  {
    hide Collect;
    var r := DecodeAlternating(key, elem, cells);
    DecodedCount(key, elem, cells);
    if r.Ok? {
      assert [] + r.value == r.value;
      if |Collect([], r.value)| == |items| {
        CollectAll([], r.value);
      }
      if DistinctKeys(r.value) {
        CollectDistinct([], r.value);
      }
    }
  }

  lemma {:induction false} DecodedCount(a: Type, b: Type, cells: seq<Option<bytes>>)
    ensures DecodeAlternating(a, b, cells).Ok? ==> |DecodeAlternating(a, b, cells).value| == |cells|
    decreases |cells|
  {
    hide Decode;
    if cells != [] {
      DecodedCount(b, a, cells[1..]);
    }
  }

  lemma {:induction false} TupleIff(elems: seq<Type>, v: Value)
    requires v.TupleV? && Encode(Tuple(elems), v).Ok? && Small(Encode(Tuple(elems), v).value)
    ensures Decode(Tuple(elems), Some(Content(Encode(Tuple(elems), v).value))) == Ok(v)
      <==> Survives(Tuple(elems), v, true)
    decreases v, 0
  {
    hide TakeCells;
    var cells := EncodeFields(true, elems, v.items).value;
    FieldsCount(true, elems, v.items);
    assert Content(Encode(Tuple(elems), v).value) == PutCells(cells);
    hide PutCells;
    CellsAreSmall(cells, MAX_INT32);
    FieldsIff(true, elems, v.items);
    CellsRoundTrip(IsNull, cells, []);
    assert PutCells(cells) + [] == PutCells(cells);
  }

  lemma {:induction false} UdtIff(fields: seq<Type>, v: Value)
    requires v.TupleV? && Encode(Udt(fields), v).Ok? && Small(Encode(Udt(fields), v).value)
    ensures Decode(Udt(fields), Some(Content(Encode(Udt(fields), v).value))) == Ok(v)
      <==> Survives(Udt(fields), v, true)
    decreases v, 0
  {
    hide TakeCells;
    var cells := EncodeFields(false, fields, v.items).value;
    FieldsCount(false, fields, v.items);
    assert Content(Encode(Udt(fields), v).value) == PutCells(cells);
    hide PutCells;
    CellsAreSmall(cells, MAX_INT32);
    FieldsIff(false, fields, v.items);
    CellsRoundTrip(EndsUdt, cells, []);
    assert PutCells(cells) + [] == PutCells(cells);
  }

  lemma {:induction false} FieldsCount(tuple: bool, ts: seq<Type>, items: seq<Value>)
    requires |ts| == |items| && EncodeFields(tuple, ts, items).Ok?
    ensures |EncodeFields(tuple, ts, items).value| == |items|
    decreases |items|
  {
    hide Encode;
    if items != [] {
      FieldsCount(tuple, ts[1..], items[1..]);
    }
  }

  lemma {:induction false} VectorIff(elem: Type, n: nat, v: Value)
    requires v.VectorV? && Encode(Vector(elem, n), v).Ok? && Small(Encode(Vector(elem, n), v).value)
    ensures Decode(Vector(elem, n), Some(Content(Encode(Vector(elem, n), v).value))) == Ok(v)
      <==> Survives(Vector(elem, n), v, true)
    decreases v, 0
  {
    hide TakeVector, PutVector, Variable, SurviveElements, NoNulls, DecodeAlternating, EncodeAlternating, Share;
    var cells := EncodeAlternating(elem, elem, v.items).value;
    AlternatingCount(elem, elem, v.items);
    var buf := PutVector(Variable(elem), Contents(cells));
    assert Content(Encode(Vector(elem, n), v).value) == buf;
    if n > 0 {
      ElementsAreSmall(Variable(elem), Contents(cells), MAX_INT32);
      assert SmallCells(cells) by { ContentsSmall(cells); }
      ElementsIff(elem, v.items);
      if Variable(elem) {
        VariableBuffer(Contents(cells), n);
      } else if NoNulls(v.items) && SurviveElements(elem, v.items) {
        VectorBuffer(elem, v.items, cells);
      } else if Decode(Vector(elem, n), Some(buf)) == Ok(v) {
        FixedVector(elem, n);
        DecodedFixed(Vector(elem, n), buf, v);
      }
    }
  }

  lemma FixedVector(elem: Type, n: nat)
    ensures Variable(Vector(elem, n)) == Variable(elem)
  {
  }

  /** The buffer of a vector that survives is not empty and splits into the elements again. */
  lemma VectorBuffer(elem: Type, items: seq<Value>, cells: seq<Option<bytes>>)
    requires items != [] && EncodeAlternating(elem, elem, items) == Ok(cells) && Addressable(Contents(cells))
    requires SurviveElements(elem, items) && NoNulls(items)
    ensures |cells| == |items|
    ensures var buf := PutVector(Variable(elem), Contents(cells));
      buf != [] && TakeVector(Variable(elem), |items|, Share(|buf|, |items|), buf) == Ok(Present(Contents(cells)))
  {
    hide Share, TakeVector, PutVector, Encode, FixedSize, Variable;
    AlternatingCount(elem, elem, items);
    if Variable(elem) {
      VariableBuffer(Contents(cells), |items|);
    } else {
      FixedLengths(elem, items);
      assert cells[0] in cells;
      assert forall b :: b in Contents(cells) ==> |b| == FixedSize(elem);
      FixedBuffer(Contents(cells), FixedSize(elem));
    }
  }

  lemma VariableBuffer(elements: seq<bytes>, n: nat)
    requires elements != [] && Addressable(elements) && n == |elements|
    ensures var buf := PutVector(true, elements);
      buf != [] && TakeVector(true, n, Share(|buf|, n), buf) == Ok(Present(elements))
  {
    hide Share, TakeVector, VectorCell;
    VectorRoundTrip(true, Share(|PutVector(true, elements)|, n), elements);
    VectorCellNotEmpty(elements[0]);
  }

  lemma FixedBuffer(elements: seq<bytes>, size: nat)
    requires elements != [] && Addressable(elements) && size > 0 && forall b :: b in elements ==> |b| == size
    ensures var buf := PutVector(false, elements);
      buf != [] && TakeVector(false, |elements|, Share(|buf|, |elements|), buf) == Ok(Present(elements))
  {
    hide Share, TakeVector, PutVector;
    EvenLength(size, elements);
    Division(|elements|, size);
    VectorRoundTrip(false, size, elements);
  }

  lemma VectorCellNotEmpty(b: bytes)
    requires |b| < TWO63
    ensures |VectorCell(true, b)| > 0
  {
    hide EncodeUnsigned;
  }

  lemma Division(n: nat, size: nat)
    requires n > 0 && size > 0
    ensures Share(n * size, n) == size && n * size > 0
  {
    var q, r := (n * size) / n, (n * size) % n;
    Quotient(n, size - q, r);
  }

  lemma Quotient(n: int, d: int, r: int)
    requires 0 <= r < n && n * d == r
    ensures d == 0
  {
    assert d >= 1 ==> n * d >= n;
    assert d <= -1 ==> n * d <= -n;
  }

  lemma ContentsSmall(cells: seq<Option<bytes>>)
    requires forall b :: b in Contents(cells) ==> |b| <= MAX_INT32
    ensures SmallCells(cells)
  {
    forall c | c in cells && c.Some?
      ensures |c.value| <= MAX_INT32
    {
      var i :| 0 <= i < |cells| && cells[i] == c;
      assert Contents(cells)[i] in Contents(cells);
    }
  }

  lemma {:induction false} AlternatingIff(a: Type, b: Type, items: seq<Value>)
    requires EncodeAlternating(a, b, items).Ok? && SmallCells(EncodeAlternating(a, b, items).value)
    ensures |EncodeAlternating(a, b, items).value| == |items|
    ensures DecodeAlternating(a, b, EncodeAlternating(a, b, items).value) == Ok(items)
      <==> SurviveAlternating(a, b, items)
    decreases items
  {
    hide Encode, Decode, Survives;
    if items != [] {
      var cells := EncodeAlternating(a, b, items).value;
      assert cells[0] in cells && cells[0] == Encode(a, items[0]).value;
      RoundTripIff(a, items[0]);
      AlternatingIff(b, a, items[1..]);
      assert cells[1..] == EncodeAlternating(b, a, items[1..]).value;
      Split(items);
    }
  }

  /** With every element written, null or not. */
  lemma {:induction false} ElementsIff(elem: Type, items: seq<Value>)
    requires EncodeAlternating(elem, elem, items).Ok? && SmallCells(EncodeAlternating(elem, elem, items).value)
    ensures var cells := EncodeAlternating(elem, elem, items).value;
      DecodeAlternating(elem, elem, Present(Contents(cells))) == Ok(items)
      <==> NoNulls(items) && SurviveElements(elem, items)
    decreases items
  {
    hide Encode, Decode, Survives;
    if items != [] {
      var cells := EncodeAlternating(elem, elem, items).value;
      assert cells[0] in cells && cells[0] == Encode(elem, items[0]).value;
      NeverNull(elem, Content(cells[0]));
      if !items[0].Null? {
        PresentIff(elem, items[0]);
      }
      ElementsIff(elem, items[1..]);
      assert cells[1..] == EncodeAlternating(elem, elem, items[1..]).value;
      assert Present(Contents(cells))[1..] == Present(Contents(cells[1..]));
      Split(items);
    }
  }

  lemma Split(items: seq<Value>)
    requires items != []
    ensures items == [items[0]] + items[1..]
    ensures NoNulls(items) <==> !items[0].Null? && NoNulls(items[1..])
  {
    assert forall i :: 0 < i < |items| ==> items[i] == items[1..][i - 1];
  }

  lemma {:induction false} FieldsIff(tuple: bool, ts: seq<Type>, items: seq<Value>)
    requires |ts| == |items| && EncodeFields(tuple, ts, items).Ok?
    requires SmallCells(EncodeFields(tuple, ts, items).value)
    ensures |EncodeFields(tuple, ts, items).value| == |items|
    ensures DecodeFields(ts, EncodeFields(tuple, ts, items).value) == Ok(items) <==> SurviveFields(tuple, ts, items)
    decreases items
  {
    hide Encode, Decode, Survives;
    if items != [] {
      var cells := EncodeFields(tuple, ts, items).value;
      assert cells[0] in cells && cells[0] == FieldCell(tuple, items[0], Encode(ts[0], items[0]).value);
      if tuple && !items[0].Null? {
        PresentIff(ts[0], items[0]);
      } else {
        RoundTripIff(ts[0], items[0]);
      }
      assert cells[1..] == EncodeFields(tuple, ts[1..], items[1..]).value;
      FieldsIff(tuple, ts[1..], items[1..]);
      Split(items);
    }
  }

  // ---------------------------------------------------------------- values that are lost

  lemma OneField(t: Type, v: Value, c: Option<bytes>)
    requires Encode(t, v) == Ok(c)
    ensures EncodeFields(true, [t], [v]) == Ok([FieldCell(true, v, c)])
  {
    hide Encode;
    assert [t][1..] == [] && [v][1..] == [];
    assert EncodeFields(true, [], []) == Ok([]);
    assert EncodeFields(true, [t], [v]) == Ok([FieldCell(true, v, c)] + []);
    assert [FieldCell(true, v, c)] + [] == [FieldCell(true, v, c)];
  }

  /** A tuple without fields reads back as null, but inside another tuple as itself. */
  lemma FieldlessTuple()
    ensures Encode(Tuple([]), TupleV([])) == Ok(None)
    ensures var t, v := Tuple([Tuple([])]), TupleV([TupleV([])]);
      Encode(t, v).Ok? && Decode(t, Encode(t, v).value) == Ok(v)
  {
    var none, empty := Tuple([]), TupleV([]);
    assert EncodeFields(true, [], []) == Ok([]);
    OneField(none, empty, None);
    assert PutCells([Some([])]) == Int4(0) + [] + PutCells([]);
    assert [none][1..] == [] && [empty][1..] == [];
    assert SurviveFields(true, [], []);
    assert SurviveFields(true, [none], [empty]);
    hide Encode, Decode;
    RoundTripIff(Tuple([none]), TupleV([empty]));
  }

  /** A length past the greatest an int32 can state is written modulo 2^32. */
  lemma LongCell(b: bytes)
    ensures var c := TakeCell(IsNull, Cell(Some(b))); c.Take? && (c.cell == Some(b) <==> |b| <= MAX_INT32)
  {
    hide TwosComp;
    var r := |b| % 0x1_0000_0000;
    var m := if r <= MAX_INT32 then r else r - 0x1_0000_0000;
    Pow256Four();
    FixedRoundTrip(m, 4);
    var data := Cell(Some(b));
    assert data[..4] == Int4(|b|) == Be(r, 4) == Be(Unsigned(m, 4), 4);
    assert data[4..] == b;
    if 0 <= m {
      assert data[4..4 + m] == b[..m];
      assert m == |b| <==> |b| <= MAX_INT32;
      assert b[..m] == b <==> m == |b|;
    }
  }

  lemma LongBytes(b: bytes)
    ensures Encode(Tuple([Scalar(Blob)]), TupleV([RawV(b)])) == Ok(Some(Cell(Some(b))))
  {
    OneField(Scalar(Blob), RawV(b), Some(b));
    hide EncodeFields, Cell;
    assert PutCells([Some(b)]) == Cell(Some(b)) + PutCells([]) == Cell(Some(b));
  }

  lemma LongRead(b: bytes)
    ensures TakeCell(IsNull, Cell(Some(b))).Take?
    ensures var c := TakeCell(IsNull, Cell(Some(b))).cell;
      Decode(Tuple([Scalar(Blob)]), Some(Cell(Some(b)))) == Ok(TupleV([if c.Some? then RawV(c.value) else Null]))
  {
    LongCell(b);
    hide TakeCell, Cell;
    var data := Cell(Some(b));
    var c := TakeCell(IsNull, data);
    assert TakeCells(IsNull, 1, data) == Ok([c.cell] + []);
    assert [c.cell] + [] == [c.cell];
    ReadField(c.cell);
    hide DecodeFields, TakeCells;
  }

  /** A field longer than that is lost, and only such a field. */
  lemma LongFieldIff(b: bytes)
    ensures var t, v := Tuple([Scalar(Blob)]), TupleV([RawV(b)]);
      Encode(t, v).Ok? && (Decode(t, Encode(t, v).value) == Ok(v) <==> |b| <= MAX_INT32)
  {
    hide TakeCell, Cell, Encode, Decode;
    LongBytes(b);
    LongRead(b);
    LongCell(b);
    var c := TakeCell(IsNull, Cell(Some(b))).cell;
    var read := if c.Some? then RawV(c.value) else Null;
    assert [read] == [RawV(b)] <==> read == RawV(b);
  }

  lemma ReadField(c: Option<bytes>)
    ensures DecodeFields([Scalar(Blob)], [c]) == Ok([if c.Some? then RawV(c.value) else Null])
  {
    var read := if c.Some? then RawV(c.value) else Null;
    assert [Scalar(Blob)][1..] == [] && [c][1..] == [];
    assert DecodeFields([], []) == Ok([]);
    assert DecodeFields([Scalar(Blob)], [c]) == Ok([read] + []);
    assert [read] + [] == [read];
  }

  /** Nulls can be read from a vector, though none are written. */
  lemma NullElementRead(elem: Type, m: nat)
    requires Variable(elem) && TWO63 <= m < TWO64
    ensures Decode(Vector(elem, 1), Some(EncodeUnsigned(m))) == Ok(VectorV([Null]))
  {
    hide EncodeUnsigned, TakeElement, Variable, Share;
    var data := EncodeUnsigned(m);
    HugeLength(m, Share(|data|, 1), []);
    assert data + [] == data;
    assert TakeVector(true, 0, Share(|data|, 1), []) == Ok([]);
    assert TakeVector(true, 1, Share(|data|, 1), data) == Ok([None] + []);
    var elements: seq<Option<bytes>> := [None];
    assert [None] + [] == elements && elements[1..] == [];
    DecodeNone(elem);
    assert DecodeAlternating(elem, elem, []) == Ok([]);
    assert DecodeAlternating(elem, elem, elements) == Ok([Null] + []);
    assert [Null] + [] == [Null];
  }
}
