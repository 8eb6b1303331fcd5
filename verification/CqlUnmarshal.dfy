// Unmarshal as the source runs it: loops that consume the data, recursing into the elements.
module CqlUnmarshal {
  import opened Common
  import opened Bytes
  import opened BigInt
  import opened Cells
  import opened Cql

  type Values = Result<seq<Value>>

  // ---------------------------------------------------------------- splitting and decoding together

  function DecodeItems(short: Short, a: Type, b: Type, n: nat, data: bytes): Values {
    match TakeCells(short, n, data)
    case Err => Err
    case Ok(cells) => DecodeAlternating(a, b, cells)
  }

  function DecodeRow(short: Short, ts: seq<Type>, data: bytes): Values {
    match TakeCells(short, |ts|, data)
    case Err => Err
    case Ok(cells) => TakeCellsCount(short, |ts|, data); DecodeFields(ts, cells)
  }

  function DecodeElements(elem: Type, n: nat, size: nat, data: bytes): Values {
    match TakeVector(Variable(elem), n, size, data)
    case Err => Err
    case Ok(elements) => DecodeAlternating(elem, elem, elements)
  }

  /** Values already read, before those of the rest. */
  function Then(done: seq<Value>, r: Values): Values {
    match r
    case Err => Err
    case Ok(items) => Ok(done + items)
  }

  /** The same for the entries of a map. */
  function Entries(acc: seq<Value>, r: Values): Values {
    match r
    case Err => Err
    case Ok(items) => Ok(Collect(acc, items))
  }

  /** One value put before the others, unless it could not be read. */
  function First(v: Result<Value>, r: Values): Values {
    match v
    case Err => Err
    case Ok(x) => Then([x], r)
  }

  lemma NextItem(short: Short, a: Type, b: Type, n: nat, data: bytes)
    requires n > 0
    ensures TakeCell(short, data).Bad? ==> DecodeItems(short, a, b, n, data) == Err
    ensures TakeCell(short, data).Take? ==>
      var c := TakeCell(short, data);
      DecodeItems(short, a, b, n, data) == First(Decode(a, c.cell), DecodeItems(short, b, a, n - 1, c.rest))
  {
    hide Decode, TakeCell;
    match TakeCell(short, data)
    case Bad =>
    case Take(c, rest) =>
      match TakeCells(short, n - 1, rest)
      case Err =>
      case Ok(more) => assert ([c] + more)[1..] == more;
  }

  lemma NextField(short: Short, ts: seq<Type>, data: bytes)
    requires ts != []
    ensures TakeCell(short, data).Bad? ==> DecodeRow(short, ts, data) == Err
    ensures TakeCell(short, data).Take? ==>
      var c := TakeCell(short, data);
      DecodeRow(short, ts, data) == First(Decode(ts[0], c.cell), DecodeRow(short, ts[1..], c.rest))
  {
    hide Decode, TakeCell;
    match TakeCell(short, data)
    case Bad =>
    case Take(c, rest) =>
      TakeCellsCount(short, |ts|, data);
      TakeCellsCount(short, |ts[1..]|, rest);
      match TakeCells(short, |ts| - 1, rest)
      case Err =>
      case Ok(more) => assert ([c] + more)[1..] == more;
  }

  lemma NextElement(elem: Type, n: nat, size: nat, data: bytes)
    requires n > 0
    ensures TakeElement(Variable(elem), size, data).BadElem? ==> DecodeElements(elem, n, size, data) == Err
    ensures TakeElement(Variable(elem), size, data).TakeElem? ==>
      var e := TakeElement(Variable(elem), size, data);
      DecodeElements(elem, n, size, data) == First(Decode(elem, e.elem), DecodeElements(elem, n - 1, size, e.rest))
  {
    hide Decode, TakeElement, Variable;
    match TakeElement(Variable(elem), size, data)
    case BadElem =>
    case TakeElem(e, rest) =>
      match TakeVector(Variable(elem), n - 1, size, rest)
      case Err =>
      case Ok(more) => assert ([e] + more)[1..] == more;
  }

  lemma ThenFirst(done: seq<Value>, v: Value, r: Values)
    ensures Then(done, First(Ok(v), r)) == Then(done + [v], r)
  {
    if r.Ok? {
      assert done + ([v] + r.value) == done + [v] + r.value;
    }
  }

  lemma EntriesFirst(acc: seq<Value>, k: Value, v: Value, r: Values)
    ensures Entries(acc, First(Ok(k), First(Ok(v), r))) == Entries(Put(acc, k, v), r)
  {
    hide Put;
    if r.Ok? {
      var items := [k] + ([v] + r.value);
      assert items[2..] == r.value && items[0] == k && items[1] == v;
    }
  }

  lemma Finished(done: seq<Value>)
    ensures Then(done, Ok([])) == Ok(done) && Entries(done, Ok([])) == Ok(done)
  {
    assert done + [] == done;
  }

  lemma NoItems(short: Short, a: Type, b: Type, size: nat, data: bytes)
    ensures DecodeItems(short, a, b, 0, data) == Ok([]) && DecodeRow(short, [], data) == Ok([])
    ensures DecodeElements(a, 0, size, data) == Ok([])
  {
  }

  lemma {:induction false} FieldInTypes(ts: seq<Type>, i: nat)
    requires i < |ts|
    ensures TypeSize(ts[i]) <= TypesSize(ts)
  {
    if i > 0 {
      FieldInTypes(ts[1..], i - 1);
    }
  }

  // ---------------------------------------------------------------- the loops

  method UnmarshalList(elem: Type, n: nat, start: bytes) returns (r: Values)
    ensures r == DecodeItems(Fails, elem, elem, n, start)
    decreases 2 * TypeSize(elem), 0
  {
    hide Decode, DecodeItems, TakeCell;
    var data, items := start, [];
    ghost var goal := DecodeItems(Fails, elem, elem, n, start);
    Start(goal);
    for i := 0 to n
      invariant Then(items, DecodeItems(Fails, elem, elem, n - i, data)) == goal
    {
      NextItem(Fails, elem, elem, n - i, data);
      var c := TakeCell(Fails, data);
      if c.Bad? {
        return Err;
      }
      var v := Unmarshal(elem, c.cell);
      if v.Err? {
        return Err;
      }
      ThenFirst(items, v.value, DecodeItems(Fails, elem, elem, n - i - 1, c.rest));
      items, data := items + [v.value], c.rest;
    }
    NoItems(Fails, elem, elem, 0, data);
    Finished(items);
    return Ok(items);
  }

  lemma Start(r: Values)
    ensures Then([], r) == r
  {
    if r.Ok? {
      assert [] + r.value == r.value;
    }
  }

  method UnmarshalMap(key: Type, elem: Type, n: nat, start: bytes) returns (r: Values)
    ensures r == Entries([], DecodeItems(Fails, key, elem, 2 * n, start))
    decreases TypeSize(key) + TypeSize(elem), 0
  {
    hide Decode, DecodeItems, TakeCell, Put;
    var data, entries := start, [];
    ghost var goal := Entries([], DecodeItems(Fails, key, elem, 2 * n, start));
    for i := 0 to n
      invariant Entries(entries, DecodeItems(Fails, key, elem, 2 * (n - i), data)) == goal
    {
      NextItem(Fails, key, elem, 2 * (n - i), data);
      var c := TakeCell(Fails, data);
      if c.Bad? {
        return Err;
      }
      var k := Unmarshal(key, c.cell);
      if k.Err? {
        return Err;
      }
      NextItem(Fails, elem, key, 2 * (n - i) - 1, c.rest);
      var d := TakeCell(Fails, c.rest);
      if d.Bad? {
        return Err;
      }
      var v := Unmarshal(elem, d.cell);
      if v.Err? {
        return Err;
      }
      EntriesFirst(entries, k.value, v.value, DecodeItems(Fails, key, elem, 2 * (n - i) - 2, d.rest));
      entries, data := Put(entries, k.value, v.value), d.rest;
    }
    NoItems(Fails, key, elem, 0, data);
    Finished(entries);
    return Ok(entries);
  }

  /** Tuples, where a missing length is null, and user types, which may end early. */
  method UnmarshalFields(short: Short, ts: seq<Type>, start: bytes) returns (r: Values)
    ensures r == DecodeRow(short, ts, start)
    decreases TypesSize(ts), 1
  {
    hide Decode, DecodeRow, TakeCell;
    var data, items := start, [];
    ghost var goal := DecodeRow(short, ts, start);
    Start(goal);
    assert ts[0..] == ts;
    for i := 0 to |ts|
      invariant Then(items, DecodeRow(short, ts[i..], data)) == goal
    {
      NextField(short, ts[i..], data);
      assert ts[i..][1..] == ts[i + 1..];
      var c := TakeCell(short, data);
      if c.Bad? {
        return Err;
      }
      FieldInTypes(ts, i);
      var v := Unmarshal(ts[i], c.cell);
      if v.Err? {
        return Err;
      }
      ThenFirst(items, v.value, DecodeRow(short, ts[i + 1..], c.rest));
      items, data := items + [v.value], c.rest;
    }
    assert ts[|ts|..] == [];
    NoItems(short, Scalar(Boolean), Scalar(Boolean), 0, data);
    Finished(items);
    return Ok(items);
  }

  method UnmarshalVector(elem: Type, n: nat, start: bytes) returns (r: Values)
    requires n > 0
    ensures r == DecodeElements(elem, n, Share(|start|, n), start)
    decreases 2 * TypeSize(elem), 0
  {
    hide Decode, DecodeElements, TakeElement, Variable;
    var size := Share(|start|, n);
    var data, items := start, [];
    ghost var goal := DecodeElements(elem, n, size, start);
    Start(goal);
    for i := 0 to n
      invariant Then(items, DecodeElements(elem, n - i, size, data)) == goal
    {
      NextElement(elem, n - i, size, data);
      var e := TakeElement(Variable(elem), size, data);
      if e.BadElem? {
        return Err;
      }
      var v := Unmarshal(elem, e.elem);
      if v.Err? {
        return Err;
      }
      ThenFirst(items, v.value, DecodeElements(elem, n - i - 1, size, e.rest));
      items, data := items + [v.value], e.rest;
    }
    NoItems(Fails, elem, elem, size, data);
    Finished(items);
    return Ok(items);
  }

  method Unmarshal(t: Type, data: Option<bytes>) returns (r: Result<Value>)
    ensures r == Decode(t, data)
    decreases TypeSize(t), 0
  {
    hide TakeCells, TakeVector, DecodeAlternating, DecodeFields, DecodeScalar, TwosComp, Share, Variable, Collect;
    if data.None? {
      return Ok(Null);
    }
    var s := data.value;
    var items: Values;
    match t
    case Scalar(k) => return DecodeScalar(k, s);
    case List(elem) =>
      if |s| < 4 || TwosComp(s[..4]) < 0 {
        return Err;
      }
      items := UnmarshalList(elem, TwosComp(s[..4]), s[4..]);
      return if items.Err? then Err else Ok(ListV(items.value));
    case Map(key, elem) =>
      if |s| < 4 || TwosComp(s[..4]) < 0 {
        return Err;
      }
      items := UnmarshalMap(key, elem, TwosComp(s[..4]), s[4..]);
      return if items.Err? then Err else Ok(MapV(items.value));
    case Tuple(elems) =>
      items := UnmarshalFields(IsNull, elems, s);
      return if items.Err? then Err else Ok(TupleV(items.value));
    case Udt(fields) =>
      items := UnmarshalFields(EndsUdt, fields, s);
      return if items.Err? then Err else Ok(TupleV(items.value));
    case Vector(elem, n) =>
      if n == 0 {
        return Err;
      }
      items := UnmarshalVector(elem, n, s);
      return if items.Err? then Err else Ok(VectorV(items.value));
  }
}
