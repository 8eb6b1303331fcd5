// Marshal as the source runs it: loops that append to a buffer, recursing into the elements.
module CqlMarshal {
  import opened Common
  import opened Bytes
  import opened Vint
  import opened Cells
  import opened Cql

  type CellsResult = Result<seq<Option<bytes>>>

  // ---------------------------------------------------------------- a buffer and what is still to come

  /** Checked cells after what is in the buffer. */
  function Checked(done: bytes, r: CellsResult): Result<Option<bytes>> {
    match r
    case Err => Err
    case Ok(cells) => if SmallCells(cells) then Ok(Some(done + PutCells(cells))) else Err
  }

  function Unchecked(done: bytes, r: CellsResult): Result<bytes> {
    match r
    case Err => Err
    case Ok(cells) => Ok(done + PutCells(cells))
  }

  function Elements(variable: bool, done: bytes, r: CellsResult): Result<bytes> {
    match r
    case Err => Err
    case Ok(cells) => if Addressable(Contents(cells)) then Ok(done + PutVector(variable, Contents(cells))) else Err
  }

  /** A cell put before the others. */
  function Cons(c: Option<bytes>, r: CellsResult): CellsResult {
    match r
    case Err => Err
    case Ok(more) => Ok([c] + more)
  }

  lemma CheckedStep(done: bytes, c: Option<bytes>, r: CellsResult)
    ensures c.Some? && |c.value| > MAX_INT32 ==> Checked(done, Cons(c, r)) == Err
    ensures !(c.Some? && |c.value| > MAX_INT32) ==> Checked(done, Cons(c, r)) == Checked(done + Cell(c), r)
  {
    hide Cell;
    if r.Ok? {
      var cells := [c] + r.value;
      assert c in cells && cells[1..] == r.value;
      assert SmallCells(cells) <==> (c.Some? ==> |c.value| <= MAX_INT32) && SmallCells(r.value);
      assert done + PutCells(cells) == done + Cell(c) + PutCells(r.value);
    }
  }

  lemma UncheckedStep(done: bytes, c: Option<bytes>, r: CellsResult)
    ensures Unchecked(done, Cons(c, r)) == Unchecked(done + Cell(c), r)
  {
    hide Cell;
    if r.Ok? {
      var cells := [c] + r.value;
      assert cells[1..] == r.value;
      assert done + PutCells(cells) == done + Cell(c) + PutCells(r.value);
    }
  }

  lemma ContentsCons(c: Option<bytes>, more: seq<Option<bytes>>)
    ensures Contents([c] + more) == [Content(c)] + Contents(more)
    ensures Addressable(Contents([c] + more)) <==> |Content(c)| < TWO63 && Addressable(Contents(more))
  {
    var all := [Content(c)] + Contents(more);
    assert Contents([c] + more) == all;
    assert all[0] in all && all[1..] == Contents(more);
  }

  lemma ElementsStep(variable: bool, done: bytes, c: Option<bytes>, r: CellsResult)
    ensures |Content(c)| >= TWO63 ==> Elements(variable, done, Cons(c, r)) == Err
    ensures |Content(c)| < TWO63 ==>
      Elements(variable, done, Cons(c, r)) == Elements(variable, done + VectorCell(variable, Content(c)), r)
  {
    hide VectorCell, Contents, Content, Addressable;
    match r
    case Err =>
    case Ok(more) =>
      ContentsCons(c, more);
      if Addressable(Contents([c] + more)) {
        PutCons(variable, done, Content(c), Contents(more));
      }
  }

  lemma PutCons(variable: bool, done: bytes, b: bytes, more: seq<bytes>)
    requires Addressable([b] + more) && Addressable(more) && |b| < TWO63
    ensures done + PutVector(variable, [b] + more) == done + VectorCell(variable, b) + PutVector(variable, more)
  {
    hide VectorCell;
    assert ([b] + more)[1..] == more;
  }

  lemma NothingLeft(done: bytes)
    ensures Checked(done, Ok([])) == Ok(Some(done)) && Unchecked(done, Ok([])) == Ok(done)
    ensures Contents([]) == [] && forall variable :: Elements(variable, done, Ok([])) == Ok(done)
  {
    assert done + [] == done;
    assert Contents([]) == [];
    assert forall variable :: PutVector(variable, []) == [];
  }

  /** The next element, and the ones after it. */
  lemma NextItem(a: Type, b: Type, items: seq<Value>, i: nat)
    requires i < |items|
    ensures Encode(a, items[i]).Err? ==> EncodeAlternating(a, b, items[i..]) == Err
    ensures Encode(a, items[i]).Ok? ==>
      EncodeAlternating(a, b, items[i..]) == Cons(Encode(a, items[i]).value, EncodeAlternating(b, a, items[i + 1..]))
  {
    hide Encode;
    assert items[i..][1..] == items[i + 1..];
  }

  lemma NextField(tuple: bool, ts: seq<Type>, items: seq<Value>, i: nat)
    requires |ts| == |items| && i < |items|
    ensures Encode(ts[i], items[i]).Err? ==> EncodeFields(tuple, ts[i..], items[i..]) == Err
    ensures Encode(ts[i], items[i]).Ok? ==>
      var c := FieldCell(tuple, items[i], Encode(ts[i], items[i]).value);
      EncodeFields(tuple, ts[i..], items[i..]) == Cons(c, EncodeFields(tuple, ts[i + 1..], items[i + 1..]))
  {
    hide Encode;
    assert items[i..][1..] == items[i + 1..] && ts[i..][1..] == ts[i + 1..];
  }

  // ---------------------------------------------------------------- the loops

  method MarshalListSet(elem: Type, items: seq<Value>) returns (r: Result<Option<bytes>>)
    ensures r == if |items| > MAX_INT32 then Err else Counted(|items|, EncodeAlternating(elem, elem, items))
    decreases items, 0
  {
    hide Encode, EncodeAlternating, Int4, Cell, PutCells, SmallCells;
    if |items| > MAX_INT32 {
      return Err;
    }
    var buf := Int4(|items|);
    ghost var goal := Checked(buf, EncodeAlternating(elem, elem, items));
    assert items[0..] == items;
    for i := 0 to |items|
      invariant Checked(buf, EncodeAlternating(elem, elem, items[i..])) == goal
    {
      NextItem(elem, elem, items, i);
      var item := Marshal(elem, items[i]);
      if item.Err? {
        return Err;
      }
      CheckedStep(buf, item.value, EncodeAlternating(elem, elem, items[i + 1..]));
      if item.value.Some? && |item.value.value| > MAX_INT32 {
        return Err;
      }
      buf := buf + Cell(item.value);
    }
    assert items[|items|..] == [];
    EncodeNone(elem, elem);
    NothingLeft(buf);
    return Ok(Some(buf));
  }

  lemma EncodeNone(a: Type, b: Type)
    ensures EncodeAlternating(a, b, []) == Ok([])
  {
  }

  method MarshalMap(key: Type, elem: Type, items: seq<Value>) returns (r: Result<Option<bytes>>)
    requires |items| % 2 == 0
    ensures r == if |items| / 2 > MAX_INT32 then Err else Counted(|items| / 2, EncodeAlternating(key, elem, items))
    decreases items, 0
  {
    hide Encode, EncodeAlternating, Int4, Cell, PutCells, SmallCells;
    var n := |items| / 2;
    if n > MAX_INT32 {
      return Err;
    }
    var buf := Int4(n);
    ghost var goal := Checked(buf, EncodeAlternating(key, elem, items));
    assert items[0..] == items;
    for i := 0 to n
      invariant Checked(buf, EncodeAlternating(key, elem, items[2 * i..])) == goal
    {
      NextItem(key, elem, items, 2 * i);
      var item := Marshal(key, items[2 * i]);
      if item.Err? {
        return Err;
      }
      CheckedStep(buf, item.value, EncodeAlternating(elem, key, items[2 * i + 1..]));
      if item.value.Some? && |item.value.value| > MAX_INT32 {
        return Err;
      }
      buf := buf + Cell(item.value);

      NextItem(elem, key, items, 2 * i + 1);
      item := Marshal(elem, items[2 * i + 1]);
      if item.Err? {
        return Err;
      }
      CheckedStep(buf, item.value, EncodeAlternating(key, elem, items[2 * i + 2..]));
      if item.value.Some? && |item.value.value| > MAX_INT32 {
        return Err;
      }
      buf := buf + Cell(item.value);
    }
    assert items[2 * n..] == [];
    EncodeNone(key, elem);
    NothingLeft(buf);
    return Ok(Some(buf));
  }

  /** Tuples and user types: a cell for each field, null when there is nothing to write. */
  method MarshalFields(tuple: bool, ts: seq<Type>, items: seq<Value>) returns (r: Result<Option<bytes>>)
    requires |ts| == |items|
    ensures r == Joined(EncodeFields(tuple, ts, items))
    decreases items, 0
  {
    hide Encode, EncodeFields, Cell, PutCells;
    var buf: bytes := [];
    ghost var goal := Unchecked([], EncodeFields(tuple, ts, items));
    assert items[0..] == items && ts[0..] == ts;
    for i := 0 to |items|
      invariant Unchecked(buf, EncodeFields(tuple, ts[i..], items[i..])) == goal
    {
      NextField(tuple, ts, items, i);
      var item := Marshal(ts[i], items[i]);
      if item.Err? {
        return Err;
      }
      var cell := FieldCell(tuple, items[i], item.value);
      UncheckedStep(buf, cell, EncodeFields(tuple, ts[i + 1..], items[i + 1..]));
      buf := buf + Cell(cell);
    }
    FieldsNone(tuple);
    NothingLeft(buf);
    FieldsJoined(tuple, ts, items, buf);
    return if items == [] then Ok(None) else Ok(Some(buf));
  }

  lemma FieldsNone(tuple: bool)
    ensures EncodeFields(tuple, [], []) == Ok([])
  {
  }

  lemma FieldsJoined(tuple: bool, ts: seq<Type>, items: seq<Value>, buf: bytes)
    requires |ts| == |items| && Unchecked([], EncodeFields(tuple, ts, items)) == Ok(buf)
    ensures Joined(EncodeFields(tuple, ts, items)) == if items == [] then Ok(None) else Ok(Some(buf))
  {
    hide Encode;
    var cells := EncodeFields(tuple, ts, items).value;
    assert [] + PutCells(cells) == PutCells(cells);
  }

  method MarshalVector(elem: Type, n: nat, items: seq<Value>) returns (r: Result<Option<bytes>>)
    ensures r == if |items| != n then Err else JoinedVector(Variable(elem), EncodeAlternating(elem, elem, items))
    decreases items, 0
  {
    hide Encode, EncodeAlternating, Variable, VectorCell, PutVector, Contents, Addressable;
    if |items| != n {
      return Err;
    }
    var buf: bytes := [];
    ghost var goal := Elements(Variable(elem), [], EncodeAlternating(elem, elem, items));
    assert items[0..] == items;
    for i := 0 to n
      invariant Elements(Variable(elem), buf, EncodeAlternating(elem, elem, items[i..])) == goal
    {
      NextItem(elem, elem, items, i);
      var item := Marshal(elem, items[i]);
      if item.Err? {
        return Err;
      }
      var content := Content(item.value);
      ElementsStep(Variable(elem), buf, item.value, EncodeAlternating(elem, elem, items[i + 1..]));
      if |content| >= TWO63 {
        return Err;
      }
      VectorCellIs(Variable(elem), buf, content);
      if Variable(elem) {
        var length := WriteUnsignedVInt(|content|);
        buf := buf + length;
      }
      buf := buf + content;
    }
    assert items[n..] == [];
    EncodeNone(elem, elem);
    NothingLeft(buf);
    VectorJoined(Variable(elem), EncodeAlternating(elem, elem, items));
    return if buf == [] then Ok(None) else Ok(Some(buf));
  }

  lemma VectorCellIs(variable: bool, buf: bytes, content: bytes)
    requires |content| < TWO63
    ensures buf + VectorCell(variable, content)
         == if variable then buf + EncodeUnsigned(|content|) + content else buf + content
  {
    hide EncodeUnsigned;
  }

  lemma VectorJoined(variable: bool, r: CellsResult)
    ensures JoinedVector(variable, r) == match Elements(variable, [], r)
                                         case Err => Err
                                         case Ok(buf) => if buf == [] then Ok(None) else Ok(Some(buf))
  {
    hide PutVector;
    if r.Ok? && Addressable(Contents(r.value)) {
      assert [] + PutVector(variable, Contents(r.value)) == PutVector(variable, Contents(r.value));
    }
  }

  method Marshal(t: Type, v: Value) returns (r: Result<Option<bytes>>)
    ensures r == Encode(t, v)
    decreases v, 1
  {
    hide EncodeAlternating, EncodeFields, Counted, Joined, JoinedVector, EncodeScalar;
    if v.Null? {
      return Ok(None);
    }
    match t
    case Scalar(k) =>
      var b := EncodeScalar(k, v);
      r := if b.Err? then Err else Ok(Some(b.value));
    case List(elem) =>
      if !v.ListV? {
        return Err;
      }
      r := MarshalListSet(elem, v.items);
    case Map(key, elem) =>
      if !v.MapV? || |v.items| % 2 != 0 {
        return Err;
      }
      r := MarshalMap(key, elem, v.items);
    case Tuple(elems) =>
      if !v.TupleV? || |v.items| != |elems| {
        return Err;
      }
      r := MarshalFields(true, elems, v.items);
    case Udt(fields) =>
      if !v.TupleV? || |v.items| != |fields| {
        return Err;
      }
      r := MarshalFields(false, fields, v.items);
    case Vector(elem, n) =>
      if !v.VectorV? {
        return Err;
      }
      r := MarshalVector(elem, n, v.items);
  }
}
