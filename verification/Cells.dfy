// The byte-level shape of composite values: cells with a four-byte length, where -1 is null
// (marshal.go:1863-1937, 2495-2593), and the elements of a vector (vector.go:86-191).
module Cells {
  import opened Common
  import opened Bytes
  import opened Vint
  import opened BigInt

  const MAX_INT32 := 0x7FFF_FFFF

  /** The low four bytes of n, most significant first. */
  function Int4(n: int): (r: bytes)
    ensures |r| == 4
  {
    Be(n % 0x1_0000_0000, 4)
  }

  lemma Int4RoundTrip(n: int)
    requires -1 <= n <= MAX_INT32
    ensures TwosComp(Int4(n)) == n
  {
    Pow256Four();
    FixedRoundTrip(n, 4);
    assert n % 0x1_0000_0000 == if n < 0 then n + 0x1_0000_0000 else n;
  }

  lemma Pow256Four()
    ensures Pow256(4) == 0x1_0000_0000 && Pow256(3) == 0x100_0000
  {
    assert Pow256(2) == 0x1_0000;
  }

  function Unsigned(v: int, n: nat): int {
    if v < 0 then v + Pow256(n) else v
  }

  /** Two's complement in a fixed number of bytes. */
  lemma FixedRoundTrip(v: int, n: nat)
    requires n > 0 && Fits(v, n)
    ensures Unsigned(v, n) >= 0 && TwosComp(Be(Unsigned(v, n), n)) == v
  {
    var u := Unsigned(v, n);
    Pow2Small();
    assert Pow2(8) * Pow256(n - 1) == Pow256(n);
    BeTop(u, n - 1, 8);
    var s := Be(u, n);
    FromBeHead(s);
    hide FromBe, Be;
    if s[0] < 128 {
      Times(s[0], 127, Pow256(n - 1));
    } else {
      Times(128, s[0], Pow256(n - 1));
    }
  }

  // ---------------------------------------------------------------- cells

  function Cell(c: Option<bytes>): bytes {
    match c
    case None => Int4(-1)
    case Some(b) => Int4(|b|) + b
  }

  function PutCells(cells: seq<Option<bytes>>): bytes {
    if cells == [] then [] else Cell(cells[0]) + PutCells(cells[1..])
  }

  predicate SmallCells(cells: seq<Option<bytes>>) {
    forall c :: c in cells && c.Some? ==> |c.value| <= MAX_INT32
  }

  /** What a missing length means: an error in collections, null in tuples; in user types null
      at the very end and an error in the middle of a length. */
  datatype Short = Fails | IsNull | EndsUdt

  datatype Take = Take(cell: Option<bytes>, rest: bytes) | Bad

  function TakeCell(short: Short, data: bytes): Take {
    if |data| < 4 then
      if short.IsNull? || (short.EndsUdt? && data == []) then Take(None, data) else Bad
    else
      var m := TwosComp(data[..4]);
      if m < 0 then Take(None, data[4..])
      else if |data| - 4 < m then Bad
      else Take(Some(data[4..4 + m]), data[4 + m..])
  }

  function TakeCells(short: Short, n: nat, data: bytes): Result<seq<Option<bytes>>> {
    if n == 0 then Ok([])
    else
      match TakeCell(short, data)
      case Bad => Err
      case Take(c, rest) =>
        match TakeCells(short, n - 1, rest)
        case Err => Err
        case Ok(more) => Ok([c] + more)
  }

  lemma TakeCellOf(short: Short, c: Option<bytes>, rest: bytes)
    requires c.Some? ==> |c.value| <= MAX_INT32
    ensures TakeCell(short, Cell(c) + rest) == Take(c, rest)
  {
    hide TwosComp, Int4;
    var data := Cell(c) + rest;
    match c
    case None =>
      Int4RoundTrip(-1);
      assert data[..4] == Int4(-1) && data[4..] == rest;
    case Some(b) =>
      Int4RoundTrip(|b|);
      assert data[..4] == Int4(|b|) && data[4..4 + |b|] == b && data[4 + |b|..] == rest;
  }

  /** Reading cells gives back what was written, nulls included, whatever follows. */
  lemma {:induction false} CellsRoundTrip(short: Short, cells: seq<Option<bytes>>, rest: bytes)
    requires SmallCells(cells)
    ensures TakeCells(short, |cells|, PutCells(cells) + rest) == Ok(cells)
  {
    hide TakeCell, Cell;
    if cells != [] {
      assert PutCells(cells) + rest == Cell(cells[0]) + (PutCells(cells[1..]) + rest);
      TakeCellOf(short, cells[0], PutCells(cells[1..]) + rest);
      CellsRoundTrip(short, cells[1..], rest);
      assert [cells[0]] + cells[1..] == cells;
    }
  }

  /** A cell is no longer than what holds it. */
  lemma {:induction false} CellsAreSmall(cells: seq<Option<bytes>>, max: nat)
    requires |PutCells(cells)| <= max
    ensures forall c :: c in cells && c.Some? ==> |c.value| <= max
  {
    if cells != [] {
      CellsAreSmall(cells[1..], max);
      assert cells == [cells[0]] + cells[1..];
    }
  }

  function Nulls(n: nat): (r: seq<Option<bytes>>)
    ensures |r| == n && forall i :: 0 <= i < n ==> r[i] == None
  {
    seq(n, _ => None)
  }

  lemma {:induction false} TakeNulls(short: Short, n: nat, data: bytes)
    requires |data| < 4 && (short.IsNull? || (short.EndsUdt? && data == []))
    ensures TakeCells(short, n, data) == Ok(Nulls(n))
  {
    if n > 0 {
      TakeNulls(short, n - 1, data);
      assert [None] + Nulls(n - 1) == Nulls(n);
    }
  }

  /** What follows the cells that are there decides about those that are not. */
  lemma {:induction false} CellsThen(short: Short, cells: seq<Option<bytes>>, n: nat, tail: bytes)
    requires SmallCells(cells) && |cells| <= n
    ensures TakeCells(short, n, PutCells(cells) + tail)
         == match TakeCells(short, n - |cells|, tail)
            case Err => Err
            case Ok(more) => Ok(cells + more)
    decreases |cells|
  {
    hide TakeCell, Cell;
    if cells == [] {
      assert PutCells(cells) + tail == tail;
      assert TakeCells(short, n, tail).Ok? ==> [] + TakeCells(short, n, tail).value == TakeCells(short, n, tail).value;
    } else {
      assert PutCells(cells) + tail == Cell(cells[0]) + (PutCells(cells[1..]) + tail);
      TakeCellOf(short, cells[0], PutCells(cells[1..]) + tail);
      CellsThen(short, cells[1..], n - 1, tail);
      var rest := TakeCells(short, n - |cells|, tail);
      assert rest.Ok? ==> [cells[0]] + (cells[1..] + rest.value) == cells + rest.value;
    }
  }

  /** Missing cells are null in a tuple, even when a few bytes are left over; in a user type only when
      nothing is; and an error in a collection. */
  lemma MissingCells(short: Short, cells: seq<Option<bytes>>, n: nat, tail: bytes)
    requires SmallCells(cells) && |cells| < n && |tail| < 4
    ensures TakeCells(short, n, PutCells(cells) + tail)
         == if short.IsNull? || (short.EndsUdt? && tail == []) then Ok(cells + Nulls(n - |cells|)) else Err
  {
    hide PutCells, TakeCells;
    CellsThen(short, cells, n, tail);
    if short.IsNull? || (short.EndsUdt? && tail == []) {
      TakeNulls(short, n - |cells|, tail);
    } else {
      NoCell(short, n - |cells|, tail);
    }
  }

  lemma NoCell(short: Short, n: nat, data: bytes)
    requires n > 0 && TakeCell(short, data).Bad?
    ensures TakeCells(short, n, data) == Err
  {
  }

  /** A cell that breaks off is an error everywhere. */
  lemma BrokenOffCell(short: Short, cells: seq<Option<bytes>>, n: nat, m: nat, part: bytes)
    requires SmallCells(cells) && |cells| < n && |part| < m <= MAX_INT32
    ensures TakeCells(short, n, PutCells(cells) + (Int4(m) + part)) == Err
  {
    hide PutCells, TakeCells, Int4, TwosComp;
    CellsThen(short, cells, n, Int4(m) + part);
    Int4RoundTrip(m);
    assert (Int4(m) + part)[..4] == Int4(m);
    NoCell(short, n - |cells|, Int4(m) + part);
  }

  /** Any negative length stands for null. */
  lemma NegativeLength(short: Short, length: bytes, rest: bytes)
    requires |length| == 4 && length[0] >= 128
    ensures TakeCell(short, length + rest) == Take(None, rest)
  {
    assert (length + rest)[..4] == length && (length + rest)[4..] == rest;
    TwosCompFits(length);
    assert TwosComp(length) < 0;
  }

  // ---------------------------------------------------------------- vector elements

  function VectorCell(variable: bool, b: bytes): bytes
    requires |b| < TWO63
  {
    if variable then EncodeUnsigned(|b|) + b else b
  }

  function PutVector(variable: bool, cells: seq<bytes>): bytes
    requires forall b :: b in cells ==> |b| < TWO63
  {
    if cells == [] then [] else VectorCell(variable, cells[0]) + PutVector(variable, cells[1..])
  }

  datatype TakeElem = TakeElem(elem: Option<bytes>, rest: bytes) | BadElem

  /** One element; a length that is negative as an int stands for null. */
  function TakeElement(variable: bool, size: nat, data: bytes): TakeElem {
    if variable then
      match DecodeUnsigned(data)
      case Err => BadElem
      case Ok((m, p)) =>
        if m >= TWO63 then TakeElem(None, data[p..])
        else if |data| - p < m then BadElem
        else TakeElem(Some(data[p..p + m]), data[p + m..])
    else if |data| < size then BadElem
    else TakeElem(Some(data[..size]), data[size..])
  }

  function TakeVector(variable: bool, n: nat, size: nat, data: bytes): Result<seq<Option<bytes>>> {
    if n == 0 then Ok([])
    else
      match TakeElement(variable, size, data)
      case BadElem => Err
      case TakeElem(e, rest) =>
        match TakeVector(variable, n - 1, size, rest)
        case Err => Err
        case Ok(more) => Ok([e] + more)
  }

  function Present(elements: seq<bytes>): (r: seq<Option<bytes>>)
    ensures |r| == |elements| && forall i :: 0 <= i < |r| ==> r[i] == Some(elements[i])
  {
    seq(|elements|, i requires 0 <= i < |elements| => Some(elements[i]))
  }

  lemma TakeElementOf(variable: bool, b: bytes, rest: bytes)
    requires |b| < TWO63
    ensures var data := VectorCell(variable, b) + rest;
      && TakeElement(variable, |b|, data) == TakeElem(Some(b), rest)
      && (variable ==> forall size :: TakeElement(variable, size, data) == TakeElem(Some(b), rest))
  {
    hide EncodeUnsigned, DecodeUnsigned;
    var data := VectorCell(variable, b) + rest;
    if variable {
      forall size
        ensures TakeElement(true, size, data) == TakeElem(Some(b), rest)
      {
        TakeVariable(b, rest, size);
      }
    } else {
      assert data[..|b|] == b && data[|b|..] == rest;
    }
  }

  lemma TakeVariable(b: bytes, rest: bytes, size: nat)
    requires |b| < TWO63
    ensures TakeElement(true, size, VectorCell(true, b) + rest) == TakeElem(Some(b), rest)
  {
    hide EncodeUnsigned, DecodeUnsigned;
    var v := EncodeUnsigned(|b|);
    var data := v + (b + rest);
    assert VectorCell(true, b) + rest == data;
    UnsignedRoundTrip(|b|, b + rest);
    assert data[|v|..|v| + |b|] == b && data[|v| + |b|..] == rest;
  }

  /** A length no int can hold takes nothing after it and stands for null. */
  lemma HugeLength(m: nat, size: nat, rest: bytes)
    requires TWO63 <= m < TWO64
    ensures TakeElement(true, size, EncodeUnsigned(m) + rest) == TakeElem(None, rest)
  {
    hide EncodeUnsigned, DecodeUnsigned;
    UnsignedRoundTrip(m, rest);
    assert (EncodeUnsigned(m) + rest)[|EncodeUnsigned(m)|..] == rest;
  }

  /** An element that breaks off is an error. */
  lemma BrokenOffElement(m: nat, size: nat, part: bytes)
    requires |part| < m < TWO63
    ensures TakeElement(true, size, EncodeUnsigned(m) + part) == BadElem
  {
    hide EncodeUnsigned, DecodeUnsigned;
    UnsignedRoundTrip(m, part);
  }

  lemma FirstTaken(variable: bool, size: nat, cells: seq<bytes>)
    requires cells != [] && forall b :: b in cells ==> |b| < TWO63 && (variable || |b| == size)
    ensures TakeElement(variable, size, PutVector(variable, cells))
         == TakeElem(Some(cells[0]), PutVector(variable, cells[1..]))
  {
    assert cells[0] in cells;
    hide TakeElement, VectorCell;
    TakeElementOf(variable, cells[0], PutVector(variable, cells[1..]));
  }

  lemma PresentCons(b: bytes, cells: seq<bytes>)
    ensures Present([b] + cells) == [Some(b)] + Present(cells)
  {
  }

  /** A vector splits into its elements: by their lengths, or evenly when they all have one size. */
  lemma {:induction false} VectorRoundTrip(variable: bool, size: nat, cells: seq<bytes>)
    requires forall b :: b in cells ==> |b| < TWO63 && (variable || |b| == size)
    ensures TakeVector(variable, |cells|, size, PutVector(variable, cells)) == Ok(Present(cells))
  {
    hide TakeElement, PutVector, Present;
    if cells == [] {
      assert Present(cells) == [];
    } else {
      FirstTaken(variable, size, cells);
      VectorRoundTrip(variable, size, cells[1..]);
      assert cells == [cells[0]] + cells[1..];
      PresentCons(cells[0], cells[1..]);
    }
  }

  lemma OneMore(n: nat, size: nat)
    ensures (n + 1) * size == size + n * size
  {
  }

  lemma {:induction false} EvenLength(size: nat, cells: seq<bytes>)
    requires forall b :: b in cells ==> |b| < TWO63 && |b| == size
    ensures |PutVector(false, cells)| == |cells| * size
  {
    hide EncodeUnsigned;
    if cells != [] {
      EvenLength(size, cells[1..]);
      OneMore(|cells| - 1, size);
    }
  }

  lemma {:induction false} ElementsAreSmall(variable: bool, cells: seq<bytes>, max: nat)
    requires (forall b :: b in cells ==> |b| < TWO63) && |PutVector(variable, cells)| <= max
    ensures forall b :: b in cells ==> |b| <= max
  {
    hide EncodeUnsigned;
    if cells != [] {
      ElementsAreSmall(variable, cells[1..], max);
      assert cells == [cells[0]] + cells[1..];
    }
  }
}
