// Frames cut into segments and put back together (frame.go:2407-2451, conn.go:807-904).
module Framing {
  import opened Common
  import opened Bytes
  import opened Segments

  const HEAD_SIZE := 9
  const MAX_FRAME := 256 * 1024 * 1024

  // ---------------------------------------------------------------- frames

  function Int32(s: bytes): int
    requires |s| == 4
  {
    var n := 0x100_0000 * (s[0] as int) + 0x1_0000 * (s[1] as int) + 0x100 * (s[2] as int) + s[3];
    if n >= 0x8000_0000 then n - 0x1_0000_0000 else n
  }

  function StreamOf(head: bytes): int
    requires |head| >= HEAD_SIZE
  {
    var n := 256 * (head[2] as int) + head[3];
    if n >= 0x8000 then n - 0x1_0000 else n
  }

  function LengthOf(head: bytes): int
    requires |head| >= HEAD_SIZE
  {
    Int32(head[5..9])
  }

  predicate GoodVersion(b: byte) {
    3 <= b % 128 <= 5
  }

  /** readHeader succeeds: a supported version and nine bytes to read. */
  predicate HasHeader(s: bytes) {
    |s| >= HEAD_SIZE && GoodVersion(s[0])
  }

  /** Streams that carry a response (1 and up) or an event (-1). */
  predicate GoodStream(numStreams: nat, stream: int) {
    stream == -1 || 1 <= stream <= numStreams
  }

  /** A complete frame as the receiver accepts it. */
  predicate IsFrame(numStreams: nat, f: bytes) {
    && HasHeader(f) && GoodStream(numStreams, StreamOf(f))
    && LengthOf(f) == |f| - HEAD_SIZE && |f| - HEAD_SIZE <= MAX_FRAME
  }

  /** What the receiver can step over: a frame, or one for a response whose length is impossible. */
  predicate IsBlock(numStreams: nat, b: bytes) {
    || IsFrame(numStreams, b)
    || (&& HasHeader(b) && 1 <= StreamOf(b) <= numStreams
        && if LengthOf(b) < 0 then |b| == HEAD_SIZE else LengthOf(b) == |b| - HEAD_SIZE > MAX_FRAME)
  }

  /** What becomes of a block: an event, a response for a waiting call, nobody's response, or an error
      for a waiting call. */
  datatype Item = Event(frame: bytes) | Response(frame: bytes) | Unexpected(frame: bytes) | Broken(stream: int)

  datatype Taken = Taken(item: Item, rest: bytes) | Malformed

  /** processFrame's reading of one frame; `calls` are the streams with a call that waits. A body that
      cannot be read ends the connection unless there is a caller to tell. */
  function TakeFrame(numStreams: nat, calls: set<int>, s: bytes): Taken {
    if !HasHeader(s) || !GoodStream(numStreams, StreamOf(s)) then Malformed
    else
      var stream, length := StreamOf(s), LengthOf(s);
      var end := HEAD_SIZE + length;
      if stream == -1 then
        if length < 0 || length > MAX_FRAME || |s| < end then Malformed else Taken(Event(s[..end]), s[end..])
      else if length < 0 then
        Taken(if stream in calls then Broken(stream) else Unexpected(s[..HEAD_SIZE]), s[HEAD_SIZE..])
      else if stream !in calls then
        if |s| < end then Malformed else Taken(Unexpected(s[..end]), s[end..])
      else if |s| < end then Taken(Broken(stream), [])
      else Taken(if length > MAX_FRAME then Broken(stream) else Response(s[..end]), s[end..])
  }

  /** The calls still waiting when a block has been looked up. */
  function Waiting(calls: set<int>, b: bytes): set<int>
    requires HasHeader(b)
  {
    if StreamOf(b) == -1 then calls else calls - {StreamOf(b)}
  }

  /** Only a header that is accepted has its call looked up. */
  function LookedUp(numStreams: nat, calls: set<int>, s: bytes): set<int> {
    if HasHeader(s) && GoodStream(numStreams, StreamOf(s)) then Waiting(calls, s) else calls
  }

  function ItemOf(calls: set<int>, b: bytes): Item
    requires HasHeader(b)
  {
    if StreamOf(b) == -1 then Event(b)
    else if StreamOf(b) !in calls then Unexpected(b)
    else if 0 <= LengthOf(b) <= MAX_FRAME then Response(b)
    else Broken(StreamOf(b))
  }

  lemma TakeFrameOf(numStreams: nat, calls: set<int>, b: bytes, rest: bytes)
    requires IsBlock(numStreams, b)
    ensures TakeFrame(numStreams, calls, b + rest) == Taken(ItemOf(calls, b), rest)
    ensures HasHeader(b + rest) && Waiting(calls, b + rest) == Waiting(calls, b)
  {
    hide Int32;
    assert (b + rest)[5..9] == b[5..9] && (b + rest)[..|b|] == b && (b + rest)[|b|..] == rest;
  }

  // ---------------------------------------------------------------- what one receive does

  datatype Outcome = Outcome(items: seq<Item>, calls: set<int>, rest: bytes, ok: bool)

  /** processAllFramesInSegment: frames until the payload is used up or one is malformed. */
  function FramesIn(numStreams: nat, calls: set<int>, s: bytes): (seq<Item>, set<int>, bool)
    decreases |s|
  {
    if s == [] then ([], calls, true)
    else
      TakenIsShorter(numStreams, calls, s);
      match TakeFrame(numStreams, calls, s)
      case Malformed => ([], LookedUp(numStreams, calls, s), false)
      case Taken(item, rest) =>
        var (more, left, ok) := FramesIn(numStreams, Waiting(calls, s), rest);
        ([item] + more, left, ok)
  }

  lemma TakenIsShorter(numStreams: nat, calls: set<int>, s: bytes)
    ensures var t := TakeFrame(numStreams, calls, s);
      t.Taken? ==> HasHeader(s) && |t.rest| < |s| && LookedUp(numStreams, calls, s) == Waiting(calls, s)
  {
    hide Int32;
  }

  /** recvPartialFrames: segments added to dst until `left` more bytes have come. */
  function Gather(env: Env, s: bytes, dst: bytes, capacity: nat, left: int): Result<(bytes, bytes)>
    decreases |s|
  {
    if left == 0 then Ok((dst, s))
    else
      DecodeConsumes(env, s);
      match Decode(env, s)
      case Failed => Err
      case Got(payload, selfContained, rest) =>
        if selfContained || |dst| + |payload| > capacity then Err
        else Gather(env, rest, dst + payload, capacity, left - |payload|)
  }

  function RecvSplit(env: Env, numStreams: nat, calls: set<int>, payload: bytes, s: bytes): Outcome {
    if !HasHeader(payload) || |payload| > LengthOf(payload) + HEAD_SIZE then Outcome([], calls, s, false)
    else
      var size := LengthOf(payload) + HEAD_SIZE;
      match Gather(env, s, payload, size, size - |payload|)
      case Err => Outcome([], calls, s, false)
      case Ok((buf, rest)) =>
        var left := LookedUp(numStreams, calls, buf);
        match TakeFrame(numStreams, calls, buf)
        case Malformed => Outcome([], left, rest, false)
        case Taken(item, _) => Outcome([item], left, rest, true)
  }

  function Recv(env: Env, numStreams: nat, calls: set<int>, s: bytes): Outcome {
    match Decode(env, s)
    case Failed => Outcome([], calls, s, false)
    case Got(payload, true, rest) =>
      var (items, left, ok) := FramesIn(numStreams, calls, payload);
      Outcome(items, left, rest, ok)
    case Got(payload, false, rest) => RecvSplit(env, numStreams, calls, payload, rest)
  }

  // ---------------------------------------------------------------- legal packings

  datatype Piece = Piece(payload: bytes, wire: bytes)

  /** What a peer may send between two boundaries: whole frames in one self-contained segment,
      or one frame over several segments. */
  datatype Packing =
    | Whole(frames: seq<bytes>, wire: bytes)
    | Split(frame: bytes, pieces: seq<Piece>)

  function Join(frames: seq<bytes>): bytes {
    if frames == [] then [] else frames[0] + Join(frames[1..])
  }

  function Payloads(pieces: seq<Piece>): bytes {
    if pieces == [] then [] else pieces[0].payload + Payloads(pieces[1..])
  }

  function Wires(pieces: seq<Piece>): bytes {
    if pieces == [] then [] else pieces[0].wire + Wires(pieces[1..])
  }

  ghost predicate PiecesOk(env: Env, pieces: seq<Piece>) {
    forall i :: 0 <= i < |pieces| ==> Encodes(env, pieces[i].wire, pieces[i].payload, false)
  }

  /** The first piece holds the frame header, and no piece follows a complete frame. */
  ghost predicate Legal(env: Env, numStreams: nat, p: Packing) {
    match p
    case Whole(frames, wire) =>
      && (forall f :: f in frames ==> IsBlock(numStreams, f))
      && Encodes(env, wire, Join(frames), true)
    case Split(frame, pieces) =>
      && IsBlock(numStreams, frame) && LengthOf(frame) >= 0 && pieces != [] && PiecesOk(env, pieces)
      && Payloads(pieces) == frame
      && |pieces[0].payload| >= HEAD_SIZE
      && (|pieces| > 1 ==> pieces[|pieces| - 1].payload != [])
  }

  function WireOf(p: Packing): bytes {
    match p
    case Whole(_, wire) => wire
    case Split(_, pieces) => Wires(pieces)
  }

  function FramesOf(p: Packing): seq<bytes> {
    match p
    case Whole(frames, _) => frames
    case Split(frame, _) => [frame]
  }

  // ---------------------------------------------------------------- the receiver rebuilds the frames

  predicate Headed(blocks: seq<bytes>) {
    forall i :: 0 <= i < |blocks| ==> HasHeader(blocks[i])
  }

  /** What a list of blocks becomes, one after the other. */
  function Items(calls: set<int>, blocks: seq<bytes>): seq<Item>
    requires Headed(blocks)
  {
    if blocks == [] then [] else [ItemOf(calls, blocks[0])] + Items(Waiting(calls, blocks[0]), blocks[1..])
  }

  function Left(calls: set<int>, blocks: seq<bytes>): set<int>
    requires Headed(blocks)
  {
    if blocks == [] then calls else Left(Waiting(calls, blocks[0]), blocks[1..])
  }

  lemma {:induction false} ItemsConcat(calls: set<int>, xs: seq<bytes>, ys: seq<bytes>)
    requires Headed(xs) && Headed(ys)
    ensures Items(calls, xs + ys) == Items(calls, xs) + Items(Left(calls, xs), ys)
    ensures Left(calls, xs + ys) == Left(Left(calls, xs), ys)
    decreases |xs|
  {
    hide ItemOf, Waiting, HasHeader;
    if xs == [] {
      assert xs + ys == ys;
    } else {
      assert (xs + ys)[1..] == xs[1..] + ys;
      ItemsConcat(Waiting(calls, xs[0]), xs[1..], ys);
    }
  }

  lemma {:induction false} LeftIs(calls: set<int>, blocks: seq<bytes>, stream: int)
    requires Headed(blocks) && stream != -1
    ensures stream in Left(calls, blocks)
      <==> stream in calls && forall i :: 0 <= i < |blocks| ==> StreamOf(blocks[i]) != stream
    decreases |blocks|
  {
    hide GoodVersion, StreamOf;
    if blocks != [] {
      LeftIs(Waiting(calls, blocks[0]), blocks[1..], stream);
      assert forall i :: 0 <= i < |blocks| - 1 ==> blocks[1..][i] == blocks[i + 1];
      assert forall i :: 0 < i < |blocks| ==> blocks[i] == blocks[1..][i - 1];
    }
  }

  /** What is to become of block i: an event goes to the session; the first block of a stream on which a
      call waits goes to that call, as it is if it is a frame and as an error if its length is impossible;
      any other response is dropped. */
  predicate GoesTo(numStreams: nat, calls: set<int>, blocks: seq<bytes>, i: nat, item: Item)
    requires i < |blocks| && Headed(blocks)
  {
    var stream := StreamOf(blocks[i]);
    if stream == -1 then item == Event(blocks[i])
    else if stream in calls && forall j :: 0 <= j < i ==> StreamOf(blocks[j]) != stream then
      item == if IsFrame(numStreams, blocks[i]) then Response(blocks[i]) else Broken(stream)
    else item == Unexpected(blocks[i])
  }

  lemma FirstAnswers(numStreams: nat, calls: set<int>, blocks: seq<bytes>, i: nat)
    requires i < |blocks| && Headed(blocks) && IsBlock(numStreams, blocks[i])
    ensures |Items(calls, blocks)| == |blocks| && GoesTo(numStreams, calls, blocks, i, Items(calls, blocks)[i])
  {
    hide GoodVersion, StreamOf, LengthOf, ItemOf, Left, Items, IsBlock, IsFrame;
    ItemsLength(calls, blocks);
    ItemAt(calls, blocks, i);
    ItemIs(numStreams, Left(calls, blocks[..i]), blocks[i]);
    if StreamOf(blocks[i]) != -1 {
      LeftIs(calls, blocks[..i], StreamOf(blocks[i]));
    }
  }

  lemma ItemIs(numStreams: nat, calls: set<int>, b: bytes)
    requires HasHeader(b) && IsBlock(numStreams, b)
    ensures var stream := StreamOf(b);
      ItemOf(calls, b)
      == if stream == -1 then Event(b)
      else if stream in calls then (if IsFrame(numStreams, b) then Response(b) else Broken(stream))
      else Unexpected(b)
  {
  }

  lemma {:induction false} ItemAt(calls: set<int>, blocks: seq<bytes>, i: nat)
    requires i < |blocks| && Headed(blocks)
    ensures i < |Items(calls, blocks)| && Items(calls, blocks)[i] == ItemOf(Left(calls, blocks[..i]), blocks[i])
    decreases i
  {
    hide ItemOf, Waiting, HasHeader;
    ItemsLength(calls, blocks);
    if i == 0 {
      assert blocks[..i] == [];
    } else {
      ItemAt(Waiting(calls, blocks[0]), blocks[1..], i - 1);
      assert blocks[..i][1..] == blocks[1..][..i - 1];
      assert blocks[..i][0] == blocks[0];
    }
  }

  lemma {:induction false} ItemsLength(calls: set<int>, blocks: seq<bytes>)
    requires Headed(blocks)
    ensures |Items(calls, blocks)| == |blocks|
    decreases |blocks|
  {
    hide ItemOf, Waiting, HasHeader;
    if blocks != [] {
      ItemsLength(Waiting(calls, blocks[0]), blocks[1..]);
    }
  }

  lemma BlockHasHeader(numStreams: nat, b: bytes)
    requires IsBlock(numStreams, b)
    ensures HasHeader(b) && |b| >= HEAD_SIZE
  {
  }

  lemma BlocksHaveHeaders(numStreams: nat, blocks: seq<bytes>)
    requires forall b :: b in blocks ==> IsBlock(numStreams, b)
    ensures Headed(blocks)
  {
    forall i | 0 <= i < |blocks|
      ensures HasHeader(blocks[i])
    {
      assert blocks[i] in blocks;
    }
  }

  /** Blocks are processed one by one, and what follows them with the calls they leave waiting. */
  lemma {:induction false} FramesInThen(numStreams: nat, calls: set<int>, blocks: seq<bytes>, tail: bytes)
    requires (forall b :: b in blocks ==> IsBlock(numStreams, b)) && Headed(blocks)
    ensures var (more, left, ok) := FramesIn(numStreams, Left(calls, blocks), tail);
      FramesIn(numStreams, calls, Join(blocks) + tail) == (Items(calls, blocks) + more, left, ok)
    decreases |blocks|
  {
    hide FramesIn, IsBlock, ItemOf, Waiting, HasHeader;
    var more := FramesIn(numStreams, Left(calls, blocks), tail).0;
    if blocks == [] {
      assert Join(blocks) + tail == tail && [] + more == more;
    } else {
      var b, rest := blocks[0], blocks[1..];
      FramesInThen(numStreams, Waiting(calls, b), rest, tail);
      FramesInOne(numStreams, calls, b, Join(rest) + tail);
      assert Join(blocks) + tail == b + (Join(rest) + tail);
      assert [ItemOf(calls, b)] + (Items(Waiting(calls, b), rest) + more) == Items(calls, blocks) + more;
    }
  }

  lemma FramesInOne(numStreams: nat, calls: set<int>, b: bytes, s: bytes)
    requires IsBlock(numStreams, b) && HasHeader(b)
    ensures var (more, left, ok) := FramesIn(numStreams, Waiting(calls, b), s);
      FramesIn(numStreams, calls, b + s) == ([ItemOf(calls, b)] + more, left, ok)
  {
    hide TakeFrame, IsBlock, ItemOf, Waiting, HasHeader;
    TakeFrameOf(numStreams, calls, b, s);
    BlockHasHeader(numStreams, b);
  }

  lemma FramesInJoin(numStreams: nat, calls: set<int>, blocks: seq<bytes>)
    requires (forall b :: b in blocks ==> IsBlock(numStreams, b)) && Headed(blocks)
    ensures FramesIn(numStreams, calls, Join(blocks)) == (Items(calls, blocks), Left(calls, blocks), true)
  {
    hide TakeFrame, IsBlock, ItemOf, Waiting, HasHeader, Items, Left, Join;
    FramesInThen(numStreams, calls, blocks, []);
    assert Join(blocks) + [] == Join(blocks);
    assert Items(calls, blocks) + [] == Items(calls, blocks);
  }

  /** Bytes the receiver gives up on: too few for a header, a version it does not know, a stream that
      carries neither a response nor an event, or an event whose body is not all there. */
  predicate Unreadable(numStreams: nat, s: bytes) {
    || |s| < 9 || s[0] % 128 < 3 || s[0] % 128 > 5
    || StreamOf(s) < -1 || StreamOf(s) == 0 || StreamOf(s) > numStreams
    || (StreamOf(s) == -1 && (LengthOf(s) < 0 || LengthOf(s) > 268_435_456 || |s| < 9 + LengthOf(s)))
  }

  /** They end the connection, after every frame before them has been delivered. */
  lemma UnreadableEnds(numStreams: nat, calls: set<int>, blocks: seq<bytes>, tail: bytes)
    requires (forall b :: b in blocks ==> IsBlock(numStreams, b)) && Headed(blocks)
    requires tail != [] && Unreadable(numStreams, tail)
    ensures FramesIn(numStreams, calls, Join(blocks) + tail) == (Items(calls, blocks), Left(calls, blocks), false)
  {
    FramesInThen(numStreams, calls, blocks, tail);
    hide IsBlock, Items, Left, Join, StreamOf, LengthOf;
    assert TakeFrame(numStreams, Left(calls, blocks), tail).Malformed?;
    assert Items(calls, blocks) + [] == Items(calls, blocks);
  }

  /** A response whose body breaks off: the frames before it are delivered all the same, and the
      connection lives on if and only if a call still waits for it, which then gets the error. */
  lemma BrokenOffBody(numStreams: nat, calls: set<int>, blocks: seq<bytes>, tail: bytes)
    requires (forall b :: b in blocks ==> IsBlock(numStreams, b)) && Headed(blocks)
    requires HasHeader(tail) && 1 <= StreamOf(tail) <= numStreams && |tail| < HEAD_SIZE + LengthOf(tail)
    ensures var stream := StreamOf(tail);
      var told := stream in calls && forall i :: 0 <= i < |blocks| ==> StreamOf(blocks[i]) != stream;
      FramesIn(numStreams, calls, Join(blocks) + tail)
      == (Items(calls, blocks) + (if told then [Broken(stream)] else []), Left(calls, blocks) - {stream}, told)
  {
    hide IsBlock, Items, Left, Join, GoodVersion, StreamOf, LengthOf;
    FramesInThen(numStreams, calls, blocks, tail);
    LeftIs(calls, blocks, StreamOf(tail));
    BrokenOff(numStreams, Left(calls, blocks), tail);
  }

  lemma BrokenOff(numStreams: nat, calls: set<int>, tail: bytes)
    requires HasHeader(tail) && 1 <= StreamOf(tail) <= numStreams && |tail| < HEAD_SIZE + LengthOf(tail)
    ensures var stream, told := StreamOf(tail), StreamOf(tail) in calls;
      FramesIn(numStreams, calls, tail) == (if told then [Broken(stream)] else [], calls - {stream}, told)
  {
    hide GoodVersion, StreamOf, LengthOf;
    var stream := StreamOf(tail);
    assert LengthOf(tail) > 0;
    if stream in calls {
      assert TakeFrame(numStreams, calls, tail) == Taken(Broken(stream), []);
      assert FramesIn(numStreams, calls - {stream}, []) == ([], calls - {stream}, true);
      assert [Broken(stream)] + [] == [Broken(stream)];
    }
  }

  lemma {:induction false} LastPiece(pieces: seq<Piece>)
    requires pieces != [] && pieces[|pieces| - 1].payload != []
    ensures Payloads(pieces) != []
  {
    if |pieces| > 1 {
      LastPiece(pieces[1..]);
    }
  }

  lemma {:induction false} GatherPieces(env: Env, pieces: seq<Piece>, dst: bytes, capacity: nat, rest: bytes)
    requires PiecesOk(env, pieces) && (pieces != [] ==> pieces[|pieces| - 1].payload != [])
    requires |dst| + |Payloads(pieces)| == capacity
    ensures Gather(env, Wires(pieces) + rest, dst, capacity, |Payloads(pieces)|) == Ok((dst + Payloads(pieces), rest))
  {
    hide Encodes, Decode;
    if pieces == [] {
      assert Wires(pieces) + rest == rest && dst + Payloads(pieces) == dst;
    } else {
      LastPiece(pieces);
      var p := pieces[0];
      var more := Wires(pieces[1..]) + rest;
      assert Wires(pieces) + rest == p.wire + more;
      DecodeEncodes(env, p.wire, p.payload, false, more);
      GatherPieces(env, pieces[1..], dst + p.payload, capacity, rest);
      assert dst + p.payload + Payloads(pieces[1..]) == dst + Payloads(pieces);
    }
  }

  lemma HeadOfFirst(numStreams: nat, frame: bytes, first: bytes, more: bytes)
    requires IsBlock(numStreams, frame) && LengthOf(frame) >= 0 && frame == first + more && |first| >= HEAD_SIZE
    ensures HasHeader(first) && LengthOf(first) + HEAD_SIZE == |frame|
  {
    hide Int32;
    assert first[5..9] == frame[5..9];
  }

  lemma SplitRebuilt(env: Env, numStreams: nat, calls: set<int>, frame: bytes, pieces: seq<Piece>, rest: bytes)
    requires Legal(env, numStreams, Split(frame, pieces)) && HasHeader(frame)
    ensures Recv(env, numStreams, calls, Wires(pieces) + rest)
         == Outcome([ItemOf(calls, frame)], Waiting(calls, frame), rest, true)
  {
    hide Encodes, Decode, LengthOf, Gather, IsBlock, HasHeader, TakeFrame, ItemOf, Waiting, LookedUp;
    var p := pieces[0];
    var more := Wires(pieces[1..]) + rest;
    assert Wires(pieces) + rest == p.wire + more;
    DecodeEncodes(env, p.wire, p.payload, false, more);
    HeadOfFirst(numStreams, frame, p.payload, Payloads(pieces[1..]));
    GatherPieces(env, pieces[1..], p.payload, |frame|, rest);
    TakeFrameOf(numStreams, calls, frame, []);
    assert frame + [] == frame;
    TakenIsShorter(numStreams, calls, frame);
  }

  lemma FramesHaveHeaders(env: Env, numStreams: nat, p: Packing)
    requires Legal(env, numStreams, p)
    ensures Headed(FramesOf(p)) && forall f :: f in FramesOf(p) ==> IsBlock(numStreams, f)
  {
    hide Encodes;
    BlocksHaveHeaders(numStreams, FramesOf(p));
  }

  /** For every legal packing, whatever follows it: exactly its frames, in order, each to the call that
      waits for it, and the receiver stands at the next segment. */
  lemma RecvRebuilds(env: Env, numStreams: nat, calls: set<int>, p: Packing, rest: bytes)
    requires Legal(env, numStreams, p) && Headed(FramesOf(p))
    ensures Recv(env, numStreams, calls, WireOf(p) + rest)
         == Outcome(Items(calls, FramesOf(p)), Left(calls, FramesOf(p)), rest, true)
  {
    hide Encodes, Decode, RecvSplit, ItemOf, Waiting, HasHeader;
    match p
    case Whole(frames, wire) =>
      DecodeEncodes(env, wire, Join(frames), true, rest);
      FramesInJoin(numStreams, calls, frames);
    case Split(frame, pieces) =>
      assert frame in FramesOf(p);
      SplitRebuilt(env, numStreams, calls, frame, pieces, rest);
      OneItem(calls, frame);
  }

  lemma OneItem(calls: set<int>, frame: bytes)
    requires HasHeader(frame)
    ensures Items(calls, [frame]) == [ItemOf(calls, frame)] && Left(calls, [frame]) == Waiting(calls, frame)
  {
    hide ItemOf, Waiting;
    assert [frame][1..] == [];
    assert Items(Waiting(calls, frame), []) == [];
  }

  function AllWires(ps: seq<Packing>): bytes {
    if ps == [] then [] else WireOf(ps[0]) + AllWires(ps[1..])
  }

  function AllFrames(ps: seq<Packing>): seq<bytes> {
    if ps == [] then [] else FramesOf(ps[0]) + AllFrames(ps[1..])
  }

  /** n receives in a row. */
  function RecvTimes(env: Env, numStreams: nat, calls: set<int>, s: bytes, n: nat): Outcome
    decreases n
  {
    if n == 0 then Outcome([], calls, s, true)
    else
      var o := Recv(env, numStreams, calls, s);
      if !o.ok then o
      else
        var more := RecvTimes(env, numStreams, o.calls, o.rest, n - 1);
        Outcome(o.items + more.items, more.calls, more.rest, more.ok)
  }

  lemma {:induction false} StreamItems(env: Env, numStreams: nat, calls: set<int>, ps: seq<Packing>, rest: bytes)
    requires forall p :: p in ps ==> Legal(env, numStreams, p)
    ensures Headed(AllFrames(ps)) && forall f :: f in AllFrames(ps) ==> IsBlock(numStreams, f)
    ensures RecvTimes(env, numStreams, calls, AllWires(ps) + rest, |ps|)
         == Outcome(Items(calls, AllFrames(ps)), Left(calls, AllFrames(ps)), rest, true)
    decreases |ps|
  {
    hide Legal, Recv, WireOf, FramesOf, HasHeader, IsBlock;
    if ps == [] {
      assert AllWires(ps) + rest == rest;
    } else {
      var p, more := ps[0], ps[1..];
      assert AllWires(ps) + rest == WireOf(p) + (AllWires(more) + rest);
      FramesHaveHeaders(env, numStreams, p);
      RecvRebuilds(env, numStreams, calls, p, AllWires(more) + rest);
      StreamItems(env, numStreams, Left(calls, FramesOf(p)), more, rest);
      ItemsConcat(calls, FramesOf(p), AllFrames(more));
    }
  }

  /** However a stream of frames is packed into segments, the receiver gets every one of them, in order,
      each going where it should, and stands at the next segment with the unanswered calls waiting. */
  lemma StreamRebuilt(env: Env, numStreams: nat, calls: set<int>, ps: seq<Packing>, rest: bytes)
    requires forall p :: p in ps ==> Legal(env, numStreams, p)
    ensures Headed(AllFrames(ps))
    ensures var o, frames := RecvTimes(env, numStreams, calls, AllWires(ps) + rest, |ps|), AllFrames(ps);
      && o.ok && o.rest == rest && |o.items| == |frames|
      && (forall i :: 0 <= i < |frames| ==> GoesTo(numStreams, calls, frames, i, o.items[i]))
      && (forall stream :: stream != -1 ==> (stream in o.calls <==>
            stream in calls && forall i :: 0 <= i < |frames| ==> StreamOf(frames[i]) != stream))
  {
    hide RecvTimes, AllWires, Legal, IsBlock, GoesTo, Items, Left, GoodVersion, StreamOf;
    StreamItems(env, numStreams, calls, ps, rest);
    var frames := AllFrames(ps);
    ItemsLength(calls, frames);
    forall i | 0 <= i < |frames|
      ensures GoesTo(numStreams, calls, frames, i, Items(calls, frames)[i])
    {
      assert frames[i] in frames;
      FirstAnswers(numStreams, calls, frames, i);
    }
    forall stream | stream != -1
      ensures stream in Left(calls, frames) <==>
        stream in calls && forall i :: 0 <= i < |frames| ==> StreamOf(frames[i]) != stream
    {
      LeftIs(calls, frames, stream);
    }
  }

  // ---------------------------------------------------------------- the sender

  /** A frame over non-self-contained segments of the greatest size. */
  function Cut(env: Env, buf: bytes): Result<seq<Piece>> {
    if |buf| <= MAX_PAYLOAD then
      match Encode(env, buf, false)
      case Err => Err
      case Ok(w) => Ok([Piece(buf, w)])
    else
      match Encode(env, buf[..MAX_PAYLOAD], false)
      case Err => Err
      case Ok(w) =>
        match Cut(env, buf[MAX_PAYLOAD..])
        case Err => Err
        case Ok(more) => Ok([Piece(buf[..MAX_PAYLOAD], w)] + more)
  }

  function Layout(env: Env, frame: bytes): Result<Packing> {
    if |frame| <= MAX_PAYLOAD then
      match Encode(env, frame, true)
      case Err => Err
      case Ok(w) => Ok(Whole([frame], w))
    else
      match Cut(env, frame)
      case Err => Err
      case Ok(pieces) => Ok(Split(frame, pieces))
  }

  /** The bytes put before those of the pieces still to come. */
  function After(done: bytes, r: Result<seq<Piece>>): Result<bytes> {
    match r
    case Err => Err
    case Ok(pieces) => Ok(done + Wires(pieces))
  }

  method NewSegment(env: Env, payload: bytes, selfContained: bool) returns (r: Result<bytes>)
    ensures r == Encode(env, payload, selfContained)
  {
    if env.codec.Some? {
      r := NewCompressedSegment(env, payload, selfContained);
    } else {
      r := NewUncompressedSegment(env, payload, selfContained);
    }
  }

  method PrepareModernLayout(env: Env, frame: bytes) returns (r: Result<bytes>)
    ensures r == match Layout(env, frame) case Err => Err case Ok(p) => Ok(WireOf(p))
  {
    hide Encode;
    var selfContained := true;
    var adjusted: bytes := [];
    var buf := frame;
    while |buf| > MAX_PAYLOAD
      invariant if selfContained then buf == frame && adjusted == []
        else |frame| > MAX_PAYLOAD && After(adjusted, Cut(env, buf)) == After([], Cut(env, frame))
      decreases |buf|
    {
      var seg := NewSegment(env, buf[..MAX_PAYLOAD], false);
      if seg.Err? {
        return Err;
      }
      CutStep(env, buf, adjusted, seg.value);
      adjusted := adjusted + seg.value;
      buf := buf[MAX_PAYLOAD..];
      selfContained := false;
    }
    var last := NewSegment(env, buf, selfContained);
    if last.Err? {
      return Err;
    }
    assert Wires([Piece(buf, last.value)]) == last.value + Wires([]) == last.value;
    assert forall pieces :: [] + Wires(pieces) == Wires(pieces);
    return Ok(adjusted + last.value);
  }

  lemma CutStep(env: Env, buf: bytes, done: bytes, w: bytes)
    requires |buf| > MAX_PAYLOAD && Encode(env, buf[..MAX_PAYLOAD], false) == Ok(w)
    ensures After(done, Cut(env, buf)) == After(done + w, Cut(env, buf[MAX_PAYLOAD..]))
  {
    hide Encode;
    match Cut(env, buf[MAX_PAYLOAD..])
    case Err =>
    case Ok(more) =>
      var pieces := [Piece(buf[..MAX_PAYLOAD], w)] + more;
      assert pieces[1..] == more;
      assert done + w + Wires(more) == done + (w + Wires(more));
  }

  lemma {:induction false} CutOk(env: Env, buf: bytes)
    requires CodecOk(env) && buf != [] && Cut(env, buf).Ok?
    ensures var ps := Cut(env, buf).value;
      ps != [] && PiecesOk(env, ps) && Payloads(ps) == buf && ps[|ps| - 1].payload != []
      && |ps[0].payload| == if |buf| > MAX_PAYLOAD then MAX_PAYLOAD else |buf|
  {
    hide Encode, Encodes, CodecOk;
    if |buf| <= MAX_PAYLOAD {
      EncodeEncodes(env, buf, false);
      assert Payloads([Piece(buf, Encode(env, buf, false).value)]) == buf + Payloads([]);
    } else {
      EncodeEncodes(env, buf[..MAX_PAYLOAD], false);
      CutOk(env, buf[MAX_PAYLOAD..]);
      var more := Cut(env, buf[MAX_PAYLOAD..]).value;
      var ps := Cut(env, buf).value;
      assert ps[1..] == more;
      assert buf == buf[..MAX_PAYLOAD] + buf[MAX_PAYLOAD..];
    }
  }

  /** The driver's own layout is one of the legal packings of its frame. */
  lemma SenderIsLegal(env: Env, numStreams: nat, frame: bytes)
    requires CodecOk(env) && IsFrame(numStreams, frame) && Layout(env, frame).Ok?
    ensures Legal(env, numStreams, Layout(env, frame).value) && FramesOf(Layout(env, frame).value) == [frame]
  {
    hide Encode, Encodes, CodecOk;
    if |frame| <= MAX_PAYLOAD {
      assert Join([frame]) == frame + Join([]) == frame;
      EncodeEncodes(env, frame, true);
    } else {
      CutOk(env, frame);
    }
  }

  /** A frame that fits goes into one self-contained segment; a longer one into as many full segments of
      131071 bytes as it takes and a last one with the rest. */
  lemma LayoutIs(env: Env, frame: bytes)
    requires Layout(env, frame).Ok?
    ensures var p := Layout(env, frame).value;
      if |frame| <= 131_071 then p.Whole? && p.frames == [frame]
      else && p.Split? && p.frame == frame
           && forall i :: 0 <= i < |p.pieces| ==> |p.pieces[i].payload| == PieceSize(|frame|, i)
  {
    hide Encode;
    if |frame| > MAX_PAYLOAD {
      PieceSizes(env, frame);
    }
  }

  /** How much of a frame piece i takes. */
  function PieceSize(length: int, i: nat): int {
    if length - 131_071 * i <= 131_071 then length - 131_071 * i else 131_071
  }

  lemma {:induction false} PieceSizes(env: Env, buf: bytes)
    requires Cut(env, buf).Ok?
    ensures var ps := Cut(env, buf).value;
      forall i :: 0 <= i < |ps| ==> |ps[i].payload| == PieceSize(|buf|, i)
    decreases |buf|
  {
    hide Encode;
    var ps := Cut(env, buf).value;
    if |buf| > MAX_PAYLOAD {
      PieceSizes(env, buf[MAX_PAYLOAD..]);
      assert ps[1..] == Cut(env, buf[MAX_PAYLOAD..]).value;
      forall i | 0 <= i < |ps|
        ensures |ps[i].payload| == PieceSize(|buf|, i)
      {
        if i > 0 {
          assert ps[i] == ps[1..][i - 1];
        }
      }
    }
  }

  /** Whatever the compressor makes of it, a frame sent is the frame received: by the session if it is an
      event, by the call that waits for it, or else by nobody. */
  lemma SentIsReceived(env: Env, numStreams: nat, calls: set<int>, frame: bytes, rest: bytes)
    requires CodecOk(env) && IsFrame(numStreams, frame) && Layout(env, frame).Ok?
    ensures var o := Recv(env, numStreams, calls, WireOf(Layout(env, frame).value) + rest);
      var stream := StreamOf(frame);
      && o.ok && o.rest == rest && (stream != -1 ==> o.calls == calls - {stream}) && (stream == -1 ==> o.calls == calls)
      && o.items == [if stream == -1 then Event(frame)
                     else if stream in calls then Response(frame) else Unexpected(frame)]
  {
    ItemIs(numStreams, calls, frame);
    hide Layout, IsFrame, CodecOk, Recv, ItemOf, GoodVersion, StreamOf;
    SenderIsLegal(env, numStreams, frame);
    RecvRebuilds(env, numStreams, calls, Layout(env, frame).value, rest);
    OneItem(calls, frame);
  }

  /** A frame of several segments is given up when a self-contained segment comes in between, or more
      bytes than it announced. */
  lemma InterruptedFails(env: Env, numStreams: nat, calls: set<int>, first: Piece, next: Piece,
                         selfContained: bool, rest: bytes)
    requires Encodes(env, first.wire, first.payload, false) && Encodes(env, next.wire, next.payload, selfContained)
    requires HasHeader(first.payload) && |first.payload| < LengthOf(first.payload) + HEAD_SIZE
    requires selfContained || |first.payload| + |next.payload| > LengthOf(first.payload) + HEAD_SIZE
    ensures var o := Recv(env, numStreams, calls, first.wire + (next.wire + rest));
      !o.ok && o.items == [] && o.calls == calls
  {
    hide Encodes, Decode, LengthOf, GoodVersion;
    DecodeEncodes(env, first.wire, first.payload, false, next.wire + rest);
    DecodeEncodes(env, next.wire, next.payload, selfContained, rest);
  }

  lemma LengthField(n: nat)
    requires n < 0x8000_0000
    ensures Int32([n / 0x100_0000 % 256, n / 0x1_0000 % 256, n / 0x100 % 256, n % 256]) == n
  {
    assert n == n / 0x100 * 0x100 + n % 0x100;
    assert n / 0x100 == n / 0x1_0000 * 0x100 + n / 0x100 % 0x100;
    assert n / 0x1_0000 == n / 0x100_0000 * 0x100 + n / 0x1_0000 % 0x100;
  }

  /** What a header says: the version without its direction bit, stream and body length in two and four
      bytes, most significant first, as two's complement. */
  lemma HeaderRead(version: byte, flags: byte, stream: int, op: byte, body: bytes, numStreams: nat)
    requires -32_768 <= stream < 32_768 && |body| < 0x8000_0000
    ensures var u, n := if stream < 0 then stream + 65_536 else stream, |body|;
      var f := [version, flags, u / 256, u % 256, op,
                n / 0x100_0000 % 256, n / 0x1_0000 % 256, n / 0x100 % 256, n % 256] + body;
      && StreamOf(f) == stream && LengthOf(f) == |body|
      && (IsFrame(numStreams, f) <==>
            && 3 <= version % 128 <= 5 && (stream == -1 || 1 <= stream <= numStreams) && |body| <= 268_435_456)
  {
    LengthField(|body|);
    hide Int32;
    var u, n := if stream < 0 then stream + 65_536 else stream, |body|;
    var head: bytes := [version, flags, u / 256, u % 256, op,
                        n / 0x100_0000 % 256, n / 0x1_0000 % 256, n / 0x100 % 256, n % 256];
    assert (head + body)[5..9] == [n / 0x100_0000 % 256, n / 0x1_0000 % 256, n / 0x100 % 256, n % 256];
  }

  /** finish and setLength: the body length goes into bytes 5 to 8, unless the frame is too big. */
  method Finish(buf: array<byte>) returns (ok: bool)
    requires buf.Length >= HEAD_SIZE
    modifies buf
    ensures ok <==> buf.Length <= 268_435_456
    ensures ok ==> LengthOf(buf[..]) == buf.Length - HEAD_SIZE
    ensures ok ==> var n := buf.Length - 9;
      buf[5..9] == [n / 0x100_0000 % 256, n / 0x1_0000 % 256, n / 0x100 % 256, n % 256]
    ensures buf[..5] == old(buf[..5]) && buf[9..] == old(buf[9..])
  {
    if buf.Length > MAX_FRAME {
      return false;
    }
    var length := buf.Length - HEAD_SIZE;
    LengthField(length);
    hide Int32;
    buf[5] := length / 0x100_0000 % 256;
    buf[6] := length / 0x1_0000 % 256;
    buf[7] := length / 0x100 % 256;
    buf[8] := length % 256;
    assert buf[..][5..9] == [buf[5], buf[6], buf[7], buf[8]];
    return true;
  }

  // ---------------------------------------------------------------- the receiving connection

  class Receiver {
    const env: Env
    const numStreams: nat
    var input: bytes
    var calls: set<int>
    var delivered: seq<Item>

    constructor (env: Env, numStreams: nat, input: bytes, calls: set<int>)
      ensures this.env == env && this.numStreams == numStreams && this.input == input && this.calls == calls
      ensures delivered == []
    {
      this.env, this.numStreams, this.input, this.calls, delivered := env, numStreams, input, calls, [];
    }

    method ReadSegment() returns (r: Read)
      modifies this`input
      ensures r == Decode(env, old(input))
      ensures r.Got? ==> input == r.rest && |input| < old(|input|)
    {
      hide Decode;
      r := Decode(env, input);
      DecodeConsumes(env, input);
      if r.Got? {
        input := r.rest;
      }
    }

    /** One frame of r: the call is looked up, and taken out of the table, before the body is read. */
    method ProcessFrame(r: bytes) returns (t: Taken)
      modifies this`calls, this`delivered
      ensures t == TakeFrame(numStreams, old(calls), r)
      ensures calls == LookedUp(numStreams, old(calls), r)
      ensures delivered == old(delivered) + if t.Taken? then [t.item] else []
    {
      hide LengthOf;
      t := TakeFrame(numStreams, calls, r);
      if HasHeader(r) && 1 <= StreamOf(r) <= numStreams {
        calls := calls - {StreamOf(r)};
      }
      if t.Taken? {
        delivered := delivered + [t.item];
      }
    }

    method ProcessAllFramesInSegment(payload: bytes) returns (ok: bool)
      modifies this`calls, this`delivered
      ensures var (items, left, good) := FramesIn(numStreams, old(calls), payload);
        ok == good && calls == left && delivered == old(delivered) + items
    {
      hide TakeFrame, Waiting, HasHeader, LookedUp;
      var r := payload;
      ok := true;
      ghost var goal := FramesIn(numStreams, calls, payload);
      while |r| > 0 && ok
        invariant ok ==> var (items, left, good) := FramesIn(numStreams, calls, r);
          good == goal.2 && left == goal.1 && delivered + items == old(delivered) + goal.0
        invariant !ok ==> !goal.2 && calls == goal.1 && delivered == old(delivered) + goal.0
        decreases |r|, ok
      {
        TakenIsShorter(numStreams, calls, r);
        ghost var before := delivered;
        ghost var more := FramesIn(numStreams, calls, r);
        var t := ProcessFrame(r);
        if t.Taken? {
          assert before + more.0 == delivered + FramesIn(numStreams, calls, t.rest).0;
          r := t.rest;
        } else {
          ok := false;
        }
      }
    }

    method RecvPartialFrames(first: bytes, capacity: nat, bytesToRead: int) returns (r: Result<bytes>)
      modifies this`input
      ensures match Gather(env, old(input), first, capacity, bytesToRead)
        case Err => r.Err?
        case Ok((dst, rest)) => r == Ok(dst) && input == rest
    {
      hide Decode;
      var read := 0;
      var dst := first;
      while read != bytesToRead
        invariant Gather(env, input, dst, capacity, bytesToRead - read)
               == Gather(env, old(input), first, capacity, bytesToRead)
        decreases |input|
      {
        var seg := ReadSegment();
        if seg.Failed? || seg.selfContained || |dst| + |seg.payload| > capacity {
          return Err;
        }
        dst := dst + seg.payload;
        read := read + |seg.payload|;
      }
      return Ok(dst);
    }

    method RecvSegment() returns (ok: bool)
      modifies this
      ensures var o := Recv(env, numStreams, old(calls), old(input));
        ok == o.ok && calls == o.calls && delivered == old(delivered) + o.items && (ok ==> input == o.rest)
    {
      hide Decode, Gather, TakeFrame, FramesIn, Waiting, GoodVersion;
      var seg := ReadSegment();
      if seg.Failed? {
        return false;
      }
      if seg.selfContained {
        ok := ProcessAllFramesInSegment(seg.payload);
        return;
      }
      if !HasHeader(seg.payload) || |seg.payload| > LengthOf(seg.payload) + HEAD_SIZE {
        return false;
      }
      var size := LengthOf(seg.payload) + HEAD_SIZE;
      var buf := RecvPartialFrames(seg.payload, size, size - |seg.payload|);
      if buf.Err? {
        return false;
      }
      var t := ProcessFrame(buf.value);
      return t.Taken?;
    }
  }
}
