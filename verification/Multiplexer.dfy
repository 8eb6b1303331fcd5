// Many callers on one connection (conn.go): each execInternal takes a stream, registers a
// call, writes a request and then races a response, its own timeout or cancellation, and the
// close of the connection, against the receiver goroutine and whoever runs closeWithError.
//
// A step is one atomic action of the code: a successful stream compare-and-swap, a section
// under c.mu, a rendezvous on the unbuffered `resp`, closing `timeout`. The stream bitset
// appears as the atomic set it refines (StreamIds.StepRefinesSet, MultiplexerStreams).
//
// A write can stall: when the peer stops reading and the connection has no write deadline, the
// caller in it stays there until the peer reads again or the socket is closed, and nobody else's
// bytes get through meanwhile. With a deadline every write ends by itself.
module Multiplexer {

  /** What can arrive on a call's `resp` channel. */
  datatype Msg =
    | Frame(request: nat)     // the response to that request
    | BadFrame(request: nat)  // the response to that request, whose body could not be read
    | ConnError               // closeWithError's error

  /** Where an execInternal stands. */
  datatype Pc =
    | Start          // before GetStream
    | Adding         // has a stream, before addCall
    | Building       // registered, before buildFrame
    | Writing        // frame built, before anything reaches the server
    | Written        // the server has the request, writeContext has not returned
    | Waiting        // in the select
    | Leaving        // select took the timer or a context, before close(call.timeout)
    | Got(msg: Msg)  // select took resp, before close(call.timeout)
    | GotErr         // resp.err != nil, before c.Closed()
    | Releasing      // before releaseStream
    | Dropping       // nothing was written, before deleting the call
    | Closing        // the write failed, before or in closeWithError
    | Done

  datatype Call = Call(pc: Pc, stream: nat, timeout: bool, got: seq<Msg>, releases: nat)

  datatype Closer = NotClosed | Notifying(todo: set<nat>) | Cancelling | Closed

  datatype Receiver =
    | Reading
    | Looked(request: nat)          // header read, before looking the stream up
    | Holding(call: nat, request: nat)
    | Offering(call: nat, msg: Msg) // in the select at the end of processFrame
    | Freeing(call: nat)            // the call had timed out, before releaseStream
    | Failed                        // recv returned an error, before or in closeWithError
    | Stopped

  /** `table` is c.calls; `holder` is a history of who took each stream in `used`;
      `pending` and `wire` are the requests the server has not answered and the answers
      not yet read. */
  datatype State = State(
    numStreams: nat,
    calls: map<nat, Call>,
    table: map<nat, nat>,
    used: set<nat>,
    holder: map<nat, nat>,
    closer: Closer,
    ctxDone: bool,
    pending: set<nat>,
    wire: seq<nat>,
    recv: Receiver,
    deadline: bool,        // writes have a deadline
    stalled: set<nat>,     // callers whose writeContext waits for a peer that does not read
    // what the code reports as impossible
    duplicateCall: bool,
    wrongStream: bool,
    noHandler: bool)
  {
    predicate IsClosed() {
      !closer.NotClosed?
    }

    function Set(c: nat, k: Call): State {
      this.(calls := calls[c := k])
    }
  }

  /** Steps of a caller that touch nothing but its own call. */
  datatype Move = BuildOk | BuildFails | WriteOk | WriteCancelled | WriteFails
                | GiveUp | Leave | CloseTimeout | CheckClosed

  /** Steps of the receiver goroutine. */
  datatype RecvMove = ReadHeader | ReadFails | Lookup | ReadBody(msg: Msg) | BodyFails
                    | Deliver | SeeTimeout | SeeDone | Free | ReceiverCloses

  /** Steps of whoever closes the connection. */
  datatype CloseMove = CallerCloses(c: nat) | OtherCloses | CloseNil
                     | Notify(c: nat) | Skip(c: nat) | Cancel | ParentCancelled

  /** A write is held up, alone or behind an earlier one of the same flush; the peer reads again. */
  datatype SocketMove = Stall(c: nat) | Resume

  datatype Action =
    | Exec(c: nat) | GetStream(c: nat, stream: nat) | AddCall(c: nat)
    | Own(c: nat, move: Move) | Send(c: nat) | Release(c: nat) | Drop(c: nat)
    | Answer(request: nat)
    | Recv(recvMove: RecvMove)
    | Close(closeMove: CloseMove)
    | Socket(socketMove: SocketMove)

  function Init(numStreams: nat, deadline: bool): State {
    State(numStreams, map[], map[], {0}, map[], NotClosed, false, {}, [], Reading, deadline, {}, false, false, false)
  }

  predicate At(s: State, c: nat, pc: Pc) {
    c in s.calls && s.calls[c].pc == pc
  }

  predicate CanMove(pc: Pc, m: Move) {
    match m
    case BuildOk => pc.Building?
    case BuildFails => pc.Building?
    case WriteOk => pc.Written?
    case WriteCancelled => pc.Writing?
    case WriteFails => pc.Writing? || pc.Written?
    case GiveUp => pc.Waiting?
    case Leave => pc.Leaving?
    case CloseTimeout => pc.Got?
    case CheckClosed => pc.GotErr?
  }

  /** Returns of writeContext. */
  predicate EndsWrite(m: Move) {
    m.WriteOk? || m.WriteCancelled? || m.WriteFails?
  }

  function Moved(k: Call, m: Move, closed: bool): Call
    requires CanMove(k.pc, m)
  {
    match m
    case BuildOk => k.(pc := Writing)
    case BuildFails => k.(pc := Dropping, timeout := true)
    case WriteOk => k.(pc := Waiting)
    case WriteCancelled => k.(pc := Dropping, timeout := true)
    case WriteFails => k.(pc := Closing, timeout := true)
    case GiveUp => k.(pc := Leaving)
    case Leave => k.(pc := Done, timeout := true)
    case CloseTimeout => k.(pc := if k.pc.msg.Frame? then Releasing else GotErr, timeout := true)
    case CheckClosed => k.(pc := if closed then Done else Releasing)
  }

  predicate Enabled(s: State, a: Action) {
    match a
    case Exec(c) => c !in s.calls
    case GetStream(c, stream) => At(s, c, Start) && 0 < stream < s.numStreams && stream !in s.used
    case AddCall(c) => At(s, c, Adding)
    case Own(c, m) => c in s.calls && CanMove(s.calls[c].pc, m) && (EndsWrite(m) ==> c !in s.stalled)
    case Send(c) => At(s, c, Writing) && s.stalled == {}
    case Release(c) => At(s, c, Releasing)
    case Drop(c) => At(s, c, Dropping)
    case Answer(request) => request in s.pending
    case Recv(m) => CanReceive(s, m)
    case Close(m) => CanClose(s, m)
    case Socket(m) => CanSocket(s, m)
  }

  predicate CanSocket(s: State, m: SocketMove) {
    match m
    case Stall(c) =>
      && !s.deadline && !s.closer.Closed?
      && (At(s, c, Writing) || (At(s, c, Written) && s.stalled != {}))
    case Resume => true
  }

  predicate CanReceive(s: State, m: RecvMove) {
    match m
    case ReadHeader => s.recv.Reading? && s.wire != []
    case ReadFails => s.recv.Reading?
    case Lookup => s.recv.Looked?
    case ReadBody(msg) => s.recv.Holding? && (msg == Frame(s.recv.request) || msg == BadFrame(s.recv.request))
    case BodyFails => s.recv.Holding?
    case Deliver => s.recv.Offering? && At(s, s.recv.call, Waiting)
    case SeeTimeout => s.recv.Offering? && s.recv.call in s.calls && s.calls[s.recv.call].timeout
    case SeeDone => s.recv.Offering? && s.ctxDone
    case Free => s.recv.Freeing? && s.recv.call in s.calls
    case ReceiverCloses => s.recv.Failed?
  }

  predicate CanClose(s: State, m: CloseMove) {
    match m
    case CallerCloses(c) => At(s, c, Closing)
    case OtherCloses => true
    case CloseNil => true
    case Notify(c) => s.closer.Notifying? && c in s.closer.todo && At(s, c, Waiting)
    case Skip(c) => s.closer.Notifying? && c in s.closer.todo && c in s.calls && s.calls[c].timeout
    case Cancel => s.closer == Notifying({}) || s.closer.Cancelling?
    case ParentCancelled => true
  }

  function Step(s: State, a: Action): State
    requires Enabled(s, a)
  {
    match a
    case Exec(c) => s.Set(c, Call(Start, 0, false, [], 0))
    case GetStream(c, stream) =>
      s.(used := s.used + {stream}, holder := s.holder[stream := c])
       .Set(c, s.calls[c].(pc := Adding, stream := stream))
    case AddCall(c) => DoAddCall(s, c)
    case Own(c, m) => s.Set(c, Moved(s.calls[c], m, s.IsClosed()))
    case Send(c) => s.(pending := s.pending + {c}).Set(c, s.calls[c].(pc := Written))
    case Release(c) => ReleaseStream(s, c, Done)
    case Drop(c) =>
      (if s.IsClosed() then s else s.(table := s.table - {s.calls[c].stream}))
      .Set(c, s.calls[c].(pc := Releasing))
    case Answer(request) => s.(pending := s.pending - {request}, wire := s.wire + [request])
    case Recv(m) => RecvStep(s, m)
    case Close(m) => CloseStep(s, m)
    case Socket(m) => s.(stalled := if m.Stall? then s.stalled + {m.c} else {})
  }

  function RecvStep(s: State, m: RecvMove): State
    requires CanReceive(s, m)
  {
    match m
    case ReadHeader => s.(recv := Looked(s.wire[0]), wire := s.wire[1..])
    case ReadFails => s.(recv := Failed)
    case Lookup => DoLookup(s)
    case ReadBody(msg) => s.(recv := Offering(s.recv.call, msg))
    case BodyFails => s.(recv := Failed)
    case Deliver => Receive(s, s.recv.call, s.recv.msg).(recv := Reading)
    case SeeTimeout => s.(recv := Freeing(s.recv.call))
    case SeeDone => s.(recv := Reading)
    case Free => ReleaseStream(s, s.recv.call, s.calls[s.recv.call].pc).(recv := Reading)
    case ReceiverCloses => StartClose(s).(recv := Stopped)
  }

  function CloseStep(s: State, m: CloseMove): State
    requires CanClose(s, m)
  {
    match m
    case CallerCloses(c) => StartClose(s).Set(c, s.calls[c].(pc := Done))
    case OtherCloses => StartClose(s)
    case CloseNil => if s.IsClosed() then s else s.(closer := Cancelling)
    case Notify(c) => Receive(s, c, ConnError).(closer := Notifying(s.closer.todo - {c}))
    case Skip(c) => s.(closer := Notifying(s.closer.todo - {c}))
    case Cancel => s.(closer := Closed, ctxDone := true, stalled := {}) // the socket is closed
    case ParentCancelled => s.(ctxDone := true)
  }

  /** Neither the socket nor the close has moved on. */
  predicate SameSocket(s: State, t: State) {
    t.numStreams == s.numStreams && t.deadline == s.deadline && t.stalled == s.stalled && t.closer == s.closer
  }

  /** Where addCall leaves its caller. */
  function AddedPc(s: State, stream: nat): Pc {
    if s.IsClosed() || stream in s.table then Done else Building
  }

  /** addCall: refuses on a closed connection or when the stream already has a call. */
  function DoAddCall(s: State, c: nat): (t: State)
    requires c in s.calls
    ensures t.calls == s.calls[c := s.calls[c].(pc := AddedPc(s, s.calls[c].stream))]
    ensures SameSocket(s, t) && t.used == s.used && t.recv == s.recv
  {
    var k := s.calls[c];
    if s.IsClosed() then s.Set(c, k.(pc := Done))
    else if k.stream in s.table then s.(duplicateCall := true).Set(c, k.(pc := Done))
    else s.(table := s.table[k.stream := c]).Set(c, k.(pc := Building))
  }

  function StreamOf(s: State, c: nat): nat {
    if c in s.calls then s.calls[c].stream else 0
  }

  /** The section of processFrame under c.mu: the call registered on the response's stream. */
  function DoLookup(s: State): (t: State)
    requires s.recv.Looked?
    ensures t.calls == s.calls && SameSocket(s, t) && t.used == s.used
    ensures t.pending == s.pending && t.wire == s.wire && t.ctxDone == s.ctxDone
  {
    var stream := StreamOf(s, s.recv.request);
    if s.IsClosed() then s.(recv := Failed)
    else if stream !in s.table then s.(recv := Reading, noHandler := true)
    else s.(table := s.table - {stream},
            wrongStream := s.wrongStream || StreamOf(s, s.table[stream]) != stream,
            recv := Holding(s.table[stream], s.recv.request))
  }

  function Receive(s: State, c: nat, msg: Msg): State
    requires c in s.calls
  {
    s.Set(c, s.calls[c].(pc := Got(msg), got := s.calls[c].got + [msg]))
  }

  function ReleaseStream(s: State, c: nat, pc: Pc): State
    requires c in s.calls
  {
    var k := s.calls[c];
    s.(used := s.used - {k.stream}, holder := s.holder - {k.stream}).Set(c, k.(pc := pc, releases := k.releases + 1))
  }

  /** closeWithError up to the unlock: only the first close takes the calls. */
  function StartClose(s: State): (t: State)
    ensures t.calls == s.calls && t.used == s.used && t.recv == s.recv && t.stalled == s.stalled
    ensures t.numStreams == s.numStreams && t.deadline == s.deadline
  {
    if s.IsClosed() then s
    else s.(closer := Notifying(set stream | stream in s.table :: s.table[stream]), table := map[])
  }
}
