// What every reachable state of the multiplexer keeps.
module MultiplexerInv {
  import opened Multiplexer

  /** The server may still answer this request, or its answer is on the way in. */
  predicate AtServer(s: State, r: nat) {
    r in s.pending || r in s.wire || s.recv == Looked(r)
  }

  /** The receiver has taken this call out of the table. */
  predicate Held(recv: Receiver, c: nat) {
    (recv.Holding? || recv.Offering? || recv.Freeing?) && recv.call == c
  }

  /** The call is what c.calls has on its stream. */
  predicate Listed(s: State, c: nat) {
    c in s.calls && s.calls[c].stream in s.table && s.table[s.calls[c].stream] == c
  }

  predicate InTodo(s: State, c: nat) {
    s.closer.Notifying? && c in s.closer.todo
  }

  /** The call took a stream that has not been given back. */
  predicate Owns(k: Call) {
    k.stream > 0 && k.releases == 0
  }

  /** Places from which every path of the caller reads `resp` or closes `timeout`. */
  predicate Obliged(pc: Pc) {
    pc.Building? || pc.Writing? || pc.Written? || pc.Waiting? || pc.Leaving?
  }

  /** A caller that will release its stream itself, or already has an answer to do so. */
  predicate WillRelease(pc: Pc) {
    pc.Dropping? || pc.Releasing? || (pc.Got? && !pc.msg.ConnError?)
  }

  predicate Local(k: Call, c: nat, closed: bool) {
    && k.releases <= 1
    && (k.pc.Start? ==> k.stream == 0)
    && (k.stream == 0 ==> k.pc.Start?)
    && (k.releases == 1 ==> k.pc.Done? || k.pc.Closing?)
    && (k.pc.Dropping? || k.pc.Closing? || k.pc.Releasing? || k.pc.GotErr? ==> k.timeout)
    && (k.pc == Got(ConnError) ==> closed)
    && (k.pc.Start? || k.pc.Adding? || Obliged(k.pc) || k.pc.Dropping? || k.pc.Closing? ==> k.got == [])
    && |k.got| <= 1
    && (k.pc.Got? ==> k.got == [k.pc.msg])
    && (forall m :: m in k.got && !m.ConnError? ==> m.request == c)
    && (k.pc.Start? || k.pc.Adding? || Obliged(k.pc) ==> !k.timeout)
  }

  /** How a call's place constrains where its request and its registration can be. */
  predicate Placed(k: Call, listed: bool, atServer: bool, held: bool, todo: bool, closed: bool) {
    && (listed || atServer || held ==> Owns(k))
    && (listed || atServer || held || todo ==> Obliged(k.pc) || k.timeout || (k.pc == Got(ConnError) && !todo))
    && (listed ==> !held && k.got == [] && !k.pc.Releasing? && !k.pc.GotErr?)
    && (atServer ==> !held && !WillRelease(k.pc) && !k.pc.Building? && !k.pc.Writing?)
    && (atServer && !closed ==> listed)
    && (held ==> !WillRelease(k.pc) && !k.pc.Building? && !k.pc.Writing? && !k.pc.GotErr?)
    && (held || todo ==> k.got == [])
    && !(held && todo)
    && ((k.pc.Building? || k.pc.Writing?) && !closed ==> listed)
  }

  predicate CallOk(s: State, c: nat)
    requires c in s.calls
  {
    && Local(s.calls[c], c, s.IsClosed())
    && Placed(s.calls[c], Listed(s, c) && !s.IsClosed(), AtServer(s, c), Held(s.recv, c), InTodo(s, c), s.IsClosed())
    && (Owns(s.calls[c]) ==> s.calls[c].stream in s.holder && s.holder[s.calls[c].stream] == c)
  }

  /** The stream set is the reserved stream and the streams that calls own. */
  predicate StreamsOk(s: State) {
    && s.used == {0} + s.holder.Keys
    && 0 !in s.holder
    && (forall st :: st in s.holder ==>
          && st < s.numStreams && s.holder[st] in s.calls
          && s.calls[s.holder[st]].stream == st && Owns(s.calls[s.holder[st]]))
  }

  predicate TableOk(s: State) {
    && (!s.IsClosed() ==> forall st :: st in s.table ==> s.table[st] in s.calls && s.calls[s.table[st]].stream == st)
  }

  /** Each request is at one place between the server and the lookup. */
  predicate ServerOk(known: set<nat>, pending: set<nat>, wire: seq<nat>, recv: Receiver) {
    && pending <= known
    && (forall r :: r in pending ==> r !in wire && recv != Looked(r))
    && (forall r :: r in wire ==> r in known && recv != Looked(r))
    && (forall i, j :: 0 <= i < j < |wire| ==> wire[i] != wire[j])
    && (recv.Looked? ==> recv.request in known)
  }

  predicate RecvOk(s: State) {
    && (s.recv.Holding? ==> s.recv.call in s.calls && s.recv.request == s.recv.call)
    && (s.recv.Offering? ==> s.recv.call in s.calls && !s.recv.msg.ConnError? && s.recv.msg.request == s.recv.call)
    && (s.recv.Freeing? ==> s.recv.call in s.calls && s.calls[s.recv.call].timeout)
  }

  predicate TodoOk(s: State) {
    s.closer.Notifying? ==> s.closer.todo <= s.calls.Keys
  }

  predicate CallsOk(s: State) {
    forall c :: c in s.calls ==> CallOk(s, c)
  }

  predicate Inv(s: State) {
    && CallsOk(s)
    && StreamsOk(s) && TableOk(s) && RecvOk(s) && TodoOk(s)
    && ServerOk(s.calls.Keys, s.pending, s.wire, s.recv)
    && !s.duplicateCall && !s.wrongStream && !s.noHandler
  }

  // ---------------------------------------------------------------- framing

  /** Nothing that CallOk says about d can tell the two states apart. */
  predicate Same(s: State, s': State, d: nat) {
    && d in s.calls && d in s'.calls && s'.calls[d] == s.calls[d]
    && s'.IsClosed() == s.IsClosed()
    && (Listed(s', d) && !s'.IsClosed()) == (Listed(s, d) && !s.IsClosed())
    && AtServer(s', d) == AtServer(s, d)
    && Held(s'.recv, d) == Held(s.recv, d)
    && InTodo(s', d) == InTodo(s, d)
    && (Owns(s.calls[d]) && s.calls[d].stream in s.holder ==>
          s.calls[d].stream in s'.holder && s'.holder[s.calls[d].stream] == s.holder[s.calls[d].stream])
  }

  lemma Frames(s: State, s': State, d: nat)
    requires d in s.calls && CallOk(s, d) && Same(s, s', d)
    ensures CallOk(s', d)
  {
    hide Local, Placed;
  }

  predicate Flagged(s: State, c: nat, k: Call) {
    && Local(k, c, s.IsClosed())
    && Placed(k, Listed(s, c) && !s.IsClosed(), AtServer(s, c), Held(s.recv, c), InTodo(s, c), s.IsClosed())
  }

  /** Two calls that own streams own different streams. */
  lemma OwnersDiffer(s: State, c: nat, d: nat)
    requires Inv(s) && c in s.calls && d in s.calls && c != d && Owns(s.calls[c]) && Owns(s.calls[d])
    ensures s.calls[c].stream != s.calls[d].stream
  {
    hide Local, Placed, ServerOk;
    assert CallOk(s, c);
    assert CallOk(s, d);
  }

  /** A registered stream belongs to the call registered on it. */
  lemma TableOwner(s: State, st: nat)
    requires Inv(s) && !s.IsClosed() && st in s.table
    ensures s.table[st] in s.calls && Listed(s, s.table[st]) && Owns(s.calls[s.table[st]])
    ensures s.calls[s.table[st]].stream == st && st in s.holder && s.holder[st] == s.table[st]
  {
    hide Local, ServerOk;
    assert CallOk(s, s.table[st]);
  }

  /** No stream changed hands. */
  predicate SameStreams(s: State, s': State) {
    && s'.numStreams == s.numStreams && s'.used == s.used && s'.holder == s.holder
    && forall d :: d in s.calls ==>
         d in s'.calls && s'.calls[d].stream == s.calls[d].stream && s'.calls[d].releases == s.calls[d].releases
  }

  lemma StreamsStay(s: State, s': State)
    requires StreamsOk(s) && SameStreams(s, s')
    ensures StreamsOk(s')
  {
  }

  // ---------------------------------------------------------------- steps of one caller

  /** A step that only moves its own caller. */
  lemma CallerMoves(s: State, c: nat, k: Call)
    requires Inv(s) && c in s.calls
    requires k.stream == s.calls[c].stream && k.releases == s.calls[c].releases
    requires s.calls[c].timeout ==> k.timeout
    requires Flagged(s, c, k)
    ensures Inv(s.Set(c, k))
  {
    hide Local, Placed, ServerOk;
    var s' := s.Set(c, k);
    assert s'.calls.Keys == s.calls.Keys;
    forall d | d in s'.calls
      ensures CallOk(s', d)
    {
      assert CallOk(s, d);
      assert Listed(s', d) == Listed(s, d);
      assert AtServer(s', d) == AtServer(s, d);
    }
  }

  lemma MoveOk(k: Call, c: nat, m: Move, listed: bool, atServer: bool, held: bool, todo: bool, closed: bool)
    requires Local(k, c, closed) && Placed(k, listed, atServer, held, todo, closed) && CanMove(k.pc, m)
    ensures Local(Moved(k, m, closed), c, closed)
    ensures Placed(Moved(k, m, closed), listed, atServer, held, todo, closed)
  {
  }

  lemma OwnInv(s: State, c: nat, m: Move)
    requires Inv(s) && Enabled(s, Own(c, m))
    ensures Inv(Step(s, Own(c, m)))
  {
    hide Local, Placed, ServerOk;
    assert CallOk(s, c);
    MoveOk(s.calls[c], c, m, Listed(s, c) && !s.IsClosed(),
           AtServer(s, c), Held(s.recv, c), InTodo(s, c), s.IsClosed());
    CallerMoves(s, c, Moved(s.calls[c], m, s.IsClosed()));
  }

  lemma StartOk(c: nat, closed: bool)
    ensures Local(Call(Start, 0, false, [], 0), c, closed)
    ensures Placed(Call(Start, 0, false, [], 0), false, false, false, false, closed)
  {
  }

  lemma ExecInv(s: State, c: nat)
    requires Inv(s) && Enabled(s, Exec(c))
    ensures Inv(Step(s, Exec(c)))
  {
    hide Local, Placed;
    var s' := Step(s, Exec(c));
    forall d | d in s'.calls
      ensures CallOk(s', d)
    {
      if d != c {
        Frames(s, s', d);
      } else {
        StartOk(c, s.IsClosed());
      }
    }
  }

  /** A call that has not been registered is nowhere else. */
  lemma Unregistered(k: Call, c: nat, listed: bool, atServer: bool, held: bool, todo: bool, closed: bool)
    requires Local(k, c, closed) && Placed(k, listed, atServer, held, todo, closed) && (k.pc.Start? || k.pc.Adding?)
    ensures !listed && !atServer && !held && !todo
    ensures k.releases == 0 && k.got == [] && !k.timeout
    ensures k.pc.Adding? <==> k.stream > 0
  {
  }

  lemma UnregisteredCall(s: State, c: nat)
    requires Inv(s) && c in s.calls && (s.calls[c].pc.Start? || s.calls[c].pc.Adding?)
    ensures !(Listed(s, c) && !s.IsClosed()) && !AtServer(s, c) && !Held(s.recv, c) && !InTodo(s, c)
    ensures var k := s.calls[c]; k.releases == 0 && k.got == [] && !k.timeout && (k.pc.Adding? <==> k.stream > 0)
  {
    hide Local, Placed, ServerOk;
    assert CallOk(s, c);
    Unregistered(s.calls[c], c, Listed(s, c) && !s.IsClosed(),
                 AtServer(s, c), Held(s.recv, c), InTodo(s, c), s.IsClosed());
  }

  lemma AddingOk(c: nat, stream: nat, closed: bool)
    requires stream > 0
    ensures Local(Call(Adding, stream, false, [], 0), c, closed)
    ensures Placed(Call(Adding, stream, false, [], 0), false, false, false, false, closed)
    ensures Local(Call(Done, stream, false, [], 0), c, closed)
    ensures Placed(Call(Done, stream, false, [], 0), false, false, false, false, closed)
    ensures Local(Call(Building, stream, false, [], 0), c, false)
    ensures Placed(Call(Building, stream, false, [], 0), true, false, false, false, false)
  {
  }

  /** Nobody is registered on a stream that is not in use. */
  lemma FreeStream(s: State, stream: nat)
    requires Inv(s) && stream !in s.used
    ensures stream !in s.holder && (!s.IsClosed() ==> stream !in s.table)
    ensures forall d :: d in s.calls && Owns(s.calls[d]) ==> s.calls[d].stream != stream
  {
    hide Local, Placed, ServerOk, TableOk;
    if !s.IsClosed() && stream in s.table {
      TableOwner(s, stream);
    }
    forall d | d in s.calls && Owns(s.calls[d])
      ensures s.calls[d].stream != stream
    {
      assert CallOk(s, d);
    }
  }

  lemma GetStreamTable(s: State, c: nat, stream: nat)
    requires Inv(s) && Enabled(s, GetStream(c, stream))
    ensures TableOk(Step(s, GetStream(c, stream)))
  {
    hide CallsOk, ServerOk, RecvOk, TodoOk, StreamsOk;
    forall st | !s.IsClosed() && st in s.table
      ensures s.table[st] != c
    {
      TableOwner(s, st);
      if s.table[st] == c {
        StartHasNoStream(s, c);
      }
    }
  }

  lemma GetStreamStreams(s: State, c: nat, stream: nat)
    requires Inv(s) && Enabled(s, GetStream(c, stream))
    ensures StreamsOk(Step(s, GetStream(c, stream)))
  {
    hide CallsOk, ServerOk, RecvOk, TodoOk, TableOk;
    UnregisteredCall(s, c);
  }

  lemma StartHasNoStream(s: State, c: nat)
    requires Inv(s) && At(s, c, Start)
    ensures s.calls[c].stream == 0
  {
    assert CallOk(s, c);
  }

  /** The stream compare-and-swap: nobody owns the stream it takes. */
  lemma GetStreamInv(s: State, c: nat, stream: nat)
    requires Inv(s) && Enabled(s, GetStream(c, stream))
    ensures Inv(Step(s, GetStream(c, stream)))
  {
    hide Local, Placed, ServerOk, StreamsOk, TableOk;
    UnregisteredCall(s, c);
    GetStreamStreams(s, c, stream);
    GetStreamTable(s, c, stream);
    FreeStream(s, stream);
    var s' := Step(s, GetStream(c, stream));
    assert s'.calls.Keys == s.calls.Keys;
    forall d | d in s'.calls
      ensures CallOk(s', d)
    {
      assert CallOk(s, d);
      if d != c {
        Frames(s, s', d);
      } else {
        AddingOk(c, stream, s.IsClosed());
      }
    }
  }

  /** addCall never finds another call on its stream. */
  lemma AddCallInv(s: State, c: nat)
    requires Inv(s) && Enabled(s, AddCall(c))
    ensures Inv(Step(s, AddCall(c)))
    ensures !s.IsClosed() ==> At(Step(s, AddCall(c)), c, Building)
  {
    hide Local, Placed, ServerOk, StreamsOk;
    UnregisteredCall(s, c);
    assert CallOk(s, c);
    var k := s.calls[c];
    AddingOk(c, k.stream, s.IsClosed());
    if s.IsClosed() {
      CallerMoves(s, c, k.(pc := Done));
    } else {
      if k.stream in s.table {
        TableOwner(s, k.stream);
      }
      var s' := Step(s, AddCall(c));
      assert s'.calls.Keys == s.calls.Keys;
      assert StreamsOk(s') by { StreamsStay(s, s'); }
      forall d | d in s'.calls
        ensures CallOk(s', d)
      {
        assert CallOk(s, d);
        if d != c {
          Frames(s, s', d);
        }
      }
    }
  }

  lemma SentOk(k: Call, c: nat, listed: bool, held: bool, todo: bool, atServer: bool, closed: bool)
    requires k.pc.Writing? && Local(k, c, closed) && Placed(k, listed, atServer, held, todo, closed)
    ensures Local(k.(pc := Written), c, closed) && Placed(k.(pc := Written), listed, true, held, todo, closed)
    ensures !atServer
  {
  }

  lemma SendInv(s: State, c: nat)
    requires Inv(s) && Enabled(s, Send(c))
    ensures Inv(Step(s, Send(c)))
  {
    hide Local, Placed, StreamsOk;
    var s' := Step(s, Send(c));
    assert StreamsOk(s') by { StreamsStay(s, s'); }
    assert CallOk(s, c);
    SentOk(s.calls[c], c, Listed(s, c) && !s.IsClosed(), Held(s.recv, c), InTodo(s, c), AtServer(s, c), s.IsClosed());
    forall d | d in s'.calls
      ensures CallOk(s', d)
    {
      assert CallOk(s, d);
      assert Listed(s', d) == Listed(s, d);
      if d != c {
        Frames(s, s', d);
      }
    }
  }

  lemma DroppedOk(k: Call, c: nat, listed: bool, atServer: bool, held: bool, todo: bool, closed: bool)
    requires k.pc.Dropping? && Local(k, c, closed) && Placed(k, listed, atServer, held, todo, closed)
    ensures Local(k.(pc := Releasing), c, closed) && Placed(k.(pc := Releasing), false, atServer, held, todo, closed)
    ensures Owns(k)
  {
  }

  /** On an open connection the call leaves the table; the other calls there have other streams. */
  lemma DropOpenInv(s: State, c: nat)
    requires Inv(s) && Enabled(s, Drop(c)) && !s.IsClosed() && Owns(s.calls[c])
    requires Local(s.calls[c].(pc := Releasing), c, false)
    requires Placed(s.calls[c].(pc := Releasing), false, AtServer(s, c), Held(s.recv, c), false, false)
    ensures Inv(Step(s, Drop(c)))
  {
    hide Local, Placed, ServerOk, StreamsOk;
    var s' := Step(s, Drop(c));
    assert s'.calls.Keys == s.calls.Keys;
    assert StreamsOk(s') by { StreamsStay(s, s'); }
    forall d | d in s'.calls
      ensures CallOk(s', d)
    {
      assert CallOk(s, d);
      if d != c {
        if Listed(s, d) {
          TableOwner(s, s.calls[d].stream);
          OwnersDiffer(s, c, d);
        }
        Frames(s, s', d);
      }
    }
  }

  lemma DropInv(s: State, c: nat)
    requires Inv(s) && Enabled(s, Drop(c))
    ensures Inv(Step(s, Drop(c)))
  {
    hide Local, Placed, ServerOk, StreamsOk, TableOk;
    assert CallOk(s, c);
    var k := s.calls[c];
    DroppedOk(k, c, Listed(s, c) && !s.IsClosed(), AtServer(s, c), Held(s.recv, c), InTodo(s, c), s.IsClosed());
    if s.IsClosed() {
      CallerMoves(s, c, k.(pc := Releasing));
    } else {
      DropOpenInv(s, c);
    }
  }

  /** Releasing the stream of a call that owns it and that nobody will answer. */
  lemma ReleaseInv(s: State, c: nat, pc: Pc)
    requires Inv(s) && c in s.calls && Owns(s.calls[c])
    requires Local(s.calls[c].(pc := pc, releases := 1), c, s.IsClosed())
    requires !(Listed(s, c) && !s.IsClosed()) && !AtServer(s, c)
    requires Placed(s.calls[c].(pc := pc, releases := 1), false, false, false, InTodo(s, c), s.IsClosed())
    requires s.recv.Reading? || !Held(s.recv, c)
    ensures Inv(ReleaseStream(s, c, pc))
  {
    hide Local, Placed, ServerOk;
    var s' := ReleaseStream(s, c, pc);
    assert s'.calls.Keys == s.calls.Keys;
    assert CallOk(s, c);
    forall d | d in s'.calls
      ensures CallOk(s', d)
    {
      assert CallOk(s, d);
      if d != c {
        if Owns(s.calls[d]) {
          OwnersDiffer(s, c, d);
        }
        Frames(s, s', d);
      }
    }
  }

  lemma ReleasingOk(k: Call, c: nat, listed: bool, atServer: bool, held: bool, todo: bool, closed: bool)
    requires k.pc.Releasing? && Local(k, c, closed) && Placed(k, listed, atServer, held, todo, closed)
    ensures Owns(k) && !listed && !atServer && !held
    ensures Local(k.(pc := Done, releases := 1), c, closed)
    ensures Placed(k.(pc := Done, releases := 1), false, false, false, todo, closed)
  {
  }

  lemma CallerReleaseInv(s: State, c: nat)
    requires Inv(s) && Enabled(s, Release(c))
    ensures s.calls[c].releases == 0
    ensures Inv(Step(s, Release(c)))
  {
    hide Local, Placed, ServerOk;
    assert CallOk(s, c);
    ReleasingOk(s.calls[c], c, Listed(s, c) && !s.IsClosed(),
                AtServer(s, c), Held(s.recv, c), InTodo(s, c), s.IsClosed());
    ReleaseInv(s, c, Done);
  }

  // ---------------------------------------------------------------- the server and the receiver

  lemma AnswerInv(s: State, r: nat)
    requires Inv(s) && r in s.pending
    ensures Inv(Step(s, Answer(r)))
  {
    hide Local, Placed;
    var s' := Step(s, Answer(r));
    forall d | d in s'.calls
      ensures CallOk(s', d)
    {
      assert CallOk(s, d);
      Frames(s, s', d);
    }
  }

  lemma ReadHeaderInv(s: State)
    requires Inv(s) && CanReceive(s, ReadHeader)
    ensures Inv(RecvStep(s, ReadHeader))
  {
    hide Local, Placed;
    var s' := RecvStep(s, ReadHeader);
    assert s.wire == [s.wire[0]] + s.wire[1..];
    forall d | d in s'.calls
      ensures CallOk(s', d)
    {
      assert CallOk(s, d);
      Frames(s, s', d);
    }
  }

  /** The receiver lets go of what it had: the call is nowhere any more. */
  lemma LetGoOk(k: Call, c: nat, listed: bool, atServer: bool, held: bool, todo: bool, closed: bool)
    requires Local(k, c, closed) && Placed(k, listed, atServer, held, todo, closed)
    ensures Placed(k, listed, atServer, false, todo, closed)
    ensures closed ==> Placed(k, false, false, held, todo, closed)
  {
  }

  lemma LetGoInv(s: State, recv: Receiver)
    requires Inv(s) && !s.recv.Looked?
    requires recv.Reading? || recv.Failed? || (recv.Stopped? && s.recv.Failed?)
    ensures Inv(s.(recv := recv))
  {
    hide Local, Placed;
    var s' := s.(recv := recv);
    forall d | d in s'.calls
      ensures CallOk(s', d)
    {
      assert CallOk(s, d);
      assert Listed(s', d) == Listed(s, d) && AtServer(s', d) == AtServer(s, d);
      LetGoOk(s.calls[d], d, Listed(s, d) && !s.IsClosed(),
              AtServer(s, d), Held(s.recv, d), InTodo(s, d), s.IsClosed());
    }
  }

  /** A request on its way in is the call registered on its stream. */
  lemma LookupFinds(s: State)
    requires Inv(s) && s.recv.Looked? && !s.IsClosed()
    ensures var r := s.recv.request; r in s.calls && Listed(s, r)
  {
    hide Local;
    assert CallOk(s, s.recv.request);
    assert AtServer(s, s.recv.request);
  }

  lemma TakenOk(k: Call, c: nat, held: bool, todo: bool)
    requires Local(k, c, false) && Placed(k, true, true, held, todo, false)
    ensures !todo ==> Placed(k, false, false, true, todo, false)
    ensures !held && Owns(k)
  {
  }

  lemma LookupClosedInv(s: State)
    requires Inv(s) && CanReceive(s, Lookup) && s.IsClosed()
    ensures Inv(RecvStep(s, Lookup))
  {
    hide Local, Placed;
    var s' := RecvStep(s, Lookup);
    var r := s.recv.request;
    forall d | d in s'.calls
      ensures CallOk(s', d)
    {
      assert CallOk(s, d);
      if d == r {
        LetGoOk(s.calls[d], d, false, AtServer(s, d), Held(s.recv, d), InTodo(s, d), true);
        assert !AtServer(s', d);
      } else {
        Frames(s, s', d);
      }
    }
  }

  lemma LookupOpenInv(s: State)
    requires Inv(s) && CanReceive(s, Lookup) && !s.IsClosed()
    ensures Inv(RecvStep(s, Lookup))
    ensures RecvStep(s, Lookup).recv == Holding(s.recv.request, s.recv.request)
  {
    hide Local, Placed, StreamsOk;
    var s' := RecvStep(s, Lookup);
    var r := s.recv.request;
    LookupFinds(s);
    assert StreamsOk(s') by { StreamsStay(s, s'); }
    assert CallOk(s, r);
    TakenOk(s.calls[r], r, Held(s.recv, r), InTodo(s, r));
    forall d | d in s'.calls
      ensures CallOk(s', d)
    {
      assert CallOk(s, d);
      if d != r {
        if Listed(s, d) {
          TableOwner(s, s.calls[d].stream);
          OwnersDiffer(s, r, d);
        }
        Frames(s, s', d);
      }
    }
  }

  lemma LookupInv(s: State)
    requires Inv(s) && CanReceive(s, Lookup)
    ensures Inv(RecvStep(s, Lookup))
    ensures !s.IsClosed() ==> RecvStep(s, Lookup).recv == Holding(s.recv.request, s.recv.request)
  {
    hide Inv, RecvStep;
    if s.IsClosed() {
      LookupClosedInv(s);
    } else {
      LookupOpenInv(s);
    }
  }

  lemma DeliveredOk(k: Call, c: nat, m: Msg, listed: bool, atServer: bool, todo: bool, closed: bool)
    requires k.pc.Waiting? && Local(k, c, closed) && Placed(k, listed, atServer, true, todo, closed)
    requires !m.ConnError? && m.request == c
    ensures !atServer && !listed && !todo
    ensures Local(k.(pc := Got(m), got := k.got + [m]), c, closed)
    ensures Placed(k.(pc := Got(m), got := k.got + [m]), false, false, false, false, closed)
  {
  }

  /** The response handed to a caller answers that caller's own request. */
  lemma DeliverInv(s: State)
    requires Inv(s) && CanReceive(s, Deliver)
    ensures s.recv.msg.request == s.recv.call
    ensures Inv(RecvStep(s, Deliver))
  {
    hide Local, Placed, ServerOk, StreamsOk;
    var s' := RecvStep(s, Deliver);
    assert StreamsOk(s') by { StreamsStay(s, s'); }
    var c := s.recv.call;
    assert s'.calls.Keys == s.calls.Keys;
    assert CallOk(s, c);
    DeliveredOk(s.calls[c], c, s.recv.msg, Listed(s, c) && !s.IsClosed(), AtServer(s, c), InTodo(s, c), s.IsClosed());
    ServerWithout(s.calls.Keys, s.pending, s.wire, s.recv, Reading);
    forall d | d in s'.calls
      ensures CallOk(s', d)
    {
      assert CallOk(s, d);
      if d != c {
        Frames(s, s', d);
      } else {
        assert !AtServer(s', d);
      }
    }
  }

  lemma ServerWithout(known: set<nat>, pending: set<nat>, wire: seq<nat>, recv: Receiver, recv': Receiver)
    requires ServerOk(known, pending, wire, recv) && !recv'.Looked?
    ensures ServerOk(known, pending, wire, recv')
  {
  }

  lemma FreedOk(k: Call, c: nat, listed: bool, atServer: bool, todo: bool, closed: bool)
    requires k.timeout && Local(k, c, closed) && Placed(k, listed, atServer, true, todo, closed)
    ensures Owns(k) && !atServer && !listed && !todo
    ensures Local(k.(releases := 1), c, closed)
    ensures Placed(k.(releases := 1), false, false, false, false, closed)
  {
  }

  /** The late response of a call that gave up: its stream is free again only now. */
  lemma FreeInv(s: State)
    requires Inv(s) && CanReceive(s, Free)
    ensures s.calls[s.recv.call].releases == 0
    ensures Inv(RecvStep(s, Free))
  {
    hide Local, Placed, ServerOk;
    var c := s.recv.call;
    assert CallOk(s, c);
    FreedOk(s.calls[c], c, Listed(s, c) && !s.IsClosed(), AtServer(s, c), InTodo(s, c), s.IsClosed());
    LetGoInv(s, Reading);
    ReleaseInv(s.(recv := Reading), c, s.calls[c].pc);
  }

  lemma HoldInv(s: State, recv: Receiver)
    requires Inv(s)
    requires || (recv.Offering? && s.recv.Holding? && recv.call == s.recv.call
                 && !recv.msg.ConnError? && recv.msg.request == s.recv.call)
             || (recv.Freeing? && s.recv.Offering? && recv.call == s.recv.call
                 && recv.call in s.calls && s.calls[recv.call].timeout)
    ensures Inv(s.(recv := recv))
  {
    hide Local, Placed;
    var s' := s.(recv := recv);
    forall d | d in s'.calls
      ensures CallOk(s', d)
    {
      assert CallOk(s, d);
      Frames(s, s', d);
    }
  }

  // ---------------------------------------------------------------- closing

  /** Closing takes every registered call over into the list to notify. */
  lemma ClosedOk(k: Call, c: nat, listed: bool, atServer: bool, held: bool)
    requires Local(k, c, false) && Placed(k, listed, atServer, held, false, false)
    ensures Local(k, c, true)
    ensures Placed(k, false, atServer, held, listed, true)
    ensures Placed(k, false, atServer, held, false, true)
  {
  }

  lemma StartCloseInv(s: State)
    requires Inv(s)
    ensures Inv(StartClose(s))
    ensures StartClose(s).IsClosed()
  {
    hide Local, Placed, ServerOk;
    var s' := StartClose(s);
    if !s.IsClosed() {
      forall d | d in s'.calls
        ensures CallOk(s', d)
      {
        assert CallOk(s, d);
        assert InTodo(s', d) <==> Listed(s, d);
        assert AtServer(s', d) == AtServer(s, d);
        ClosedOk(s.calls[d], d, Listed(s, d), AtServer(s, d), Held(s.recv, d));
      }
    }
  }

  lemma CloseNilInv(s: State)
    requires Inv(s)
    ensures Inv(CloseStep(s, CloseNil))
  {
    hide Local, Placed, ServerOk;
    var s' := CloseStep(s, CloseNil);
    if !s.IsClosed() {
      forall d | d in s'.calls
        ensures CallOk(s', d)
      {
        assert CallOk(s, d);
        assert AtServer(s', d) == AtServer(s, d);
        ClosedOk(s.calls[d], d, Listed(s, d), AtServer(s, d), Held(s.recv, d));
      }
    }
  }

  lemma ClosingDoneOk(k: Call, c: nat, listed: bool, atServer: bool, held: bool, todo: bool, closed: bool)
    requires k.pc.Closing? && Local(k, c, closed) && Placed(k, listed, atServer, held, todo, closed)
    ensures Local(k.(pc := Done), c, closed) && Placed(k.(pc := Done), listed, atServer, held, todo, closed)
  {
  }

  lemma CallerClosesInv(s: State, c: nat)
    requires Inv(s) && CanClose(s, CallerCloses(c))
    ensures Inv(CloseStep(s, CallerCloses(c)))
  {
    hide Local, Placed, ServerOk;
    StartCloseInv(s);
    var s1 := StartClose(s);
    assert CallOk(s1, c);
    ClosingDoneOk(s1.calls[c], c, Listed(s1, c) && !s1.IsClosed(),
                  AtServer(s1, c), Held(s1.recv, c), InTodo(s1, c), s1.IsClosed());
    CallerMoves(s1, c, s1.calls[c].(pc := Done));
  }

  lemma NotifiedOk(k: Call, c: nat, atServer: bool, held: bool)
    requires k.pc.Waiting? && Local(k, c, true) && Placed(k, false, atServer, held, true, true)
    ensures !held
    ensures Local(k.(pc := Got(ConnError), got := k.got + [ConnError]), c, true)
    ensures Placed(k.(pc := Got(ConnError), got := k.got + [ConnError]), false, atServer, false, false, true)
  {
  }

  lemma NotifyInv(s: State, c: nat)
    requires Inv(s) && CanClose(s, Notify(c))
    ensures Inv(CloseStep(s, Notify(c)))
  {
    hide Local, Placed, ServerOk, StreamsOk;
    var s' := CloseStep(s, Notify(c));
    assert StreamsOk(s') by { StreamsStay(s, s'); }
    assert s'.calls.Keys == s.calls.Keys;
    assert CallOk(s, c);
    NotifiedOk(s.calls[c], c, AtServer(s, c), Held(s.recv, c));
    forall d | d in s'.calls
      ensures CallOk(s', d)
    {
      assert CallOk(s, d);
      assert AtServer(s', d) == AtServer(s, d);
      if d != c {
        Frames(s, s', d);
      }
    }
  }

  lemma TodoDropOk(k: Call, c: nat, listed: bool, atServer: bool, held: bool, todo: bool)
    requires Local(k, c, true) && Placed(k, listed, atServer, held, todo, true)
    ensures Placed(k, listed, atServer, held, false, true)
  {
  }

  /** Dropping calls from the list to notify, down to the end of closeWithError. */
  lemma TodoShrinks(s: State, closer: Closer, done: bool, stalled: set<nat>)
    requires Inv(s) && s.IsClosed() && !closer.NotClosed?
    requires closer.Notifying? ==> s.closer.Notifying? && closer.todo <= s.closer.todo
    ensures Inv(s.(closer := closer, ctxDone := done, stalled := stalled))
  {
    hide Local, Placed, ServerOk;
    var s' := s.(closer := closer, ctxDone := done, stalled := stalled);
    forall d | d in s'.calls
      ensures CallOk(s', d)
    {
      assert CallOk(s, d);
      assert AtServer(s', d) == AtServer(s, d);
      TodoDropOk(s.calls[d], d, false, AtServer(s, d), Held(s.recv, d), InTodo(s, d));
    }
  }

  /** A cancelled context, a write held up or let go: no call's place depends on them. */
  lemma OutsideInv(s: State, done: bool, stalled: set<nat>)
    requires Inv(s)
    ensures Inv(s.(ctxDone := done, stalled := stalled))
  {
    hide Local, Placed, ServerOk;
    var s' := s.(ctxDone := done, stalled := stalled);
    forall d | d in s'.calls
      ensures CallOk(s', d)
    {
      assert CallOk(s, d);
      Frames(s, s', d);
    }
  }

  // ---------------------------------------------------------------- every step

  lemma CloseInv(s: State, m: CloseMove)
    requires Inv(s) && CanClose(s, m)
    ensures Inv(CloseStep(s, m))
  {
    hide Inv;
    match m
    case CallerCloses(c) => CallerClosesInv(s, c);
    case OtherCloses => StartCloseInv(s);
    case CloseNil => CloseNilInv(s);
    case Notify(c) => NotifyInv(s, c);
    case Skip(c) => TodoShrinks(s, Notifying(s.closer.todo - {c}), s.ctxDone, s.stalled);
    case Cancel => TodoShrinks(s, Closed, true, {});
    case ParentCancelled => OutsideInv(s, true, s.stalled);
  }

  lemma RecvInv(s: State, m: RecvMove)
    requires Inv(s) && CanReceive(s, m)
    ensures Inv(RecvStep(s, m))
  {
    hide CallsOk, ServerOk, StreamsOk, TableOk;
    match m
    case ReadHeader => ReadHeaderInv(s);
    case ReadFails => LetGoInv(s, Failed);
    case Lookup => LookupInv(s);
    case ReadBody(msg) => HoldInv(s, Offering(s.recv.call, msg));
    case BodyFails => LetGoInv(s, Failed);
    case Deliver => DeliverInv(s);
    case SeeTimeout => HoldInv(s, Freeing(s.recv.call));
    case SeeDone => LetGoInv(s, Reading);
    case Free => FreeInv(s);
    case ReceiverCloses =>
      StartCloseInv(s);
      LetGoInv(StartClose(s), Stopped);
  }

  lemma StepInv(s: State, a: Action)
    requires Inv(s) && Enabled(s, a)
    ensures Inv(Step(s, a))
  {
    hide Inv;
    match a
    case Exec(c) => ExecInv(s, c);
    case GetStream(c, stream) => GetStreamInv(s, c, stream);
    case AddCall(c) => AddCallInv(s, c);
    case Own(c, m) => OwnInv(s, c, m);
    case Send(c) => SendInv(s, c);
    case Release(c) => CallerReleaseInv(s, c);
    case Drop(c) => DropInv(s, c);
    case Answer(r) => AnswerInv(s, r);
    case Recv(m) => RecvInv(s, m);
    case Close(m) => CloseInv(s, m);
    case Socket(m) => OutsideInv(s, s.ctxDone, if m.Stall? then s.stalled + {m.c} else {});
  }
}
