/** Server and client of one stream running at the same time, joined by the channel: every interleaving of
    their steps, with producers that may never end. Complements Relays, where the server runs to its end first. */
module RelayMachine {
  import opened Outcomes
  import opened Sinks
  import opened Adapters
  import opened ServerLoop
  import opened ClientLoop
  import opened Relays

  /** Everything the machine does not control. */
  datatype Setting<!E, !P> = Setting(
    source: nat -> Resumption<E>,
    enc: E -> Result<P>,
    dec: P -> Result<E>,
    sink: Behaviour<P>,
    wants: Appetite<E>)

  datatype LoopState = Running | Returned(err: Option<Error>)

  /** Where the adapter is once the handler's loop has returned. */
  datatype HandleState = InBody | Reporting(error: Error) | Finished(result: Option<Error>)

  datatype ClientState = Receiving | Ended(ending: Ending)

  datatype State<+E, +P> = State(
    pulled: nat,                    // items taken from the iterator
    calls: seq<SinkCall<P>>,        // the sink's trace
    loop: LoopState,
    handle: HandleState,
    seen: seq<Recv<P>>,             // what Recv has returned
    yielded: seq<Item<E>>,          // what the consumer was given
    client: ClientState)

  /** Who moves: the server, or the client on what the channel does. A move that is not possible changes nothing. */
  datatype Move = ServerMoves | Deliver | ReportEnd | Break(error: Error)

  function Start<E, P>(): State<E, P> {
    State(0, [], Running, InBody, [], [], Receiving)
  }

  /** The adapter after the loop has returned: close, keep the first error, report it. */
  function HandleStep<E, P>(sink: Behaviour<P>, s: State<E, P>): State<E, P> {
    match s.handle
    case Finished(_) => s
    case Reporting(e) => s.(calls := s.calls + [SendError(e)], handle := Finished(Some(e)))
    case InBody =>
      var closed := s.calls + [Close];
      var first := if s.loop.Returned? && s.loop.err.Some? then s.loop.err else sink(closed);
      match first
      case None => s.(calls := closed, handle := Finished(None))
      case Some(e) => s.(calls := closed, handle := Reporting(ToRPCError(e, Internal)))
  }

  /** One round of the loop, on what the iterator did. */
  function LoopStep<E, P>(enc: E -> Result<P>, sink: Behaviour<P>, s: State<E, P>, next: Resumption<E>): State<E, P> {
    match next
    case Ends => s.(loop := Returned(None))
    case Produces(Failure(e)) => s.(pulled := s.pulled + 1, loop := Returned(Some(e)))
    case Produces(Event(v)) =>
      match enc(v)
      case Err(e) => s.(pulled := s.pulled + 1, loop := Returned(Some(e)))
      case Ok(p) =>
        var sent := s.calls + [Send(p)];
        match sink(sent)
        case Some(e) => s.(pulled := s.pulled + 1, calls := sent, loop := Returned(Some(e)))
        case None => s.(pulled := s.pulled + 1, calls := sent)
  }

  function ServerStep<E, P>(c: Setting<E, P>, s: State<E, P>): State<E, P> {
    if s.loop.Running? then LoopStep(c.enc, c.sink, s, c.source(s.pulled)) else HandleStep(c.sink, s)
  }

  /** The channel delivers the messages in order. It may report the end or break at any time. */
  function ClientStep<E, P>(c: Setting<E, P>, s: State<E, P>, m: Move): State<E, P> {
    if s.client.Ended? then s
    else
      match m
      case ServerMoves => s
      case ReportEnd => s.(seen := s.seen + [EndOfStream], client := Ended(Drained))
      case Break(e) => s.(seen := s.seen + [RecvError(e)], yielded := s.yielded + [Failure(e)],
          client := Ended(RecvFailed))
      case Deliver =>
        var sent := Sends(s.calls);
        if |s.seen| >= |sent| then s
        else
          var p := sent[|s.seen|];
          match c.dec(p)
          case Err(e) => s.(seen := s.seen + [Response(p)], yielded := s.yielded + [Failure(e)],
              client := Ended(DecodeFailed))
          case Ok(v) =>
            var now := s.yielded + [Event(v)];
            s.(seen := s.seen + [Response(p)], yielded := now,
               client := if c.wants(now) then Receiving else Ended(ConsumerStopped))
  }

  function Step<E, P>(c: Setting<E, P>, s: State<E, P>, m: Move): State<E, P> {
    if m.ServerMoves? then ServerStep(c, s) else ClientStep(c, s, m)
  }

  /** The state after a schedule; every reachable state is one of these. */
  function Exec<E, P>(c: Setting<E, P>, moves: seq<Move>): State<E, P>
    decreases |moves|
  {
    if moves == [] then Start() else Step(c, Exec(c, moves[..|moves| - 1]), moves[|moves| - 1])
  }

  // ---------- the invariant ----------

  /** A server that has taken these items is where the loop over them puts it, and what its adapter still has
      to do leads to the outcome of the whole call on these items. */
  ghost predicate ServerOn<E, P>(items: seq<Item<E>>, enc: E -> Result<P>, sink: Behaviour<P>, s: State<E, P>) {
    var r := Loop(items, enc, sink, []);
    && r.pulled == s.pulled == |items|
    && r.err == (if s.loop.Returned? then s.loop.err else None)
    && (s.loop.Running? ==> s.handle.InBody?)
    && var end := Finish(Outcome(r.calls, r.err), sink);
       match s.handle
       case InBody => s.calls == r.calls
       case Reporting(e) => s.calls == r.calls + [Close] && end == Outcome(s.calls + [SendError(e)], Some(e))
       case Finished(result) => end == Outcome(s.calls, result)
  }

  ghost predicate ServerInv<E, P>(c: Setting<E, P>, s: State<E, P>) {
    && Alive(c.source, s.pulled)
    && ServerOn(Taken(c.source, s.pulled), c.enc, c.sink, s)
    && (s.loop == Returned(None) ==> c.source(s.pulled).Ends?)
  }

  /** What was received are the first messages sent, and the consumer was given what the iterator's contract says. */
  ghost predicate ClientInv<E, P>(c: Setting<E, P>, s: State<E, P>) {
    var sent := Sends(s.calls);
    && (forall i :: 0 <= i < |s.seen| - 1 ==> s.seen[i].Response?)
    && (forall i :: 0 <= i < |s.seen| && s.seen[i].Response? ==> i < |sent| && s.seen[i].message == sent[i])
    && match s.client
       case Ended(ending) => IsClientRun(s.seen, c.dec, c.wants, [], ClientRun(s.yielded, |s.seen|, ending))
       case Receiving =>
         && |s.yielded| == |s.seen|
         && (forall i :: 0 <= i < |s.seen| ==> Decodes(s.seen[i], c.dec, s.yielded[i]) && s.yielded[i].Event?)
         && Wanted(c.wants, [], s.yielded, |s.yielded|)
  }

  lemma SendsGrow<P>(calls: seq<SinkCall<P>>, call: SinkCall<P>)
    ensures Sends(calls) <= Sends(calls + [call])
  {
    SendsSnoc(calls, call);
  }

  lemma LoopStepKeepsServer<E, P>(items: seq<Item<E>>, enc: E -> Result<P>, sink: Behaviour<P>,
    s: State<E, P>, next: Resumption<E>)
    requires ServerOn(items, enc, sink, s) && s.loop.Running?
    ensures var t := LoopStep(enc, sink, s, next);
            var now := if next.Produces? then items + [next.item] else items;
            && ServerOn(now, enc, sink, t)
            && (t.loop.Running? <==> next.Produces? && Loop(now, enc, sink, []).err.None?)
  {
    if next.Produces? {
      LoopAppend(items, [next.item], enc, sink, []);
    }
  }

  lemma HandleStepKeepsServer<E, P>(items: seq<Item<E>>, enc: E -> Result<P>, sink: Behaviour<P>, s: State<E, P>)
    requires ServerOn(items, enc, sink, s) && s.loop.Returned?
    ensures ServerOn(items, enc, sink, HandleStep(sink, s))
  {
  }

  lemma ServerStepKeepsServer<E, P>(c: Setting<E, P>, s: State<E, P>)
    requires ServerInv(c, s)
    ensures ServerInv(c, ServerStep(c, s))
  {
    var items := Taken(c.source, s.pulled);
    if s.loop.Running? {
      LoopStepKeepsServer(items, c.enc, c.sink, s, c.source(s.pulled));
      if c.source(s.pulled).Produces? {
        assert Taken(c.source, s.pulled + 1) == items + [c.source(s.pulled).item];
      }
    } else {
      HandleStepKeepsServer(items, c.enc, c.sink, s);
    }
  }

  /** The client's invariant only looks at the messages sent so far. */
  lemma MoreSendsKeepClient<E, P>(c: Setting<E, P>, s: State<E, P>, t: State<E, P>)
    requires ClientInv(c, s)
    requires t.seen == s.seen && t.yielded == s.yielded && t.client == s.client && Sends(s.calls) <= Sends(t.calls)
    ensures ClientInv(c, t)
  {
  }

  lemma ServerStepAddsCalls<E, P>(c: Setting<E, P>, s: State<E, P>)
    ensures var t := ServerStep(c, s);
            && t.seen == s.seen && t.yielded == s.yielded && t.client == s.client
            && (t.calls == s.calls || (|t.calls| > |s.calls| && t.calls == s.calls + [t.calls[|s.calls|]]))
  {
  }

  lemma ServerStepKeepsClient<E, P>(c: Setting<E, P>, s: State<E, P>)
    requires ClientInv(c, s)
    ensures ClientInv(c, ServerStep(c, s))
  {
    var t := ServerStep(c, s);
    ServerStepAddsCalls(c, s);
    if t.calls != s.calls {
      SendsGrow(s.calls, t.calls[|s.calls|]);
    }
    MoreSendsKeepClient(c, s, t);
  }

  /** One more reception and the yield it gave, with the iteration going on. */
  lemma ReceptionKeepsClient<E, P>(c: Setting<E, P>, s: State<E, P>, p: P, item: Item<E>)
    requires ClientInv(c, s) && s.client.Receiving?
    requires |s.seen| < |Sends(s.calls)| && p == Sends(s.calls)[|s.seen|]
    requires Decodes(Response(p), c.dec, item) && item.Event? && c.wants(s.yielded + [item])
    ensures ClientInv(c, s.(seen := s.seen + [Response(p)], yielded := s.yielded + [item]))
  {
    WantedSnoc(c.wants, s.yielded, item);
  }

  lemma WantedSnoc<E>(wants: Appetite<E>, yielded: seq<Item<E>>, item: Item<E>)
    requires Wanted(wants, [], yielded, |yielded|)
    ensures Wanted(wants, [], yielded + [item], |yielded|)
    ensures wants(yielded + [item]) ==> Wanted(wants, [], yielded + [item], |yielded| + 1)
  {
    var now := yielded + [item];
    assert [] + now == now == now[..|now|];
    forall k | 0 < k <= |yielded| ensures wants([] + now[..k]) {
      assert now[..k] == yielded[..k];
    }
  }

  /** A last reception and the yield it gave. */
  lemma LastReceptionKeepsClient<E, P>(c: Setting<E, P>, s: State<E, P>, r: Recv<P>, item: Item<E>, ending: Ending)
    requires ClientInv(c, s) && s.client.Receiving?
    requires r.Response? ==> |s.seen| < |Sends(s.calls)| && r.message == Sends(s.calls)[|s.seen|]
    requires match ending
             case Drained => false
             case RecvFailed => r.RecvError? && item == Failure(r.error)
             case DecodeFailed => Decodes(r, c.dec, item) && item.Failure?
             case ConsumerStopped => Decodes(r, c.dec, item) && item.Event? && !c.wants(s.yielded + [item])
    ensures ClientInv(c, s.(seen := s.seen + [r], yielded := s.yielded + [item], client := Ended(ending)))
  {
    WantedSnoc(c.wants, s.yielded, item);
    assert [] + (s.yielded + [item]) == s.yielded + [item];
  }

  lemma EndKeepsClient<E, P>(c: Setting<E, P>, s: State<E, P>)
    requires ClientInv(c, s) && s.client.Receiving?
    ensures ClientInv(c, s.(seen := s.seen + [EndOfStream], client := Ended(Drained)))
  {
    assert [] + s.yielded == s.yielded == s.yielded[..|s.yielded|];
  }

  lemma ClientStepKeepsClient<E, P>(c: Setting<E, P>, s: State<E, P>, m: Move)
    requires ClientInv(c, s)
    ensures ClientInv(c, ClientStep(c, s, m))
  {
    if s.client.Receiving? {
      match m
      case ServerMoves =>
      case ReportEnd => EndKeepsClient(c, s);
      case Break(e) => LastReceptionKeepsClient(c, s, RecvError(e), Failure(e), RecvFailed);
      case Deliver =>
        var sent := Sends(s.calls);
        if |s.seen| < |sent| {
          var p := sent[|s.seen|];
          match c.dec(p)
          case Err(e) => LastReceptionKeepsClient(c, s, Response(p), Failure(e), DecodeFailed);
          case Ok(v) =>
            if c.wants(s.yielded + [Event(v)]) {
              ReceptionKeepsClient(c, s, p, Event(v));
            } else {
              LastReceptionKeepsClient(c, s, Response(p), Event(v), ConsumerStopped);
            }
        }
    }
  }

  lemma ClientStepLeavesServer<E, P>(c: Setting<E, P>, s: State<E, P>, m: Move)
    ensures var t := ClientStep(c, s, m);
            t.pulled == s.pulled && t.calls == s.calls && t.loop == s.loop && t.handle == s.handle
  {
  }

  lemma SameServer<E, P>(items: seq<Item<E>>, enc: E -> Result<P>, sink: Behaviour<P>, s: State<E, P>, t: State<E, P>)
    requires ServerOn(items, enc, sink, s)
    requires t.pulled == s.pulled && t.calls == s.calls && t.loop == s.loop && t.handle == s.handle
    ensures ServerOn(items, enc, sink, t)
  {
  }

  ghost predicate Inv<E, P>(c: Setting<E, P>, s: State<E, P>) {
    ServerInv(c, s) && ClientInv(c, s)
  }

  lemma StepKeepsInv<E, P>(c: Setting<E, P>, s: State<E, P>, m: Move)
    requires Inv(c, s)
    ensures Inv(c, Step(c, s, m))
  {
    if m.ServerMoves? {
      ServerStepKeepsServer(c, s);
      ServerStepKeepsClient(c, s);
    } else {
      ClientStepLeavesServer(c, s, m);
      SameServer(Taken(c.source, s.pulled), c.enc, c.sink, s, ClientStep(c, s, m));
      ClientStepKeepsClient(c, s, m);
    }
  }

  lemma StartInv<E, P>(c: Setting<E, P>)
    ensures Inv(c, Start())
  {
  }

  /** The invariant holds in every reachable state. */
  lemma {:induction false} Reachable<E, P>(c: Setting<E, P>, moves: seq<Move>)
    ensures Inv(c, Exec(c, moves))
    decreases |moves|
  {
    if moves == [] {
      StartInv(c);
    } else {
      Reachable(c, moves[..|moves| - 1]);
      StepKeepsInv(c, Exec(c, moves[..|moves| - 1]), moves[|moves| - 1]);
    }
  }

  // ---------- what follows ----------

  /** The sends on the trace are the encodings of the first items taken. */
  lemma SentItems<E, P>(items: seq<Item<E>>, enc: E -> Result<P>, sink: Behaviour<P>, s: State<E, P>)
    requires ServerOn(items, enc, sink, s)
    ensures var sent := Sends(s.calls);
            && |sent| <= |items|
            && |sent| == |Loop(items, enc, sink, []).calls|
            && forall i :: 0 <= i < |sent| ==> items[i].Event? && enc(items[i].event) == Ok(sent[i])
  {
    var r := Loop(items, enc, sink, []);
    ServerRunSends(items, enc, sink);
    SendsOfFinish(Outcome(r.calls, r.err), sink);
    SendsSnoc(r.calls, Close);
  }

  /** Yields and receptions correspond, and an error ends both. */
  lemma ReceivedItems<E, P>(c: Setting<E, P>, s: State<E, P>)
    requires ClientInv(c, s)
    ensures ErrorsOnlyLast(s.yielded)
    ensures |s.yielded| <= |s.seen| <= |s.yielded| + 1
    ensures forall i :: 0 <= i < |s.yielded| && s.yielded[i].Event? ==>
              i < |Sends(s.calls)| && c.dec(Sends(s.calls)[i]) == Ok(s.yielded[i].event)
  {
    forall i | 0 <= i < |s.yielded| && s.yielded[i].Event? ensures Decodes(s.seen[i], c.dec, s.yielded[i]) {
    }
  }

  /** At every moment of every run, with producers that may never end: the consumer has an in-order prefix of the
      producer's events, each encoded and decoded; an error is the last thing it was given; the events it has
      were all taken from the producer before; and Recv was called once for each yield or once more. */
  lemma AlwaysAPrefix<E, P>(c: Setting<E, P>, moves: seq<Move>)
    ensures var s := Exec(c, moves);
            && ErrorsOnlyLast(s.yielded)
            && |s.yielded| <= |s.seen| <= |s.yielded| + 1
            && forall i :: 0 <= i < |s.yielded| && s.yielded[i].Event? ==>
                 && i < s.pulled && c.source(i).Produces? && c.source(i).item.Event?
                 && c.enc(c.source(i).item.event).Ok?
                 && c.dec(c.enc(c.source(i).item.event).value) == Ok(s.yielded[i].event)
  {
    var s := Exec(c, moves);
    Reachable(c, moves);
    assert ServerInv(c, s) && ClientInv(c, s);
    SentItems(Taken(c.source, s.pulled), c.enc, c.sink, s);
    ReceivedItems(c, s);
  }

  /** No send ever follows Close, in any state: a trace is sends, then perhaps Close, then perhaps one SendError. */
  lemma NothingAfterClose<E, P>(c: Setting<E, P>, moves: seq<Move>)
    ensures var s := Exec(c, moves);
            && (forall i, j :: 0 <= i < j < |s.calls| && s.calls[j].Send? ==> s.calls[i].Send?)
            && (s.handle.Finished? ==> ProtocolShape(s.calls, s.handle.result))
  {
    var s := Exec(c, moves);
    Reachable(c, moves);
    var items := Taken(c.source, s.pulled);
    var r := Loop(items, c.enc, c.sink, []);
    LoopSends(items, c.enc, c.sink);
    assert forall i :: 0 <= i < |r.calls| ==> r.calls[i].Send?;
    if s.handle.Finished? {
      assert ClosesAfter(s.calls, s.handle.result, |r.calls|);
    }
  }

  /** Where the channel was cut: the number of messages delivered, and the error it broke with, if it did. */
  function Cut<E, P>(c: Setting<E, P>, s: State<E, P>): Link<E, P> {
    var broke := s.seen != [] && s.seen[|s.seen| - 1].RecvError?;
    var short := s.seen != [] && !s.seen[|s.seen| - 1].Response?;
    Link(c.enc, c.dec, c.sink, if short then |s.seen| - 1 else |s.seen|,
        if broke then Some(s.seen[|s.seen| - 1].error) else None)
  }

  /** What arrived on the cut channel is what was seen, but for the report of the end. */
  lemma CutIsSeen<E, P>(c: Setting<E, P>, s: State<E, P>)
    requires ClientInv(c, s)
    ensures var link := Cut(c, s);
            Arriving(Sends(s.calls), link.delivers, link.breaks) ==
            if s.seen != [] && s.seen[|s.seen| - 1].EndOfStream? then s.seen[..|s.seen| - 1] else s.seen
  {
    var link := Cut(c, s);
    var sent := Sends(s.calls);
    assert forall i :: 0 <= i < link.delivers ==> s.seen[i].Response?;
    assert link.delivers > 0 ==> s.seen[link.delivers - 1].message == sent[link.delivers - 1];
    assert link.delivers <= |sent|;
    var arriving := Arriving(sent, link.delivers, link.breaks);
    assert arriving[..link.delivers] == s.seen[..link.delivers];
    if link.breaks.Some? {
      assert arriving == arriving[..link.delivers] + [RecvError(link.breaks.value)];
      assert s.seen == s.seen[..link.delivers] + [s.seen[link.delivers]];
    } else {
      assert arriving == arriving[..link.delivers];
      assert s.seen[..|s.seen|] == s.seen;
    }
  }

  lemma EndIsNotSeen<E, P>(seen: seq<Recv<P>>, dec: P -> Result<E>, wants: Appetite<E>, r: ClientRun<E>)
    requires seen != [] && seen[|seen| - 1].EndOfStream? && r.recvs == |seen|
    requires IsClientRun(seen, dec, wants, [], r)
    ensures IsClientRun(seen[..|seen| - 1], dec, wants, [], r)
  {
  }

  /** Interleaving changes nothing: once both sides are done, the trace, the result and all that was yielded are
      those of the server running to its end before the client starts, on the channel cut where it was. */
  lemma InterleavingIsSequential<E, P>(c: Setting<E, P>, moves: seq<Move>)
    requires Exec(c, moves).handle.Finished? && Exec(c, moves).client.Ended?
    ensures var s := Exec(c, moves);
            && Alive(c.source, s.pulled)
            && ServerRun(Taken(c.source, s.pulled), c.enc, c.sink) == Outcome(s.calls, s.handle.result)
            && s.yielded == Relay(Cut(c, s), Taken(c.source, s.pulled), c.wants)
  {
    var s := Exec(c, moves);
    Reachable(c, moves);
    ClientIsSequential(c, s);
  }

  lemma ClientIsSequential<E, P>(c: Setting<E, P>, s: State<E, P>)
    requires ClientInv(c, s) && s.client.Ended?
    ensures var link := Cut(c, s);
            s.yielded == Iterate(Arriving(Sends(s.calls), link.delivers, link.breaks), c.dec, c.wants, []).yielded
  {
    var link := Cut(c, s);
    var r := ClientRun(s.yielded, |s.seen|, s.client.ending);
    CutIsSeen(c, s);
    if s.seen[|s.seen| - 1].EndOfStream? {
      EndIsNotSeen(s.seen, c.dec, c.wants, r);
    }
    ContractDeterminesIteration(Arriving(Sends(s.calls), link.delivers, link.breaks), c.dec, c.wants, [], r);
  }

  /** The sink rejected the last of the items the server took, so that the trace begins with all their sends. */
  ghost predicate LastWasRejected<E, P>(c: Setting<E, P>, s: State<E, P>) {
    && |Sends(s.calls)| == s.pulled > 0
    && s.pulled <= |s.calls|
    && s.loop.Returned?
    && s.loop.err.Some?
    && c.sink(s.calls[..s.pulled]) == s.loop.err
  }

  /** A client whose stream ended without an error holds every event of the producer exactly when it was given as
      many as the server took and the producer is at its end. When the handler's loop returned nil this is to say that
      all that was sent has arrived. When it returned an error it can still be so in one way only: the sink rejected
      the producer's very last event, and the channel delivered it nevertheless. */
  lemma DrainedIsCompleteExactly<E, P>(c: Setting<E, P>, moves: seq<Move>)
    requires Exec(c, moves).client == Ended(Drained)
    ensures var s := Exec(c, moves);
            var complete := c.source(|s.yielded|).Ends?;
            && (forall i :: 0 <= i < |s.yielded| ==> s.yielded[i].Event? && c.source(i).Produces?)
            && (complete <==> |s.yielded| == s.pulled && c.source(s.pulled).Ends?)
            && (s.loop == Returned(None) ==> (complete <==> |s.yielded| == |Sends(s.calls)|))
            && (s.loop.Returned? && s.loop.err.Some? ==>
                  (complete <==> |s.yielded| == |Sends(s.calls)| && LastWasRejected(c, s) && c.source(s.pulled).Ends?))
  {
    var s := Exec(c, moves);
    Reachable(c, moves);
    DrainedHasSends(c, s);
    if s.loop.Returned? {
      SendsOfReturnedLoop(c, s);
    }
  }

  lemma DrainedHasSends<E, P>(c: Setting<E, P>, s: State<E, P>)
    requires Inv(c, s) && s.client == Ended(Drained)
    ensures |s.yielded| <= |Sends(s.calls)| <= s.pulled
    ensures forall i :: 0 <= i < |s.yielded| ==> s.yielded[i].Event? && c.source(i).Produces?
  {
    SentItems(Taken(c.source, s.pulled), c.enc, c.sink, s);
    ReceivedItems(c, s);
    DrainedHasNoError(c, s);
    if s.yielded != [] {
      assert s.yielded[|s.yielded| - 1].Event?;
    }
  }

  lemma SendsOfReturnedLoop<E, P>(c: Setting<E, P>, s: State<E, P>)
    requires ServerInv(c, s) && s.loop.Returned?
    ensures s.loop.err.None? ==> |Sends(s.calls)| == s.pulled && c.source(s.pulled).Ends?
    ensures s.loop.err.Some? ==> (|Sends(s.calls)| == s.pulled <==> LastWasRejected(c, s))
  {
    var items := Taken(c.source, s.pulled);
    SentItems(items, c.enc, c.sink, s);
    LoopAnswers(items, c.enc, c.sink);
    TraceStartsWithLoop(items, c.enc, c.sink, s);
  }

  lemma TraceStartsWithLoop<E, P>(items: seq<Item<E>>, enc: E -> Result<P>, sink: Behaviour<P>, s: State<E, P>)
    requires ServerOn(items, enc, sink, s)
    ensures var calls := Loop(items, enc, sink, []).calls; |calls| <= |s.calls| && s.calls[..|calls|] == calls
  {
  }

  /** That happens: a producer of one event, a sink that rejects it, a channel that delivers it all the same. The
      client ends without an error and with every event, and the handler's loop has returned an error. */
  lemma RejectedCanBeComplete<E, P>(v: E, p: P, e: Error)
    ensures var c := Setting(n => if n == 0 then Produces(Event(v)) else Ends, (_: E) => Ok(p), (_: P) => Ok(v),
                             (_: seq<SinkCall<P>>) => Some(e), (_: seq<Item<E>>) => true);
            var s := Exec(c, [ServerMoves, Deliver, ReportEnd]);
            s.client == Ended(Drained) && s.yielded == [Event(v)] && c.source(1).Ends? && s.loop == Returned(Some(e))
  {
    var c := Setting(n => if n == 0 then Produces(Event(v)) else Ends, (_: E) => Ok(p), (_: P) => Ok(v),
                     (_: seq<SinkCall<P>>) => Some(e), (_: seq<Item<E>>) => true);
    var moves := [ServerMoves, Deliver, ReportEnd];
    assert moves[..2] == [ServerMoves, Deliver] && moves[..2][..1] == [ServerMoves] && moves[..2][..1][..0] == [];
    var sent := [] + [Send(p)];
    SendsSnoc<P>([], Send(p));
    assert Exec(c, moves[..2][..1]) == LoopStep(c.enc, c.sink, Start(), Produces(Event(v)));
  }

  lemma DrainedHasNoError<E, P>(c: Setting<E, P>, s: State<E, P>)
    requires ClientInv(c, s) && s.client == Ended(Drained)
    ensures forall i :: 0 <= i < |s.yielded| ==> s.yielded[i].Event?
  {
  }

  // ---------- the server finishes ----------

  function ServerMoveCount(moves: seq<Move>): nat
    decreases |moves|
  {
    if moves == [] then 0
    else ServerMoveCount(moves[..|moves| - 1]) + if moves[|moves| - 1].ServerMoves? then 1 else 0
  }

  /** How many steps the server still has, when the iterator ends at item n at the latest. */
  function Remaining<E, P>(s: State<E, P>, n: nat): int {
    match s.handle
    case Finished(_) => 0
    case Reporting(_) => 1
    case InBody => if s.loop.Returned? then 2 else n - s.pulled + 3
  }

  /** The handler's loop returns by item n: the producer has ended by then, or the loop has failed on one of its first
      n items. */
  ghost predicate ReturnsBy<E, P>(c: Setting<E, P>, n: nat) {
    c.source(n).Ends? || (Alive(c.source, n) && Loop(Taken(c.source, n), c.enc, c.sink, []).err.Some?)
  }

  /** When the loop returns by item n, n + 3 server steps finish the call whatever the client, the channel and the sink
      do in between; a consumer that stops does not stop the server. */
  lemma {:induction false} ServerFinishes<E, P>(c: Setting<E, P>, moves: seq<Move>, n: nat)
    requires ReturnsBy(c, n)
    ensures Remaining(Exec(c, moves), n) >= 0
    ensures Exec(c, moves).handle.Finished? || Remaining(Exec(c, moves), n) + ServerMoveCount(moves) <= n + 3
    ensures ServerMoveCount(moves) >= n + 3 ==> Exec(c, moves).handle.Finished?
    decreases |moves|
  {
    if moves != [] {
      ServerFinishes(c, moves[..|moves| - 1], n);
      Reachable(c, moves[..|moves| - 1]);
      PulledByEnd(c, Exec(c, moves[..|moves| - 1]), n);
      StepUsesUp(c, Exec(c, moves[..|moves| - 1]), moves[|moves| - 1], n);
    }
  }

  lemma PulledByEnd<E, P>(c: Setting<E, P>, s: State<E, P>, n: nat)
    requires ServerInv(c, s) && ReturnsBy(c, n)
    ensures s.pulled <= n
    ensures s.loop.Running? && s.pulled == n ==> c.source(n).Ends?
  {
    if !c.source(n).Ends? && s.pulled >= n {
      var items := Taken(c.source, s.pulled);
      assert items == Taken(c.source, n) + items[n..];
      LoopAppend(Taken(c.source, n), items[n..], c.enc, c.sink, []);
      LoopMeetsContract(Taken(c.source, n), c.enc, c.sink, []);
    }
  }

  lemma StepUsesUp<E, P>(c: Setting<E, P>, s: State<E, P>, m: Move, n: nat)
    requires s.pulled <= n && (s.loop.Running? && s.pulled == n ==> c.source(n).Ends?)
    requires s.loop.Running? ==> s.handle.InBody?
    ensures var t := Step(c, s, m);
            if m.ServerMoves? && !s.handle.Finished? then 0 <= Remaining(t, n) < Remaining(s, n)
            else Remaining(t, n) == Remaining(s, n) && t.handle == s.handle
  {
  }

  // ---------- the client finishes ----------

  function Deliveries(moves: seq<Move>): nat
    decreases |moves|
  {
    if moves == [] then 0 else Deliveries(moves[..|moves| - 1]) + if moves[|moves| - 1].Deliver? then 1 else 0
  }

  predicate Reports(moves: seq<Move>)
    decreases |moves|
  {
    moves != [] && (moves[|moves| - 1].ReportEnd? || moves[|moves| - 1].Break? || Reports(moves[..|moves| - 1]))
  }

  /** A client keeps up with its server at any time, finished or not, under every schedule: after as many deliveries as
      there are messages left it has received them all, if it has not ended before, and the first report or break ends
      it. In all it receives at most one thing more than was sent. Once the server has finished nothing is added to its
      trace. */
  lemma {:induction false} ClientFinishes<E, P>(c: Setting<E, P>, moves: seq<Move>, more: seq<Move>)
    ensures var s, t := Exec(c, moves), Exec(c, moves + more);
            && Sends(s.calls) <= Sends(t.calls)
            && |t.seen| <= |Sends(t.calls)| + 1
            && (t.client.Ended? || |t.seen| >= |Sends(s.calls)| || |t.seen| >= |s.seen| + Deliveries(more))
            && (s.client.Ended? || Reports(more) ==> t.client.Ended?)
            && (s.handle.Finished? ==> t.calls == s.calls && t.handle == s.handle)
    decreases |more|
  {
    if more == [] {
      assert moves + more == moves;
    } else {
      var front, last := more[..|more| - 1], more[|more| - 1];
      assert (moves + more)[..|moves + more| - 1] == moves + front;
      assert more == front + [last];
      ClientFinishes(c, moves, front);
      Reachable(c, moves + front);
      StepIsProgress(c, Exec(c, moves + front), last);
    }
    SeenIsBounded(c, moves + more);
  }

  /** A client after one of its own steps. */
  ghost predicate Advances<E, P>(s: State<E, P>, m: Move, t: State<E, P>) {
    && t.calls == s.calls && t.handle == s.handle && t.loop == s.loop
    && |t.seen| >= |s.seen|
    && (s.client.Ended? || m.ReportEnd? || m.Break? ==> t.client.Ended?)
    && (m.Deliver? ==> t.client.Ended? || |s.seen| >= |Sends(s.calls)| || |t.seen| == |s.seen| + 1)
  }

  lemma ClientStepAdvances<E, P>(c: Setting<E, P>, s: State<E, P>, m: Move)
    requires !m.ServerMoves?
    ensures Advances(s, m, ClientStep(c, s, m))
  {
  }

  lemma StepIsProgress<E, P>(c: Setting<E, P>, s: State<E, P>, m: Move)
    requires s.handle.Finished? ==> s.loop.Returned?
    ensures var t := Step(c, s, m);
            && Sends(s.calls) <= Sends(t.calls)
            && (s.handle.Finished? ==> t.calls == s.calls && t.handle == s.handle)
            && (if m.ServerMoves? then t.seen == s.seen && t.client == s.client else Advances(s, m, t))
  {
    if m.ServerMoves? {
      var t := ServerStep(c, s);
      ServerStepAddsCalls(c, s);
      if t.calls != s.calls {
        SendsGrow(s.calls, t.calls[|s.calls|]);
      }
    }
  }

  /** At any time, before or after the server has finished, a break is told to a client that is still receiving, and the
      end of the stream is no error. */
  lemma EndIsTold<E, P>(c: Setting<E, P>, moves: seq<Move>, e: Error)
    requires Exec(c, moves).client.Receiving?
    ensures var s, broken, ended := Exec(c, moves), Exec(c, moves + [Break(e)]), Exec(c, moves + [ReportEnd]);
            && broken.yielded == s.yielded + [Failure(e)] && broken.client == Ended(RecvFailed)
            && ended.yielded == s.yielded && ended.client == Ended(Drained)
  {
    assert (moves + [Break(e)])[..|moves|] == (moves + [ReportEnd])[..|moves|] == moves;
  }

  lemma SeenIsBounded<E, P>(c: Setting<E, P>, moves: seq<Move>)
    ensures |Exec(c, moves).seen| <= |Sends(Exec(c, moves).calls)| + 1
  {
    var s := Exec(c, moves);
    Reachable(c, moves);
    if |s.seen| > 1 {
      assert s.seen[|s.seen| - 2].Response?;
    }
  }

  // ---------- every sequential run is an interleaving ----------

  function Repeat(m: Move, k: nat): seq<Move> {
    seq(k, _ => m)
  }

  /** The server first, then so many deliveries, then a break or the end. */
  function Sequentially(n: nat, delivers: nat, breaks: Option<Error>): seq<Move> {
    Repeat(ServerMoves, n + 3) + Repeat(Deliver, delivers) +
    match breaks case Some(e) => [Break(e)] case None => [ReportEnd]
  }

  lemma CountSnoc(moves: seq<Move>, m: Move)
    ensures ServerMoveCount(moves + [m]) == ServerMoveCount(moves) + if m.ServerMoves? then 1 else 0
    ensures Deliveries(moves + [m]) == Deliveries(moves) + if m.Deliver? then 1 else 0
    ensures Reports(moves + [m]) <==> m.ReportEnd? || m.Break? || Reports(moves)
  {
    assert (moves + [m])[..|moves|] == moves;
  }

  lemma {:induction false} CountRepeated(moves: seq<Move>, m: Move, k: nat)
    ensures ServerMoveCount(moves + Repeat(m, k)) == ServerMoveCount(moves) + if m.ServerMoves? then k else 0
    ensures Deliveries(moves + Repeat(m, k)) == Deliveries(moves) + if m.Deliver? then k else 0
    ensures m.ServerMoves? || m.Deliver? ==> (Reports(moves + Repeat(m, k)) <==> Reports(moves))
    decreases k
  {
    if k == 0 {
      assert moves + Repeat(m, k) == moves;
    } else {
      CountRepeated(moves, m, k - 1);
      assert moves + Repeat(m, k) == moves + Repeat(m, k - 1) + [m];
      CountSnoc(moves + Repeat(m, k - 1), m);
    }
  }

  lemma CountSequentially(n: nat, delivers: nat, breaks: Option<Error>)
    ensures ServerMoveCount(Sequentially(n, delivers, breaks)) == n + 3
    ensures Reports(Sequentially(n, delivers, breaks))
  {
    var served := Repeat(ServerMoves, n + 3);
    assert [] + served == served;
    CountRepeated([], ServerMoves, n + 3);
    CountRepeated(served, Deliver, delivers);
    CountSnoc(served + Repeat(Deliver, delivers), match breaks case Some(e) => Break(e) case None => ReportEnd);
  }

  /** Without a report or a break a client receives messages only, no more than were delivered, and ends only by its
      own doing. */
  lemma {:induction false} OnlyMessages<E, P>(c: Setting<E, P>, moves: seq<Move>)
    requires !Reports(moves)
    ensures var s := Exec(c, moves);
            && |s.seen| <= Deliveries(moves)
            && (forall i :: 0 <= i < |s.seen| ==> s.seen[i].Response?)
            && s.client in {Receiving, Ended(DecodeFailed), Ended(ConsumerStopped)}
    decreases |moves|
  {
    if moves != [] {
      OnlyMessages(c, moves[..|moves| - 1]);
    }
  }

  /** A contract for what was seen is one for all that arrives, when the client ended by its own doing. */
  lemma RunOfMore<E, P>(seen: seq<Recv<P>>, arriving: seq<Recv<P>>, dec: P -> Result<E>, wants: Appetite<E>,
    r: ClientRun<E>)
    requires IsClientRun(seen, dec, wants, [], r) && seen <= arriving
    requires r.ending.DecodeFailed? || r.ending.ConsumerStopped?
    ensures IsClientRun(arriving, dec, wants, [], r)
  {
  }

  /** What a client has seen before the channel ends, against what arrives in all. */
  lemma SeenIsArriving<E, P>(c: Setting<E, P>, s: State<E, P>, delivers: nat, breaks: Option<Error>)
    requires ClientInv(c, s) && |s.seen| <= delivers
    requires forall i :: 0 <= i < |s.seen| ==> s.seen[i].Response?
    requires s.client.Ended? || |s.seen| >= |Sends(s.calls)| || |s.seen| >= delivers
    ensures s.seen <= Arriving(Sends(s.calls), delivers, breaks)
    ensures s.client.Receiving? ==> s.seen == Arriving(Sends(s.calls), delivers, None)
  {
    var sent := Sends(s.calls);
    if s.seen != [] {
      assert s.seen[|s.seen| - 1].message == sent[|s.seen| - 1];
    }
    assert |s.seen| <= |sent|;
    assert forall i :: 0 <= i < |s.seen| ==> s.seen[i] == Response(sent[i]);
  }

  /** The machine does what the sequential composition says, for every sink, channel and consumer: for any number of
      messages delivered and with or without a break, there is a schedule at whose end both sides are done, with the
      trace, the result and the yields of the sequential run. With InterleavingIsSequential this makes the two agree. */
  lemma SequentialIsInterleaving<E, P>(c: Setting<E, P>, n: nat, delivers: nat, breaks: Option<Error>)
    requires ReturnsBy(c, n)
    ensures var s := Exec(c, Sequentially(n, delivers, breaks));
            var link := Link(c.enc, c.dec, c.sink, delivers, breaks);
            && s.handle.Finished? && s.client.Ended?
            && Alive(c.source, s.pulled)
            && ServerRun(Taken(c.source, s.pulled), c.enc, c.sink) == Outcome(s.calls, s.handle.result)
            && s.yielded == Relay(link, Taken(c.source, s.pulled), c.wants)
  {
    var served := Repeat(ServerMoves, n + 3);
    var moves := served + Repeat(Deliver, delivers);
    assert [] + served == served;
    CountRepeated([], ServerMoves, n + 3);
    CountRepeated(served, Deliver, delivers);
    ServerFinishes(c, served, n);
    ClientFinishes(c, served, Repeat(Deliver, delivers));
    assert [] + Repeat(Deliver, delivers) == Repeat(Deliver, delivers);
    CountRepeated([], Deliver, delivers);
    OnlyMessages(c, moves);
    Reachable(c, moves);
    SeenIsArriving(c, Exec(c, moves), delivers, breaks);
    ChannelEnds(c, moves, delivers, breaks);
  }

  lemma ChannelEnds<E, P>(c: Setting<E, P>, moves: seq<Move>, delivers: nat, breaks: Option<Error>)
    requires Exec(c, moves).handle.Finished?
    requires var s := Exec(c, moves);
             && s.client in {Receiving, Ended(DecodeFailed), Ended(ConsumerStopped)}
             && s.seen <= Arriving(Sends(s.calls), delivers, breaks)
             && (s.client.Receiving? ==> s.seen == Arriving(Sends(s.calls), delivers, None))
    ensures var m := match breaks case Some(e) => [Break(e)] case None => [ReportEnd];
            var t := Exec(c, moves + m);
            && t.handle.Finished? && t.client.Ended? && Alive(c.source, t.pulled)
            && ServerRun(Taken(c.source, t.pulled), c.enc, c.sink) == Outcome(t.calls, t.handle.result)
            && t.yielded == Iterate(Arriving(Sends(t.calls), delivers, breaks), c.dec, c.wants, []).yielded
  {
    var m := match breaks case Some(e) => [Break(e)] case None => [ReportEnd];
    var s, t := Exec(c, moves), Exec(c, moves + m);
    assert (moves + m)[..|moves|] == moves;
    assert t == ClientStep(c, s, m[0]);
    Reachable(c, moves + m);
    LastStep(c, s, delivers, breaks);
    ClientOfAll(c, t, Arriving(Sends(t.calls), delivers, breaks));
  }

  lemma LastStep<E, P>(c: Setting<E, P>, s: State<E, P>, delivers: nat, breaks: Option<Error>)
    requires s.client in {Receiving, Ended(DecodeFailed), Ended(ConsumerStopped)}
    requires s.seen <= Arriving(Sends(s.calls), delivers, breaks)
    requires s.client.Receiving? ==> s.seen == Arriving(Sends(s.calls), delivers, None)
    ensures var t := ClientStep(c, s, match breaks case Some(e) => Break(e) case None => ReportEnd);
            && t.calls == s.calls && t.handle == s.handle && t.client.Ended?
            && SawAll(t, Arriving(Sends(t.calls), delivers, breaks))
  {
    assert Arriving(Sends(s.calls), delivers, breaks) == Arriving(Sends(s.calls), delivers, None) +
           match breaks case Some(e) => [RecvError(e)] case None => [];
  }

  /** The client saw all that arrives, or ended by its own doing before. */
  ghost predicate SawAll<E, P>(t: State<E, P>, arriving: seq<Recv<P>>) {
    match t.client
    case Receiving => false
    case Ended(Drained) => t.seen == arriving + [EndOfStream]
    case Ended(RecvFailed) => t.seen == arriving
    case Ended(_) => t.seen <= arriving
  }

  lemma ClientOfAll<E, P>(c: Setting<E, P>, t: State<E, P>, arriving: seq<Recv<P>>)
    requires ClientInv(c, t) && SawAll(t, arriving)
    ensures t.yielded == Iterate(arriving, c.dec, c.wants, []).yielded
  {
    var r := ClientRun(t.yielded, |t.seen|, t.client.ending);
    match t.client.ending {
      case Drained =>
        EndIsNotSeen(t.seen, c.dec, c.wants, r);
        assert t.seen[..|t.seen| - 1] == arriving;
      case RecvFailed =>
      case _ => RunOfMore(t.seen, arriving, c.dec, c.wants, r);
    }
    ContractDeterminesIteration(arriving, c.dec, c.wants, [], r);
  }
}
