/** The range-over-func loops of Handler.SendStreamingMessage, SubscribeToTask (v1) and TaskSubscription (v0). */
module ServerLoop {
  import opened Outcomes
  import opened Contexts
  import opened Sinks
  import opened Adapters

  /** What an event iterator passes to yield. The loop looks at the event only when there is no error. */
  datatype Item<+E> = Event(event: E) | Failure(error: Error)

  /** What an iterator does when it is resumed: pass an item to yield, or return. */
  datatype Resumption<+E> = Produces(item: Item<E>) | Ends

  /** The iterator does not end before its n-th item. */
  ghost predicate Alive<E>(source: nat -> Resumption<E>, n: nat) {
    forall i: nat :: i < n ==> source(i).Produces?
  }

  /** Its first n items. */
  function Taken<E>(source: nat -> Resumption<E>, n: nat): seq<Item<E>>
    requires Alive(source, n)
  {
    seq(n, i requires 0 <= i < n => source(i).item)
  }

  /** A producer, which may never end, and how many items it has delivered. */
  class EventSource<E> {
    const resume: nat -> Resumption<E>
    var pos: nat

    constructor (resume: nat -> Resumption<E>)
      ensures this.resume == resume && pos == 0
    {
      this.resume := resume;
      pos := 0;
    }

    method Next() returns (r: Resumption<E>)
      modifies this
      ensures r == resume(old(pos))
      ensures pos == old(pos) + if r.Produces? then 1 else 0
    {
      r := resume(pos);
      if r.Produces? {
        pos := pos + 1;
      }
    }
  }

  /** How a loop ended: the sink's trace, the error returned, and how many items the producer delivered. */
  datatype LoopResult<+P> = LoopResult(calls: seq<SinkCall<P>>, err: Option<Error>, pulled: nat)

  /** Item i becomes call i of the loop, and nothing else. */
  ghost predicate Encodes<E, P>(item: Item<E>, enc: E -> Result<P>, call: SinkCall<P>) {
    item.Event? && enc(item.event).Ok? && call == Send(enc(item.event).value)
  }

  /** The sink took the calls after the first from, up to the to-th, without an error. */
  ghost predicate Accepts<P>(sink: Behaviour<P>, calls: seq<SinkCall<P>>, from: nat, to: int) {
    forall k :: from < k <= to && k <= |calls| ==> sink(calls[..k]).None?
  }

  /** The loop's contract, without saying how it gets there: the trace grows by the encodings of the first
      items, one Send each, all accepted but perhaps the last; with no error these are all items; with an
      error the item pulled last is the one that failed, by itself, in the encoder or on the sink. */
  ghost predicate IsLoopRun<E, P>(items: seq<Item<E>>, enc: E -> Result<P>, sink: Behaviour<P>,
    calls: seq<SinkCall<P>>, r: LoopResult<P>)
  {
    var n := |r.calls| - |calls|;
    && 0 <= n <= r.pulled <= |items|
    && r.calls[..|calls|] == calls
    && (forall i :: 0 <= i < n ==> Encodes(items[i], enc, r.calls[|calls| + i]))
    && match r.err
       case None =>
         n == |items| && Accepts(sink, r.calls, |calls|, |r.calls|)
       case Some(e) =>
         || (n == r.pulled > 0 && Accepts(sink, r.calls, |calls|, |r.calls| - 1) && sink(r.calls) == Some(e))
         || (n == r.pulled - 1 && Accepts(sink, r.calls, |calls|, |r.calls|) && Fails(items[n], enc, e))
  }

  ghost predicate Fails<E, P>(item: Item<E>, enc: E -> Result<P>, e: Error) {
    item == Failure(e) || (item.Event? && enc(item.event) == Err(e))
  }

  /** The loop as a function of the items. */
  function Loop<E, P>(items: seq<Item<E>>, enc: E -> Result<P>, sink: Behaviour<P>,
    calls: seq<SinkCall<P>>): LoopResult<P>
    decreases |items|
  {
    if items == [] then LoopResult(calls, None, 0)
    else
      match items[0]
      case Failure(e) => LoopResult(calls, Some(e), 1)
      case Event(v) =>
        match enc(v)
        case Err(e) => LoopResult(calls, Some(e), 1)
        case Ok(p) =>
          var sent := calls + [Send(p)];
          var answer := sink(sent);
          if answer.Some? then LoopResult(sent, answer, 1)
          else
            var rest := Loop(items[1..], enc, sink, sent);
            LoopResult(rest.calls, rest.err, rest.pulled + 1)
  }

  /** The loop returns by the time n items were delivered: the iterator ends there, or the loop has failed by then. */
  ghost predicate LoopReturns<E, P>(source: nat -> Resumption<E>, enc: E -> Result<P>, sink: Behaviour<P>,
    calls: seq<SinkCall<P>>, n: nat)
  {
    Alive(source, n) && (source(n).Ends? || Loop(Taken(source, n), enc, sink, calls).err.Some?)
  }

  /** The loop of the handlers, for every producer with which it returns, whether or not the producer ever ends. */
  method RelayEvents<E, P>(source: EventSource<E>, enc: E -> Result<P>, stream: ResponseSink<P>,
    ghost n: nat) returns (err: Option<Error>)
    requires source.pos == 0
    requires LoopReturns(source.resume, enc, stream.behaviour, stream.calls, n)
    modifies source, stream
    ensures LoopResult(stream.calls, err, source.pos) ==
            Loop(Taken(source.resume, n), enc, stream.behaviour, old(stream.calls))
    ensures IsLoopRun(Taken(source.resume, n), enc, stream.behaviour, old(stream.calls),
                      LoopResult(stream.calls, err, source.pos))
  {
    ghost var items := Taken(source.resume, n);
    LoopMeetsContract(items, enc, stream.behaviour, stream.calls);
    ghost var all := Loop(items, enc, stream.behaviour, stream.calls);
    while true
      invariant source.pos <= n
      invariant var rest := Loop(items[source.pos..], enc, stream.behaviour, stream.calls);
                all == LoopResult(rest.calls, rest.err, source.pos + rest.pulled)
      decreases n - source.pos
    {
      var next := source.Next();
      if next.Ends? {
        return None;
      }
      if next.item.Failure? {
        return Some(next.item.error);
      }
      var pbEvt := enc(next.item.event);
      if pbEvt.Err? {
        return Some(pbEvt.error);
      }
      var sendErr := stream.Do(Send(pbEvt.value));
      if sendErr.Some? {
        return sendErr;
      }
    }
  }

  lemma {:induction false} LoopMeetsContract<E, P>(items: seq<Item<E>>, enc: E -> Result<P>,
    sink: Behaviour<P>, calls: seq<SinkCall<P>>)
    ensures IsLoopRun(items, enc, sink, calls, Loop(items, enc, sink, calls))
    decreases |items|
  {
    if items != [] && items[0].Event? && enc(items[0].event).Ok? {
      var sent := calls + [Send(enc(items[0].event).value)];
      if sink(sent).None? {
        LoopMeetsContract(items[1..], enc, sink, sent);
        Shift(items, enc, sink, calls, Loop(items[1..], enc, sink, sent));
      } else {
        assert sent[..|calls|] == calls;
      }
    } else {
      assert calls[..|calls|] == calls;
    }
  }

  /** A run on the tail, after an accepted first send, is a run on the whole. */
  lemma Shift<E, P>(items: seq<Item<E>>, enc: E -> Result<P>, sink: Behaviour<P>, calls: seq<SinkCall<P>>,
    rest: LoopResult<P>)
    requires items != [] && items[0].Event? && enc(items[0].event).Ok?
    requires sink(calls + [Send(enc(items[0].event).value)]).None?
    requires IsLoopRun(items[1..], enc, sink, calls + [Send(enc(items[0].event).value)], rest)
    ensures IsLoopRun(items, enc, sink, calls, LoopResult(rest.calls, rest.err, rest.pulled + 1))
  {
    var sent := calls + [Send(enc(items[0].event).value)];
    var r := LoopResult(rest.calls, rest.err, rest.pulled + 1);
    var n := |r.calls| - |calls|;
    assert calls == sent[..|calls|] == r.calls[..|sent|][..|calls|] == r.calls[..|calls|];
    forall i | 0 <= i < n ensures Encodes(items[i], enc, r.calls[|calls| + i]) {
      if i == 0 {
        assert r.calls[|calls|] == r.calls[..|sent|][|calls|];
      } else {
        assert items[i] == items[1..][i - 1];
        assert Encodes(items[1..][i - 1], enc, r.calls[|sent| + (i - 1)]);
      }
    }
    assert r.calls[..|calls| + 1] == sent;
  }

  /** The contract leaves no choice: it determines trace, error and number of items pulled. */
  lemma {:induction false} ContractDeterminesLoop<E, P>(items: seq<Item<E>>, enc: E -> Result<P>,
    sink: Behaviour<P>, calls: seq<SinkCall<P>>, r: LoopResult<P>)
    ensures IsLoopRun(items, enc, sink, calls, r) <==> r == Loop(items, enc, sink, calls)
    decreases |items|
  {
    LoopMeetsContract(items, enc, sink, calls);
    if IsLoopRun(items, enc, sink, calls, r) {
      var n := |r.calls| - |calls|;
      if n == 0 {
        assert r.calls == r.calls[..|calls|] == calls;
      } else {
        assert Encodes(items[0], enc, r.calls[|calls| + 0]);
        var sent := calls + [r.calls[|calls|]];
        assert r.calls[..|calls| + 1] == sent;
        if n == 1 && r.err.Some? && r.pulled == 1 {
          assert r.calls == sent;
        } else {
          assert sink(sent).None?;
          var rest := LoopResult(r.calls, r.err, r.pulled - 1);
          forall i | 0 <= i < n - 1 ensures Encodes(items[1..][i], enc, r.calls[|sent| + i]) {
            assert Encodes(items[i + 1], enc, r.calls[|calls| + (i + 1)]);
          }
          assert IsLoopRun(items[1..], enc, sink, sent, rest);
          ContractDeterminesLoop(items[1..], enc, sink, sent, rest);
        }
      }
    }
  }

  /** Cutting the iterator's items in two cuts the loop in two. */
  lemma {:induction false} LoopAppend<E, P>(a: seq<Item<E>>, b: seq<Item<E>>, enc: E -> Result<P>,
    sink: Behaviour<P>, calls: seq<SinkCall<P>>)
    ensures var first := Loop(a, enc, sink, calls);
            Loop(a + b, enc, sink, calls) ==
            if first.err.Some? then first
            else var second := Loop(b, enc, sink, first.calls);
                 LoopResult(second.calls, second.err, |a| + second.pulled)
    ensures Loop(a, enc, sink, calls).err.None? ==> Loop(a, enc, sink, calls).pulled == |a|
    decreases |a|
  {
    if a == [] {
      assert a + b == b;
    } else {
      assert (a + b)[0] == a[0] && (a + b)[1..] == a[1..] + b;
      if a[0].Event? && enc(a[0].event).Ok? {
        LoopAppend(a[1..], b, enc, sink, calls + [Send(enc(a[0].event).value)]);
      }
    }
  }

  // ---------- the loop as the body of a streaming method ----------

  /** The loop as a strategy: the answers to its sends tell it where it is. */
  function LoopBody<E, P>(items: seq<Item<E>>, enc: E -> Result<P>): Body<P> {
    (answers: seq<Option<Error>>) =>
      if answers != [] && answers[|answers| - 1].Some? then Return(answers[|answers| - 1])
      else if |answers| >= |items| then Return(None)
      else
        match items[|answers|]
        case Failure(e) => Return(Some(e))
        case Event(v) =>
          match enc(v)
          case Err(e) => Return(Some(e))
          case Ok(p) => Transmit(p)
  }

  function ReturnAtOnce<P>(err: Option<Error>): Body<P> {
    (_: seq<Option<Error>>) => Return(err)
  }

  /** A streaming handler method: decode the request, or return its error, and relay the handler's iterator. */
  function StreamingBody<Req, Params, E, P>(ctx: Context, req: Req, decode: Req -> Result<Params>,
    handler: (Context, Params) -> seq<Item<E>>, enc: E -> Result<P>): Body<P>
  {
    match decode(req)
    case Err(e) => ReturnAtOnce(Some(e))
    case Ok(params) => LoopBody(handler(ctx, params), enc)
  }

  function StreamingMethod<Req, Params, E, P>(decode: Req -> Result<Params>,
    handler: (Context, Params) -> seq<Item<E>>, enc: E -> Result<P>): StreamFn<Req, P>
  {
    (ctx: Context, req: Req) => StreamingBody(ctx, req, decode, handler, enc)
  }

  /** The strategy runs as the loop does, so every theorem about bodies holds of the handlers' loops. */
  lemma {:induction false} LoopIsBody<E, P>(items: seq<Item<E>>, enc: E -> Result<P>, sink: Behaviour<P>,
    calls: seq<SinkCall<P>>, answers: seq<Option<Error>>)
    requires |answers| <= |items| && (answers != [] ==> answers[|answers| - 1].None?)
    ensures var r := Loop(items[|answers|..], enc, sink, calls);
            && |r.calls| >= |calls|
            && Returns(LoopBody(items, enc), sink, calls, answers, |r.calls| - |calls|)
            && Run(LoopBody(items, enc), sink, calls, answers, |r.calls| - |calls|) == Outcome(r.calls, r.err)
    decreases |items| - |answers|
  {
    var body := LoopBody(items, enc);
    if |answers| < |items| && body(answers).Transmit? {
      var sent := calls + [Send(body(answers).message)];
      var more := answers + [sink(sent)];
      if sink(sent).None? {
        assert items[|answers|..][1..] == items[|more|..];
        LoopIsBody(items, enc, sink, sent, more);
      } else {
        assert body(more) == Return(sink(sent));
        assert Returns(body, sink, sent, more, 0);
        assert Run(body, sink, sent, more, 0) == Outcome(sent, sink(sent));
        assert Loop(items[|answers|..], enc, sink, calls) == LoopResult(sent, sink(sent), 1);
      }
    }
  }

  /** What a streaming call leaves on a fresh sink and returns, as a function of the iterator's items. */
  function ServerRun<E, P>(items: seq<Item<E>>, enc: E -> Result<P>, sink: Behaviour<P>): Outcome<P> {
    var r := Loop(items, enc, sink, []);
    Finish(Outcome(r.calls, r.err), sink)
  }

  /** A request that cannot be converted is as good as an iterator that fails at once. */
  function ServedItems<Req, Params, E>(ctx: Context, req: Req, decode: Req -> Result<Params>,
    handler: (Context, Params) -> seq<Item<E>>): seq<Item<E>>
  {
    match decode(req)
    case Err(e) => [Failure(e)]
    case Ok(params) => handler(ctx, params)
  }

  /** The number of sends of a streaming method on a fresh sink. */
  function SendCount<Req, Params, E, P>(request: Bytes, rc: RpcContext, unmarshal: Bytes -> Result<Req>,
    decode: Req -> Result<Params>, handler: (Context, Params) -> seq<Item<E>>, enc: E -> Result<P>,
    sink: Behaviour<P>): nat
  {
    match unmarshal(request)
    case Err(_) => 0
    case Ok(req) => |Loop(ServedItems(HandlerContext(rc), req, decode, handler), enc, sink, []).calls|
  }

  lemma StreamingMethodReturns<Req, Params, E, P>(request: Bytes, rc: RpcContext, unmarshal: Bytes -> Result<Req>,
    decode: Req -> Result<Params>, handler: (Context, Params) -> seq<Item<E>>, enc: E -> Result<P>, sink: Behaviour<P>)
    ensures BodyReturns(request, HandlerContext(rc), unmarshal, StreamingMethod(decode, handler, enc), sink, [],
                        SendCount(request, rc, unmarshal, decode, handler, enc, sink))
    ensures unmarshal(request).Ok? ==>
              var req := unmarshal(request).value;
              var r := Loop(ServedItems(HandlerContext(rc), req, decode, handler), enc, sink, []);
              var body := StreamingBody(HandlerContext(rc), req, decode, handler, enc);
              Returns(body, sink, [], [], |r.calls|) && Run(body, sink, [], [], |r.calls|) == Outcome(r.calls, r.err)
  {
    if unmarshal(request).Ok? && decode(unmarshal(request).value).Ok? {
      var items := handler(HandlerContext(rc), decode(unmarshal(request).value).value);
      LoopIsBody(items, enc, sink, [], []);
      assert items[0..] == items;
    }
  }

  /** The stream adapter around a streaming method does what ServerRun says, for every decodable request. */
  lemma StreamingMethodRun<Req, Params, E, P>(request: Bytes, rc: RpcContext, unmarshal: Bytes -> Result<Req>,
    decode: Req -> Result<Params>, handler: (Context, Params) -> seq<Item<E>>, enc: E -> Result<P>, sink: Behaviour<P>)
    requires unmarshal(request).Ok?
    ensures var n := SendCount(request, rc, unmarshal, decode, handler, enc, sink);
            && BodyReturns(request, HandlerContext(rc), unmarshal, StreamingMethod(decode, handler, enc), sink, [], n)
            && StreamOutcome(request, rc, unmarshal, StreamingMethod(decode, handler, enc), sink, [], n) ==
               ServerRun(ServedItems(HandlerContext(rc), unmarshal(request).value, decode, handler), enc, sink)
  {
    StreamingMethodReturns(request, rc, unmarshal, decode, handler, enc, sink);
  }

  /** The contract of a loop on a fresh sink: what it sends, and how the sink answered. */
  lemma LoopSends<E, P>(items: seq<Item<E>>, enc: E -> Result<P>, sink: Behaviour<P>)
    ensures var calls := Loop(items, enc, sink, []).calls;
            |calls| <= |items| && forall i :: 0 <= i < |calls| ==> Encodes(items[i], enc, calls[i])
  {
    LoopMeetsContract(items, enc, sink, []);
    var calls := Loop(items, enc, sink, []).calls;
    forall i | 0 <= i < |calls| ensures Encodes(items[i], enc, calls[i]) {
      assert Encodes(items[i], enc, calls[|calls[..0]| + i]);
    }
  }

  lemma LoopAnswers<E, P>(items: seq<Item<E>>, enc: E -> Result<P>, sink: Behaviour<P>)
    ensures var r := Loop(items, enc, sink, []);
            if r.err.None? then |r.calls| == r.pulled == |items| && Accepts(sink, r.calls, 0, |r.calls|)
            else if |r.calls| == r.pulled then
              r.pulled > 0 && Accepts(sink, r.calls, 0, |r.calls| - 1) && sink(r.calls) == r.err
            else |r.calls| + 1 == r.pulled && Accepts(sink, r.calls, 0, |r.calls|)
  {
    LoopMeetsContract(items, enc, sink, []);
  }

  lemma SendsOfFinish<P>(ran: Outcome<P>, sink: Behaviour<P>)
    ensures Sends(Finish(ran, sink).calls) == Sends(ran.calls)
  {
    SendsSnoc(ran.calls, Close);
    var end := Finish(ran, sink);
    if end.err.Some? {
      SendsSnoc(ran.calls + [Close], SendError(end.err.value));
    }
  }

  /** The messages that were sent are the encodings of the first items, whatever happens afterwards. */
  lemma ServerRunSends<E, P>(items: seq<Item<E>>, enc: E -> Result<P>, sink: Behaviour<P>)
    ensures var sent := Sends(ServerRun(items, enc, sink).calls);
            && |sent| == |Loop(items, enc, sink, []).calls| <= |items|
            && forall i :: 0 <= i < |sent| ==> items[i].Event? && enc(items[i].event) == Ok(sent[i])
  {
    var r := Loop(items, enc, sink, []);
    LoopSends(items, enc, sink);
    SendsOfSends(r.calls);
    SendsOfFinish(Outcome(r.calls, r.err), sink);
    forall i | 0 <= i < |r.calls| ensures items[i].Event? && enc(items[i].event) == Ok(Sends(r.calls)[i]) {
      assert Encodes(items[i], enc, r.calls[i]);
    }
  }
}
