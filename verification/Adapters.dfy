/** Method adapters: the hand-written ones of internal/caller/server.go and the generated ones they replace. */
module Adapters {
  import opened Outcomes
  import opened Contexts
  import opened Sinks

  type Bytes = seq<bv8>

  type UnaryFn<!Req, +Resp> = (Context, Req) -> Result<Resp>

  type StreamFn<!Req, !P> = (Context, Req) -> Body<P>

  /** proto.Unmarshal and proto.Marshal are arbitrary partial functions here; none of their errors is an RpcError. */
  ghost predicate PlainErrors<A(!new), B>(f: A -> Result<B>) {
    forall a :: f(a).Err? ==> f(a).error.Plain?
  }

  // ---------- unary methods ----------

  /** unary.Handle. */
  function UnaryHandle<Req, Resp>(request: Bytes, rc: RpcContext, unmarshal: Bytes -> Result<Req>,
    marshal: Resp -> Result<Bytes>, fn: UnaryFn<Req, Resp>): Result<Bytes>
  {
    match unmarshal(request)
    case Err(e) => Err(ToRPCError(e, InvalidArgument))
    case Ok(req) =>
      match fn(HandlerContext(rc), req)
      case Err(e) => Err(ToRPCError(e, Internal))
      case Ok(resp) =>
        match marshal(resp)
        case Err(e) => Err(ToRPCError(e, Internal))
        case Ok(b) => Ok(b)
  }

  /** The generated unary Handle: codec errors are always given a code, method errors only when they have none. */
  function GeneratedUnaryHandle<Req, Resp>(request: Bytes, rc: RpcContext, unmarshal: Bytes -> Result<Req>,
    marshal: Resp -> Result<Bytes>, fn: UnaryFn<Req, Resp>): Result<Bytes>
  {
    match unmarshal(request)
    case Err(e) => Err(NewRpcError(InvalidArgument, e))
    case Ok(req) =>
      match fn(rc.converted, req)
      case Err(e) => if e.RpcError? then Err(e) else Err(NewRpcError(Internal, e))
      case Ok(resp) =>
        match marshal(resp)
        case Err(e) => Err(NewRpcError(Internal, e))
        case Ok(b) => Ok(b)
  }

  /** A method that reads neither the caller nor the session keys. */
  ghost predicate ContextBlind<Req(!new), R>(fn: (Context, Req) -> R) {
    forall a, b, req :: SameForBody(a, b) ==> fn(a, req) == fn(b, req)
  }

  /** The two unary adapters give the same bytes or the same error. */
  lemma UnaryRefinesGenerated<Req(!new), Resp(!new)>(request: Bytes, rc: RpcContext,
    unmarshal: Bytes -> Result<Req>, marshal: Resp -> Result<Bytes>, fn: UnaryFn<Req, Resp>)
    requires PlainErrors(unmarshal) && PlainErrors(marshal)
    requires ContextBlind(fn) ||
             (unmarshal(request).Ok? ==>
                fn(HandlerContext(rc), unmarshal(request).value) == fn(rc.converted, unmarshal(request).value))
    ensures UnaryHandle(request, rc, unmarshal, marshal, fn) ==
            GeneratedUnaryHandle(request, rc, unmarshal, marshal, fn)
  {
    HandlerContextSameForBody(rc);
  }

  /** Every error that leaves the adapter is an RpcError: the decoder's with InvalidArgument, whatever the
      method is; the method's own RpcError unchanged; everything else with Internal. */
  lemma UnaryErrors<Req(!new), Resp(!new)>(request: Bytes, rc: RpcContext, unmarshal: Bytes -> Result<Req>,
    marshal: Resp -> Result<Bytes>, fn: UnaryFn<Req, Resp>)
    requires PlainErrors(unmarshal) && PlainErrors(marshal)
    ensures var r := UnaryHandle(request, rc, unmarshal, marshal, fn);
            match unmarshal(request)
            case Err(e) => r == Err(RpcError(InvalidArgument, e.message, None))
            case Ok(req) =>
              match fn(HandlerContext(rc), req)
              case Err(RpcError(c, m, d)) => r == Err(RpcError(c, m, d))
              case Err(Plain(m)) => r == Err(RpcError(Internal, m, None))
              case Ok(resp) => r.Err? ==> r.error.RpcError? && r.error.code == Internal
  {
  }

  // ---------- streaming methods ----------

  /** Termination of the call: an undecodable request runs no body; otherwise the body returns after n sends. */
  ghost predicate BodyReturns<Req, P>(request: Bytes, ctx: Context, unmarshal: Bytes -> Result<Req>,
    fn: StreamFn<Req, P>, sink: Behaviour<P>, calls: seq<SinkCall<P>>, n: nat)
  {
    unmarshal(request).Ok? ==> Returns(fn(ctx, unmarshal(request).value), sink, calls, [], n)
  }

  /** The end of the hand-written stream Handle: close, keep the first error, report it. */
  function Finish<P>(ran: Outcome<P>, sink: Behaviour<P>): Outcome<P> {
    var closed := ran.calls + [Close];
    var err := if ran.err.None? then sink(closed) else ran.err;
    match err
    case None => Outcome(closed, None)
    case Some(e) =>
      var rpcErr := ToRPCError(e, Internal);
      Outcome(closed + [SendError(rpcErr)], Some(rpcErr))
  }

  /** The whole of it: what a call leaves on the sink and returns. */
  ghost function StreamOutcome<Req, P>(request: Bytes, rc: RpcContext, unmarshal: Bytes -> Result<Req>,
    fn: StreamFn<Req, P>, sink: Behaviour<P>, calls: seq<SinkCall<P>>, n: nat): Outcome<P>
    requires BodyReturns(request, HandlerContext(rc), unmarshal, fn, sink, calls, n)
  {
    match unmarshal(request)
    case Err(e) => Outcome(calls + [SendError(ToRPCError(e, InvalidArgument))], Some(ToRPCError(e, InvalidArgument)))
    case Ok(req) => Finish(Run(fn(HandlerContext(rc), req), sink, calls, [], n), sink)
  }

  /** unaryStream.Handle. */
  method StreamHandle<Req, P>(request: Bytes, rc: RpcContext, unmarshal: Bytes -> Result<Req>,
    fn: StreamFn<Req, P>, sink: ResponseSink<P>, ghost n: nat) returns (err: Option<Error>)
    requires BodyReturns(request, HandlerContext(rc), unmarshal, fn, sink.behaviour, sink.calls, n)
    modifies sink
    ensures Outcome(sink.calls, err) == StreamOutcome(request, rc, unmarshal, fn, sink.behaviour, old(sink.calls), n)
  {
    var req := unmarshal(request);
    if req.Err? {
      var rpcErr := ToRPCError(req.error, InvalidArgument);
      var _ := sink.Do(SendError(rpcErr));
      return Some(rpcErr);
    }
    var ctx := HandlerContext(rc);
    err := RunBody(fn(ctx, req.value), sink, n);
    var closeErr := sink.Do(Close);
    if err.None? {
      err := closeErr;
    }
    if err.Some? {
      var rpcErr := ToRPCError(err.value, Internal);
      var _ := sink.Do(SendError(rpcErr));
      return Some(rpcErr);
    }
    return None;
  }

  /** The generated stream Handle, in the generated context: what it leaves on the sink and returns. */
  ghost function GeneratedStreamOutcome<Req, P>(request: Bytes, rc: RpcContext, unmarshal: Bytes -> Result<Req>,
    fn: StreamFn<Req, P>, sink: Behaviour<P>, calls: seq<SinkCall<P>>, n: nat): Outcome<P>
    requires BodyReturns(request, rc.converted, unmarshal, fn, sink, calls, n)
  {
    var req := unmarshal(request);
    if req.Err? then
      var rpcErr := NewRpcError(InvalidArgument, req.error);
      Outcome(calls + [SendError(rpcErr)], Some(rpcErr))
    else
      var ran := Run(fn(rc.converted, req.value), sink, calls, [], n);
      var closeErr := sink(ran.calls + [Close]);
      match (ran.err, closeErr)
      case (None, None) => Outcome(ran.calls + [Close], None)
      case (Some(RpcError(c, m, d)), _) => ClosedWith(ran.calls, RpcError(c, m, d))
      case (Some(Plain(m)), _) => ClosedWith(ran.calls, RpcError(Internal, m, None))
      case (None, Some(RpcError(c, m, d))) => ClosedWith(ran.calls, RpcError(c, m, d))
      case (None, Some(Plain(m))) => ClosedWith(ran.calls, RpcError(Internal, m, None))
  }

  function ClosedWith<P>(calls: seq<SinkCall<P>>, rpcErr: Error): Outcome<P> {
    Outcome(calls + [Close, SendError(rpcErr)], Some(rpcErr))
  }

  /** The generated stream Handle. */
  method GeneratedStreamHandle<Req, P>(request: Bytes, rc: RpcContext, unmarshal: Bytes -> Result<Req>,
    fn: StreamFn<Req, P>, sink: ResponseSink<P>, ghost n: nat) returns (err: Option<Error>)
    requires BodyReturns(request, rc.converted, unmarshal, fn, sink.behaviour, sink.calls, n)
    modifies sink
    ensures Outcome(sink.calls, err) ==
            GeneratedStreamOutcome(request, rc, unmarshal, fn, sink.behaviour, old(sink.calls), n)
  {
    var req := unmarshal(request);
    if req.Err? {
      var rpcErr := NewRpcError(InvalidArgument, req.error);
      var _ := sink.Do(SendError(rpcErr));
      return Some(rpcErr);
    }
    err := RunBody(fn(rc.converted, req.value), sink, n);
    ghost var sent := sink.calls;
    var closeErr := sink.Do(Close);
    if err.None? {
      err := closeErr;
    }
    if err.Some? {
      if err.value.RpcError? {
        var _ := sink.Do(SendError(err.value));
        assert sink.calls == sent + [Close, SendError(err.value)];
        return err;
      }
      var rpcErr := NewRpcError(Internal, err.value);
      var _ := sink.Do(SendError(rpcErr));
      assert sink.calls == sent + [Close, SendError(rpcErr)];
      return Some(rpcErr);
    }
    return None;
  }

  /** Two strategies that answer alike run alike. */
  lemma {:induction false} RunsAlike<P(!new)>(f: Body<P>, g: Body<P>, sink: Behaviour<P>,
    calls: seq<SinkCall<P>>, answers: seq<Option<Error>>, n: nat)
    requires forall a :: f(a) == g(a)
    requires Returns(f, sink, calls, answers, n)
    ensures Returns(g, sink, calls, answers, n)
    ensures Run(f, sink, calls, answers, n) == Run(g, sink, calls, answers, n)
    decreases n
  {
    if f(answers).Transmit? {
      var sent := calls + [Send(f(answers).message)];
      RunsAlike(f, g, sink, sent, answers + [sink(sent)], n - 1);
    }
  }

  /** The hand-written stream adapter leaves the same trace on the sink and returns the same error as the
      generated handler whenever the body does the same under both contexts. */
  lemma StreamRefinesGenerated<Req(!new), P(!new)>(request: Bytes, rc: RpcContext,
    unmarshal: Bytes -> Result<Req>, fn: StreamFn<Req, P>, sink: Behaviour<P>, calls: seq<SinkCall<P>>, n: nat,
    m: nat)
    requires PlainErrors(unmarshal)
    requires BodyReturns(request, HandlerContext(rc), unmarshal, fn, sink, calls, n)
    requires BodyReturns(request, rc.converted, unmarshal, fn, sink, calls, m)
    requires unmarshal(request).Ok? ==>
               Run(fn(HandlerContext(rc), unmarshal(request).value), sink, calls, [], n) ==
               Run(fn(rc.converted, unmarshal(request).value), sink, calls, [], m)
    ensures StreamOutcome(request, rc, unmarshal, fn, sink, calls, n) ==
            GeneratedStreamOutcome(request, rc, unmarshal, fn, sink, calls, m)
  {
  }

  /** In particular for every body that reads neither the caller nor the session keys, it terminates
      under one adapter exactly when it does under the other, with the same result. */
  lemma BlindStreamRefinesGenerated<Req(!new), P(!new)>(request: Bytes, rc: RpcContext,
    unmarshal: Bytes -> Result<Req>, fn: StreamFn<Req, P>, sink: Behaviour<P>, calls: seq<SinkCall<P>>, n: nat)
    requires PlainErrors(unmarshal)
    requires forall a, b, req, answers :: SameForBody(a, b) ==> fn(a, req)(answers) == fn(b, req)(answers)
    ensures BodyReturns(request, HandlerContext(rc), unmarshal, fn, sink, calls, n) <==>
            BodyReturns(request, rc.converted, unmarshal, fn, sink, calls, n)
    ensures BodyReturns(request, HandlerContext(rc), unmarshal, fn, sink, calls, n) ==>
              StreamOutcome(request, rc, unmarshal, fn, sink, calls, n) ==
              GeneratedStreamOutcome(request, rc, unmarshal, fn, sink, calls, n)
  {
    HandlerContextSameForBody(rc);
    if unmarshal(request).Ok? {
      var req := unmarshal(request).value;
      var f, g := fn(HandlerContext(rc), req), fn(rc.converted, req);
      if Returns(f, sink, calls, [], n) {
        RunsAlike(f, g, sink, calls, [], n);
      } else if Returns(g, sink, calls, [], n) {
        RunsAlike(g, f, sink, calls, [], n);
      }
    }
    if BodyReturns(request, HandlerContext(rc), unmarshal, fn, sink, calls, n) {
      StreamRefinesGenerated(request, rc, unmarshal, fn, sink, calls, n, n);
    }
  }

  /** The shape of every finished trace: one SendError alone, or sends, one Close and at most one SendError. */
  ghost predicate ProtocolShape<P>(calls: seq<SinkCall<P>>, err: Option<Error>) {
    || (|calls| == 1 && err.Some? && calls[0] == SendError(err.value))
    || exists n :: n >= 0 && ClosesAfter(calls, err, n)
  }

  ghost predicate ClosesAfter<P>(calls: seq<SinkCall<P>>, err: Option<Error>, n: nat) {
    && |calls| == n + (if err.Some? then 2 else 1)
    && (forall i :: 0 <= i < n ==> calls[i].Send?)
    && calls[n] == Close
    && (err.Some? ==> calls[n + 1] == SendError(err.value))
  }

  /** The sink protocol, for every request, body and sink: the trace has that shape, an error is reported on the
      sink exactly when Handle returns one, and it is that one, an RpcError; only a decodable request runs the body. */
  lemma SinkProtocol<Req(!new), P(!new)>(request: Bytes, rc: RpcContext, unmarshal: Bytes -> Result<Req>,
    fn: StreamFn<Req, P>, sink: Behaviour<P>, n: nat)
    requires BodyReturns(request, HandlerContext(rc), unmarshal, fn, sink, [], n)
    ensures var r := StreamOutcome(request, rc, unmarshal, fn, sink, [], n);
            && ProtocolShape(r.calls, r.err)
            && (unmarshal(request).Err? <==> Close !in r.calls)
            && (unmarshal(request).Ok? ==>
                  ClosesAfter(r.calls, r.err, n) &&
                  r.calls[..n] == Run(fn(HandlerContext(rc), unmarshal(request).value), sink, [], [], n).calls)
            && (forall e :: SendError(e) in r.calls <==> r.err == Some(e))
            && (r.err.Some? ==> r.err.value.RpcError?)
  {
    var r := StreamOutcome(request, rc, unmarshal, fn, sink, [], n);
    if unmarshal(request).Ok? {
      RunOnlySends(fn(HandlerContext(rc), unmarshal(request).value), sink, [], [], n);
      assert ClosesAfter(r.calls, r.err, n);
      assert r.calls[n] == Close;
      if r.err.Some? {
        assert r.calls[n + 1] == SendError(r.err.value);
      }
    } else {
      assert r.calls[0] == SendError(r.err.value);
    }
  }

  /** The error reported for a run: its own, else the close error, with Internal when it is plain. */
  function Reported<P>(ran: Outcome<P>, sink: Behaviour<P>): Option<Error> {
    match (if ran.err.Some? then ran.err else sink(ran.calls + [Close]))
    case Some(Plain(m)) => Some(RpcError(Internal, m, None))
    case other => other
  }

  /** The error that leaves a streaming call: the body's if it has one, else the close error, either of
      them unchanged when it is an RpcError and with Internal when it is not. */
  lemma StreamErrors<Req(!new), P(!new)>(request: Bytes, rc: RpcContext, unmarshal: Bytes -> Result<Req>,
    fn: StreamFn<Req, P>, sink: Behaviour<P>, n: nat)
    requires PlainErrors(unmarshal)
    requires BodyReturns(request, HandlerContext(rc), unmarshal, fn, sink, [], n)
    ensures unmarshal(request).Err? ==>
              StreamOutcome(request, rc, unmarshal, fn, sink, [], n).err ==
              Some(RpcError(InvalidArgument, unmarshal(request).error.message, None))
    ensures unmarshal(request).Ok? ==>
              StreamOutcome(request, rc, unmarshal, fn, sink, [], n).err ==
              Reported(Run(fn(HandlerContext(rc), unmarshal(request).value), sink, [], [], n), sink)
  {
  }
}
