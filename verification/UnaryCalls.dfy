/** Unary calls end to end: Transport, generated client, adapter, Handler, and back; in chains; v0 and v1. */
module UnaryCalls {
  import opened Outcomes
  import opened Contexts
  import opened Adapters

  /** The conversions of one method: domain to protobuf message to bytes, and back, for requests A and responses B. */
  datatype Codec<!A, !Q, !B, !R> = Codec(
    encodeReq: A -> Result<Q>,
    marshalReq: Q -> Result<Bytes>,
    unmarshalReq: Bytes -> Result<Q>,
    decodeReq: Q -> Result<A>,
    encodeResp: B -> Result<R>,
    marshalResp: R -> Result<Bytes>,
    unmarshalResp: Bytes -> Result<R>,
    decodeResp: R -> Result<B>)

  /** How one call travels: the RPC context in which it arrives, and the channel's own error if it fails. A call
      that fails may or may not have been served. */
  datatype Route = Route(rc: RpcContext, fault: Option<Error>)

  /** A unary method of Handler. */
  function HandlerMethod<A, Q, B, R>(c: Codec<A, Q, B, R>, h: UnaryFn<A, B>): UnaryFn<Q, R> {
    (ctx: Context, q: Q) =>
      match c.decodeReq(q)
      case Err(e) => Err(e)
      case Ok(a) =>
        match h(ctx, a)
        case Err(e) => Err(e)
        case Ok(b) => c.encodeResp(b)
  }

  /** A unary method of Transport over the generated client: unless the channel fails it hands the request bytes to
      the adapter and brings its bytes or its error back. */
  function RemoteCall<A, Q, B, R>(c: Codec<A, Q, B, R>, h: UnaryFn<A, B>, via: Route, a: A): Result<B> {
    match c.encodeReq(a)
    case Err(e) => Err(e)
    case Ok(q) =>
      match c.marshalReq(q)
      case Err(e) => Err(e)
      case Ok(request) =>
        match Carry(UnaryHandle(request, via.rc, c.unmarshalReq, c.marshalResp, HandlerMethod(c, h)), via.fault)
        case Err(e) => Err(e)
        case Ok(response) =>
          match c.unmarshalResp(response)
          case Err(e) => Err(e)
          case Ok(r) => c.decodeResp(r)
  }

  /** The channel: what the adapter returned, or an error of its own. */
  function Carry<T>(served: Result<T>, fault: Option<Error>): Result<T> {
    match fault
    case Some(e) => Err(e)
    case None => served
  }

  /** Where a unary call fails, for arbitrary conversions: the caller's own conversions give their errors as they are,
      and nothing is sent; on the server undecodable bytes give InvalidArgument, and a message that the method refuses,
      the handler's own error and a response that does not convert give Internal, unless the error has a code; and in
      the end the caller's own conversions again. The channel's failure is told instead of anything on the server. */
  lemma CallErrors<A, Q, B, R>(c: Codec<A, Q, B, R>, h: UnaryFn<A, B>, via: Route, a: A)
    ensures var result := RemoteCall(c, h, via, a);
            match Then(c.encodeReq, c.marshalReq, a)
            case Err(e) => result == Err(e)
            case Ok(request) =>
              if via.fault.Some? then result == Err(via.fault.value)
              else
                match c.unmarshalReq(request)
                case Err(e) => result == Err(if e.RpcError? then e else RpcError(InvalidArgument, e.message, None))
                case Ok(q) =>
                  match HandlerMethod(c, h)(HandlerContext(via.rc), q)
                  case Err(e) => result == Err(if e.RpcError? then e else RpcError(Internal, e.message, None))
                  case Ok(r) =>
                    match c.marshalResp(r)
                    case Err(e) => result == Err(if e.RpcError? then e else RpcError(Internal, e.message, None))
                    case Ok(response) => result == Then(c.unmarshalResp, c.decodeResp, response)
  {
  }

  /** The handler is called for a message that decodes and no other, and the method's error is the first there is. */
  lemma MethodErrors<A, Q, B, R>(c: Codec<A, Q, B, R>, h: UnaryFn<A, B>, ctx: Context, q: Q)
    ensures c.decodeReq(q).Err? ==> HandlerMethod(c, h)(ctx, q) == Err(c.decodeReq(q).error)
    ensures c.decodeReq(q).Ok? ==>
              HandlerMethod(c, h)(ctx, q) == Then((a: A) => h(ctx, a), c.encodeResp, c.decodeReq(q).value)
  {
  }

  /** What the handler sees of request a is norm(a), whenever a can be sent at all. */
  ghost predicate RequestsArriveAs<A(!new), Q, B, R>(c: Codec<A, Q, B, R>, norm: A -> A) {
    forall a :: Then(c.encodeReq, c.marshalReq, a).Ok? ==>
      Then(c.unmarshalReq, c.decodeReq, Then(c.encodeReq, c.marshalReq, a).value) == Ok(norm(a))
  }

  /** Every response that can be sent arrives unchanged. */
  ghost predicate ResponsesSurvive<A, Q, B(!new), R>(c: Codec<A, Q, B, R>) {
    forall b :: Then(c.encodeResp, c.marshalResp, b).Ok? ==>
      Then(c.unmarshalResp, c.decodeResp, Then(c.encodeResp, c.marshalResp, b).value) == Ok(b)
  }

  /** The local result as a remote caller is told it: an error comes back as an RpcError, and so does a
      response that cannot be converted. */
  function AsReported<A, Q, B, R>(c: Codec<A, Q, B, R>, local: Result<B>): Result<B> {
    match local
    case Err(e) => Err(ToRPCError(e, Internal))
    case Ok(b) =>
      match Then(c.encodeResp, c.marshalResp, b)
      case Err(e) => Err(ToRPCError(e, Internal))
      case Ok(_) => Ok(b)
  }

  /** Transparency: a remote call is the local call with the request the handler sees, for every handler, request and
      peer, unless the channel fails; a request that cannot be converted never reaches the channel. */
  lemma Transparency<A(!new), Q, B(!new), R>(c: Codec<A, Q, B, R>, norm: A -> A, h: UnaryFn<A, B>, via: Route, a: A)
    requires RequestsArriveAs(c, norm) && ResponsesSurvive(c)
    ensures RemoteCall(c, h, via, a) ==
            match Then(c.encodeReq, c.marshalReq, a)
            case Err(e) => Err(e)
            case Ok(_) => Carry(AsReported(c, h(HandlerContext(via.rc), norm(a))), via.fault)
  {
    var wire := Then(c.encodeReq, c.marshalReq, a);
    if wire.Ok? {
      assert Then(c.unmarshalReq, c.decodeReq, wire.value) == Ok(norm(a));
      match h(HandlerContext(via.rc), norm(a))
      case Err(_) =>
      case Ok(b) =>
        if Then(c.encodeResp, c.marshalResp, b).Ok? {
          assert Then(c.unmarshalResp, c.decodeResp, Then(c.encodeResp, c.marshalResp, b).value) == Ok(b);
        }
    }
  }

  /** The remote call is the local one with the very request that was made, for every handler. */
  ghost predicate CallsTransparently<A(!new), Q, B(!new), R>(c: Codec<A, Q, B, R>, via: Route, a: A) {
    forall h: UnaryFn<A, B> :: RemoteCall(c, h, via, a) == AsReported(c, h(HandlerContext(via.rc), a))
  }

  /** For a request that can be sent this is so exactly when the channel does not fail and the conversions keep the
      request. */
  lemma TransparentExactly<A(!new), Q, B(!new), R>(c: Codec<A, Q, B, R>, norm: A -> A, via: Route, a: A)
    requires RequestsArriveAs(c, norm) && ResponsesSurvive(c)
    requires Then(c.encodeReq, c.marshalReq, a).Ok?
    ensures CallsTransparently(c, via, a) <==> via.fault.None? && norm(a) == a
  {
    if via.fault.Some? {
      var other: UnaryFn<A, B> := (_: Context, _: A) => Err(Plain(via.fault.value.message + "!"));
      Transparency(c, norm, other, via, a);
      assert AsReported(c, other(HandlerContext(via.rc), a)).error.message != via.fault.value.message;
      assert RemoteCall(c, other, via, a) != AsReported(c, other(HandlerContext(via.rc), a));
    } else if norm(a) != a {
      var telltale: UnaryFn<A, B> := (_: Context, x: A) => Err(Plain(if x == a then "same" else "other"));
      Transparency(c, norm, telltale, via, a);
      assert AsReported(c, telltale(HandlerContext(via.rc), a)).error.message == "same";
      assert RemoteCall(c, telltale, via, a).error.message == "other";
    } else {
      forall h: UnaryFn<A, B> ensures RemoteCall(c, h, via, a) == AsReported(c, h(HandlerContext(via.rc), a)) {
        Transparency(c, norm, h, via, a);
      }
    }
  }

  // ---------- chains of agents ----------

  /** A Transport as a RequestHandler: dial is how a call made in this context travels to the next agent. */
  function Forwarding<A, Q, B, R>(c: Codec<A, Q, B, R>, h: UnaryFn<A, B>, dial: Context -> Route): UnaryFn<A, B> {
    (ctx: Context, a: A) => RemoteCall(c, h, dial(ctx), a)
  }

  /** Agents that forward to the next; the last one calls h. */
  function Forwarders<A, Q, B, R>(c: Codec<A, Q, B, R>, h: UnaryFn<A, B>, dials: seq<Context -> Route>): UnaryFn<A, B>
    decreases |dials|
  {
    if dials == [] then h else Forwarding(c, Forwarders(c, h, dials[1..]), dials[0])
  }

  /** The routes of a call that starts in this context, hop by hop. */
  function Routes(ctx: Context, dials: seq<Context -> Route>): (routes: seq<Route>)
    ensures |routes| == |dials|
    decreases |dials|
  {
    if dials == [] then []
    else
      var route := dials[0](ctx);
      [route] + Routes(HandlerContext(route.rc), dials[1..])
  }

  function FarContext(ctx: Context, routes: seq<Route>): Context {
    if routes == [] then ctx else HandlerContext(routes[|routes| - 1].rc)
  }

  /** The hop nearest to the caller whose channel fails, or the number of hops. */
  function FirstFault(routes: seq<Route>): (k: nat)
    ensures k <= |routes|
    ensures forall i :: 0 <= i < k ==> routes[i].fault.None?
    ensures k < |routes| ==> routes[k].fault.Some?
  {
    if routes == [] || routes[0].fault.Some? then 0 else 1 + FirstFault(routes[1..])
  }

  /** What a call over these routes returns, when the last agent's own call returns local. */
  function OverRoutes<A, Q, B, R>(c: Codec<A, Q, B, R>, routes: seq<Route>, local: Result<B>): Result<B> {
    var k := FirstFault(routes);
    if routes == [] then local
    else if k == |routes| then AsReported(c, local)
    else if k == 0 then Err(routes[0].fault.value)
    else Err(ToRPCError(routes[k].fault.value, Internal))
  }

  lemma OneMoreRoute<A, Q, B, R>(c: Codec<A, Q, B, R>, route: Route, rest: seq<Route>, local: Result<B>)
    ensures OverRoutes(c, [route] + rest, local) == Carry(AsReported(c, OverRoutes(c, rest, local)), route.fault)
  {
    assert ([route] + rest)[1..] == rest;
  }

  /** Through any number of agents: if no channel on the way fails, the call is the local one at the far end, its
      error given a code once, at the first hop back, and never changed again. Otherwise the caller is told of the
      failure nearest to it, as it is when it is its own channel's and with a code when it is further away. */
  lemma {:induction false} ChainTransparency<A(!new), Q, B(!new), R>(c: Codec<A, Q, B, R>, h: UnaryFn<A, B>,
    dials: seq<Context -> Route>, ctx: Context, a: A)
    requires RequestsArriveAs(c, (x: A) => x) && ResponsesSurvive(c)
    requires Then(c.encodeReq, c.marshalReq, a).Ok?
    ensures var routes := Routes(ctx, dials);
            Forwarders(c, h, dials)(ctx, a) == OverRoutes(c, routes, h(FarContext(ctx, routes), a))
    decreases |dials|
  {
    if dials != [] {
      var route := dials[0](ctx);
      var next := Forwarders(c, h, dials[1..]);
      var rest := Routes(HandlerContext(route.rc), dials[1..]);
      var local := h(FarContext(ctx, [route] + rest), a);
      ChainTransparency(c, h, dials[1..], HandlerContext(route.rc), a);
      Transparency(c, (x: A) => x, next, route, a);
      OneMoreRoute(c, route, rest, local);
    }
  }
}
