/** Where v0 is not transparent: it sends no agent-card request, and of a task request only the ID. */
module VersionZero {
  import opened Outcomes
  import opened Contexts
  import opened Sinks
  import opened Adapters
  import opened ServerLoop
  import opened ClientLoop
  import opened Relays
  import opened UnaryCalls

  /** A request that names a task. The domain types CancelTaskRequest and SubscribeToTaskRequest are declared outside
      the repository; rest stands for all their fields but the ID. */
  datatype TaskRequest<+X> = TaskRequest(id: string, rest: X)

  /** The handler methods of v0 build their task requests from the ID in the resource name and nothing else. */
  function FromName<X>(extractTaskID: string -> Result<string>, none: X): string -> Result<TaskRequest<X>> {
    (name: string) =>
      match extractTaskID(name)
      case Err(e) => Err(e)
      case Ok(id) => Ok(TaskRequest(id, none))
  }

  // ---------- CancelTask ----------

  function CancelTaskV0<X, B, R>(toName: TaskRequest<X> -> Result<string>, extractTaskID: string -> Result<string>,
    none: X, wire: Codec<TaskRequest<X>, string, B, R>): Codec<TaskRequest<X>, string, B, R>
  {
    wire.(encodeReq := toName, decodeReq := FromName(extractTaskID, none))
  }

  /** v0's CancelTask carries the task ID faithfully, and is transparent for exactly the requests that carry nothing
      else. */
  lemma CancelTaskV0Transparency<X(!new), B(!new), R>(toName: TaskRequest<X> -> Result<string>,
    extractTaskID: string -> Result<string>, none: X, wire: Codec<TaskRequest<X>, string, B, R>,
    h: UnaryFn<TaskRequest<X>, B>, via: Route, a: TaskRequest<X>)
    requires var c := CancelTaskV0(toName, extractTaskID, none, wire);
             ResponsesSurvive(c) && Then(c.encodeReq, c.marshalReq, a).Ok?
    requires forall n :: wire.marshalReq(n).Ok? ==> wire.unmarshalReq(wire.marshalReq(n).value) == Ok(n)
    requires forall r :: toName(r).Ok? ==> extractTaskID(toName(r).value) == Ok(r.id)
    requires via.fault.None?
    ensures var c := CancelTaskV0(toName, extractTaskID, none, wire);
            && RemoteCall(c, h, via, a) == AsReported(c, h(HandlerContext(via.rc), TaskRequest(a.id, none)))
            && (CallsTransparently(c, via, a) <==> a.rest == none)
  {
    var c := CancelTaskV0(toName, extractTaskID, none, wire);
    var norm := (r: TaskRequest<X>) => TaskRequest(r.id, none);
    forall r | Then(c.encodeReq, c.marshalReq, r).Ok?
      ensures Then(c.unmarshalReq, c.decodeReq, Then(c.encodeReq, c.marshalReq, r).value) == Ok(norm(r))
    {
      assert toName(r).Ok?;
    }
    Transparency(c, norm, h, via, a);
    TransparentExactly(c, norm, via, a);
  }

  /** A name that is not a task's: the method returns the extraction's error, whatever the handler, and never calls it
      with the name. */
  lemma CancelTaskV0Refuses<X, B, R>(toName: TaskRequest<X> -> Result<string>,
    extractTaskID: string -> Result<string>, none: X, wire: Codec<TaskRequest<X>, string, B, R>,
    h: UnaryFn<TaskRequest<X>, B>, ctx: Context, name: string)
    ensures var serve := HandlerMethod(CancelTaskV0(toName, extractTaskID, none, wire), h);
            match extractTaskID(name)
            case Err(e) => serve(ctx, name) == Err(e)
            case Ok(id) =>
              match h(ctx, TaskRequest(id, none))
              case Err(e) => serve(ctx, name) == Err(e)
              case Ok(b) => serve(ctx, name) == wire.encodeResp(b)
  {
    MethodErrors(CancelTaskV0(toName, extractTaskID, none, wire), h, ctx, name);
  }

  // ---------- GetExtendedAgentCard ----------

  /** Both ends ignore the request, and the handler gets the empty one. */
  function AgentCardV0<A, B, R>(empty: A, wire: Codec<A, (), B, R>): Codec<A, (), B, R> {
    wire.(encodeReq := (_: A) => Ok(()), decodeReq := (_: ()) => Ok(empty))
  }

  /** v0's agent-card call is the local call with the empty request, whatever the caller passes, and so it
      is transparent for exactly that request. */
  lemma AgentCardV0Transparency<A(!new), B(!new), R>(empty: A, wire: Codec<A, (), B, R>, h: UnaryFn<A, B>,
    via: Route, a: A)
    requires var c := AgentCardV0(empty, wire);
             ResponsesSurvive(c) && c.marshalReq(()).Ok? && c.unmarshalReq(c.marshalReq(()).value) == Ok(())
    requires via.fault.None?
    ensures var c := AgentCardV0(empty, wire);
            && RemoteCall(c, h, via, a) == AsReported(c, h(HandlerContext(via.rc), empty))
            && (CallsTransparently(c, via, a) <==> a == empty)
  {
    var c := AgentCardV0(empty, wire);
    var norm := (_: A) => empty;
    assert RequestsArriveAs(c, norm);
    Transparency(c, norm, h, via, a);
    TransparentExactly(c, norm, via, a);
  }

  // ---------- TaskSubscription ----------

  /** v0's SubscribeToTask streams the local events for a request with the task ID and nothing else, and is transparent
      for exactly the requests that carry nothing else, over any link that can carry some event. */
  lemma TaskSubscriptionV0Transparency<X(!new), E(!new), P>(toName: TaskRequest<X> -> Result<string>,
    extractTaskID: string -> Result<string>, none: X, marshal: string -> Result<Bytes>,
    unmarshal: Bytes -> Result<string>, h: (Context, TaskRequest<X>) -> seq<Item<E>>, rc: RpcContext, link: Link<E, P>,
    v: E, a: TaskRequest<X>)
    requires toName(a).Ok? && extractTaskID(toName(a).value) == Ok(a.id)
    requires marshal(toName(a).value).Ok? && unmarshal(marshal(toName(a).value).value) == toName(a)
    requires Smooth(link, [Event(v)])
    ensures var decode := FromName(extractTaskID, none);
            && Remote(a, toName, marshal, unmarshal, decode, h, rc, link, Everything()) ==
               Relay(link, h(HandlerContext(rc), TaskRequest(a.id, none)), Everything())
            && (StreamsTransparently(a, toName, marshal, unmarshal, decode, rc, link) <==> a.rest == none)
  {
    var decode := FromName(extractTaskID, none);
    var b := TaskRequest(a.id, none);
    RemoteIsRelay(a, b, toName, marshal, unmarshal, decode, h, rc, link, Everything());
    StreamingTransparentExactly(a, b, toName, marshal, unmarshal, decode, rc, link, v);
  }

  /** A name that is not a task's: no handler is called, nothing is sent, and the call returns the extraction's error,
      with Internal unless it has a code. The consumer is given nothing, or the error of a breaking channel. */
  lemma TaskSubscriptionV0Refuses<X, E, P>(toName: TaskRequest<X> -> Result<string>,
    extractTaskID: string -> Result<string>, none: X, marshal: string -> Result<Bytes>,
    unmarshal: Bytes -> Result<string>, h: (Context, TaskRequest<X>) -> seq<Item<E>>, rc: RpcContext, link: Link<E, P>,
    wants: Appetite<E>, a: TaskRequest<X>)
    requires Then(toName, marshal, a).Ok?
    requires Then(unmarshal, extractTaskID, Then(toName, marshal, a).value).Err?
    ensures var decode := FromName(extractTaskID, none);
            var request := Then(toName, marshal, a).value;
            && Remote(a, toName, marshal, unmarshal, decode, h, rc, link, wants) == Broken(link.breaks)
            && (unmarshal(request).Ok? ==>
                  var e := Coded(extractTaskID(unmarshal(request).value).error, Internal);
                  Served(request, unmarshal, decode, h, rc, link) == Outcome([Close, SendError(e)], Some(e)))
  {
    var decode := FromName(extractTaskID, none);
    RefusedRequest(Then(toName, marshal, a).value, unmarshal, decode, h, rc, link);
    UnsentRequest(a, toName, marshal, unmarshal, decode, h, rc, link, wants);
  }

  // ---------- failing inputs ----------

  /** A peer and a channel without surprises. */
  const DIRECT := Route(RpcContext(None, None, Background), None)

  /** Conversions for methods whose response carries nothing, with the two request conversions left open. */
  function PlainCodec<A, Q>(encode: A -> Result<Q>, marshal: Q -> Result<Bytes>, unmarshal: Bytes -> Result<Q>,
    decode: Q -> Result<A>): Codec<A, Q, (), ()>
  {
    Codec(encode, marshal, unmarshal, decode,
          (_: ()) => Ok(()), (_: ()) => Ok([]), (_: Bytes) => Ok(()), (_: ()) => Ok(()))
  }

  lemma EmptyResponsesSurvive<A, Q>(c: Codec<A, Q, (), ()>)
    requires forall b :: c.unmarshalResp(b) == Ok(())
    requires c.decodeResp(()) == Ok(())
    ensures ResponsesSurvive(c)
  {
    forall b | Then(c.encodeResp, c.marshalResp, b).Ok?
      ensures Then(c.unmarshalResp, c.decodeResp, Then(c.encodeResp, c.marshalResp, b).value) == Ok(b)
    {
      assert b == ();
    }
  }

  /** An agent-card request that is lost: the caller asks for one card and the handler is asked for another. */
  lemma AgentCardV0Fails()
    ensures var wire := PlainCodec((_: string) => Ok(()), (_: ()) => Ok([]), (_: Bytes) => Ok(()), (_: ()) => Ok(""));
            var c := AgentCardV0("", wire);
            var h: UnaryFn<string, ()> := (_: Context, x: string) => Err(Plain(x));
            && ResponsesSurvive(c) && c.marshalReq(()).Ok? && c.unmarshalReq(c.marshalReq(()).value) == Ok(())
            && RemoteCall(c, h, DIRECT, "extended") == Err(RpcError(Internal, "", None))
            && AsReported(c, h(HandlerContext(DIRECT.rc), "extended")) == Err(RpcError(Internal, "extended", None))
            && !CallsTransparently(c, DIRECT, "extended")
  {
    var wire := PlainCodec((_: string) => Ok(()), (_: ()) => Ok([]), (_: Bytes) => Ok(()), (_: ()) => Ok(""));
    var h: UnaryFn<string, ()> := (_: Context, x: string) => Err(Plain(x));
    EmptyResponsesSurvive(AgentCardV0("", wire));
    AgentCardV0Transparency("", wire, h, DIRECT, "extended");
  }

  /** Names of one task, and the request for it with something more in it. */
  const NAME_OF_T: TaskRequest<string> -> Result<string> :=
    (r: TaskRequest<string>) => if r.id == "t" then Ok("tasks/t") else Err(Plain("no such task"))
  const ID_OF_T: string -> Result<string> :=
    (name: string) => if name == "tasks/t" then Ok("t") else Err(Plain("no such task"))
  const MARSHAL_T: string -> Result<Bytes> :=
    (name: string) => if name == "tasks/t" then Ok([]) else Err(Plain("no such task"))
  const UNMARSHAL_T: Bytes -> Result<string> := (_: Bytes) => Ok("tasks/t")
  const FULL_REQUEST := TaskRequest("t", "rest")

  /** A cancel request of which everything but the ID is lost. */
  lemma CancelTaskV0Fails()
    ensures var wire := PlainCodec(NAME_OF_T, MARSHAL_T, UNMARSHAL_T, FromName(ID_OF_T, ""));
            var c := CancelTaskV0(NAME_OF_T, ID_OF_T, "", wire);
            var h: UnaryFn<TaskRequest<string>, ()> := (_: Context, r: TaskRequest<string>) => Err(Plain(r.rest));
            && ResponsesSurvive(c) && Then(c.encodeReq, c.marshalReq, FULL_REQUEST).Ok?
            && RemoteCall(c, h, DIRECT, FULL_REQUEST) == Err(RpcError(Internal, "", None))
            && AsReported(c, h(HandlerContext(DIRECT.rc), FULL_REQUEST)) == Err(RpcError(Internal, "rest", None))
            && !CallsTransparently(c, DIRECT, FULL_REQUEST)
  {
    var wire := PlainCodec(NAME_OF_T, MARSHAL_T, UNMARSHAL_T, FromName(ID_OF_T, ""));
    var h: UnaryFn<TaskRequest<string>, ()> := (_: Context, r: TaskRequest<string>) => Err(Plain(r.rest));
    EmptyResponsesSurvive(CancelTaskV0(NAME_OF_T, ID_OF_T, "", wire));
    CancelTaskV0Transparency(NAME_OF_T, ID_OF_T, "", wire, h, DIRECT, FULL_REQUEST);
  }

  /** A link over which nothing goes wrong. */
  const GOOD_LINK: Link<string, ()> :=
    Link((_: string) => Ok(()), (_: ()) => Ok("event"), (_: seq<SinkCall<()>>) => None, 1, None)

  /** A handler with an event for full requests only. */
  const FULL_ONLY: (Context, TaskRequest<string>) -> seq<Item<string>> :=
    (_: Context, r: TaskRequest<string>) => if r.rest == "rest" then [Event("event")] else []

  /** A subscription for which the local handler has an event and the remote one, asked with the ID alone, has none. */
  lemma TaskSubscriptionV0Fails()
    ensures Remote(FULL_REQUEST, NAME_OF_T, MARSHAL_T, UNMARSHAL_T, FromName(ID_OF_T, ""), FULL_ONLY, DIRECT.rc,
                   GOOD_LINK, Everything()) == []
    ensures Relay(GOOD_LINK, FULL_ONLY(HandlerContext(DIRECT.rc), FULL_REQUEST), Everything()) == [Event("event")]
  {
    RemoteIsRelay(FULL_REQUEST, TaskRequest("t", ""), NAME_OF_T, MARSHAL_T, UNMARSHAL_T, FromName(ID_OF_T, ""),
                  FULL_ONLY, DIRECT.rc, GOOD_LINK, Everything());
    NothingFromNothing(GOOD_LINK);
    CarriedIsDelivered(GOOD_LINK, [Event("event")]);
  }
}
