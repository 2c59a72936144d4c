/** Registration: caller.Server put between the generated Register functions and the SLIM server. */
module Registration {
  import opened Outcomes

  datatype Kind = Unary | Stream

  /** One line of a generated Register function: the generated handler for a method of a service. */
  datatype Registration<+H> = Registration(kind: Kind, service: string, name: string, generated: H)

  /** Handlers by service and method, one table for each kind. */
  datatype Tables<H> = Tables(unary: map<(string, string), H>, stream: map<(string, string), H>)

  /** The adapters of a caller.Server, by method. */
  datatype Adapters<H> = Adapters(unary: map<string, H>, stream: map<string, H>)

  /** A panic stops the rest of the registration. */
  datatype Registered = Done | Panic(service: string, name: string) {
    predicate IsFailure() { Panic? }
    function PropagateFailure(): Registered requires Panic? { this }
  }

  class RpcServer<H> {
    var unary: map<(string, string), H>
    var stream: map<(string, string), H>

    constructor ()
      ensures Handlers() == Tables(map[], map[])
    {
      unary, stream := map[], map[];
    }

    function Handlers(): Tables<H>
      reads this
    {
      Tables(unary, stream)
    }

    method RegisterUnaryUnary(service: string, name: string, h: H)
      modifies this
      ensures Handlers() == old(Handlers()).(unary := old(unary)[(service, name) := h])
    {
      unary := unary[(service, name) := h];
    }

    method RegisterUnaryStream(service: string, name: string, h: H)
      modifies this
      ensures Handlers() == old(Handlers()).(stream := old(stream)[(service, name) := h])
    {
      stream := stream[(service, name) := h];
    }
  }

  /** There is an adapter of that kind for that name. */
  predicate HasAdapter<H>(a: Adapters<H>, kind: Kind, name: string) {
    if kind.Unary? then name in a.unary else name in a.stream
  }

  function AdapterFor<H>(a: Adapters<H>, kind: Kind, name: string): H
    requires HasAdapter(a, kind, name)
  {
    if kind.Unary? then a.unary[name] else a.stream[name]
  }

  function Enter<H>(t: Tables<H>, kind: Kind, service: string, name: string, h: H): Tables<H> {
    if kind.Unary? then t.(unary := t.unary[(service, name) := h]) else t.(stream := t.stream[(service, name) := h])
  }

  function Find<H>(t: Tables<H>, kind: Kind, service: string, name: string): Option<H> {
    var table := if kind.Unary? then t.unary else t.stream;
    if (service, name) in table then Some(table[(service, name)]) else None
  }

  /** caller.Server. */
  class Server<H> {
    const inner: RpcServer<H>
    const adapters: Adapters<H>

    constructor (inner: RpcServer<H>, adapters: Adapters<H>)
      ensures this.inner == inner && this.adapters == adapters
    {
      this.inner, this.adapters := inner, adapters;
    }

    method RegisterUnaryUnary(service: string, name: string, generated: H) returns (o: Registered)
      modifies inner
      ensures o == if name in adapters.unary then Done else Panic(service, name)
      ensures inner.Handlers() ==
              if o.Done? then Enter(old(inner.Handlers()), Unary, service, name, adapters.unary[name])
              else old(inner.Handlers())
    {
      if name !in adapters.unary {
        return Panic(service, name);
      }
      inner.RegisterUnaryUnary(service, name, adapters.unary[name]);
      return Done;
    }

    method RegisterUnaryStream(service: string, name: string, generated: H) returns (o: Registered)
      modifies inner
      ensures o == if name in adapters.stream then Done else Panic(service, name)
      ensures inner.Handlers() ==
              if o.Done? then Enter(old(inner.Handlers()), Stream, service, name, adapters.stream[name])
              else old(inner.Handlers())
    {
      if name !in adapters.stream {
        return Panic(service, name);
      }
      inner.RegisterUnaryStream(service, name, adapters.stream[name]);
      return Done;
    }
  }

  /** A generated Register function: its calls one after the other, here as a list. */
  method RegisterService<H>(server: Server<H>, calls: seq<Registration<H>>) returns (o: Registered)
    modifies server.inner
    ensures server.inner.Handlers() == RegisterAll(calls, server.adapters, old(server.inner.Handlers()))
    ensures var n := Covered(calls, server.adapters);
            o == if n == |calls| then Done else Panic(calls[n].service, calls[n].name)
  {
    for i := 0 to |calls|
      invariant RegisterAll(calls[i..], server.adapters, server.inner.Handlers()) ==
                RegisterAll(calls, server.adapters, old(server.inner.Handlers()))
      invariant Covered(calls, server.adapters) == i + Covered(calls[i..], server.adapters)
    {
      assert calls[i..][1..] == calls[i + 1..];
      var c := calls[i];
      match c.kind {
        case Unary => :- server.RegisterUnaryUnary(c.service, c.name, c.generated);
        case Stream => :- server.RegisterUnaryStream(c.service, c.name, c.generated);
      }
    }
    return Done;
  }

  /** How many of the calls go through before the first one without an adapter of its kind. */
  function Covered<H>(calls: seq<Registration<H>>, a: Adapters<H>): (n: nat)
    ensures n <= |calls|
    ensures forall i :: 0 <= i < n ==> HasAdapter(a, calls[i].kind, calls[i].name)
    ensures n < |calls| ==> !HasAdapter(a, calls[n].kind, calls[n].name)
  {
    if calls == [] || !HasAdapter(a, calls[0].kind, calls[0].name) then 0 else 1 + Covered(calls[1..], a)
  }

  function RegisterAll<H>(calls: seq<Registration<H>>, a: Adapters<H>, t: Tables<H>): Tables<H>
    decreases |calls|
  {
    if calls == [] || !HasAdapter(a, calls[0].kind, calls[0].name) then t
    else
      var c := calls[0];
      RegisterAll(calls[1..], a, Enter(t, c.kind, c.service, c.name, AdapterFor(a, c.kind, c.name)))
  }

  predicate Matches<H>(c: Registration<H>, kind: Kind, service: string, name: string) {
    c.kind == kind && c.service == service && c.name == name
  }

  /** One of the calls is for this method. */
  predicate Registers<H>(calls: seq<Registration<H>>, kind: Kind, service: string, name: string) {
    calls != [] && (Matches(calls[0], kind, service, name) || Registers(calls[1..], kind, service, name))
  }

  lemma {:induction false} RegistersExactly<H>(calls: seq<Registration<H>>, kind: Kind, service: string, name: string)
    ensures Registers(calls, kind, service, name) <==>
            exists i :: 0 <= i < |calls| && Matches(calls[i], kind, service, name)
  {
    if calls != [] {
      RegistersExactly(calls[1..], kind, service, name);
      assert forall i :: 0 < i < |calls| ==> calls[i] == calls[1..][i - 1];
      if Registers(calls[1..], kind, service, name) {
        var i :| 0 <= i < |calls[1..]| && Matches(calls[1..][i], kind, service, name);
        assert Matches(calls[i + 1], kind, service, name);
      }
    }
  }

  /** One of the calls that go through is for this method. */
  predicate Serves<H>(calls: seq<Registration<H>>, a: Adapters<H>, kind: Kind, service: string, name: string) {
    && calls != []
    && HasAdapter(a, calls[0].kind, calls[0].name)
    && (Matches(calls[0], kind, service, name) || Serves(calls[1..], a, kind, service, name))
  }

  lemma {:induction false} ServesExactly<H>(calls: seq<Registration<H>>, a: Adapters<H>, kind: Kind,
    service: string, name: string)
    ensures Serves(calls, a, kind, service, name) <==> Registers(calls[..Covered(calls, a)], kind, service, name)
    ensures Serves(calls, a, kind, service, name) ==> HasAdapter(a, kind, name)
  {
    if calls != [] && HasAdapter(a, calls[0].kind, calls[0].name) {
      ServesExactly(calls[1..], a, kind, service, name);
      var n := Covered(calls[1..], a);
      assert calls[..n + 1][1..] == calls[1..][..n];
    }
  }

  /** Interposition, for any calls and any adapters: under every service, method and kind the server holds the
      adapter of that method and kind if one of the calls that went through registers it, and what it held
      before if none does. No generated handler is ever among the values. */
  lemma {:induction false} OnlyAdapters<H>(calls: seq<Registration<H>>, a: Adapters<H>, t: Tables<H>,
    kind: Kind, service: string, name: string)
    ensures Serves(calls, a, kind, service, name) ==>
              HasAdapter(a, kind, name) &&
              Find(RegisterAll(calls, a, t), kind, service, name) == Some(AdapterFor(a, kind, name))
    ensures !Serves(calls, a, kind, service, name) ==>
              Find(RegisterAll(calls, a, t), kind, service, name) == Find(t, kind, service, name)
    decreases |calls|
  {
    if calls != [] && HasAdapter(a, calls[0].kind, calls[0].name) {
      var c := calls[0];
      var h := AdapterFor(a, c.kind, c.name);
      OnlyAdapters(calls[1..], a, Enter(t, c.kind, c.service, c.name, h), kind, service, name);
      FindEnter(t, c.kind, c.service, c.name, h, kind, service, name);
    }
  }

  lemma FindEnter<H>(t: Tables<H>, k: Kind, s: string, n: string, h: H, kind: Kind, service: string, name: string)
    ensures Find(Enter(t, k, s, n, h), kind, service, name) ==
            if k == kind && s == service && n == name then Some(h) else Find(t, kind, service, name)
  {
  }

  /** Two services on one server do not touch each other's methods, so the order in which they register
      makes no difference. */
  lemma OrderDoesNotMatter<H(!new)>(calls1: seq<Registration<H>>, a1: Adapters<H>, calls2: seq<Registration<H>>,
    a2: Adapters<H>, t: Tables<H>)
    requires forall c, d :: c in calls1 && d in calls2 ==> c.service != d.service
    ensures RegisterAll(calls2, a2, RegisterAll(calls1, a1, t)) == RegisterAll(calls1, a1, RegisterAll(calls2, a2, t))
  {
    var x := RegisterAll(calls2, a2, RegisterAll(calls1, a1, t));
    var y := RegisterAll(calls1, a1, RegisterAll(calls2, a2, t));
    forall kind, service, name ensures Find(x, kind, service, name) == Find(y, kind, service, name) {
      OnlyAdapters(calls1, a1, t, kind, service, name);
      OnlyAdapters(calls2, a2, RegisterAll(calls1, a1, t), kind, service, name);
      OnlyAdapters(calls2, a2, t, kind, service, name);
      OnlyAdapters(calls1, a1, RegisterAll(calls2, a2, t), kind, service, name);
      ServesExactly(calls1, a1, kind, service, name);
      ServesExactly(calls2, a2, kind, service, name);
      NotBoth(calls1[..Covered(calls1, a1)], calls2[..Covered(calls2, a2)], kind, service, name);
    }
    SameFindings(x, y);
  }

  lemma NotBoth<H>(calls1: seq<Registration<H>>, calls2: seq<Registration<H>>, kind: Kind, service: string,
    name: string)
    requires forall c, d :: c in calls1 && d in calls2 ==> c.service != d.service
    ensures !(Registers(calls1, kind, service, name) && Registers(calls2, kind, service, name))
  {
    RegistersExactly(calls1, kind, service, name);
    RegistersExactly(calls2, kind, service, name);
  }

  lemma SameFindings<H(!new)>(x: Tables<H>, y: Tables<H>)
    requires forall kind, service, name :: Find(x, kind, service, name) == Find(y, kind, service, name)
    ensures x == y
  {
    forall p ensures (p in x.unary <==> p in y.unary) && (p in x.unary ==> x.unary[p] == y.unary[p]) {
      assert Find(x, Unary, p.0, p.1) == Find(y, Unary, p.0, p.1);
      assert p == (p.0, p.1);
    }
    forall p ensures (p in x.stream <==> p in y.stream) && (p in x.stream ==> x.stream[p] == y.stream[p]) {
      assert Find(x, Stream, p.0, p.1) == Find(y, Stream, p.0, p.1);
      assert p == (p.0, p.1);
    }
    assert x.unary == y.unary && x.stream == y.stream;
  }

  // ---------- the two services ----------

  const V0_SERVICE := "a2a.v1.A2AService"
  const V1_SERVICE := "lf.a2a.v1.A2AService"

  const V0_UNARY: set<string> := {
    "SendMessage", "GetTask", "ListTasks", "CancelTask", "CreateTaskPushNotificationConfig",
    "GetTaskPushNotificationConfig", "ListTaskPushNotificationConfig", "GetAgentCard",
    "DeleteTaskPushNotificationConfig"}
  const V0_STREAM: set<string> := {"SendStreamingMessage", "TaskSubscription"}

  const V1_UNARY: set<string> := {
    "SendMessage", "GetTask", "ListTasks", "CancelTask", "CreateTaskPushNotificationConfig",
    "GetTaskPushNotificationConfig", "ListTaskPushNotificationConfigs", "GetExtendedAgentCard",
    "DeleteTaskPushNotificationConfig"}
  const V1_STREAM: set<string> := {"SendStreamingMessage", "SubscribeToTask"}

  /** The calls of RegisterA2AServiceServer of a2apb/v0, in order. */
  const V0_CALLS: seq<(Kind, string)> := [
    (Unary, "SendMessage"), (Stream, "SendStreamingMessage"), (Unary, "GetTask"), (Unary, "ListTasks"),
    (Unary, "CancelTask"), (Stream, "TaskSubscription"), (Unary, "CreateTaskPushNotificationConfig"),
    (Unary, "GetTaskPushNotificationConfig"), (Unary, "ListTaskPushNotificationConfig"), (Unary, "GetAgentCard"),
    (Unary, "DeleteTaskPushNotificationConfig")]

  /** The calls of RegisterA2AServiceServer of a2apb/v1, in order. */
  const V1_CALLS: seq<(Kind, string)> := [
    (Unary, "SendMessage"), (Stream, "SendStreamingMessage"), (Unary, "GetTask"), (Unary, "ListTasks"),
    (Unary, "CancelTask"), (Stream, "SubscribeToTask"), (Unary, "CreateTaskPushNotificationConfig"),
    (Unary, "GetTaskPushNotificationConfig"), (Unary, "ListTaskPushNotificationConfigs"),
    (Unary, "GetExtendedAgentCard"), (Unary, "DeleteTaskPushNotificationConfig")]

  function Generated<H>(service: string, calls: seq<(Kind, string)>, generated: (Kind, string) -> H):
    seq<Registration<H>>
  {
    seq(|calls|, i requires 0 <= i < |calls| =>
      Registration(calls[i].0, service, calls[i].1, generated(calls[i].0, calls[i].1)))
  }

  /** The adapter tables of Handler.RegisterWith. */
  function TablesOf<H>(unaryNames: set<string>, streamNames: set<string>, adapt: (Kind, string) -> H): Adapters<H> {
    Adapters(map n | n in unaryNames :: adapt(Unary, n), map n | n in streamNames :: adapt(Stream, n))
  }

  lemma {:induction false} AllCovered<H>(calls: seq<Registration<H>>, a: Adapters<H>)
    requires forall i :: 0 <= i < |calls| ==> HasAdapter(a, calls[i].kind, calls[i].name)
    ensures Covered(calls, a) == |calls|
  {
  }

  /** The tables have an adapter for each of the calls, and for nothing else. */
  ghost predicate Lists(calls: seq<(Kind, string)>, unaryNames: set<string>, streamNames: set<string>) {
    && (forall i :: 0 <= i < |calls| ==>
          if calls[i].0.Unary? then calls[i].1 in unaryNames else calls[i].1 in streamNames)
    && (forall n :: n in unaryNames ==> (Unary, n) in calls)
    && (forall n :: n in streamNames ==> (Stream, n) in calls)
  }

  lemma GeneratedRegisters<H>(service: string, calls: seq<(Kind, string)>, g: (Kind, string) -> H, kind: Kind,
    s: string, name: string)
    ensures Registers(Generated(service, calls, g), kind, s, name) <==> s == service && (kind, name) in calls
  {
    var registrations := Generated(service, calls, g);
    RegistersExactly(registrations, kind, s, name);
    if s == service && (kind, name) in calls {
      var i :| 0 <= i < |calls| && calls[i] == (kind, name);
      assert Matches(registrations[i], kind, s, name);
    }
    if Registers(registrations, kind, s, name) {
      var i :| 0 <= i < |registrations| && Matches(registrations[i], kind, s, name);
      assert calls[i] == (kind, name);
    }
  }

  lemma GeneratedCovered<H>(service: string, calls: seq<(Kind, string)>, unaryNames: set<string>,
    streamNames: set<string>, g: (Kind, string) -> H, m: (Kind, string) -> H)
    requires Lists(calls, unaryNames, streamNames)
    ensures Covered(Generated(service, calls, g), TablesOf(unaryNames, streamNames, m)) == |calls|
  {
    AllCovered(Generated(service, calls, g), TablesOf(unaryNames, streamNames, m));
  }

  /** RegisterWith: when the adapter tables list exactly the generated methods, registration goes through, and
      the service's methods are served by the adapters and nothing else changes. */
  lemma RegisterWith<H>(service: string, calls: seq<(Kind, string)>, unaryNames: set<string>, streamNames: set<string>,
    g: (Kind, string) -> H, m: (Kind, string) -> H, t: Tables<H>, kind: Kind, s: string, name: string)
    requires Lists(calls, unaryNames, streamNames)
    ensures Covered(Generated(service, calls, g), TablesOf(unaryNames, streamNames, m)) == |calls|
    ensures Find(RegisterAll(Generated(service, calls, g), TablesOf(unaryNames, streamNames, m), t), kind, s, name) ==
            if s == service && (kind, name) in calls then Some(m(kind, name)) else Find(t, kind, s, name)
  {
    GeneratedCovered(service, calls, unaryNames, streamNames, g, m);
    GeneratedRegisters(service, calls, g, kind, s, name);
    ServesExactly(Generated(service, calls, g), TablesOf(unaryNames, streamNames, m), kind, s, name);
    OnlyAdapters(Generated(service, calls, g), TablesOf(unaryNames, streamNames, m), t, kind, s, name);
    assert Generated(service, calls, g)[..|calls|] == Generated(service, calls, g);
  }

  /** The real tables list exactly the real calls, for both versions. */
  lemma V0TablesAreComplete()
    ensures Lists(V0_CALLS, V0_UNARY, V0_STREAM)
  {
  }

  lemma V1TablesAreComplete()
    ensures Lists(V1_CALLS, V1_UNARY, V1_STREAM)
  {
  }

  /** Both packages on one server, in either order: no registration panics, the tables are the same, and each
      method of each service is served by that package's own adapter for it. */
  lemma DualRegistration<H(!new)>(g0: (Kind, string) -> H, m0: (Kind, string) -> H, g1: (Kind, string) -> H,
    m1: (Kind, string) -> H, t: Tables<H>, kind: Kind, service: string, name: string)
    ensures var calls0, calls1 := Generated(V0_SERVICE, V0_CALLS, g0), Generated(V1_SERVICE, V1_CALLS, g1);
            var a0, a1 := TablesOf(V0_UNARY, V0_STREAM, m0), TablesOf(V1_UNARY, V1_STREAM, m1);
            var both := RegisterAll(calls1, a1, RegisterAll(calls0, a0, t));
            && Covered(calls0, a0) == |calls0| && Covered(calls1, a1) == |calls1|
            && both == RegisterAll(calls0, a0, RegisterAll(calls1, a1, t))
            && Find(both, kind, service, name) ==
               if service == V0_SERVICE && (kind, name) in V0_CALLS then Some(m0(kind, name))
               else if service == V1_SERVICE && (kind, name) in V1_CALLS then Some(m1(kind, name))
               else Find(t, kind, service, name)
  {
    V0TablesAreComplete();
    V1TablesAreComplete();
    DualRegisterWith(V0_CALLS, V0_UNARY, V0_STREAM, V1_CALLS, V1_UNARY, V1_STREAM,
                     g0, m0, g1, m1, t, kind, service, name);
  }

  lemma DualRegisterWith<H(!new)>(list0: seq<(Kind, string)>, unary0: set<string>, stream0: set<string>,
    list1: seq<(Kind, string)>, unary1: set<string>, stream1: set<string>, g0: (Kind, string) -> H,
    m0: (Kind, string) -> H, g1: (Kind, string) -> H, m1: (Kind, string) -> H, t: Tables<H>, kind: Kind,
    service: string, name: string)
    requires Lists(list0, unary0, stream0) && Lists(list1, unary1, stream1)
    ensures var calls0, calls1 := Generated(V0_SERVICE, list0, g0), Generated(V1_SERVICE, list1, g1);
            var a0, a1 := TablesOf(unary0, stream0, m0), TablesOf(unary1, stream1, m1);
            var both := RegisterAll(calls1, a1, RegisterAll(calls0, a0, t));
            && Covered(calls0, a0) == |calls0| && Covered(calls1, a1) == |calls1|
            && both == RegisterAll(calls0, a0, RegisterAll(calls1, a1, t))
            && Find(both, kind, service, name) ==
               if service == V0_SERVICE && (kind, name) in list0 then Some(m0(kind, name))
               else if service == V1_SERVICE && (kind, name) in list1 then Some(m1(kind, name))
               else Find(t, kind, service, name)
  {
    var calls0, calls1 := Generated(V0_SERVICE, list0, g0), Generated(V1_SERVICE, list1, g1);
    var a0, a1 := TablesOf(unary0, stream0, m0), TablesOf(unary1, stream1, m1);
    RegisterWith(V0_SERVICE, list0, unary0, stream0, g0, m0, t, kind, service, name);
    RegisterWith(V1_SERVICE, list1, unary1, stream1, g1, m1, RegisterAll(calls0, a0, t), kind, service, name);
    OrderDoesNotMatter(calls0, a0, calls1, a1, t);
  }
}
