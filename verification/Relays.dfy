/** End to end: server loop, adapter, sink, channel and client loop composed, once and in chains. */
module Relays {
  import opened Outcomes
  import opened Contexts
  import opened Sinks
  import opened Adapters
  import opened ServerLoop
  import opened ClientLoop

  /** One Handler and the Transport that talks to it. The channel delivers some prefix of the messages in
      order, and then either fails or reports the end: nothing is said about whether the client learns of
      an error that the server put on its sink. */
  datatype Link<!E, !P> = Link(enc: E -> Result<P>, dec: P -> Result<E>, sink: Behaviour<P>, delivers: nat,
      breaks: Option<Error>)

  function Arriving<P>(sent: seq<P>, delivers: nat, breaks: Option<Error>): seq<Recv<P>> {
    var n := if delivers < |sent| then delivers else |sent|;
    seq(n, i requires 0 <= i < n => Response(sent[i])) + match breaks case Some(e) => [RecvError(e)] case None => []
  }

  /** What a consumer gets from the Transport when the handler's iterator produces items. */
  function Relay<E, P>(link: Link<E, P>, items: seq<Item<E>>, wants: Appetite<E>): seq<Item<E>> {
    var sent := Sends(ServerRun(items, link.enc, link.sink).calls);
    Iterate(Arriving(sent, link.delivers, link.breaks), link.dec, wants, []).yielded
  }

  /** An event that was encoded, sent and decoded. */
  function Across<E, P>(link: Link<E, P>, v: E): Result<E> {
    Then(link.enc, link.dec, v)
  }

  ghost predicate ErrorsOnlyLast<E>(items: seq<Item<E>>) {
    forall i :: 0 <= i < |items| - 1 ==> items[i].Event?
  }

  /** The Transport's iterators are lawful for every request, channel and consumer: before each yield but the
      first the consumer asked for more, and nothing is yielded after an error. */
  lemma TransportIteratorIsLawful<A, Q, E, P>(a: A, encode: A -> Result<Q>, open: Q -> Result<seq<Recv<P>>>,
    dec: P -> Result<E>, wants: Appetite<E>)
    ensures var out := Streamed(a, encode, open, dec, wants);
            && ErrorsOnlyLast(out)
            && Wanted(wants, [], out, |out| - 1)
            && (Then(encode, open, a).Err? ==> out == [Failure(Then(encode, open, a).error)])
  {
    if encode(a).Ok? && open(encode(a).value).Ok? {
      IterationMeetsContract(open(encode(a).value).value, dec, wants, []);
    }
  }

  /** Event i that came out is event i that went in, carried over: in order, nothing twice, nothing made up. */
  ghost predicate InOrderPrefix<E>(out: seq<Item<E>>, items: seq<Item<E>>, carried: E -> Result<E>) {
    forall i :: 0 <= i < |out| && out[i].Event? ==>
      i < |items| && items[i].Event? && carried(items[i].event) == Ok(out[i].event)
  }

  /** What came out is such a prefix, followed by at most one error. */
  ghost predicate IsRelayOf<E>(out: seq<Item<E>>, items: seq<Item<E>>, carried: E -> Result<E>) {
    ErrorsOnlyLast(out) && InOrderPrefix(out, items, carried)
  }

  /** Safety of one link, for every event sequence, every failure point and every consumer. */
  lemma RelaySafety<E, P>(link: Link<E, P>, items: seq<Item<E>>, wants: Appetite<E>)
    ensures IsRelayOf(Relay(link, items, wants), items, v => Across(link, v))
  {
    var sent := Sends(ServerRun(items, link.enc, link.sink).calls);
    var arriving := Arriving(sent, link.delivers, link.breaks);
    var r := Iterate(arriving, link.dec, wants, []);
    ServerRunSends(items, link.enc, link.sink);
    IterationMeetsContract(arriving, link.dec, wants, []);
    forall i | 0 <= i < |r.yielded| && r.yielded[i].Event?
      ensures i < |items| && items[i].Event? && Across(link, items[i].event) == Ok(r.yielded[i].event)
    {
      assert Decodes(arriving[i], link.dec, r.yielded[i]);
      assert arriving[i] == Response(sent[i]);
    }
  }

  // ---------- nothing fails ----------

  function Everything<E>(): Appetite<E> {
    (_: seq<Item<E>>) => true
  }

  ghost predicate AllAcross<E, P>(link: Link<E, P>, items: seq<Item<E>>) {
    forall i :: 0 <= i < |items| ==> items[i].Event? && link.enc(items[i].event).Ok? && Across(link, items[i].event).Ok?
  }

  /** The sends of a loop that is never interrupted. */
  function AllSends<E, P>(items: seq<Item<E>>, enc: E -> Result<P>): seq<SinkCall<P>>
    requires forall i :: 0 <= i < |items| ==> items[i].Event? && enc(items[i].event).Ok?
  {
    seq(|items|, i requires 0 <= i < |items| => Send(enc(items[i].event).value))
  }

  /** No event fails on its way, the sink refuses none of the sends before the last, and the channel delivers them
      all. */
  ghost predicate Carries<E, P>(link: Link<E, P>, items: seq<Item<E>>) {
    && AllAcross(link, items)
    && Accepts(link.sink, AllSends(items, link.enc), 0, |items| - 1)
    && link.delivers >= |items|
  }

  /** And the channel does not break afterwards. */
  ghost predicate Smooth<E, P>(link: Link<E, P>, items: seq<Item<E>>) {
    Carries(link, items) && link.breaks.None?
  }

  /** The events on the other side of the link. */
  ghost function Mapped<E, P>(link: Link<E, P>, items: seq<Item<E>>): seq<Item<E>>
    requires AllAcross(link, items)
  {
    seq(|items|, i requires 0 <= i < |items| => Event(Across(link, items[i].event).value))
  }

  function Broken<E>(breaks: Option<Error>): seq<Item<E>> {
    match breaks case Some(e) => [Failure(e)] case None => []
  }

  /** All of these items, and no error. */
  ghost predicate AllDelivered<E>(out: seq<Item<E>>, items: seq<Item<E>>) {
    |out| == |items| && forall i :: 0 <= i < |out| ==> out[i].Event?
  }

  /** A draining consumer gets every event and no error exactly when the link is smooth for them. */
  lemma RelayDeliversAll<E, P>(link: Link<E, P>, items: seq<Item<E>>)
    ensures AllDelivered(Relay(link, items, Everything()), items) <==> Smooth(link, items)
  {
    if AllDelivered(Relay(link, items, Everything()), items) {
      DeliveredIsCarried(link, items);
    }
    if Carries(link, items) {
      CarriedIsDelivered(link, items);
    }
  }

  lemma LoopCallsArePrefix<E, P>(items: seq<Item<E>>, enc: E -> Result<P>, sink: Behaviour<P>)
    requires forall i :: 0 <= i < |items| ==> items[i].Event? && enc(items[i].event).Ok?
    ensures var calls := Loop(items, enc, sink, []).calls;
            |calls| <= |items| && calls == AllSends(items, enc)[..|calls|]
  {
    LoopSends(items, enc, sink);
  }

  /** A link that carries the items sends them all. */
  lemma CarriedIsSent<E, P>(link: Link<E, P>, items: seq<Item<E>>)
    requires Carries(link, items)
    ensures var sent := Sends(ServerRun(items, link.enc, link.sink).calls);
            |sent| == |items| && forall i :: 0 <= i < |items| ==> link.dec(sent[i]) == Across(link, items[i].event)
  {
    ServerRunSends(items, link.enc, link.sink);
    LoopMeetsContract(items, link.enc, link.sink, []);
    LoopCallsArePrefix(items, link.enc, link.sink);
    var r := Loop(items, link.enc, link.sink, []);
    assert 0 < |r.calls| < |items| ==> link.sink(r.calls).None?;
  }

  /** A draining consumer of such a link gets the events on the other side, and then the error if the channel breaks. */
  lemma CarriedIsDelivered<E, P>(link: Link<E, P>, items: seq<Item<E>>)
    requires Carries(link, items)
    ensures Relay(link, items, Everything()) == Mapped(link, items) + Broken(link.breaks)
  {
    CarriedIsSent(link, items);
    var sent := Sends(ServerRun(items, link.enc, link.sink).calls);
    var arriving := Arriving(sent, link.delivers, link.breaks);
    var yielded := Mapped(link, items) + Broken(link.breaks);
    var r := ClientRun(yielded, |items| + 1, if link.breaks.Some? then RecvFailed else Drained);
    assert forall i :: 0 <= i < |items| ==> Decodes(arriving[i], link.dec, yielded[i]) && yielded[i].Event?;
    assert IsClientRun(arriving, link.dec, Everything(), [], r);
    ContractDeterminesIteration(arriving, link.dec, Everything(), [], r);
  }

  /** A link over which as many events come out as went in carries them. */
  lemma DeliveredIsCarried<E, P>(link: Link<E, P>, items: seq<Item<E>>)
    requires var out := Relay(link, items, Everything());
             |out| >= |items| && forall i :: 0 <= i < |items| ==> out[i].Event?
    ensures Carries(link, items)
  {
    RelaySafety(link, items, Everything());
    DeliveredIsSent(link, items);
    LoopCallsArePrefix(items, link.enc, link.sink);
    LoopMeetsContract(items, link.enc, link.sink, []);
    assert Loop(items, link.enc, link.sink, []).calls == AllSends(items, link.enc);
  }

  lemma DeliveredIsSent<E, P>(link: Link<E, P>, items: seq<Item<E>>)
    requires var out := Relay(link, items, Everything());
             |out| >= |items| && forall i :: 0 <= i < |items| ==> out[i].Event?
    ensures link.delivers >= |items| && |Loop(items, link.enc, link.sink, []).calls| >= |items|
  {
    var sent := Sends(ServerRun(items, link.enc, link.sink).calls);
    var arriving := Arriving(sent, link.delivers, link.breaks);
    ServerRunSends(items, link.enc, link.sink);
    IterationMeetsContract(arriving, link.dec, Everything(), []);
    if items != [] {
      assert arriving[|items| - 1].Response?;
    }
  }

  // ---------- a relay agent: the Transport's iterator feeds a Handler's loop ----------

  /** A handler's loop as a consumer: it wants more while it has not returned. */
  function LoopAppetite<E, P>(enc: E -> Result<P>, sink: Behaviour<P>, calls: seq<SinkCall<P>>): Appetite<E> {
    (got: seq<Item<E>>) => Loop(got, enc, sink, calls).err.None?
  }

  /** A loop that stops its iterator early does exactly what it would do with all the items of a drained
      one, and is yielded exactly the items it takes, never one more. */
  lemma {:induction false} PushIsPull<E, P, Q>(arriving: seq<Recv<P>>, dec: P -> Result<E>,
    enc: E -> Result<Q>, sink: Behaviour<Q>, calls: seq<SinkCall<Q>>, before: seq<Item<E>>)
    requires Loop(before, enc, sink, calls).err.None?
    ensures var now := Loop(before, enc, sink, calls).calls;
            var pushed := Iterate(arriving, dec, LoopAppetite(enc, sink, calls), before).yielded;
            var all := Iterate(arriving, dec, Everything(), before).yielded;
            && Loop(pushed, enc, sink, now) == Loop(all, enc, sink, now)
            && Loop(all, enc, sink, now).pulled <= |all|
            && pushed == all[..Loop(all, enc, sink, now).pulled]
    decreases |arriving|
  {
    if arriving != [] && arriving[0].Response? && dec(arriving[0].message).Ok? {
      var first: Item<E> := Event(dec(arriving[0].message).value);
      var now := Loop(before, enc, sink, calls).calls;
      LoopAppend(before, [first], enc, sink, calls);
      var pushed := Iterate(arriving[1..], dec, LoopAppetite(enc, sink, calls), before + [first]).yielded;
      var all := Iterate(arriving[1..], dec, Everything(), before + [first]).yielded;
      LoopAppend([first], all, enc, sink, now);
      LoopAppend([first], [], enc, sink, now);
      if Loop(before + [first], enc, sink, calls).err.None? {
        PushIsPull(arriving[1..], dec, enc, sink, calls, before + [first]);
        LoopAppend([first], pushed, enc, sink, now);
        var taken := Loop(all, enc, sink, Loop([first], enc, sink, now).calls).pulled;
        assert [first] + all[..taken] == ([first] + all)[..taken + 1];
      }
    }
  }

  /** A chain of agents, each relaying the next one's stream through its own Handler. Every link's client
      feeds the loop of the handler above it; the last one feeds the consumer. */
  function Chain<E, P>(links: seq<Link<E, P>>, items: seq<Item<E>>, wants: Appetite<E>): seq<Item<E>>
    requires links != []
    decreases |links|
  {
    if |links| == 1 then Relay(links[0], items, wants)
    else Chain(links[1..], Relay(links[0], items, LoopAppetite(links[1].enc, links[1].sink, [])), wants)
  }

  /** Hop k gave out what its link relays of what the hop before it gave out, or of the first producer's items. */
  ghost predicate IsHop<E, P>(links: seq<Link<E, P>>, outs: seq<seq<Item<E>>>, items: seq<Item<E>>, wants: Appetite<E>,
    k: nat)
    requires k < |links| == |outs|
  {
    var from := if k == 0 then items else outs[k - 1];
    var next := if k + 1 < |links| then LoopAppetite(links[k + 1].enc, links[k + 1].sink, []) else wants;
    outs[k] == Relay(links[k], from, next)
  }

  /** A chain, hop by hop. */
  lemma {:induction false} ChainByHops<E, P>(links: seq<Link<E, P>>, outs: seq<seq<Item<E>>>, items: seq<Item<E>>,
    wants: Appetite<E>)
    requires |outs| == |links| > 0
    requires AreHops(links, outs, items, wants)
    ensures outs[|outs| - 1] == Chain(links, items, wants)
    decreases |links|
  {
    FirstHop(links, outs, items, wants);
    if |links| > 1 {
      LaterHops(links, outs, items, wants);
      ChainByHops(links[1..], outs[1..], outs[0], wants);
    }
  }

  ghost predicate AreHops<E, P>(links: seq<Link<E, P>>, outs: seq<seq<Item<E>>>, items: seq<Item<E>>,
    wants: Appetite<E>)
    requires |outs| == |links|
  {
    forall k :: 0 <= k < |links| ==> IsHop(links, outs, items, wants, k)
  }

  lemma FirstHop<E, P>(links: seq<Link<E, P>>, outs: seq<seq<Item<E>>>, items: seq<Item<E>>, wants: Appetite<E>)
    requires |outs| == |links| > 0 && AreHops(links, outs, items, wants)
    ensures Chain(links, items, wants) == if |links| == 1 then outs[0] else Chain(links[1..], outs[0], wants)
  {
    assert IsHop(links, outs, items, wants, 0);
  }

  lemma LaterHops<E, P>(links: seq<Link<E, P>>, outs: seq<seq<Item<E>>>, items: seq<Item<E>>, wants: Appetite<E>)
    requires |outs| == |links| > 0 && AreHops(links, outs, items, wants)
    ensures AreHops(links[1..], outs[1..], outs[0], wants)
  {
    forall k | 0 <= k < |links| - 1 ensures IsHop(links[1..], outs[1..], outs[0], wants, k) {
      assert IsHop(links, outs, items, wants, k + 1);
      LaterHop(links, outs, items, wants, k);
    }
  }

  lemma LaterHop<E, P>(links: seq<Link<E, P>>, outs: seq<seq<Item<E>>>, items: seq<Item<E>>, wants: Appetite<E>, k: nat)
    requires |outs| == |links| && k + 1 < |links| && IsHop(links, outs, items, wants, k + 1)
    ensures IsHop(links[1..], outs[1..], outs[0], wants, k)
  {
  }

  function AcrossAll<E, P>(links: seq<Link<E, P>>, v: E): Result<E>
    decreases |links|
  {
    if links == [] then Ok(v)
    else
      match Across(links[0], v)
      case Err(e) => Err(e)
      case Ok(w) => AcrossAll(links[1..], w)
  }

  /** Safety of a chain of any length: what the consumer gets is an in-order prefix of what the first
      producer made, carried over every link, with at most one error and that one last. */
  lemma {:induction false} ChainSafety<E, P>(links: seq<Link<E, P>>, items: seq<Item<E>>, wants: Appetite<E>)
    requires links != []
    ensures IsRelayOf(Chain(links, items, wants), items, v => AcrossAll(links, v))
    decreases |links|
  {
    if |links| == 1 {
      RelaySafety(links[0], items, wants);
      forall v ensures Across(links[0], v) == AcrossAll(links, v) {
      }
    } else {
      var between := Relay(links[0], items, LoopAppetite(links[1].enc, links[1].sink, []));
      RelaySafety(links[0], items, LoopAppetite(links[1].enc, links[1].sink, []));
      ChainSafety(links[1..], between, wants);
    }
  }

  /** The same chain with every inner iterator drained before it is relayed. */
  function DrainedChain<E, P>(links: seq<Link<E, P>>, items: seq<Item<E>>, wants: Appetite<E>): seq<Item<E>>
    requires links != []
    decreases |links|
  {
    if |links| == 1 then Relay(links[0], items, wants)
    else DrainedChain(links[1..], Relay(links[0], items, Everything()), wants)
  }

  /** Agents that stop their iterators early lose nothing, anywhere in a chain. */
  lemma {:induction false} ChainIsDrainedChain<E, P>(links: seq<Link<E, P>>, items: seq<Item<E>>, wants: Appetite<E>)
    requires links != []
    ensures Chain(links, items, wants) == DrainedChain(links, items, wants)
    decreases |links|
  {
    if |links| > 1 {
      var first, second := links[0], links[1];
      var sent := Sends(ServerRun(items, first.enc, first.sink).calls);
      PushIsPull(Arriving(sent, first.delivers, first.breaks), first.dec, second.enc, second.sink, [], []);
      var pushed := Relay(first, items, LoopAppetite(second.enc, second.sink, []));
      var all := Relay(first, items, Everything());
      assert Loop(pushed, second.enc, second.sink, []) == Loop(all, second.enc, second.sink, []);
      ChainIsDrainedChain(links[1..], pushed, wants);
      SameLoopSameChain(links[1..], pushed, all, wants);
    }
  }

  /** A chain sees of its items only what the first handler's loop makes of them. */
  lemma SameLoopSameChain<E, P>(links: seq<Link<E, P>>, a: seq<Item<E>>, b: seq<Item<E>>, wants: Appetite<E>)
    requires links != []
    requires Loop(a, links[0].enc, links[0].sink, []) == Loop(b, links[0].enc, links[0].sink, [])
    ensures DrainedChain(links, a, wants) == DrainedChain(links, b, wants)
  {
    assert ServerRun(a, links[0].enc, links[0].sink) == ServerRun(b, links[0].enc, links[0].sink);
  }

  /** Every link carries what the ones before it deliver, and the last one does not break either. Where an inner
      channel breaks after the last event, the next agent's own call fails, and nobody above it is told. */
  ghost predicate AllCarry<E, P>(links: seq<Link<E, P>>, items: seq<Item<E>>)
    requires links != []
    decreases |links|
  {
    if |links| == 1 then Smooth(links[0], items)
    else Carries(links[0], items) && AllCarry(links[1..], Mapped(links[0], items))
  }

  /** A draining consumer at the end of a chain gets every event and no error exactly when all links carry them. */
  lemma ChainDeliversAll<E, P>(links: seq<Link<E, P>>, items: seq<Item<E>>)
    requires links != []
    ensures AllDelivered(Chain(links, items, Everything()), items) <==> AllCarry(links, items)
  {
    ChainIsDrainedChain(links, items, Everything());
    DrainedChainDeliversAll(links, items);
  }

  lemma {:induction false} DrainedChainDeliversAll<E, P>(links: seq<Link<E, P>>, items: seq<Item<E>>)
    requires links != []
    ensures AllDelivered(DrainedChain(links, items, Everything()), items) <==> AllCarry(links, items)
    decreases |links|
  {
    if |links| == 1 {
      RelayDeliversAll(links[0], items);
    } else {
      FirstLinkCarries(links, items);
      if Carries(links[0], items) {
        RestOfChain(links, items);
        DrainedChainDeliversAll(links[1..], Mapped(links[0], items));
      }
    }
  }

  lemma FirstLinkCarries<E, P>(links: seq<Link<E, P>>, items: seq<Item<E>>)
    requires |links| > 1
    ensures AllDelivered(DrainedChain(links, items, Everything()), items) ==> Carries(links[0], items)
  {
    var next := Relay(links[0], items, Everything());
    var out := DrainedChain(links[1..], next, Everything());
    DrainedChainSafety(links[1..], next);
    if AllDelivered(out, items) {
      forall i | 0 <= i < |items| ensures i < |next| && next[i].Event? {
        assert out[i].Event?;
        assert InOrderPrefix(out, next, v => AcrossAll(links[1..], v));
      }
      assert items != [] ==> out[|items| - 1].Event?;
      DeliveredIsCarried(links[0], items);
    }
  }

  lemma RestOfChain<E, P>(links: seq<Link<E, P>>, items: seq<Item<E>>)
    requires |links| > 1 && Carries(links[0], items)
    ensures DrainedChain(links, items, Everything()) == DrainedChain(links[1..], Mapped(links[0], items), Everything())
  {
    CarriedIsDelivered(links[0], items);
    BreakIsSilent(links[1..], Mapped(links[0], items), links[0].breaks);
  }

  lemma DrainedChainSafety<E, P>(links: seq<Link<E, P>>, items: seq<Item<E>>)
    requires links != []
    ensures IsRelayOf(DrainedChain(links, items, Everything()), items, v => AcrossAll(links, v))
  {
    ChainIsDrainedChain(links, items, Everything());
    ChainSafety(links, items, Everything());
  }

  /** A chain is not told of an error behind the last event. */
  lemma BreakIsSilent<E, P>(links: seq<Link<E, P>>, items: seq<Item<E>>, breaks: Option<Error>)
    requires links != []
    ensures DrainedChain(links, items + Broken(breaks), Everything()) == DrainedChain(links, items, Everything())
  {
    match breaks
    case None => assert items + Broken(breaks) == items;
    case Some(e) =>
      FailureCanBeSilent(links[0], items, e, Everything());
  }

  /** A consumer that stops early was given a prefix of what a draining one would have been given. */
  lemma {:induction false} StoppingGivesPrefix<E, P>(arriving: seq<Recv<P>>, dec: P -> Result<E>,
    wants: Appetite<E>, before: seq<Item<E>>)
    ensures Iterate(arriving, dec, wants, before).yielded <= Iterate(arriving, dec, Everything(), before).yielded
    decreases |arriving|
  {
    if arriving != [] && arriving[0].Response? && dec(arriving[0].message).Ok? {
      StoppingGivesPrefix(arriving[1..], dec, wants, before + [Event(dec(arriving[0].message).value)]);
    }
  }

  // ---------- the whole streaming call, against the local one ----------

  /** Opening a stream through the generated client: the request is marshalled and served by the stream adapter
      around the streaming method; what can arrive is what the adapter's call put on the sink. */
  ghost function Open<Q, Req, A, E, P>(q: Q, marshal: Q -> Result<Bytes>, unmarshal: Bytes -> Result<Req>,
    decode: Req -> Result<A>, handler: (Context, A) -> seq<Item<E>>, rc: RpcContext,
    link: Link<E, P>): Result<seq<Recv<P>>>
  {
    match marshal(q)
    case Err(e) => Err(e)
    case Ok(request) =>
      var served := Served(request, unmarshal, decode, handler, rc, link);
      Ok(Arriving(Sends(served.calls), link.delivers, link.breaks))
  }

  /** What serving these bytes leaves on the sink and returns. */
  ghost function Served<Req, A, E, P>(request: Bytes, unmarshal: Bytes -> Result<Req>, decode: Req -> Result<A>,
    handler: (Context, A) -> seq<Item<E>>, rc: RpcContext, link: Link<E, P>): Outcome<P>
  {
    var n := SendCount(request, rc, unmarshal, decode, handler, link.enc, link.sink);
    StreamingMethodReturns(request, rc, unmarshal, decode, handler, link.enc, link.sink);
    StreamOutcome(request, rc, unmarshal, StreamingMethod(decode, handler, link.enc), link.sink, [], n)
  }

  /** The consumer asks for more after each of the first events it is given. */
  ghost predicate WantsAll<E>(wants: Appetite<E>, items: seq<Item<E>>) {
    Wanted(wants, [], items, |items|)
  }

  /** A consumer that never stops before the end gets what a draining one gets. */
  lemma {:induction false} WantingIsDraining<E, P>(arriving: seq<Recv<P>>, dec: P -> Result<E>, wants: Appetite<E>,
    before: seq<Item<E>>)
    requires var all := Iterate(arriving, dec, Everything(), before).yielded; Wanted(wants, before, all, |all|)
    ensures Iterate(arriving, dec, wants, before).yielded == Iterate(arriving, dec, Everything(), before).yielded
    decreases |arriving|
  {
    if arriving != [] && arriving[0].Response? && dec(arriving[0].message).Ok? {
      var first: Item<E> := Event(dec(arriving[0].message).value);
      var all := Iterate(arriving, dec, Everything(), before).yielded;
      var rest := Iterate(arriving[1..], dec, Everything(), before + [first]).yielded;
      assert before + all[..1] == before + [first];
      forall k | 0 < k <= |rest| ensures wants(before + [first] + rest[..k]) {
        assert before + all[..k + 1] == before + [first] + rest[..k];
      }
      WantingIsDraining(arriving[1..], dec, wants, before + [first]);
    }
  }

  /** Streaming is transparent up to the request: when the handler method reads request a as b, the Transport's
      iterator relays the iterator that the local RequestHandler returns for b. If events survive their conversions
      the consumer gets an in-order prefix of the local events, and it gets exactly them when nothing fails on the
      way and it wants them all. */
  lemma StreamingTransparency<A, Q, Req, E(!new), P>(a: A, b: A, encode: A -> Result<Q>,
    marshal: Q -> Result<Bytes>, unmarshal: Bytes -> Result<Req>, decode: Req -> Result<A>,
    handler: (Context, A) -> seq<Item<E>>, rc: RpcContext, link: Link<E, P>, wants: Appetite<E>)
    requires RequestArrives(a, b, encode, marshal, unmarshal, decode)
    requires forall v :: Across(link, v).Ok? ==> Across(link, v).value == v
    ensures var local := handler(HandlerContext(rc), b);
            var remote := Remote(a, encode, marshal, unmarshal, decode, handler, rc, link, wants);
            && remote == Relay(link, local, wants)
            && ErrorsOnlyLast(remote)
            && (forall i :: 0 <= i < |remote| && remote[i].Event? ==> i < |local| && remote[i] == local[i])
            && (Smooth(link, local) && WantsAll(wants, local) ==> remote == local)
  {
    RemoteIsRelay(a, b, encode, marshal, unmarshal, decode, handler, rc, link, wants);
    RelayTransparency(link, handler(HandlerContext(rc), b), wants);
  }

  lemma RelayTransparency<E(!new), P>(link: Link<E, P>, items: seq<Item<E>>, wants: Appetite<E>)
    requires forall v :: Across(link, v).Ok? ==> Across(link, v).value == v
    ensures var out := Relay(link, items, wants);
            && ErrorsOnlyLast(out)
            && (forall i :: 0 <= i < |out| && out[i].Event? ==> i < |items| && out[i] == items[i])
            && (Smooth(link, items) && WantsAll(wants, items) ==> out == items)
  {
    RelaySafety(link, items, wants);
    if Smooth(link, items) && WantsAll(wants, items) {
      SmoothRelay(link, items);
      var sent := Sends(ServerRun(items, link.enc, link.sink).calls);
      WantingIsDraining(Arriving(sent, link.delivers, link.breaks), link.dec, wants, []);
    }
  }

  lemma SmoothRelay<E(!new), P>(link: Link<E, P>, items: seq<Item<E>>)
    requires Smooth(link, items)
    requires forall v :: Across(link, v).Ok? ==> Across(link, v).value == v
    ensures Relay(link, items, Everything()) == items
  {
    CarriedIsDelivered(link, items);
  }

  /** What the consumer is given by a whole streaming call. */
  ghost function Remote<A, Q, Req, E, P>(a: A, encode: A -> Result<Q>, marshal: Q -> Result<Bytes>,
    unmarshal: Bytes -> Result<Req>, decode: Req -> Result<A>, handler: (Context, A) -> seq<Item<E>>, rc: RpcContext,
    link: Link<E, P>, wants: Appetite<E>): seq<Item<E>>
  {
    Streamed(a, encode, q => Open(q, marshal, unmarshal, decode, handler, rc, link), link.dec, wants)
  }

  lemma RemoteIsRelay<A, Q, Req, E, P>(a: A, b: A, encode: A -> Result<Q>, marshal: Q -> Result<Bytes>,
    unmarshal: Bytes -> Result<Req>, decode: Req -> Result<A>, handler: (Context, A) -> seq<Item<E>>, rc: RpcContext,
    link: Link<E, P>, wants: Appetite<E>)
    requires RequestArrives(a, b, encode, marshal, unmarshal, decode)
    ensures Remote(a, encode, marshal, unmarshal, decode, handler, rc, link, wants) ==
            Relay(link, handler(HandlerContext(rc), b), wants)
  {
    var request := marshal(encode(a).value).value;
    StreamingMethodRun(request, rc, unmarshal, decode, handler, link.enc, link.sink);
  }

  /** A request that the server cannot read calls no handler and sends nothing: the call returns the error with
      InvalidArgument when the bytes are at fault, and with Internal when the method refuses the message, unless it
      brings a code of its own. */
  lemma RefusedRequest<Req, A, E, P>(request: Bytes, unmarshal: Bytes -> Result<Req>, decode: Req -> Result<A>,
    handler: (Context, A) -> seq<Item<E>>, rc: RpcContext, link: Link<E, P>)
    ensures var served := Served(request, unmarshal, decode, handler, rc, link);
            match unmarshal(request)
            case Err(e) => served == Outcome([SendError(Coded(e, InvalidArgument))], Some(Coded(e, InvalidArgument)))
            case Ok(req) =>
              decode(req).Err? ==>
                var e := Coded(decode(req).error, Internal); served == Outcome([Close, SendError(e)], Some(e))
  {
    if unmarshal(request).Ok? && decode(unmarshal(request).value).Err? {
      var e := decode(unmarshal(request).value).error;
      StreamingMethodRun(request, rc, unmarshal, decode, handler, link.enc, link.sink);
      assert Loop([Failure(e)], link.enc, link.sink, []) == LoopResult([], Some(e), 1);
      var closed: seq<SinkCall<P>> := [] + [Close];
      assert closed + [SendError(Coded(e, Internal))] == [Close, SendError(Coded(e, Internal))];
    }
  }

  /** An error as an RpcError: the code is only for one that has none. */
  function Coded(e: Error, code: RpcCode): Error {
    match e
    case RpcError(_, _, _) => e
    case Plain(m) => RpcError(code, m, None)
  }

  /** What the consumer is given then, for arbitrary conversions: an error on its own side as it is, once; and of an
      error on the server's side nothing at all, only that of a breaking channel. */
  lemma UnsentRequest<A, Q, Req, E, P>(a: A, encode: A -> Result<Q>, marshal: Q -> Result<Bytes>,
    unmarshal: Bytes -> Result<Req>, decode: Req -> Result<A>, handler: (Context, A) -> seq<Item<E>>, rc: RpcContext,
    link: Link<E, P>, wants: Appetite<E>)
    ensures var remote := Remote(a, encode, marshal, unmarshal, decode, handler, rc, link, wants);
            match Then(encode, marshal, a)
            case Err(e) => remote == [Failure(e)]
            case Ok(request) => Then(unmarshal, decode, request).Err? ==> remote == Broken(link.breaks)
  {
    if Then(encode, marshal, a).Ok? {
      var request := Then(encode, marshal, a).value;
      if Then(unmarshal, decode, request).Err? {
        NothingServed(request, unmarshal, decode, handler, rc, link);
        NothingArrives(link, wants);
      }
    }
  }

  lemma NothingServed<Req, A, E, P>(request: Bytes, unmarshal: Bytes -> Result<Req>, decode: Req -> Result<A>,
    handler: (Context, A) -> seq<Item<E>>, rc: RpcContext, link: Link<E, P>)
    requires Then(unmarshal, decode, request).Err?
    ensures Sends(Served(request, unmarshal, decode, handler, rc, link).calls) == []
  {
    var calls := Served(request, unmarshal, decode, handler, rc, link).calls;
    RefusedRequest(request, unmarshal, decode, handler, rc, link);
    assert forall i :: 0 <= i < |calls| ==> !calls[i].Send?;
    NoSends(calls);
  }

  lemma NothingArrives<E, P>(link: Link<E, P>, wants: Appetite<E>)
    ensures Iterate(Arriving([], link.delivers, link.breaks), link.dec, wants, []).yielded == Broken(link.breaks)
  {
  }

  lemma {:induction false} NoSends<P>(calls: seq<SinkCall<P>>)
    requires forall i :: 0 <= i < |calls| ==> !calls[i].Send?
    ensures Sends(calls) == []
  {
    if calls != [] {
      NoSends(calls[..|calls| - 1]);
    }
  }

  /** A handler that shows whether it was called with a. */
  ghost function Telltale<A, E>(a: A, v: E): (Context, A) -> seq<Item<E>> {
    (_: Context, x: A) => if x == a then [Event(v)] else []
  }

  lemma TelltaleTells<A, Q, Req, E, P>(a: A, b: A, encode: A -> Result<Q>, marshal: Q -> Result<Bytes>,
    unmarshal: Bytes -> Result<Req>, decode: Req -> Result<A>, rc: RpcContext, link: Link<E, P>, v: E)
    requires RequestArrives(a, b, encode, marshal, unmarshal, decode) && a != b
    requires Smooth(link, [Event(v)])
    ensures Remote(a, encode, marshal, unmarshal, decode, Telltale(a, v), rc, link, Everything()) == []
    ensures |Relay(link, Telltale(a, v)(HandlerContext(rc), a), Everything())| == 1
  {
    RemoteIsRelay(a, b, encode, marshal, unmarshal, decode, Telltale(a, v), rc, link, Everything());
    NothingFromNothing(link);
    RelayDeliversAll(link, [Event(v)]);
  }

  /** The streaming call is the local one with the very request that was made, for every handler. */
  ghost predicate StreamsTransparently<A(!new), Q, Req, E(!new), P>(a: A, encode: A -> Result<Q>,
    marshal: Q -> Result<Bytes>, unmarshal: Bytes -> Result<Req>, decode: Req -> Result<A>, rc: RpcContext,
    link: Link<E, P>)
  {
    forall h: (Context, A) -> seq<Item<E>> ::
      Remote(a, encode, marshal, unmarshal, decode, h, rc, link, Everything()) ==
      Relay(link, h(HandlerContext(rc), a), Everything())
  }

  /** For a link that can carry some event this is so exactly when the request arrives as it is. */
  lemma StreamingTransparentExactly<A(!new), Q, Req, E(!new), P>(a: A, b: A, encode: A -> Result<Q>,
    marshal: Q -> Result<Bytes>, unmarshal: Bytes -> Result<Req>, decode: Req -> Result<A>, rc: RpcContext,
    link: Link<E, P>, v: E)
    requires RequestArrives(a, b, encode, marshal, unmarshal, decode)
    requires Smooth(link, [Event(v)])
    ensures StreamsTransparently(a, encode, marshal, unmarshal, decode, rc, link) <==> a == b
  {
    if a == b {
      forall h: (Context, A) -> seq<Item<E>>
        ensures Remote(a, encode, marshal, unmarshal, decode, h, rc, link, Everything()) ==
                Relay(link, h(HandlerContext(rc), a), Everything())
      {
        RemoteIsRelay(a, b, encode, marshal, unmarshal, decode, h, rc, link, Everything());
      }
    } else {
      TelltaleTells(a, b, encode, marshal, unmarshal, decode, rc, link, v);
      assert Remote(a, encode, marshal, unmarshal, decode, Telltale(a, v), rc, link, Everything()) !=
             Relay(link, Telltale(a, v)(HandlerContext(rc), a), Everything());
    }
  }

  lemma NothingFromNothing<E, P>(link: Link<E, P>)
    requires link.breaks.None?
    ensures Relay(link, [], Everything()) == []
  {
    ServerRunSends([], link.enc, link.sink);
  }

  /** The client can send request a, and the handler method reads it as b. */
  ghost predicate RequestArrives<A, Q, Req>(a: A, b: A, encode: A -> Result<Q>,
    marshal: Q -> Result<Bytes>, unmarshal: Bytes -> Result<Req>, decode: Req -> Result<A>)
  {
    && encode(a).Ok?
    && marshal(encode(a).value).Ok?
    && unmarshal(marshal(encode(a).value).value).Ok?
    && decode(unmarshal(marshal(encode(a).value).value).value) == Ok(b)
  }

  ghost predicate HasFailure<E>(items: seq<Item<E>>) {
    exists x :: x in items && x.Failure?
  }

  /** One of the messages that are delivered does not decode. */
  ghost predicate HasUndecodable<E, P>(link: Link<E, P>, sent: seq<P>) {
    exists i :: 0 <= i < link.delivers && i < |sent| && link.dec(sent[i]).Err?
  }

  /** A reception that gives an error. */
  predicate Bad<E, P>(r: Recv<P>, dec: P -> Result<E>) {
    r.RecvError? || (r.Response? && dec(r.message).Err?)
  }

  ghost predicate HasBad<E, P>(arriving: seq<Recv<P>>, dec: P -> Result<E>) {
    exists i :: 0 <= i < |arriving| && Bad(arriving[i], dec)
  }

  lemma FailureOfPrepend<E>(first: Item<E>, rest: seq<Item<E>>)
    ensures HasFailure([first] + rest) <==> first.Failure? || HasFailure(rest)
  {
    assert first in [first] + rest;
    assert forall x :: x in rest ==> x in [first] + rest;
  }

  lemma BadOfTail<E, P>(arriving: seq<Recv<P>>, dec: P -> Result<E>)
    requires arriving != []
    ensures HasBad(arriving, dec) <==> Bad(arriving[0], dec) || HasBad(arriving[1..], dec)
  {
    assert forall i :: 0 < i < |arriving| ==> arriving[i] == arriving[1..][i - 1];
    if HasBad(arriving[1..], dec) {
      var i :| 0 <= i < |arriving[1..]| && Bad(arriving[1..][i], dec);
      assert Bad(arriving[i + 1], dec);
    }
  }

  lemma {:induction false} FailureExactly<E, P>(arriving: seq<Recv<P>>, dec: P -> Result<E>, before: seq<Item<E>>)
    requires forall i :: 0 <= i < |arriving| ==> !arriving[i].EndOfStream?
    ensures HasFailure(Iterate(arriving, dec, Everything(), before).yielded) <==> HasBad(arriving, dec)
    decreases |arriving|
  {
    if arriving != [] {
      BadOfTail(arriving, dec);
      var yielded := Iterate(arriving, dec, Everything(), before).yielded;
      if Bad(arriving[0], dec) {
        assert yielded[0].Failure? && yielded[0] in yielded;
      } else {
        var first: Item<E> := Event(dec(arriving[0].message).value);
        FailureExactly(arriving[1..], dec, before + [first]);
        FailureOfPrepend(first, Iterate(arriving[1..], dec, Everything(), before + [first]).yielded);
      }
    }
  }

  /** A draining client is given an error exactly when the channel breaks or a delivered message cannot be
      decoded. Whether the server failed has no part in it: a failed call can end like a complete one. */
  lemma ClientErrorExactly<E, P>(link: Link<E, P>, items: seq<Item<E>>)
    ensures var sent := Sends(ServerRun(items, link.enc, link.sink).calls);
            HasFailure(Relay(link, items, Everything())) <==> link.breaks.Some? || HasUndecodable(link, sent)
  {
    var sent := Sends(ServerRun(items, link.enc, link.sink).calls);
    FailureExactly(Arriving(sent, link.delivers, link.breaks), link.dec, []);
    BadArrivals(link, sent);
  }

  lemma BadArrivals<E, P>(link: Link<E, P>, sent: seq<P>)
    ensures HasBad(Arriving(sent, link.delivers, link.breaks), link.dec) <==>
            link.breaks.Some? || HasUndecodable(link, sent)
  {
    var arriving := Arriving(sent, link.delivers, link.breaks);
    assert link.breaks.Some? ==> Bad(arriving[|arriving| - 1], link.dec);
    if HasUndecodable(link, sent) {
      var i :| 0 <= i < link.delivers && i < |sent| && link.dec(sent[i]).Err?;
      assert Bad(arriving[i], link.dec);
    }
    if HasBad(arriving, link.dec) {
      var i :| 0 <= i < |arriving| && Bad(arriving[i], link.dec);
      if arriving[i].Response? {
        assert i < link.delivers && arriving[i].message == sent[i];
      }
    }
  }

  /** An iterator that fails at its end instead of ending there sends the same messages, and the consumer, whatever
      it is, is given exactly the same; but the server's call always returns an error then. */
  lemma FailureCanBeSilent<E, P>(link: Link<E, P>, items: seq<Item<E>>, e: Error, wants: Appetite<E>)
    ensures Relay(link, items + [Failure(e)], wants) == Relay(link, items, wants)
    ensures ServerRun(items + [Failure(e)], link.enc, link.sink).err.Some?
  {
    var before := Loop(items, link.enc, link.sink, []);
    var after := Loop(items + [Failure(e)], link.enc, link.sink, []);
    LoopAppend(items, [Failure(e)], link.enc, link.sink, []);
    SendsOfFinish(Outcome(before.calls, before.err), link.sink);
    SendsOfFinish(Outcome(after.calls, after.err), link.sink);
  }
}
