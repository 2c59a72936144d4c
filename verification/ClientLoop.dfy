/** The iterators that Transport.SendStreamingMessage and SubscribeToTask return, v0 and v1 alike. */
module ClientLoop {
  import opened Outcomes
  import opened ServerLoop

  /** What Recv can return; a nil response is the end of the stream. */
  datatype Recv<+P> = Response(message: P) | EndOfStream | RecvError(error: Error)

  /** A response stream: what arrives, and how often Recv was called. A stream that has nothing more says so. */
  class ResponseStream<P> {
    const arriving: seq<Recv<P>>
    var recvs: nat

    constructor (arriving: seq<Recv<P>>)
      ensures this.arriving == arriving && recvs == 0
    {
      this.arriving := arriving;
      recvs := 0;
    }

    method Recv() returns (r: Recv<P>)
      modifies this
      ensures recvs == old(recvs) + 1
      ensures r == if old(recvs) < |arriving| then arriving[old(recvs)] else EndOfStream
    {
      r := if recvs < |arriving| then arriving[recvs] else EndOfStream;
      recvs := recvs + 1;
    }
  }

  /** The consumer's choice: whether it wants more after what it has been given so far. */
  type Appetite<!E> = seq<Item<E>> -> bool

  /** The loop body of a range-over-func statement. Calling it again after it returned false is what the
      Go language specification forbids ("For statements with range clause"), hence the precondition. */
  class Consumer<E> {
    const wants: Appetite<E>
    var got: seq<Item<E>>
    var stopped: bool

    constructor (wants: Appetite<E>)
      ensures this.wants == wants && got == [] && !stopped
    {
      this.wants := wants;
      got := [];
      stopped := false;
    }

    method Yield(item: Item<E>) returns (more: bool)
      requires !stopped
      modifies this
      ensures got == old(got) + [item]
      ensures more == wants(got) && stopped == !more
    {
      got := got + [item];
      more := wants(got);
      stopped := !more;
    }
  }

  datatype Ending = Drained | RecvFailed | DecodeFailed | ConsumerStopped

  /** How an iteration went: all that was yielded, how often Recv was called, and why it ended. */
  datatype ClientRun<+E> = ClientRun(yielded: seq<Item<E>>, recvs: nat, ending: Ending)

  /** Response i gave yield i. */
  ghost predicate Decodes<E, P>(r: Recv<P>, dec: P -> Result<E>, item: Item<E>) {
    && r.Response?
    && item == match dec(r.message) case Ok(v) => Event(v) case Err(e) => Failure(e)
  }

  /** After what it had before, the consumer asked for more after each of the first to new yields. */
  ghost predicate Wanted<E>(wants: Appetite<E>, before: seq<Item<E>>, yielded: seq<Item<E>>, to: int) {
    forall k :: 0 < k <= to && k <= |yielded| ==> wants(before + yielded[..k])
  }

  /** The first to arrivals are responses and gave the first to yields. */
  ghost predicate AllDecode<E, P>(arriving: seq<Recv<P>>, dec: P -> Result<E>, yielded: seq<Item<E>>, to: int) {
    forall i :: 0 <= i < to && i < |arriving| && i < |yielded| ==> Decodes(arriving[i], dec, yielded[i])
  }

  /** The iterator's contract: exactly one yield for each response received, in order and decoded; only the
      last can be an error; Recv is called once per yield, and once more when the stream ended; and which of
      the four ways it ended is visible in the last of these. */
  ghost predicate IsClientRun<E, P>(arriving: seq<Recv<P>>, dec: P -> Result<E>, wants: Appetite<E>,
    before: seq<Item<E>>, r: ClientRun<E>)
  {
    var n := |r.yielded|;
    && n <= |arriving|
    && (forall i :: 0 <= i < n - 1 ==> r.yielded[i].Event?)
    && Wanted(wants, before, r.yielded, n - 1)
    && AllDecode(arriving, dec, r.yielded, n - 1)
    && match r.ending
       case Drained =>
         && r.recvs == n + 1
         && (n < |arriving| ==> arriving[n].EndOfStream?)
         && (n > 0 ==> Decodes(arriving[n - 1], dec, r.yielded[n - 1]) && r.yielded[n - 1].Event?)
         && (n > 0 ==> wants(before + r.yielded))
       case RecvFailed =>
         && r.recvs == n > 0
         && arriving[n - 1].RecvError? && r.yielded[n - 1] == Failure(arriving[n - 1].error)
       case DecodeFailed =>
         && r.recvs == n > 0
         && Decodes(arriving[n - 1], dec, r.yielded[n - 1]) && r.yielded[n - 1].Failure?
       case ConsumerStopped =>
         && r.recvs == n > 0
         && Decodes(arriving[n - 1], dec, r.yielded[n - 1]) && r.yielded[n - 1].Event?
         && !wants(before + r.yielded)
  }

  /** The iteration as a function; the consumer's choices may depend on what it was given before. */
  function Iterate<E, P>(arriving: seq<Recv<P>>, dec: P -> Result<E>, wants: Appetite<E>,
    before: seq<Item<E>>): ClientRun<E>
    decreases |arriving|
  {
    if arriving == [] then ClientRun([], 1, Drained)
    else
      match arriving[0]
      case RecvError(e) => ClientRun([Failure(e)], 1, RecvFailed)
      case EndOfStream => ClientRun([], 1, Drained)
      case Response(p) =>
        match dec(p)
        case Err(e) => ClientRun([Failure(e)], 1, DecodeFailed)
        case Ok(v) =>
          if wants(before + [Event(v)]) then Prepend(Event(v), Iterate(arriving[1..], dec, wants, before + [Event(v)]))
          else ClientRun([Event(v)], 1, ConsumerStopped)
  }

  function Prepend<E>(first: Item<E>, rest: ClientRun<E>): ClientRun<E> {
    ClientRun([first] + rest.yielded, rest.recvs + 1, rest.ending)
  }

  /** A whole iteration: what was given and received so far, and the rest. */
  function Resume<E>(got: seq<Item<E>>, recvs: nat, rest: ClientRun<E>): ClientRun<E> {
    ClientRun(got + rest.yielded, recvs + rest.recvs, rest.ending)
  }

  /** The iteration, with its next Recv unrolled. */
  function Unrolled<E, P>(arriving: seq<Recv<P>>, recvs: nat, dec: P -> Result<E>, wants: Appetite<E>,
    got: seq<Item<E>>): ClientRun<E>
    requires recvs <= |arriving|
  {
    if recvs == |arriving| || arriving[recvs].EndOfStream? then ClientRun(got, recvs + 1, Drained)
    else if arriving[recvs].RecvError? then ClientRun(got + [Failure(arriving[recvs].error)], recvs + 1, RecvFailed)
    else
      match dec(arriving[recvs].message)
      case Err(e) => ClientRun(got + [Failure(e)], recvs + 1, DecodeFailed)
      case Ok(v) =>
        var now := got + [Event(v)];
        if wants(now) then Resume(now, recvs + 1, Iterate(arriving[recvs + 1..], dec, wants, now))
        else ClientRun(now, recvs + 1, ConsumerStopped)
  }

  /** The next Recv either ends the iteration or yields one event and leaves the rest of it as it was. */
  lemma ResumeStep<E, P>(arriving: seq<Recv<P>>, recvs: nat, dec: P -> Result<E>, wants: Appetite<E>, got: seq<Item<E>>)
    requires recvs <= |arriving|
    ensures Resume(got, recvs, Iterate(arriving[recvs..], dec, wants, got)) ==
            Unrolled(arriving, recvs, dec, wants, got)
  {
    if recvs < |arriving| {
      assert arriving[recvs..][1..] == arriving[recvs + 1..];
      if arriving[recvs].Response? && dec(arriving[recvs].message).Ok? {
        var v := dec(arriving[recvs].message).value;
        var rest := Iterate(arriving[recvs + 1..], dec, wants, got + [Event(v)]);
        assert got + ([Event(v)] + rest.yielded) == got + [Event(v)] + rest.yielded;
      }
    }
  }

  /** The Recv and yield loop. Its calls of Yield meet the range-over-func rule for every consumer, and the
      number of responses still to come bounds it. */
  method YieldEvents<E, P>(stream: ResponseStream<P>, dec: P -> Result<E>,
    consumer: Consumer<E>) returns (ghost ending: Ending)
    requires stream.recvs == 0 && consumer.got == [] && !consumer.stopped
    modifies stream, consumer
    ensures ClientRun(consumer.got, stream.recvs, ending) == Iterate(stream.arriving, dec, consumer.wants, [])
    ensures IsClientRun(stream.arriving, dec, consumer.wants, [], ClientRun(consumer.got, stream.recvs, ending))
  {
    IterationMeetsContract(stream.arriving, dec, consumer.wants, []);
    ghost var all := Iterate(stream.arriving, dec, consumer.wants, []);
    while true
      invariant !consumer.stopped
      invariant stream.recvs <= |stream.arriving|
      invariant all == Resume(consumer.got, stream.recvs,
                              Iterate(stream.arriving[stream.recvs..], dec, consumer.wants, consumer.got))
      decreases |stream.arriving| - stream.recvs
    {
      ResumeStep(stream.arriving, stream.recvs, dec, consumer.wants, consumer.got);
      var resp := stream.Recv();
      if resp.RecvError? {
        var _ := consumer.Yield(Failure(resp.error));
        return RecvFailed;
      }
      if resp.EndOfStream? {
        return Drained;
      }
      var event := dec(resp.message);
      if event.Err? {
        var _ := consumer.Yield(Failure(event.error));
        return DecodeFailed;
      }
      var more := consumer.Yield(Event(event.value));
      if !more {
        return ConsumerStopped;
      }
    }
  }

  /** The whole iterator: convert the request, open the stream, loop. Both early errors are yielded once. */
  method Stream<A, Q, E, P>(req: A, encode: A -> Result<Q>, open: Q -> Result<seq<Recv<P>>>,
    dec: P -> Result<E>, consumer: Consumer<E>)
    requires consumer.got == [] && !consumer.stopped
    modifies consumer
    ensures consumer.got == Streamed(req, encode, open, dec, consumer.wants)
  {
    var pbReq := encode(req);
    if pbReq.Err? {
      var _ := consumer.Yield(Failure(pbReq.error));
      return;
    }
    var session := open(pbReq.value);
    if session.Err? {
      var _ := consumer.Yield(Failure(session.error));
      return;
    }
    var stream := new ResponseStream(session.value);
    ghost var _ := YieldEvents(stream, dec, consumer);
  }

  function Streamed<A, Q, E, P>(req: A, encode: A -> Result<Q>, open: Q -> Result<seq<Recv<P>>>,
    dec: P -> Result<E>, wants: Appetite<E>): seq<Item<E>>
  {
    match encode(req)
    case Err(e) => [Failure(e)]
    case Ok(q) =>
      match open(q)
      case Err(e) => [Failure(e)]
      case Ok(arriving) => Iterate(arriving, dec, wants, []).yielded
  }

  lemma {:induction false} IterationMeetsContract<E, P>(arriving: seq<Recv<P>>, dec: P -> Result<E>,
    wants: Appetite<E>, before: seq<Item<E>>)
    ensures IsClientRun(arriving, dec, wants, before, Iterate(arriving, dec, wants, before))
    decreases |arriving|
  {
    if arriving != [] && arriving[0].Response? && dec(arriving[0].message).Ok? {
      var first: Item<E> := Event(dec(arriving[0].message).value);
      if wants(before + [first]) {
        IterationMeetsContract(arriving[1..], dec, wants, before + [first]);
        PrependMeetsContract(arriving, dec, wants, before, first, Iterate(arriving[1..], dec, wants, before + [first]));
      }
    }
  }

  lemma PrependMeetsContract<E, P>(arriving: seq<Recv<P>>, dec: P -> Result<E>, wants: Appetite<E>,
    before: seq<Item<E>>, first: Item<E>, rest: ClientRun<E>)
    requires arriving != [] && first.Event? && Decodes(arriving[0], dec, first) && wants(before + [first])
    requires IsClientRun(arriving[1..], dec, wants, before + [first], rest)
    ensures IsClientRun(arriving, dec, wants, before, Prepend(first, rest))
  {
    var yielded := [first] + rest.yielded;
    assert before + [first] + rest.yielded == before + yielded;
    assert rest.yielded == [] ==> yielded == [first];
    forall k | 0 < k <= |rest.yielded| && k <= |yielded| ensures wants(before + yielded[..k]) {
      assert before + yielded[..k] == before + [first] + rest.yielded[..k - 1];
      if k == 1 {
        assert before + [first] + rest.yielded[..0] == before + [first];
      }
    }
  }

  /** The contract leaves no choice: it determines the yields, the number of Recv calls and the ending. */
  lemma {:induction false} ContractDeterminesIteration<E, P>(arriving: seq<Recv<P>>, dec: P -> Result<E>,
    wants: Appetite<E>, before: seq<Item<E>>, r: ClientRun<E>)
    ensures IsClientRun(arriving, dec, wants, before, r) <==> r == Iterate(arriving, dec, wants, before)
    decreases |arriving|
  {
    IterationMeetsContract(arriving, dec, wants, before);
    if IsClientRun(arriving, dec, wants, before, r) {
      var n := |r.yielded|;
      if n == 0 {
        assert r.yielded == [];
      } else if n == 1 && !r.ending.Drained? {
        assert r.yielded == [r.yielded[0]];
        assert before + r.yielded == before + [r.yielded[0]];
      } else {
        var first := r.yielded[0];
        assert first.Event? && Decodes(arriving[0], dec, first);
        assert wants(before + r.yielded[..1]) || n == 1;
        assert r.yielded[..1] == [first];
        var rest := ClientRun(r.yielded[1..], r.recvs - 1, r.ending);
        assert r == Prepend(first, rest);
        assert n == 1 ==> r.yielded == [first];
        TailMeetsContract(arriving, dec, wants, before, first, rest);
        ContractDeterminesIteration(arriving[1..], dec, wants, before + [first], rest);
      }
    }
  }

  lemma TailMeetsContract<E, P>(arriving: seq<Recv<P>>, dec: P -> Result<E>, wants: Appetite<E>,
    before: seq<Item<E>>, first: Item<E>, rest: ClientRun<E>)
    requires arriving != [] && rest.recvs > 0 && (rest.yielded != [] || rest.ending.Drained?)
    requires IsClientRun(arriving, dec, wants, before, Prepend(first, rest))
    ensures IsClientRun(arriving[1..], dec, wants, before + [first], rest)
  {
    var yielded := [first] + rest.yielded;
    assert before + [first] + rest.yielded == before + yielded;
    forall i | 0 <= i < |rest.yielded| - 1
      ensures rest.yielded[i].Event? && Decodes(arriving[1..][i], dec, rest.yielded[i])
    {
      assert yielded[i + 1].Event? && Decodes(arriving[i + 1], dec, yielded[i + 1]);
    }
    forall k | 0 < k <= |rest.yielded| - 1 ensures wants(before + [first] + rest.yielded[..k]) {
      assert before + [first] + rest.yielded[..k] == before + yielded[..k + 1];
    }
  }
}
