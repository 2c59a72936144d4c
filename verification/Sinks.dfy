/** The server end of a stream: the response sink, the bodies that send on it, and what a run of one does. */
module Sinks {
  import opened Outcomes

  /** The calls an adapter can make on a *slim_rpc.ResponseSink. */
  datatype SinkCall<+P> = Send(message: P) | Close | SendError(error: Error)

  /** How a sink answers: an arbitrary function of all calls up to and including the one it answers. */
  type Behaviour<!P> = seq<SinkCall<P>> -> Option<Error>

  class ResponseSink<P> {
    const behaviour: Behaviour<P>
    var calls: seq<SinkCall<P>>

    constructor (behaviour: Behaviour<P>)
      ensures this.behaviour == behaviour && calls == []
    {
      this.behaviour := behaviour;
      calls := [];
    }

    method Do(call: SinkCall<P>) returns (err: Option<Error>)
      modifies this
      ensures calls == old(calls) + [call]
      ensures err == behaviour(calls)
    {
      calls := calls + [call];
      err := behaviour(calls);
    }
  }

  /** The messages of a trace, in order, whether or not the sink accepted them. */
  function Sends<P>(calls: seq<SinkCall<P>>): seq<P> {
    if calls == [] then []
    else
      var before := Sends(calls[..|calls| - 1]);
      match calls[|calls| - 1]
      case Send(p) => before + [p]
      case _ => before
  }

  lemma SendsSnoc<P>(calls: seq<SinkCall<P>>, call: SinkCall<P>)
    ensures Sends(calls + [call]) == if call.Send? then Sends(calls) + [call.message] else Sends(calls)
  {
    assert (calls + [call])[..|calls|] == calls;
  }

  lemma {:induction false} SendsOfSends<P>(calls: seq<SinkCall<P>>)
    requires forall i :: 0 <= i < |calls| ==> calls[i].Send?
    ensures |Sends(calls)| == |calls| && forall i :: 0 <= i < |calls| ==> Sends(calls)[i] == calls[i].message
  {
    if calls != [] {
      SendsOfSends(calls[..|calls| - 1]);
    }
  }

  /** What a streaming method body does next. */
  datatype Action<+P> = Transmit(message: P) | Return(err: Option<Error>)

  /** A body handed a ServerStream can only Send and return. It is a strategy: given the outcomes of
      its sends so far, what it does next. */
  type Body<!P> = seq<Option<Error>> -> Action<P>

  /** Body returns after exactly n more sends on this sink. */
  ghost predicate Returns<P>(body: Body<P>, sink: Behaviour<P>, calls: seq<SinkCall<P>>,
    answers: seq<Option<Error>>, n: nat)
    decreases n
  {
    match body(answers)
    case Return(_) => n == 0
    case Transmit(p) =>
      var sent := calls + [Send(p)];
      n > 0 && Returns(body, sink, sent, answers + [sink(sent)], n - 1)
  }

  /** The trace a run leaves on the sink and the error it returns. */
  datatype Outcome<+P> = Outcome(calls: seq<SinkCall<P>>, err: Option<Error>)

  ghost function Run<P>(body: Body<P>, sink: Behaviour<P>, calls: seq<SinkCall<P>>, answers: seq<Option<Error>>,
    n: nat): Outcome<P>
    requires Returns(body, sink, calls, answers, n)
    decreases n
  {
    match body(answers)
    case Return(e) => Outcome(calls, e)
    case Transmit(p) =>
      var sent := calls + [Send(p)];
      Run(body, sink, sent, answers + [sink(sent)], n - 1)
  }

  /** A body that returns adds sends, n of them, and nothing else. */
  lemma {:induction false} RunOnlySends<P>(body: Body<P>, sink: Behaviour<P>, calls: seq<SinkCall<P>>,
    answers: seq<Option<Error>>, n: nat)
    requires Returns(body, sink, calls, answers, n)
    ensures var after := Run(body, sink, calls, answers, n).calls;
            |after| == |calls| + n && after[..|calls|] == calls && forall i :: |calls| <= i < |after| ==> after[i].Send?
    decreases n
  {
    if body(answers).Transmit? {
      var sent := calls + [Send(body(answers).message)];
      RunOnlySends(body, sink, sent, answers + [sink(sent)], n - 1);
      var after := Run(body, sink, calls, answers, n).calls;
      assert calls == sent[..|calls|] == after[..|sent|][..|calls|] == after[..|calls|];
      assert after[|calls|] == sent[|calls|];
    }
  }

  /** A body on a live sink. */
  method RunBody<P>(body: Body<P>, sink: ResponseSink<P>, ghost n: nat) returns (err: Option<Error>)
    requires Returns(body, sink.behaviour, sink.calls, [], n)
    modifies sink
    ensures Outcome(sink.calls, err) == Run(body, sink.behaviour, old(sink.calls), [], n)
  {
    var answers := [];
    var action := body(answers);
    ghost var left := n;
    while action.Transmit?
      invariant action == body(answers)
      invariant Returns(body, sink.behaviour, sink.calls, answers, left)
      invariant Run(body, sink.behaviour, sink.calls, answers, left) ==
                Run(body, sink.behaviour, old(sink.calls), [], n)
      decreases left
    {
      var answer := sink.Do(Send(action.message));
      answers := answers + [answer];
      action := body(answers);
      left := left - 1;
    }
    err := action.err;
  }
}
