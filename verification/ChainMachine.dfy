/** A chain of agents, all running at the same time. Each agent's handler loop ranges over the iterator of the
    Transport below it, so that a reception there and a round of the loop are one step; the first agent's producer
    may never end. */
module ChainMachine {
  import opened Outcomes
  import opened Sinks
  import opened Adapters
  import opened ServerLoop
  import opened ClientLoop
  import opened Relays
  import opened RelayMachine

  /** One agent's handler and sink, and the Transport that receives from it. */
  datatype Hop<!E, !P> = Hop(enc: E -> Result<P>, dec: P -> Result<E>, sink: Behaviour<P>)

  datatype ChainSetting<!E, !P> = ChainSetting(source: nat -> Resumption<E>, hops: seq<Hop<E, P>>, wants: Appetite<E>)

  datatype ChainMove = ChainMove(at: nat, move: Move)

  /** The machine of hop i: its consumer is the loop of the next agent, or the consumer of the whole chain. */
  function At<E, P>(c: ChainSetting<E, P>, i: nat): Setting<E, P>
    requires i < |c.hops|
  {
    var h := c.hops[i];
    var wants := if i + 1 < |c.hops| then LoopAppetite(c.hops[i + 1].enc, c.hops[i + 1].sink, []) else c.wants;
    Setting(c.source, h.enc, h.dec, h.sink, wants)
  }

  function ChainStart<E, P>(c: ChainSetting<E, P>): seq<State<E, P>> {
    seq(|c.hops|, _ => Start())
  }

  /** What a step of a Transport's iterator does to the loop that ranges over it. */
  function Resumes<E, P>(before: State<E, P>, after: State<E, P>): Option<Resumption<E>> {
    if |after.yielded| > |before.yielded| then Some(Produces(after.yielded[|after.yielded| - 1]))
    else if before.client.Receiving? && after.client.Ended? then Some(Ends)
    else None
  }

  /** A server moves by itself when its producer is the source or its loop has returned; a loop over a Transport's
      iterator moves with the iterator. */
  function ChainStep<E, P>(c: ChainSetting<E, P>, ss: seq<State<E, P>>, m: ChainMove): (ts: seq<State<E, P>>)
    requires |ss| == |c.hops|
    ensures |ts| == |ss|
  {
    var i := m.at;
    if i >= |ss| then ss
    else if m.move.ServerMoves? then
      if i == 0 || ss[i].loop.Returned? then ss[i := ServerStep(At(c, i), ss[i])] else ss
    else ClientMoves(c, ss, i, m.move)
  }

  function ClientMoves<E, P>(c: ChainSetting<E, P>, ss: seq<State<E, P>>, i: nat, m: Move): (ts: seq<State<E, P>>)
    requires i < |ss| == |c.hops|
    ensures |ts| == |ss|
  {
    var t := ClientStep(At(c, i), ss[i], m);
    var next := Resumes(ss[i], t);
    if i + 1 < |ss| && next.Some? then
      ss[i := t][i + 1 := LoopStep(c.hops[i + 1].enc, c.hops[i + 1].sink, ss[i + 1], next.value)]
    else ss[i := t]
  }

  function ChainExec<E, P>(c: ChainSetting<E, P>, moves: seq<ChainMove>): (ss: seq<State<E, P>>)
    ensures |ss| == |c.hops|
    decreases |moves|
  {
    if moves == [] then ChainStart(c) else ChainStep(c, ChainExec(c, moves[..|moves| - 1]), moves[|moves| - 1])
  }

  /** The loop of an agent has taken exactly what the Transport below has yielded, and runs while that receives. */
  ghost predicate Fed<E(!new), P(!new)>(hop: Hop<E, P>, below: State<E, P>, s: State<E, P>) {
    ServerOn(below.yielded, hop.enc, hop.sink, s) && (below.client.Receiving? <==> s.loop.Running?)
  }

  /** A hop is in order, given the hop below it if there is one. */
  ghost predicate HopInv<E(!new), P(!new)>(c: ChainSetting<E, P>, i: nat, below: Option<State<E, P>>, s: State<E, P>) {
    && i < |c.hops|
    && ClientInv(At(c, i), s)
    && match below
       case None => ServerInv(At(c, i), s)
       case Some(b) => Fed(c.hops[i], b, s)
  }

  // ---------- rows in which every element depends on the one below it ----------

  type RowPredicate<!S> = (nat, Option<S>, S) -> bool

  function Below<S>(ss: seq<S>, i: nat): Option<S>
    requires i < |ss|
  {
    if i == 0 then None else Some(ss[i - 1])
  }

  ghost predicate Row<S>(ok: RowPredicate<S>, ss: seq<S>) {
    forall i :: 0 <= i < |ss| ==> ok(i, Below(ss, i), ss[i])
  }

  lemma ReplaceOne<S>(ok: RowPredicate<S>, ss: seq<S>, i: nat, t: S)
    requires Row(ok, ss) && i < |ss|
    requires ok(i, Below(ss, i), t) && (i + 1 < |ss| ==> ok(i + 1, Some(t), ss[i + 1]))
    ensures Row(ok, ss[i := t])
  {
    var ts := ss[i := t];
    forall j | 0 <= j < |ts| ensures ok(j, Below(ts, j), ts[j]) {
      assert ok(j, Below(ss, j), ss[j]);
    }
  }

  lemma ReplaceTwo<S>(ok: RowPredicate<S>, ss: seq<S>, i: nat, t: S, u: S)
    requires Row(ok, ss) && i + 1 < |ss|
    requires ok(i, Below(ss, i), t) && ok(i + 1, Some(t), u) && (i + 2 < |ss| ==> ok(i + 2, Some(u), ss[i + 2]))
    ensures Row(ok, ss[i := t][i + 1 := u])
  {
    var ts := ss[i := t][i + 1 := u];
    forall j | 0 <= j < |ts| ensures ok(j, Below(ts, j), ts[j]) {
      assert ok(j, Below(ss, j), ss[j]);
    }
  }

  /** The predicate is this chain's HopInv. Proofs about whole rows use the name only. */
  ghost predicate IsHopInv<E(!new), P(!new)>(ok: RowPredicate<State<E, P>>, c: ChainSetting<E, P>) {
    forall i, below, s {:trigger HopInv(c, i, below, s)} :: ok(i, below, s) <==> HopInv(c, i, below, s)
  }

  ghost function HopInvOf<E(!new), P(!new)>(c: ChainSetting<E, P>): RowPredicate<State<E, P>> {
    (i: nat, below: Option<State<E, P>>, s: State<E, P>) => HopInv(c, i, below, s)
  }

  // ---------- every step keeps the row in order ----------

  /** Hop j depends on the one below through its yields and whether it still receives. */
  lemma SameForNext<E(!new), P(!new)>(c: ChainSetting<E, P>, j: nat, b: State<E, P>, t: State<E, P>, s: State<E, P>)
    requires HopInv(c, j, Some(b), s)
    requires t.yielded == b.yielded && t.client == b.client
    ensures HopInv(c, j, Some(t), s)
  {
  }

  lemma ServerMoveKeepsHop<E(!new), P(!new)>(c: ChainSetting<E, P>, i: nat, below: Option<State<E, P>>, s: State<E, P>)
    requires HopInv(c, i, below, s) && (below.None? || s.loop.Returned?)
    ensures var t := ServerStep(At(c, i), s);
            HopInv(c, i, below, t) && t.yielded == s.yielded && t.client == s.client
  {
    ServerStepKeepsClient(At(c, i), s);
    ServerStepAddsCalls(At(c, i), s);
    match below
    case None => ServerStepKeepsServer(At(c, i), s);
    case Some(b) => HandleStepKeepsServer(b.yielded, c.hops[i].enc, c.hops[i].sink, s);
  }

  /** A client's step keeps its own hop in order. */
  lemma ClientMoveKeepsHop<E(!new), P(!new)>(c: ChainSetting<E, P>, i: nat, below: Option<State<E, P>>,
    s: State<E, P>, m: Move)
    requires HopInv(c, i, below, s)
    ensures HopInv(c, i, below, ClientStep(At(c, i), s, m))
  {
    var t := ClientStep(At(c, i), s, m);
    ClientStepKeepsClient(At(c, i), s, m);
    ClientStepLeavesServer(At(c, i), s, m);
    match below
    case None => SameServer(Taken(c.source, s.pulled), c.hops[i].enc, c.hops[i].sink, s, t);
    case Some(b) => SameServer(b.yielded, c.hops[i].enc, c.hops[i].sink, s, t);
  }

  /** What a client's step can be: nothing, the end of the stream, or one more yield. */
  lemma ClientStepCases<E(!new), P(!new)>(c: Setting<E, P>, s: State<E, P>, m: Move)
    requires !m.ServerMoves?
    ensures var t := ClientStep(c, s, m);
            match Resumes(s, t)
            case None => t == s
            case Some(Ends) => s.client.Receiving? && t.client.Ended? && t.yielded == s.yielded
            case Some(Produces(item)) =>
              && s.client.Receiving?
              && t.yielded == s.yielded + [item]
              && (t.client.Receiving? <==> item.Event? && c.wants(t.yielded))
  {
  }

  /** A client's step keeps the loop that it feeds in order: the iterator goes on exactly when that loop does. */
  lemma ClientMoveKeepsNext<E(!new), P(!new)>(c: ChainSetting<E, P>, i: nat, b: State<E, P>, s: State<E, P>, m: Move)
    requires i + 1 < |c.hops| && !m.ServerMoves?
    requires HopInv(c, i + 1, Some(b), s)
    requires Resumes(b, ClientStep(At(c, i), b, m)).Some?
    ensures var t := ClientStep(At(c, i), b, m);
            var u := LoopStep(c.hops[i + 1].enc, c.hops[i + 1].sink, s, Resumes(b, t).value);
            HopInv(c, i + 1, Some(t), u) && u.yielded == s.yielded && u.client == s.client
  {
    var h := c.hops[i + 1];
    var t := ClientStep(At(c, i), b, m);
    var next := Resumes(b, t).value;
    ClientStepCases(At(c, i), b, m);
    LoopStepKeepsServer(b.yielded, h.enc, h.sink, s, next);
    FailureStopsLoop(b.yielded, h, next);
    LoopStepKeepsClient(At(c, i + 1), s, next);
  }

  lemma LoopStepKeepsClient<E(!new), P(!new)>(c: Setting<E, P>, s: State<E, P>, next: Resumption<E>)
    requires ClientInv(c, s)
    ensures var t := LoopStep(c.enc, c.sink, s, next);
            ClientInv(c, t) && t.yielded == s.yielded && t.client == s.client
  {
    var t := LoopStep(c.enc, c.sink, s, next);
    LoopStepAddsCalls(c.enc, c.sink, s, next);
    if t.calls != s.calls {
      SendsGrow(s.calls, t.calls[|s.calls|]);
    }
    MoreSendsKeepClient(c, s, t);
  }

  lemma FailureStopsLoop<E(!new), P(!new)>(items: seq<Item<E>>, h: Hop<E, P>, next: Resumption<E>)
    ensures next.Produces? && next.item.Failure? ==> Loop(items + [next.item], h.enc, h.sink, []).err.Some?
  {
    if next.Produces? {
      LoopAppend(items, [next.item], h.enc, h.sink, []);
    }
  }

  lemma LoopStepAddsCalls<E(!new), P(!new)>(enc: E -> Result<P>, sink: Behaviour<P>, s: State<E, P>,
    next: Resumption<E>)
    ensures var t := LoopStep(enc, sink, s, next);
            && t.seen == s.seen && t.yielded == s.yielded && t.client == s.client
            && (t.calls == s.calls || (|t.calls| > |s.calls| && t.calls == s.calls + [t.calls[|s.calls|]]))
  {
  }

  lemma NextInOrder<E(!new), P(!new)>(ok: RowPredicate<State<E, P>>, c: ChainSetting<E, P>, j: nat, b: State<E, P>,
    t: State<E, P>, s: State<E, P>)
    requires IsHopInv(ok, c) && ok(j, Some(b), s)
    requires t.yielded == b.yielded && t.client == b.client
    ensures ok(j, Some(t), s)
  {
    assert HopInv(c, j, Some(b), s);
    SameForNext(c, j, b, t, s);
    assert HopInv(c, j, Some(t), s);
  }

  /** A hop that looks the same from above may change, if it stays in order itself. */
  lemma ReplaceInOrder<E(!new), P(!new)>(ok: RowPredicate<State<E, P>>, c: ChainSetting<E, P>, ss: seq<State<E, P>>,
    i: nat, t: State<E, P>)
    requires IsHopInv(ok, c) && Row(ok, ss) && i < |ss|
    requires i + 1 == |ss| || (t.yielded == ss[i].yielded && t.client == ss[i].client)
    requires ok(i, Below(ss, i), t)
    ensures Row(ok, ss[i := t])
  {
    if i + 1 < |ss| {
      assert ok(i + 1, Below(ss, i + 1), ss[i + 1]);
      NextInOrder(ok, c, i + 1, ss[i], t, ss[i + 1]);
    }
    ReplaceOne(ok, ss, i, t);
  }

  /** A hop and the one above it may change together, if the second looks the same from above. */
  lemma ReplaceTwoInOrder<E(!new), P(!new)>(ok: RowPredicate<State<E, P>>, c: ChainSetting<E, P>, ss: seq<State<E, P>>,
    i: nat, t: State<E, P>, u: State<E, P>)
    requires IsHopInv(ok, c) && Row(ok, ss) && i + 1 < |ss|
    requires u.yielded == ss[i + 1].yielded && u.client == ss[i + 1].client
    requires ok(i, Below(ss, i), t) && ok(i + 1, Some(t), u)
    ensures Row(ok, ss[i := t][i + 1 := u])
  {
    if i + 2 < |ss| {
      assert ok(i + 2, Below(ss, i + 2), ss[i + 2]);
      NextInOrder(ok, c, i + 2, ss[i + 1], u, ss[i + 2]);
    }
    ReplaceTwo(ok, ss, i, t, u);
  }

  lemma ServerMoveInOrder<E(!new), P(!new)>(ok: RowPredicate<State<E, P>>, c: ChainSetting<E, P>, i: nat,
    below: Option<State<E, P>>, s: State<E, P>)
    requires IsHopInv(ok, c) && i < |c.hops| && ok(i, below, s) && (below.None? || s.loop.Returned?)
    ensures var t := ServerStep(At(c, i), s);
            ok(i, below, t) && t.yielded == s.yielded && t.client == s.client
  {
    assert HopInv(c, i, below, s);
    ServerMoveKeepsHop(c, i, below, s);
    assert HopInv(c, i, below, ServerStep(At(c, i), s));
  }

  lemma ClientMoveInOrder<E(!new), P(!new)>(ok: RowPredicate<State<E, P>>, c: ChainSetting<E, P>, i: nat,
    below: Option<State<E, P>>, s: State<E, P>, m: Move)
    requires IsHopInv(ok, c) && i < |c.hops| && ok(i, below, s)
    ensures ok(i, below, ClientStep(At(c, i), s, m))
  {
    assert HopInv(c, i, below, s);
    ClientMoveKeepsHop(c, i, below, s, m);
    assert HopInv(c, i, below, ClientStep(At(c, i), s, m));
  }

  lemma FedMoveInOrder<E(!new), P(!new)>(ok: RowPredicate<State<E, P>>, c: ChainSetting<E, P>, i: nat, b: State<E, P>,
    s: State<E, P>, m: Move)
    requires IsHopInv(ok, c) && i + 1 < |c.hops| && !m.ServerMoves?
    requires ok(i + 1, Some(b), s) && Resumes(b, ClientStep(At(c, i), b, m)).Some?
    ensures var t := ClientStep(At(c, i), b, m);
            var u := LoopStep(c.hops[i + 1].enc, c.hops[i + 1].sink, s, Resumes(b, t).value);
            ok(i + 1, Some(t), u) && u.yielded == s.yielded && u.client == s.client
  {
    assert HopInv(c, i + 1, Some(b), s);
    ClientMoveKeepsNext(c, i, b, s, m);
    var t := ClientStep(At(c, i), b, m);
    assert HopInv(c, i + 1, Some(t), LoopStep(c.hops[i + 1].enc, c.hops[i + 1].sink, s, Resumes(b, t).value));
  }

  lemma FedMoveKeepsRow<E(!new), P(!new)>(ok: RowPredicate<State<E, P>>, c: ChainSetting<E, P>, ss: seq<State<E, P>>,
    i: nat, m: Move)
    requires IsHopInv(ok, c) && Row(ok, ss) && i + 1 < |ss| == |c.hops| && !m.ServerMoves?
    requires Resumes(ss[i], ClientStep(At(c, i), ss[i], m)).Some?
    requires ok(i, Below(ss, i), ClientStep(At(c, i), ss[i], m))
    ensures var t := ClientStep(At(c, i), ss[i], m);
            var u := LoopStep(c.hops[i + 1].enc, c.hops[i + 1].sink, ss[i + 1], Resumes(ss[i], t).value);
            Row(ok, ss[i := t][i + 1 := u])
  {
    var t := ClientStep(At(c, i), ss[i], m);
    assert ok(i + 1, Below(ss, i + 1), ss[i + 1]);
    FedMoveInOrder(ok, c, i, ss[i], ss[i + 1], m);
    var u := LoopStep(c.hops[i + 1].enc, c.hops[i + 1].sink, ss[i + 1], Resumes(ss[i], t).value);
    ReplaceTwoInOrder(ok, c, ss, i, t, u);
  }

  lemma UnfedMoveKeepsRow<E(!new), P(!new)>(ok: RowPredicate<State<E, P>>, c: ChainSetting<E, P>, ss: seq<State<E, P>>,
    i: nat, m: Move)
    requires IsHopInv(ok, c) && Row(ok, ss) && i < |ss| == |c.hops| && !m.ServerMoves?
    requires i + 1 == |ss| || Resumes(ss[i], ClientStep(At(c, i), ss[i], m)).None?
    requires ok(i, Below(ss, i), ClientStep(At(c, i), ss[i], m))
    ensures Row(ok, ss[i := ClientStep(At(c, i), ss[i], m)])
  {
    ClientStepCases(At(c, i), ss[i], m);
    ReplaceInOrder(ok, c, ss, i, ClientStep(At(c, i), ss[i], m));
  }

  lemma ClientMoveInRow<E(!new), P(!new)>(ok: RowPredicate<State<E, P>>, c: ChainSetting<E, P>, ss: seq<State<E, P>>,
    i: nat, m: Move)
    requires IsHopInv(ok, c) && Row(ok, ss) && i < |ss| == |c.hops| && !m.ServerMoves?
    ensures ok(i, Below(ss, i), ClientStep(At(c, i), ss[i], m))
  {
    assert ok(i, Below(ss, i), ss[i]);
    ClientMoveInOrder(ok, c, i, Below(ss, i), ss[i], m);
  }

  lemma ClientMoveKeepsRow<E(!new), P(!new)>(ok: RowPredicate<State<E, P>>, c: ChainSetting<E, P>, ss: seq<State<E, P>>,
    i: nat, m: Move)
    requires IsHopInv(ok, c) && Row(ok, ss) && i < |ss| == |c.hops| && !m.ServerMoves?
    ensures Row(ok, ClientMoves(c, ss, i, m))
  {
    ClientMoveInRow(ok, c, ss, i, m);
    var next := Resumes(ss[i], ClientStep(At(c, i), ss[i], m));
    if i + 1 < |ss| && next.Some? {
      FedMoveKeepsRow(ok, c, ss, i, m);
    } else {
      UnfedMoveKeepsRow(ok, c, ss, i, m);
    }
  }

  lemma ServerMoveKeepsRow<E(!new), P(!new)>(ok: RowPredicate<State<E, P>>, c: ChainSetting<E, P>, ss: seq<State<E, P>>,
    i: nat)
    requires IsHopInv(ok, c) && Row(ok, ss) && i < |ss| == |c.hops| && (i == 0 || ss[i].loop.Returned?)
    ensures Row(ok, ss[i := ServerStep(At(c, i), ss[i])])
  {
    assert ok(i, Below(ss, i), ss[i]);
    ServerMoveInOrder(ok, c, i, Below(ss, i), ss[i]);
    ReplaceInOrder(ok, c, ss, i, ServerStep(At(c, i), ss[i]));
  }

  lemma StartInOrder<E(!new), P(!new)>(c: ChainSetting<E, P>, i: nat)
    requires i < |c.hops|
    ensures HopInv(c, i, None, Start()) && HopInv(c, i, Some(Start()), Start())
  {
  }

  lemma {:induction false} RowReachable<E(!new), P(!new)>(ok: RowPredicate<State<E, P>>, c: ChainSetting<E, P>,
    moves: seq<ChainMove>)
    requires IsHopInv(ok, c)
    ensures Row(ok, ChainExec(c, moves))
    decreases |moves|
  {
    if moves == [] {
      forall i | 0 <= i < |c.hops| ensures ok(i, Below(ChainStart(c), i), Start()) {
        StartInOrder(c, i);
        assert HopInv(c, i, Below(ChainStart(c), i), Start());
      }
    } else {
      var ss, m := ChainExec(c, moves[..|moves| - 1]), moves[|moves| - 1];
      RowReachable(ok, c, moves[..|moves| - 1]);
      if m.at < |ss| {
        if !m.move.ServerMoves? {
          ClientMoveKeepsRow(ok, c, ss, m.at, m.move);
        } else if m.at == 0 || ss[m.at].loop.Returned? {
          ServerMoveKeepsRow(ok, c, ss, m.at);
        }
      }
    }
  }

  /** In every reachable state of the chain every hop is in order, given the hop below it. */
  lemma ChainReachable<E(!new), P(!new)>(c: ChainSetting<E, P>, moves: seq<ChainMove>, k: nat)
    requires k < |c.hops|
    ensures var ss := ChainExec(c, moves); HopInv(c, k, Below(ss, k), ss[k])
  {
    var ss := ChainExec(c, moves);
    RowReachable(HopInvOf(c), c, moves);
    assert HopInvOf(c)(k, Below(ss, k), ss[k]);
  }

  /** An event carried over the first k hops. */
  function Carried<E, P>(hops: seq<Hop<E, P>>, v: E, k: nat): Result<E>
    requires k <= |hops|
  {
    if k == 0 then Ok(v)
    else
      match Carried(hops, v, k - 1)
      case Err(e) => Err(e)
      case Ok(w) => Then(hops[k - 1].enc, hops[k - 1].dec, w)
  }

  /** Yield i of hop k is the source's event i, carried over the first k + 1 hops. */
  ghost predicate FromSource<E(!new), P(!new)>(c: ChainSetting<E, P>, pulled: nat, yielded: seq<Item<E>>, k: nat)
    requires k < |c.hops|
  {
    forall i :: 0 <= i < |yielded| && yielded[i].Event? ==>
      && i < pulled && c.source(i).Produces? && c.source(i).item.Event?
      && Carried(c.hops, c.source(i).item.event, k + 1) == Ok(yielded[i].event)
  }

  /** At every moment of every interleaving of any number of agents, with a producer that may never end: the consumer
      at the far end, like every agent on the way, has an in-order prefix of the events the source has produced, each
      carried over every hop; an error is the last thing it was given; and no agent has taken more or less than the
      Transport below it yielded. */
  lemma ChainAlwaysAPrefix<E(!new), P(!new)>(c: ChainSetting<E, P>, moves: seq<ChainMove>, k: nat)
    requires k < |c.hops|
    ensures var ss := ChainExec(c, moves);
            && FromSource(c, ss[0].pulled, ss[k].yielded, k)
            && ErrorsOnlyLast(ss[k].yielded)
            && (k > 0 ==> ss[k].pulled == |ss[k - 1].yielded|)
  {
    var ss := ChainExec(c, moves);
    ChainReachable(c, moves, k);
    ReceivedItems(At(c, k), ss[k]);
    AllFromSource(c, moves, k);
  }

  lemma {:induction false} AllFromSource<E(!new), P(!new)>(c: ChainSetting<E, P>, moves: seq<ChainMove>, k: nat)
    requires k < |c.hops|
    ensures var ss := ChainExec(c, moves); FromSource(c, ss[0].pulled, ss[k].yielded, k)
  {
    var ss := ChainExec(c, moves);
    ChainReachable(c, moves, k);
    if k == 0 {
      FirstFromSource(c, ss[0]);
    } else {
      AllFromSource(c, moves, k - 1);
      NextFromSource(c, ss[0].pulled, ss[k - 1], ss[k], k);
    }
  }

  lemma FirstFromSource<E(!new), P(!new)>(c: ChainSetting<E, P>, s: State<E, P>)
    requires HopInv(c, 0, None, s)
    ensures FromSource(c, s.pulled, s.yielded, 0)
  {
    var h := c.hops[0];
    ReceivedItems(At(c, 0), s);
    SentItems(Taken(c.source, s.pulled), h.enc, h.sink, s);
    forall v: E ensures Carried(c.hops, v, 1) == Then(h.enc, h.dec, v) {
      assert Carried(c.hops, v, 0) == Ok(v);
    }
  }

  lemma NextFromSource<E(!new), P(!new)>(c: ChainSetting<E, P>, pulled: nat, b: State<E, P>, s: State<E, P>, k: nat)
    requires 0 < k && HopInv(c, k, Some(b), s) && FromSource(c, pulled, b.yielded, k - 1)
    ensures FromSource(c, pulled, s.yielded, k)
  {
    ReceivedItems(At(c, k), s);
    SentItems(b.yielded, c.hops[k].enc, c.hops[k].sink, s);
  }
}
