/** Whole runs of a chain of agents: every hop is a machine of its own, every chain finishes, and what it delivers is
    what the sequential composition delivers. */
module ChainRuns {
  import opened Outcomes
  import opened Sinks
  import opened Adapters
  import opened ServerLoop
  import opened ClientLoop
  import opened Relays
  import opened RelayMachine
  import opened ChainMachine

  // ---------- every hop is a machine of its own ----------

  /** The part of a schedule that names agent k. */
  function MovesOf(moves: seq<ChainMove>, k: nat): seq<Move>
    decreases |moves|
  {
    if moves == [] then []
    else
      var last := moves[|moves| - 1];
      MovesOf(moves[..|moves| - 1], k) + if last.at == k then [last.move] else []
  }

  /** The step of agent k in a step of the chain: its own, unless its loop waits for the Transport below, or a round of
      its loop when that yields or ends. */
  function MoveAt<E, P>(c: ChainSetting<E, P>, ss: seq<State<E, P>>, m: ChainMove, k: nat): seq<Move>
    requires k < |ss| == |c.hops|
  {
    if m.at == k then
      if m.move.ServerMoves? && k > 0 && ss[k].loop.Running? then [] else [m.move]
    else if m.at + 1 == k && !m.move.ServerMoves? &&
            Resumes(ss[m.at], ClientStep(At(c, m.at), ss[m.at], m.move)).Some? then [ServerMoves]
    else []
  }

  function MovesAt<E, P>(c: ChainSetting<E, P>, moves: seq<ChainMove>, k: nat): seq<Move>
    requires k < |c.hops|
    decreases |moves|
  {
    if moves == [] then []
    else
      var front := moves[..|moves| - 1];
      MovesAt(c, front, k) + MoveAt(c, ChainExec(c, front), moves[|moves| - 1], k)
  }

  /** An iterator that passes on these items and returns. */
  function Listed<E>(items: seq<Item<E>>): nat -> Resumption<E> {
    (n: nat) => if n < |items| then Produces(items[n]) else Ends
  }

  /** What agent k ranges over: the source, or all that the Transport below has yielded so far. */
  function SourceAt<E, P>(c: ChainSetting<E, P>, ss: seq<State<E, P>>, k: nat): nat -> Resumption<E>
    requires k < |ss|
  {
    if k == 0 then c.source else Listed(ss[k - 1].yielded)
  }

  /** Agent k on its own, with its producer already complete. */
  function Alone<E, P>(c: ChainSetting<E, P>, ss: seq<State<E, P>>, k: nat): Setting<E, P>
    requires k < |ss| == |c.hops|
  {
    At(c, k).(source := SourceAt(c, ss, k))
  }

  /** What a step of the chain does to hop k. */
  lemma ChainStepAt<E, P>(c: ChainSetting<E, P>, ss: seq<State<E, P>>, m: ChainMove, k: nat)
    requires k < |ss| == |c.hops|
    ensures var ts, moved := ChainStep(c, ss, m), MoveAt(c, ss, m, k);
            if moved == [] then ts[k] == ss[k]
            else if m.at == k then ts[k] == Step(At(c, k), ss[k], m.move)
            else
              k > 0 && ts[k] == LoopStep(c.hops[k].enc, c.hops[k].sink, ss[k], Resumes(ss[k - 1], ts[k - 1]).value)
  {
  }

  /** A loop that still runs has looked at the items it took and no others. */
  lemma {:induction false} SameSource<E, P>(c: Setting<E, P>, d: Setting<E, P>, moves: seq<Move>)
    requires d == c.(source := d.source) && Exec(c, moves).loop.Running?
    requires forall i: nat :: i < Exec(c, moves).pulled ==> c.source(i) == d.source(i)
    ensures Exec(d, moves) == Exec(c, moves)
    decreases |moves|
  {
    if moves != [] {
      var front, last := moves[..|moves| - 1], moves[|moves| - 1];
      RunningStep(c, Exec(c, front), last);
      SameSource(c, d, front);
      SameStep(c, d, Exec(c, front), last);
    }
  }

  lemma RunningStep<E, P>(c: Setting<E, P>, s: State<E, P>, m: Move)
    requires Step(c, s, m).loop.Running?
    ensures s.loop.Running? && s.pulled <= Step(c, s, m).pulled
    ensures m.ServerMoves? ==> s.pulled < Step(c, s, m).pulled
  {
  }

  lemma SameStep<E, P>(c: Setting<E, P>, d: Setting<E, P>, s: State<E, P>, m: Move)
    requires d == c.(source := d.source)
    requires m.ServerMoves? && s.loop.Running? ==> c.source(s.pulled) == d.source(s.pulled)
    ensures Step(d, s, m) == Step(c, s, m)
  {
  }

  /** Every agent of a chain, in every interleaving with the others, is in a reachable state of the two-party machine
      that runs on what the Transport below has yielded: all theorems on that machine hold of every hop. */
  lemma {:induction false} HopIsMachine<E(!new), P(!new)>(c: ChainSetting<E, P>, moves: seq<ChainMove>, k: nat)
    requires k < |c.hops|
    ensures var ss := ChainExec(c, moves); ss[k] == Exec(Alone(c, ss, k), MovesAt(c, moves, k))
    decreases |moves|
  {
    if moves != [] {
      var front, last := moves[..|moves| - 1], moves[|moves| - 1];
      HopIsMachine(c, front, k);
      ChainReachable(c, front, k);
      FedLoop(c, ChainExec(c, front), last, k);
      HopStep(c, ChainExec(c, front), last, k, MovesAt(c, front, k));
    }
  }

  lemma HopStep<E(!new), P(!new)>(c: ChainSetting<E, P>, ss: seq<State<E, P>>, m: ChainMove, k: nat, moves: seq<Move>)
    requires k < |ss| == |c.hops| && LoopIsFed(c, ss, m, k)
    requires ss[k] == Exec(Alone(c, ss, k), moves)
    ensures var ts := ChainStep(c, ss, m); ts[k] == Exec(Alone(c, ts, k), moves + MoveAt(c, ss, m, k))
  {
    var ts, moved := ChainStep(c, ss, m), MoveAt(c, ss, m, k);
    ChainStepAt(c, ss, m, k);
    BelowStep(c, ss, m, k);
    if moved == [] {
      assert moves + moved == moves;
    } else {
      assert (moves + moved)[..|moves|] == moves && (moves + moved)[|moves|] == moved[0];
      if m.at == k {
        SameStep(At(c, k), Alone(c, ss, k), ss[k], m.move);
      } else {
        FedStep(c, ss, m, k, moves);
      }
    }
  }

  /** What hop k ranges over changes only with a round of its loop. */
  lemma BelowStep<E(!new), P(!new)>(c: ChainSetting<E, P>, ss: seq<State<E, P>>, m: ChainMove, k: nat)
    requires k < |ss| == |c.hops|
    ensures m.at == k || MoveAt(c, ss, m, k) == [] ==> SourceAt(c, ChainStep(c, ss, m), k) == SourceAt(c, ss, k)
  {
    if k > 0 && (m.at == k || MoveAt(c, ss, m, k) == []) {
      ChainStepAt(c, ss, m, k - 1);
      var ts := ChainStep(c, ss, m);
      if m.at == k - 1 && m.move.ServerMoves? {
        ServerStepAddsCalls(At(c, k - 1), ss[k - 1]);
      } else if m.at == k - 1 {
        ClientStepCases(At(c, k - 1), ss[k - 1], m.move);
      } else if ts[k - 1] != ss[k - 1] {
        LoopStepAddsCalls(c.hops[k - 1].enc, c.hops[k - 1].sink, ss[k - 1], Resumes(ss[k - 2], ts[k - 2]).value);
      }
    }
  }

  lemma FedStep<E(!new), P(!new)>(c: ChainSetting<E, P>, ss: seq<State<E, P>>, m: ChainMove, k: nat, moves: seq<Move>)
    requires 0 < k < |ss| == |c.hops| && ss[k].loop.Running? && ss[k].pulled == |ss[k - 1].yielded|
    requires ss[k] == Exec(Alone(c, ss, k), moves)
    requires m.at + 1 == k && MoveAt(c, ss, m, k) == [ServerMoves]
    ensures var ts := ChainStep(c, ss, m); ts[k] == ServerStep(Alone(c, ts, k), Exec(Alone(c, ts, k), moves))
  {
    var ts := ChainStep(c, ss, m);
    var b, t := ss[k - 1], ts[k - 1];
    ChainStepAt(c, ss, m, k);
    BelowMoves(c, ss, m, k - 1);
    FedRound(Alone(c, ss, k), Alone(c, ts, k), ss[k], b.yielded, t.yielded, Resumes(b, t).value, moves);
  }

  /** If the step is a round of the loop of hop k, that loop is running and has taken all that was yielded. */
  predicate LoopIsFed<E, P>(c: ChainSetting<E, P>, ss: seq<State<E, P>>, m: ChainMove, k: nat)
    requires k < |ss| == |c.hops|
  {
    m.at + 1 == k && MoveAt(c, ss, m, k) != [] ==> ss[k].loop.Running? && ss[k].pulled == |ss[k - 1].yielded|
  }

  lemma FedLoop<E(!new), P(!new)>(c: ChainSetting<E, P>, ss: seq<State<E, P>>, m: ChainMove, k: nat)
    requires k < |ss| == |c.hops| && HopInv(c, k, Below(ss, k), ss[k])
    ensures LoopIsFed(c, ss, m, k)
  {
    if m.at + 1 == k && MoveAt(c, ss, m, k) != [] {
      BelowMoves(c, ss, m, k - 1);
      LoopOfReceiving(c, k, ss[k - 1], ss[k]);
    }
  }

  lemma LoopOfReceiving<E(!new), P(!new)>(c: ChainSetting<E, P>, k: nat, b: State<E, P>, s: State<E, P>)
    requires HopInv(c, k, Some(b), s)
    ensures s.pulled == |b.yielded| && (b.client.Receiving? <==> s.loop.Running?)
  {
  }

  /** What the step below is, when it feeds a loop. */
  lemma BelowMoves<E(!new), P(!new)>(c: ChainSetting<E, P>, ss: seq<State<E, P>>, m: ChainMove, j: nat)
    requires j + 1 < |ss| == |c.hops| && m.at == j && MoveAt(c, ss, m, j + 1) == [ServerMoves]
    ensures var ts := ChainStep(c, ss, m);
            var next := Resumes(ss[j], ts[j]);
            && next.Some? && ss[j].client.Receiving?
            && ts[j].yielded == if next.value.Produces? then ss[j].yielded + [next.value.item] else ss[j].yielded
  {
    ChainStepAt(c, ss, m, j);
    ClientStepCases(At(c, j), ss[j], m.move);
  }

  /** A round of a running loop on the next item of a longer list, or on the end of the same one. */
  lemma FedRound<E(!new), P(!new)>(c: Setting<E, P>, d: Setting<E, P>, s: State<E, P>, before: seq<Item<E>>,
    after: seq<Item<E>>, next: Resumption<E>, moves: seq<Move>)
    requires c.source == Listed(before) && d == c.(source := Listed(after))
    requires after == if next.Produces? then before + [next.item] else before
    requires s == Exec(c, moves) && s.loop.Running? && s.pulled == |before|
    ensures LoopStep(c.enc, c.sink, s, next) == ServerStep(d, Exec(d, moves))
  {
    SameSource(c, d, moves);
    assert d.source(s.pulled) == next;
  }

  lemma {:induction false} FirstMoves<E, P>(c: ChainSetting<E, P>, moves: seq<ChainMove>)
    requires c.hops != []
    ensures MovesAt(c, moves, 0) == MovesOf(moves, 0)
    decreases |moves|
  {
    if moves != [] {
      FirstMoves(c, moves[..|moves| - 1]);
    }
  }

  /** The first agent runs its own part of the schedule on the source, whatever the others do; a chain of one hop is
      the two-party machine. */
  lemma FirstIsMachine<E(!new), P(!new)>(c: ChainSetting<E, P>, moves: seq<ChainMove>)
    requires c.hops != []
    ensures ChainExec(c, moves)[0] == Exec(At(c, 0), MovesOf(moves, 0))
    ensures |c.hops| == 1 ==> ChainExec(c, moves) == [Exec(At(c, 0), MovesOf(moves, 0))]
  {
    FirstMoves(c, moves);
    HopIsMachine(c, moves, 0);
  }

  // ---------- chains finish ----------

  /** The steps an adapter has left when its loop has returned. */
  function Left<E, P>(s: State<E, P>): nat {
    match s.handle
    case InBody => 2
    case Reporting(_) => 1
    case Finished(_) => 0
  }

  /** What is gained from s to t, with these steps of the agent's own. */
  ghost predicate Gains<E, P>(s: State<E, P>, own: seq<Move>, t: State<E, P>) {
    && Sends(s.calls) <= Sends(t.calls)
    && (t.client.Ended? || |t.seen| >= |Sends(s.calls)| || |t.seen| >= |s.seen| + Deliveries(own))
    && (s.client.Ended? || Reports(own) ==> t.client.Ended?)
    && (s.loop.Returned? ==>
          && t.loop.Returned?
          && (t.handle.Finished? || Left(t) + ServerMoveCount(own) <= Left(s)))
  }

  lemma HopStepGains<E(!new), P(!new)>(c: ChainSetting<E, P>, ss: seq<State<E, P>>, m: ChainMove, k: nat)
    requires k < |ss| == |c.hops| && (ss[k].handle.Finished? ==> ss[k].loop.Returned?)
    ensures var s, t := ss[k], ChainStep(c, ss, m)[k];
            && Sends(s.calls) <= Sends(t.calls)
            && (if m.at == k && !m.move.ServerMoves? then Advances(s, m.move, t)
                else t.seen == s.seen && t.client == s.client)
            && (s.loop.Returned? ==>
                  && t.loop.Returned?
                  && (t.handle.Finished? ||
                      Left(t) + (if m.at == k && m.move.ServerMoves? then 1 else 0) <= Left(s)))
  {
    ChainStepAt(c, ss, m, k);
    var s, t := ss[k], ChainStep(c, ss, m)[k];
    if MoveAt(c, ss, m, k) == [] {
    } else if m.at == k {
      StepIsProgress(At(c, k), s, m.move);
    } else {
      var next := Resumes(ss[k - 1], ChainStep(c, ss, m)[k - 1]).value;
      LoopStepAddsCalls(c.hops[k].enc, c.hops[k].sink, s, next);
      if t.calls != s.calls {
        SendsGrow(s.calls, t.calls[|s.calls|]);
      }
    }
  }

  /** Every hop keeps up in every interleaving: so many deliveries at it bring its client so many messages further, or
      to the last one sent; a report or break at it ends its client; and when its loop has returned, two steps of its
      server finish its call. */
  lemma {:induction false} HopGains<E(!new), P(!new)>(c: ChainSetting<E, P>, moves: seq<ChainMove>,
    more: seq<ChainMove>, k: nat)
    requires k < |c.hops|
    ensures Gains(ChainExec(c, moves)[k], MovesOf(more, k), ChainExec(c, moves + more)[k])
    decreases |more|
  {
    if more == [] {
      assert moves + more == moves;
    } else {
      var front, last := more[..|more| - 1], more[|more| - 1];
      assert (moves + more)[..|moves + more| - 1] == moves + front;
      HopGains(c, moves, front, k);
      HopIsMachine(c, moves + front, k);
      Reachable(Alone(c, ChainExec(c, moves + front), k), MovesAt(c, moves + front, k));
      HopStepGains(c, ChainExec(c, moves + front), last, k);
      var s, u, t := ChainExec(c, moves)[k], ChainExec(c, moves + front)[k], ChainExec(c, moves + more)[k];
      OneMoreGain(s, MovesOf(front, k), u, last, k, t);
    }
  }

  lemma OneMoreGain<E, P>(s: State<E, P>, own: seq<Move>, u: State<E, P>, m: ChainMove, k: nat, t: State<E, P>)
    requires Gains(s, own, u)
    requires Sends(u.calls) <= Sends(t.calls)
    requires if m.at == k && !m.move.ServerMoves? then Advances(u, m.move, t)
             else t.seen == u.seen && t.client == u.client
    requires u.loop.Returned? ==>
               && t.loop.Returned?
               && (t.handle.Finished? || Left(t) + (if m.at == k && m.move.ServerMoves? then 1 else 0) <= Left(u))
    requires u.handle.Finished? && u.loop.Returned? ==> t.handle.Finished?
    ensures Gains(s, own + (if m.at == k then [m.move] else []), t)
  {
    CountSnoc(own, m.move);
    assert own + [] == own;
  }

  /** When the Transport below an agent has ended, so has the agent's loop, and two of its server's steps finish it. */
  lemma EndedFeedsFinish<E(!new), P(!new)>(c: ChainSetting<E, P>, moves: seq<ChainMove>, more: seq<ChainMove>, k: nat)
    requires 0 < k < |c.hops| && ChainExec(c, moves)[k - 1].client.Ended?
    ensures ChainExec(c, moves)[k].loop.Returned?
    ensures ServerMoveCount(MovesOf(more, k)) >= 2 ==> ChainExec(c, moves + more)[k].handle.Finished?
  {
    ChainReachable(c, moves, k);
    LoopOfReceiving(c, k, ChainExec(c, moves)[k - 1], ChainExec(c, moves)[k]);
    HopGains(c, moves, more, k);
  }

  ghost predicate Done<E, P>(s: State<E, P>) {
    s.loop.Returned? && s.handle.Finished? && s.client.Ended?
  }

  /** The first agents are done, so many of them. */
  ghost predicate DoneTo<E, P>(ss: seq<State<E, P>>, j: nat)
    requires j <= |ss|
  {
    forall k :: 0 <= k < j ==> Done(ss[k])
  }

  lemma DoneStays<E(!new), P(!new)>(c: ChainSetting<E, P>, moves: seq<ChainMove>, more: seq<ChainMove>, k: nat)
    requires k < |c.hops| && Done(ChainExec(c, moves)[k])
    ensures Done(ChainExec(c, moves + more)[k])
  {
    HopGains(c, moves, more, k);
  }

  function Concat<T>(parts: seq<seq<T>>): seq<T> {
    if parts == [] then [] else Concat(parts[..|parts| - 1]) + parts[|parts| - 1]
  }

  /** Somewhere in these moves agent k is served: its server gets enough steps, and its channel reports or breaks. */
  predicate Attends(moves: seq<ChainMove>, k: nat, n: nat) {
    OwnServerMoves(moves, k) >= (if k == 0 then n + 3 else 2) && Reports(MovesOf(moves, k))
  }

  function OwnServerMoves(moves: seq<ChainMove>, k: nat): nat {
    ServerMoveCount(MovesOf(moves, k))
  }

  /** A schedule of one agent alone. */
  function Named(moves: seq<Move>, k: nat): seq<ChainMove> {
    seq(|moves|, i requires 0 <= i < |moves| => ChainMove(k, moves[i]))
  }

  lemma {:induction false} MovesOfNamed(moves: seq<Move>, k: nat)
    ensures MovesOf(Named(moves, k), k) == moves
    decreases |moves|
  {
    if moves != [] {
      var front, last := moves[..|moves| - 1], moves[|moves| - 1];
      MovesOfNamed(front, k);
      assert Named(moves, k)[..|moves| - 1] == Named(front, k);
      assert moves == front + [last];
    }
  }

  /** Every agent can be attended to, with any number of deliveries and with a break or without. */
  lemma TurnAttends(k: nat, n: nat, delivers: nat, breaks: Option<Error>)
    ensures Attends(Named(Sequentially(n, delivers, breaks), k), k, n)
  {
    var moves := Sequentially(n, delivers, breaks);
    MovesOfNamed(moves, k);
    CountSequentially(n, delivers, breaks);
  }

  lemma CountOfMoves(a: seq<ChainMove>, b: seq<ChainMove>, k: nat)
    ensures OwnServerMoves(a + b, k) == OwnServerMoves(a, k) + OwnServerMoves(b, k)
  {
    var count := (moves: seq<ChainMove>) => OwnServerMoves(moves, k);
    var one := (m: ChainMove) => if m.at == k && m.move.ServerMoves? then 1 else 0;
    forall moves, m ensures count(moves + [m]) == count(moves) + one(m) {
      CountOfMove(moves, m, k);
    }
    Additive(count, one, a, b);
  }

  /** What adds up element by element adds up. */
  lemma {:induction false} Additive<T(!new)>(count: seq<T> -> int, one: T -> int, a: seq<T>, b: seq<T>)
    requires count([]) == 0
    requires forall s, x :: count(s + [x]) == count(s) + one(x)
    ensures count(a + b) == count(a) + count(b)
    decreases |b|
  {
    if b == [] {
      assert a + b == a;
    } else {
      var front, last := b[..|b| - 1], b[|b| - 1];
      Additive(count, one, a, front);
      assert b == front + [last] && a + b == a + front + [last];
    }
  }

  lemma CountOfMove(moves: seq<ChainMove>, m: ChainMove, k: nat)
    ensures OwnServerMoves(moves + [m], k) ==
            OwnServerMoves(moves, k) + if m.at == k && m.move.ServerMoves? then 1 else 0
  {
    assert (moves + [m])[..|moves|] == moves;
    CountSnoc(MovesOf(moves, k), m.move);
    assert MovesOf(moves, k) + [] == MovesOf(moves, k);
  }

  /** Every chain finishes, whatever its length, sinks, channels and consumer, once the first agent's loop returns by
      item n: after any schedule at all, every schedule that attends to the agents in turn, with anything in between,
      leaves every server with its call finished and every client ended. */
  lemma ChainFinishes<E(!new), P(!new)>(c: ChainSetting<E, P>, before: seq<ChainMove>, turns: seq<seq<ChainMove>>,
    n: nat)
    requires |turns| == |c.hops| > 0 && ReturnsBy(At(c, 0), n)
    requires forall k :: 0 <= k < |turns| ==> Attends(turns[k], k, n)
    ensures DoneTo(ChainExec(c, before + Concat(turns)), |c.hops|)
  {
    FinishesUpTo(c, before, turns, n, |turns|);
    assert turns[..|turns|] == turns;
  }

  lemma {:induction false} FinishesUpTo<E(!new), P(!new)>(c: ChainSetting<E, P>, before: seq<ChainMove>,
    turns: seq<seq<ChainMove>>, n: nat, j: nat)
    requires |turns| == |c.hops| > 0 && ReturnsBy(At(c, 0), n) && j <= |turns|
    requires forall k :: 0 <= k < |turns| ==> Attends(turns[k], k, n)
    ensures DoneTo(ChainExec(c, before + Concat(turns[..j])), j)
    decreases j
  {
    if j > 0 {
      var moves := before + Concat(turns[..j - 1]);
      FinishesUpTo(c, before, turns, n, j - 1);
      assert turns[..j][..j - 1] == turns[..j - 1];
      assert before + Concat(turns[..j]) == moves + turns[j - 1];
      TurnFinishes(c, moves, turns[j - 1], j - 1, n);
    }
  }

  lemma TurnFinishes<E(!new), P(!new)>(c: ChainSetting<E, P>, moves: seq<ChainMove>, more: seq<ChainMove>, j: nat,
    n: nat)
    requires j < |c.hops| && ReturnsBy(At(c, 0), n) && Attends(more, j, n)
    requires DoneTo(ChainExec(c, moves), j)
    ensures DoneTo(ChainExec(c, moves + more), j + 1)
  {
    forall k | 0 <= k < j + 1 ensures Done(ChainExec(c, moves + more)[k]) {
      if k < j {
        DoneStays(c, moves, more, k);
      } else if k == 0 {
        FirstFinishes(c, moves, more, n);
      } else {
        NextFinishes(c, moves, more, k, n);
      }
    }
  }

  lemma NextFinishes<E(!new), P(!new)>(c: ChainSetting<E, P>, moves: seq<ChainMove>, more: seq<ChainMove>, k: nat,
    n: nat)
    requires 0 < k < |c.hops| && Done(ChainExec(c, moves)[k - 1]) && Attends(more, k, n)
    ensures Done(ChainExec(c, moves + more)[k])
  {
    EndedFeedsFinish(c, moves, more, k);
    HopGains(c, moves, more, k);
  }

  lemma FirstFinishes<E(!new), P(!new)>(c: ChainSetting<E, P>, moves: seq<ChainMove>, more: seq<ChainMove>, n: nat)
    requires c.hops != [] && ReturnsBy(At(c, 0), n) && Attends(more, 0, n)
    ensures Done(ChainExec(c, moves + more)[0])
  {
    CountOfMoves(moves, more, 0);
    FirstIsMachine(c, moves + more);
    ServerFinishes(At(c, 0), MovesOf(moves + more, 0), n);
    Reachable(At(c, 0), MovesOf(moves + more, 0));
    HopGains(c, moves, more, 0);
  }

  // ---------- a finished chain is the sequential one ----------

  /** Where the channels were cut. */
  function Cuts<E, P>(c: ChainSetting<E, P>, ss: seq<State<E, P>>): (links: seq<Link<E, P>>)
    requires |ss| == |c.hops|
    ensures |links| == |ss|
  {
    seq(|ss|, i requires 0 <= i < |ss| => Cut(At(c, i), ss[i]))
  }

  /** What each Transport yielded. */
  function Yields<E, P>(ss: seq<State<E, P>>): (outs: seq<seq<Item<E>>>)
    ensures |outs| == |ss|
  {
    seq(|ss|, i requires 0 <= i < |ss| => ss[i].yielded)
  }

  /** What hop k ranged over, in the end. */
  function Ranged<E, P>(c: ChainSetting<E, P>, ss: seq<State<E, P>>, k: nat): seq<Item<E>>
    requires k < |ss| && (k == 0 ==> Alive(c.source, ss[0].pulled))
  {
    if k == 0 then Taken(c.source, ss[0].pulled) else ss[k - 1].yielded
  }

  /** A finished hop did what the sequential composition does on what it ranged over. */
  lemma HopIsSequential<E(!new), P(!new)>(c: ChainSetting<E, P>, moves: seq<ChainMove>, k: nat)
    requires k < |c.hops| && Done(ChainExec(c, moves)[k])
    ensures var ss := ChainExec(c, moves);
            && (k == 0 ==> Alive(c.source, ss[0].pulled))
            && ServerRun(Ranged(c, ss, k), c.hops[k].enc, c.hops[k].sink) == Outcome(ss[k].calls, ss[k].handle.result)
            && ss[k].yielded == Relay(Cut(At(c, k), ss[k]), Ranged(c, ss, k), At(c, k).wants)
  {
    var ss := ChainExec(c, moves);
    ChainReachable(c, moves, k);
    FinishedOn(c, k, Below(ss, k), ss[k]);
    ClientIsSequential(At(c, k), ss[k]);
  }

  lemma FinishedOn<E(!new), P(!new)>(c: ChainSetting<E, P>, k: nat, below: Option<State<E, P>>, s: State<E, P>)
    requires HopInv(c, k, below, s) && s.handle.Finished?
    ensures ClientInv(At(c, k), s)
    ensures match below
            case None =>
              && Alive(c.source, s.pulled)
              && ServerRun(Taken(c.source, s.pulled), c.hops[k].enc, c.hops[k].sink) ==
                 Outcome(s.calls, s.handle.result)
            case Some(b) => ServerRun(b.yielded, c.hops[k].enc, c.hops[k].sink) == Outcome(s.calls, s.handle.result)
  {
  }

  ghost predicate IsCut<E, P>(c: ChainSetting<E, P>, ss: seq<State<E, P>>, links: seq<Link<E, P>>,
    outs: seq<seq<Item<E>>>, k: nat)
    requires k < |ss| == |c.hops| == |links| == |outs|
  {
    && links[k] == Cut(At(c, k), ss[k]) && outs[k] == ss[k].yielded
    && links[k].enc == c.hops[k].enc && links[k].sink == c.hops[k].sink
  }

  lemma CutsAt<E, P>(c: ChainSetting<E, P>, ss: seq<State<E, P>>, k: nat)
    requires k < |ss| == |c.hops|
    ensures IsCut(c, ss, Cuts(c, ss), Yields(ss), k)
  {
  }

  lemma CutHop<E, P>(c: ChainSetting<E, P>, ss: seq<State<E, P>>, links: seq<Link<E, P>>, outs: seq<seq<Item<E>>>,
    items: seq<Item<E>>, k: nat)
    requires k < |ss| == |c.hops| == |links| == |outs|
    requires forall j :: 0 <= j < |ss| ==> IsCut(c, ss, links, outs, j)
    requires ss[k].yielded ==
             Relay(Cut(At(c, k), ss[k]), if k == 0 then items else ss[k - 1].yielded, At(c, k).wants)
    ensures IsHop(links, outs, items, c.wants, k)
  {
    assert IsCut(c, ss, links, outs, k);
    assert k > 0 ==> IsCut(c, ss, links, outs, k - 1);
    assert k + 1 < |ss| ==> IsCut(c, ss, links, outs, k + 1);
  }

  lemma HopsOfRun<E(!new), P(!new)>(c: ChainSetting<E, P>, moves: seq<ChainMove>, links: seq<Link<E, P>>,
    outs: seq<seq<Item<E>>>)
    requires |c.hops| == |links| == |outs| > 0
    requires DoneTo(ChainExec(c, moves), |c.hops|)
    requires forall j :: 0 <= j < |c.hops| ==> IsCut(c, ChainExec(c, moves), links, outs, j)
    ensures var ss := ChainExec(c, moves);
            Alive(c.source, ss[0].pulled) && AreHops(links, outs, Taken(c.source, ss[0].pulled), c.wants)
  {
    var ss := ChainExec(c, moves);
    HopIsSequential(c, moves, 0);
    var items := Taken(c.source, ss[0].pulled);
    forall k | 0 <= k < |ss| ensures IsHop(links, outs, items, c.wants, k) {
      HopIsSequential(c, moves, k);
      CutHop(c, ss, links, outs, items, k);
    }
  }

  /** Interleaving changes nothing in a chain either: once all agents are done, what the consumer was given is what the
      sequential chain gives it, over the channels cut where they were, for the items the first agent took. */
  lemma ChainInterleavingIsSequential<E(!new), P(!new)>(c: ChainSetting<E, P>, moves: seq<ChainMove>)
    requires c.hops != []
    requires DoneTo(ChainExec(c, moves), |c.hops|)
    ensures var ss := ChainExec(c, moves);
            && Alive(c.source, ss[0].pulled)
            && ss[|ss| - 1].yielded == Chain(Cuts(c, ss), Taken(c.source, ss[0].pulled), c.wants)
  {
    var ss := ChainExec(c, moves);
    forall k | 0 <= k < |ss| ensures IsCut(c, ss, Cuts(c, ss), Yields(ss), k) {
      CutsAt(c, ss, k);
    }
    CutChain(c, moves, Cuts(c, ss), Yields(ss));
  }

  lemma CutChain<E(!new), P(!new)>(c: ChainSetting<E, P>, moves: seq<ChainMove>, links: seq<Link<E, P>>,
    outs: seq<seq<Item<E>>>)
    requires |c.hops| == |links| == |outs| > 0
    requires DoneTo(ChainExec(c, moves), |c.hops|)
    requires forall j :: 0 <= j < |c.hops| ==> IsCut(c, ChainExec(c, moves), links, outs, j)
    ensures var ss := ChainExec(c, moves);
            && Alive(c.source, ss[0].pulled)
            && ss[|ss| - 1].yielded == Chain(links, Taken(c.source, ss[0].pulled), c.wants)
  {
    var ss := ChainExec(c, moves);
    HopsOfRun(c, moves, links, outs);
    ChainByHops(links, outs, Taken(c.source, ss[0].pulled), c.wants);
    assert IsCut(c, ss, links, outs, |ss| - 1);
  }
}
