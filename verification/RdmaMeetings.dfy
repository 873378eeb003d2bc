/** Which messages the sessions exchange, position by position in the log of meetings. */
module RdmaMeetings {
  import opened Sequences
  import opened RdmaMachine
  import opened RdmaTheorems
  import opened RdmaLatency
  import opened RdmaActions

  /** Blocks that only meet are programs that only meet. */
  lemma {:induction false} PlainParts(bs: seq<Block>)
    requires forall b :: b in bs ==> b.cops == [] && b.sops == []
    ensures |ClientPart(bs)| == |bs| == |ServerPart(bs)|
    ensures forall u :: 0 <= u < |bs| ==> ClientPart(bs)[u] == ClientSide(bs[u].comm) && ServerPart(bs)[u] == ServerSide(bs[u].comm)
  {
    if bs != [] {
      assert bs[0] in bs;
      PlainParts(bs[1..]);
    }
  }

  /** A two-sided latency session has no action but its meetings, apart from the server's buffer. */
  lemma LatencyMeets(e: TwoLat, m: Mem, u: nat)
    requires e.Valid() && u < |e.Blocks()|
    ensures |e.Blocks()| == |e.Client()| == |e.Server()| - 1
    ensures Entry(e.Blocks(), m, u).send == e.Client()[u] && Entry(e.Blocks(), m, u).recv == e.Server()[u + 1]
  {
    e.FullFrom(0);
    e.ProjectsFrom(0);
    PlainParts(e.BlocksFrom(0));
    if u > 0 {
      assert e.Blocks()[u] == e.BlocksFrom(0)[u - 1] && e.Blocks()[u] in e.BlocksFrom(0);
      BlockMeets(e, m, u);
    }
  }

  lemma BlockMeets(e: TwoLat, m: Mem, u: nat)
    requires e.Valid() && 0 < u < |e.Blocks()| && u <= |e.ClientFrom(0)| && u <= |e.ServerFrom(0)|
    requires var c := e.Blocks()[u].comm; e.ClientFrom(0)[u - 1] == ClientSide(c) && e.ServerFrom(0)[u - 1] == ServerSide(c)
    requires e.FullUp(e.Blocks()[u])
    ensures Entry(e.Blocks(), m, u).send == e.Client()[u] && Entry(e.Blocks(), m, u).recv == e.Server()[u + 1]
  {
  }

  /** This send met this receive at position `at`, if the run has got that far. */
  predicate Logged(log: seq<Delivery>, at: nat, send: Action, recv: Action) {
    at < |log| ==> log[at].send == send && log[at].recv == recv
  }

  /** Round r of a two-sided latency session, `from` meetings into the log: the start control, message i of L, the finish control. */
  predicate RoundLogged(e: TwoLat, log: seq<Delivery>, from: nat, r: nat, i: nat)
    requires e.Valid() && r < |e.sizes|
  {
    var at := from + 1 + r * (e.loops + 2);
    && Logged(log, at, Send(Ready(r), [e.ctl]), Recv(Ready(r), 1))
    && (i < e.loops ==> Logged(log, at + 1 + i, Send(Chunk(r, i), e.payloads[r]), Recv(Chunk(r, i), e.sizes[r])))
    && Logged(log, at + 1 + e.loops, Send(Finish(r), [e.ctl]), Recv(Finish(r), 1))
  }

  /** From `from` on the log is made of the session's own meetings, in order. */
  predicate Follows(e: TwoLat, log: seq<Delivery>, from: nat)
    requires e.Valid()
  {
    forall w :: from <= w < |log| ==> MeetsAt(e, log[w], w - from)
  }

  predicate MeetsAt(e: TwoLat, d: Delivery, v: nat)
    requires e.Valid()
  {
    v < |e.Client()| && v + 1 < |e.Server()| && d.send == e.Client()[v] && d.recv == e.Server()[v + 1]
  }

  lemma LoggedAt(e: TwoLat, log: seq<Delivery>, from: nat, u: nat, send: Action, recv: Action)
    requires e.Valid() && Follows(e, log, from) && Stands(e.Client(), u, send) && Stands(e.Server(), u + 1, recv)
    ensures Logged(log, from + u, send, recv)
  {
    if from + u < |log| {
      assert MeetsAt(e, log[from + u], from + u - from);
    }
  }

  lemma LoggedRounds(e: TwoLat, log: seq<Delivery>, from: nat, r: nat, i: nat)
    requires e.Valid() && r < |e.sizes| && Follows(e, log, from)
    ensures RoundLogged(e, log, from, r, i)
  {
    var at := 1 + r * (e.loops + 2);
    TwoLatencyClientActions(e, r, i);
    TwoLatencyServerActions(e, r, i);
    LoggedAt(e, log, from, at, Send(Ready(r), [e.ctl]), Recv(Ready(r), 1));
    if i < e.loops {
      LoggedAt(e, log, from, at + 1 + i, Send(Chunk(r, i), e.payloads[r]), Recv(Chunk(r, i), e.sizes[r]));
    }
    LoggedAt(e, log, from, at + 1 + e.loops, Send(Finish(r), [e.ctl]), Recv(Finish(r), 1));
  }

  /**
   The messages of a two-sided latency session, in every reachable state: behind the handshake, in
   every round the start control, then each of the L data messages with the round's payload, then the
   finish control, each with the receive that took it; and no run ends before the last of them.
   */
  lemma TwoLatencyMessages(e: TwoLat, m: Mem, states: seq<State>, t: nat, r: nat, i: nat)
    requires e.Valid() && !m.fault && Run(Init(e.Client(), e.Server(), m), states) && t < |states| && r < |e.sizes|
    ensures Logged(states[t].log, 0, Connect, Accept) && RoundLogged(e, states[t].log, 0, r, i)
    ensures |states[t].log| <= 1 + |e.sizes| * (e.loops + 2)
    ensures Stuck(states[t]) ==> |states[t].log| == 1 + |e.sizes| * (e.loops + 2)
  {
    var log := states[t].log;
    TwoLatencyAligned(e, m, states, t);
    TwoLatencyEnds(e);
    LatencyMeets(e, m, 0);
    forall v | 0 <= v < |log|
      ensures MeetsAt(e, log[v], v - 0)
    {
      LatencyMeets(e, m, v);
      assert log[v] == Expected(Plan(e.Blocks(), [], []), m, |e.Blocks()|)[v];
    }
    LoggedRounds(e, log, 0, r, i);
    if Stuck(states[t]) {
      UpTo(Init(e.Client(), e.Server(), m), states, t);
      TwoLatencyFinishes(e, m, states[..t + 1]);
    }
  }

  lemma UpTo(first: State, states: seq<State>, t: nat)
    requires Run(first, states) && t < |states|
    ensures Run(first, states[..t + 1]) && states[..t + 1][t] == states[t]
  {
    var front := states[..t + 1];
    forall q | 0 <= q < |front| - 1
      ensures Step(front[q], front[q + 1])
    {
      assert Step(states[q], states[q + 1]);
    }
  }
}
