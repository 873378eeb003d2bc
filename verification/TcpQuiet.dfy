/**
 When a shared socket is quiet between rounds. A server whose round brings no byte can acknowledge
 it before the client has begun it, so quiescence depends on every round sending something; this
 module proves that it depends on nothing else.
 */
module TcpQuiet {
  import opened Sequences
  import opened Chunks
  import opened Experiment
  import opened TcpMachine
  import opened TcpSessions
  import opened TcpRoom

  // ---- a run of some programs is a run of longer ones ----

  function Longer(p: Peer, more: seq<Act>): Peer {
    p.(todo := p.todo + more)
  }

  function LongerNet(s: Net, c: seq<Act>, v: seq<Act>): Net {
    Net(Longer(s.client, c), Longer(s.server, v), s.up, s.down)
  }

  lemma CallOfLonger(p: Peer, more: seq<Act>, out: seq<Byte>, inn: seq<Byte>, cap: nat, c: Call)
    requires CanCall(p, out, inn, cap, c)
    ensures CanCall(Longer(p, more), out, inn, cap, c)
    ensures var r := AfterCall(p, out, inn, cap, c);
            AfterCall(Longer(p, more), out, inn, cap, c) == (Longer(r.0, more), r.1, r.2)
  {
    assert (p.todo + more)[1..] == p.todo[1..] + more;
    match c
    case SendCall(k) => Assoc([Put(p.todo[0].left[k..])], p.todo[1..], more);
    case RecvCall(k, room) => Assoc([Take(p.todo[0].missing - k, room)], p.todo[1..], more);
    case Return =>
  }

  /** Moves take the head of a program, whatever comes behind it. */
  lemma {:induction false} RunOfLonger(s: Net, cap: nat, run: seq<Move>, c: seq<Act>, v: seq<Act>)
    requires Possible(s, cap, run)
    ensures Possible(LongerNet(s, c, v), cap, run)
    ensures After(LongerNet(s, c, v), cap, run) == LongerNet(After(s, cap, run), c, v)
    decreases |run|
  {
    if run != [] {
      var mv := run[0];
      if mv.byClient {
        CallOfLonger(s.client, c, s.up, s.down, cap, mv.call);
      } else {
        CallOfLonger(s.server, v, s.down, s.up, cap, mv.call);
      }
      assert Next(LongerNet(s, c, v), cap, mv) == LongerNet(Next(s, cap, mv), c, v);
      RunOfLonger(Next(s, cap, mv), cap, run[1..], c, v);
    }
  }

  lemma {:induction false} RunThenRun(s: Net, cap: nat, first: seq<Move>, second: seq<Move>)
    requires Possible(s, cap, first) && Possible(After(s, cap, first), cap, second)
    ensures Possible(s, cap, first + second)
    ensures After(s, cap, first + second) == After(After(s, cap, first), cap, second)
    decreases |first|
  {
    if first == [] {
      assert first + second == second;
    } else {
      RunThenRun(Next(s, cap, first[0]), cap, first[1..], second);
      assert (first + second)[1..] == first[1..] + second;
    }
  }

  // ---- both peers can reach the start of any round ----

  lemma BeginIsLonger(rounds: seq<Round>, r: nat)
    requires r <= |rounds|
    ensures Begin(rounds) == LongerNet(Begin(rounds[..r]), ClientRounds(rounds[r..]), ServerRounds(RoundLens(rounds[r..])))
  {
    var a, b := rounds[..r], rounds[r..];
    assert rounds == a + b;
    ClientRoundsAppend(a, b);
    RoundLensAppend(a, b);
    ServerRoundsAppend(RoundLens(a), RoundLens(b));
  }

  /** Some run brings both peers to the start of round r with nothing in flight. */
  lemma RoundIsReached(rounds: seq<Round>, cap: nat, r: nat) returns (run: seq<Move>)
    requires 1 <= cap && r <= |rounds|
    ensures Possible(Begin(rounds), cap, run)
    ensures var s := After(Begin(rounds), cap, run);
            && s.client.todo == ClientRounds(rounds[r..]) && s.server.todo == ServerRounds(RoundLens(rounds[r..]))
            && s.up == [] && s.down == []
  {
    var c, v := ClientRounds(rounds[r..]), ServerRounds(RoundLens(rounds[r..]));
    BeginIsOpen(rounds[..r]);
    run := RunsCanBeCompleted(Begin(rounds[..r]), cap);
    MaximalRunsFinish(Session(rounds[..r]), cap, run);
    RunOfLonger(Begin(rounds[..r]), cap, run, c, v);
    BeginIsLonger(rounds, r);
    assert [] + c == c && [] + v == v;
  }

  // ---- a round without a byte is acknowledged early ----

  /** A server whose remaining receives are of no bytes gets to its acknowledgement by itself. */
  lemma {:induction false} ServerGoesAhead(s: Net, cap: nat, lens: seq<nat>, room: nat, rest: seq<Act>) returns (run: seq<Move>)
    requires 1 <= cap && s.down == [] && s.server.todo == Takes(lens, room) + [Put(ACK)] + rest
    requires forall i :: 0 <= i < |lens| ==> lens[i] == 0
    ensures Possible(s, cap, run)
    ensures After(s, cap, run).client == s.client && After(s, cap, run).down == ACK
    decreases |lens|
  {
    var mv := if lens == [] then Move(false, SendCall(1)) else Move(false, Return);
    if lens == [] {
      assert s.server.todo[0] == Put(ACK);
      run := [];
    } else {
      assert s.server.todo[0] == Take(0, room);
      assert s.server.todo[1..] == Takes(lens[1..], room) + [Put(ACK)] + rest;
      run := ServerGoesAhead(Next(s, cap, mv), cap, lens[1..], room, rest);
    }
    assert ([mv] + run)[1..] == run;
    run := [mv] + run;
  }

  /** The server's acknowledgement of an empty round can be in flight before the client starts that round. */
  lemma EarlyAck(rounds: seq<Round>, cap: nat, r: nat) returns (run: seq<Move>)
    requires 1 <= cap && r < |rounds| && forall i :: 0 <= i < |rounds[r].msgs| ==> rounds[r].msgs[i] == []
    ensures Possible(Begin(rounds), cap, run)
    ensures After(Begin(rounds), cap, run).client.todo == ClientRounds(rounds[r..])
    ensures After(Begin(rounds), cap, run).down == ACK
  {
    var lens, room, rest := Lens(rounds[r].msgs), rounds[r].room, ServerRounds(RoundLens(rounds[r + 1..]));
    var first := RoundIsReached(rounds, cap, r);
    assert ServerRounds(RoundLens(rounds[r..])) == Takes(lens, room) + [Put(ACK)] + rest by {
      assert RoundLens(rounds[r..])[1..] == RoundLens(rounds[r + 1..]);
    }
    var second := ServerGoesAhead(After(Begin(rounds), cap, first), cap, lens, room, rest);
    RunThenRun(Begin(rounds), cap, first, second);
    run := first + second;
  }

  // ---- the benchmark ----

  /** After this run the client stands at the start of round r, or behind the last round. */
  predicate AtRound(e: TcpBench, metric: Metric, cap: nat, run: seq<Move>, r: nat)
    requires e.Valid()
  {
    && Possible(e.Start(metric), cap, run) && r <= |e.Rounds(metric)|
    && After(e.Start(metric), cap, run).client.todo == ClientRounds(e.Rounds(metric)[r..])
  }

  /** Whatever the run, nothing is in flight when the client stands between rounds. */
  ghost predicate AlwaysQuiet(e: TcpBench, metric: Metric, cap: nat)
    requires e.Valid()
  {
    forall run: seq<Move>, r: nat :: AtRound(e, metric, cap, run, r) ==>
      After(e.Start(metric), cap, run).up == [] && After(e.Start(metric), cap, run).down == []
  }

  /** A run with a round that sends nothing has a round of empty messages only. */
  lemma SilentRound(e: TcpBench, metric: Metric) returns (r: nat)
    requires e.Valid() && !e.EveryRoundSends(metric)
    ensures r < |e.Rounds(metric)|
    ensures forall i :: 0 <= i < |e.Rounds(metric)[r].msgs| ==> e.Rounds(metric)[r].msgs[i] == []
  {
    if metric != Latency && e.sizes != [] && e.n == 0 {
      r := 0;
      assert e.Rounds(metric)[0].msgs == Split(e.datas[0], e.sizes[0]);
      assert |e.datas[0]| == 0;
    } else {
      var q: nat :| q < |e.latSizes| && (e.loops == 0 || e.latSizes[q] == 0);
      r := LatencyIndex(e, metric, q);
      LatencyRoundIs(e, metric, q);
      forall i | 0 <= i < e.loops
        ensures LatencyMsgs(e.buffers[q], e.loops)[i] == []
      {
        assert |e.buffers[q][i % NUM_BUFFERS]| == e.latSizes[q];
      }
    }
  }

  /**
   Quiescence exactly: in every run, whenever the client stands between two rounds both directions
   of the socket are empty, if and only if every round has a byte to send.
   */
  lemma QuietExactly(e: TcpBench, metric: Metric, cap: nat)
    requires e.Valid() && 1 <= cap
    ensures AlwaysQuiet(e, metric, cap) <==> e.EveryRoundSends(metric)
  {
    if e.EveryRoundSends(metric) {
      forall run: seq<Move>, r: nat | AtRound(e, metric, cap, run, r)
        ensures After(e.Start(metric), cap, run).up == [] && After(e.Start(metric), cap, run).down == []
      {
        TcpQuietBetweenRounds(e, metric, cap, run, r);
      }
    } else {
      var r := SilentRound(e, metric);
      e.SidesAgree(metric);
      var run := EarlyAck(e.Rounds(metric), cap, r);
      assert AtRound(e, metric, cap, run, r);
    }
  }

  /** The smallest case: no data, one chunk size. The server acknowledges while the client has yet to begin. */
  lemma EmptyDataIsNotQuiet(cap: nat)
    requires 1 <= cap
    ensures var e := TcpBench(0, [1], [[]], 0, [], []);
            var run := [Move(false, Return), Move(false, SendCall(1))];
            && e.Valid() && AtRound(e, Throughput, cap, run, 0)
            && After(e.Start(Throughput), cap, run).down == ACK
  {
    var e := TcpBench(0, [1], [[]], 0, [], []);
    assert e.Rounds(Throughput)[0..] == e.Rounds(Throughput);
    EmptyRound(e);
    var s, a, b := e.Start(Throughput), Move(false, Return), Move(false, SendCall(1));
    var s1 := Next(s, cap, a);
    assert s1.server.todo == [Put(ACK)];
    assert [a, b][1..] == [b] && [b][1..] == [];
    assert Next(s1, cap, b).down == ACK[..1] == ACK;
  }
}
