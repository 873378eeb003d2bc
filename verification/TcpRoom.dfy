/**
 The buffers the TCP peers receive into. The server's chunk buffer holds every message sent to it;
 the client stores the acknowledgement over the first byte of its data, and empty data has none.
 This module says exactly when no receive leaves its buffer, and so when a run completes soundly.
 */
module TcpRoom {
  import opened Chunks
  import opened Experiment
  import opened TcpMachine
  import opened TcpSessions

  /** The round's messages fit the server's buffer and its acknowledgement the client's. */
  predicate RoundFits(r: Round) {
    1 <= r.back && forall i :: 0 <= i < |r.msgs| ==> |r.msgs[i]| <= r.room
  }

  predicate RoundsFit(rounds: seq<Round>) {
    forall r :: 0 <= r < |rounds| ==> RoundFits(rounds[r])
  }

  lemma RoundsFitAppend(a: seq<Round>, b: seq<Round>)
    ensures RoundsFit(a + b) <==> RoundsFit(a) && RoundsFit(b)
  {
    if RoundsFit(a + b) {
      assert forall r :: 0 <= r < |a| ==> (a + b)[r] == a[r];
      assert forall r :: 0 <= r < |b| ==> (a + b)[|a| + r] == b[r];
    }
  }

  lemma AllFitAppend(a: seq<Msg>, b: seq<Msg>)
    ensures AllFit(a + b) <==> AllFit(a) && AllFit(b)
  {
    if AllFit(a + b) {
      assert forall j :: 0 <= j < |a| ==> (a + b)[j] == a[j];
      assert forall j :: 0 <= j < |b| ==> (a + b)[|a| + j] == b[j];
    }
  }

  lemma RoundMsgsFit(r: Round)
    ensures AllFit(RoundMsgs(r)) <==> RoundFits(r)
  {
    var ups, ack := UpsOf(r), AckOf(r);
    AllFitAppend(ups, [ack]);
    assert AllFit([ack]) <==> !Overfull([ack][0]);
    assert forall i :: 0 <= i < |r.msgs| ==> ups[i] == Msg(true, r.msgs[i], r.room);
    assert AllFit(ups) ==> forall i :: 0 <= i < |r.msgs| ==> !Overfull(ups[i]) && |r.msgs[i]| <= r.room;
  }

  lemma {:induction false} SessionFits(rounds: seq<Round>)
    ensures AllFit(Session(rounds)) <==> RoundsFit(rounds)
  {
    if rounds != [] {
      RoundMsgsFit(rounds[0]);
      AllFitAppend(RoundMsgs(rounds[0]), Session(rounds[1..]));
      SessionFits(rounds[1..]);
      RoundsFitAppend([rounds[0]], rounds[1..]);
      assert rounds == [rounds[0]] + rounds[1..];
      assert RoundsFit([rounds[0]]) <==> RoundFits([rounds[0]][0]);
    }
  }

  lemma {:induction false} ChunksFit(data: seq<Byte>, off: nat, b: nat)
    requires 0 < b && off <= |data|
    ensures forall m :: m in SplitFrom(data, off, b) ==> |m| <= b
    decreases |data| - off
  {
    if b <= |data| - off {
      ChunksFit(data, off + b, b);
    }
  }

  lemma ThroughputRoundFits(e: TcpBench, r: nat)
    requires e.Valid() && r < |e.sizes|
    ensures RoundFits(e.ThroughputRound(r)) <==> 0 < e.n
  {
    ChunksFit(e.datas[r], 0, e.sizes[r]);
    var msgs := e.ThroughputRound(r).msgs;
    assert forall i :: 0 <= i < |msgs| ==> msgs[i] in msgs;
  }

  lemma LatencyRoundFits(e: TcpBench, q: nat)
    requires e.Valid() && q < |e.latSizes|
    ensures RoundFits(e.LatencyRound(q)) <==> 0 < e.latSizes[q]
  {
    var msgs := e.LatencyRound(q).msgs;
    forall i | 0 <= i < |msgs|
      ensures |msgs[i]| <= e.latSizes[q]
    {
      assert msgs[i] == e.buffers[q][i % NUM_BUFFERS];
    }
  }

  lemma BenchFits(e: TcpBench, metric: Metric)
    requires e.Valid()
    ensures AllFit(Session(e.Rounds(metric))) <==> e.AcksFit(metric)
  {
    SessionFits(e.Rounds(metric));
    forall r | 0 <= r < |e.sizes|
      ensures RoundFits(e.ThroughputRounds()[r]) <==> 0 < e.n
    {
      ThroughputRoundFits(e, r);
    }
    forall q | 0 <= q < |e.latSizes|
      ensures RoundFits(e.LatencyRounds()[q]) <==> 0 < e.latSizes[q]
    {
      LatencyRoundFits(e, q);
    }
    RoundsFitAppend(e.ThroughputRounds(), e.LatencyRounds());
    assert e.sizes != [] && RoundsFit(e.ThroughputRounds()) ==> RoundFits(e.ThroughputRounds()[0]);
  }

  /** No receive of any run stores a byte behind the end of its buffer. */
  ghost predicate AlwaysInRoom(e: TcpBench, metric: Metric, cap: nat)
    requires e.Valid()
  {
    forall run :: Possible(e.Start(metric), cap, run) ==> !Faulty(After(e.Start(metric), cap, run))
  }

  lemma StartIsOpen(e: TcpBench, metric: Metric)
    requires e.Valid()
    ensures e.Start(metric) == Open(Session(e.Rounds(metric)))
  {
    e.SidesAgree(metric);
    BeginIsOpen(e.Rounds(metric));
  }

  /**
   Buffers exactly: no receive of any run leaves its buffer if and only if every acknowledgement
   has a byte to go to: the run has no throughput round or its data is not empty, and it has no
   latency round of empty buffers.
   */
  lemma InRoomExactly(e: TcpBench, metric: Metric, cap: nat)
    requires e.Valid() && 1 <= cap
    ensures AlwaysInRoom(e, metric, cap) <==> e.AcksFit(metric)
  {
    BenchFits(e, metric);
    StartIsOpen(e, metric);
    var ms := Session(e.Rounds(metric));
    if e.AcksFit(metric) {
      forall run | Possible(e.Start(metric), cap, run)
        ensures !Faulty(After(e.Start(metric), cap, run))
      {
        NoOverrun(ms, cap, run);
      }
    } else {
      var run := RunsCanBeCompleted(Open(ms), cap);
      MaximalRunsOverrun(ms, cap, run);
    }
  }

  /** Both programs done, every message received whole, nothing in flight, and no byte stored behind a buffer. */
  predicate Completed(e: TcpBench, metric: Metric, s: Net)
    requires e.Valid()
  {
    && s.client.todo == [] && s.server.todo == [] && s.up == [] && s.down == []
    && s.server.got == Flat(e.Rounds(metric)) && !Faulty(s)
  }

  /**
   Every run, of any metric and over any capacity of at least one byte, is finite, and one that
   cannot go on is complete if and only if every acknowledgement has a byte to go to.
   */
  lemma TcpRunsFinish(e: TcpBench, metric: Metric, cap: nat, run: seq<Move>)
    requires e.Valid() && 1 <= cap && Possible(e.Start(metric), cap, run)
    ensures |run| <= Weight(e.Start(metric))
    ensures var s := After(e.Start(metric), cap, run);
            Stuck(s, cap) ==> (Completed(e, metric, s) <==> e.AcksFit(metric))
  {
    StartIsOpen(e, metric);
    BenchFits(e, metric);
    SessionProjects(e.Rounds(metric));
    RunsAreBounded(e.Start(metric), cap, run);
    if Stuck(After(e.Start(metric), cap, run), cap) {
      MaximalRunsFinish(Session(e.Rounds(metric)), cap, run);
      MaximalRunsOverrun(Session(e.Rounds(metric)), cap, run);
    }
  }

  /** No data and one chunk size: the acknowledgement is stored behind the end of the client's empty vector. */
  lemma EmptyDataOverruns(cap: nat)
    requires 1 <= cap
    ensures var e := TcpBench(0, [1], [[]], 0, [], []);
            var run := [Move(false, Return), Move(false, SendCall(1)), Move(true, Return), Move(true, RecvCall(1, 0))];
            && e.Valid() && Possible(e.Start(Throughput), cap, run)
            && After(e.Start(Throughput), cap, run).client.fault
  {
    var e := TcpBench(0, [1], [[]], 0, [], []);
    EmptyRound(e);
    var s := e.Start(Throughput);
    var a, b, c, d := Move(false, Return), Move(false, SendCall(1)), Move(true, Return), Move(true, RecvCall(1, 0));
    var s1 := Next(s, cap, a);
    var s2 := Next(s1, cap, b);
    assert s2.down == ACK[..1] == ACK;
    var s3 := Next(s2, cap, c);
    assert s3.client.todo == [Take(1, 0)];
    var s4 := Next(s3, cap, d);
    assert s4.client.fault;
    FourMoves(s, cap, a, b, c, d);
  }

  lemma OneMove(s: Net, cap: nat, mv: Move)
    requires Can(s, cap, mv)
    ensures Possible(s, cap, [mv]) && After(s, cap, [mv]) == Next(s, cap, mv)
  {
    var s' := Next(s, cap, mv);
    assert [mv][1..] == [];
    assert Possible(s', cap, []) && After(s', cap, []) == s';
    assert After(s, cap, [mv]) == After(s', cap, [mv][1..]);
  }

  lemma FourMoves(s: Net, cap: nat, a: Move, b: Move, c: Move, d: Move)
    requires Can(s, cap, a) && Can(Next(s, cap, a), cap, b) && Can(Next(Next(s, cap, a), cap, b), cap, c)
    requires Can(Next(Next(Next(s, cap, a), cap, b), cap, c), cap, d)
    ensures Possible(s, cap, [a, b, c, d])
    ensures After(s, cap, [a, b, c, d]) == Next(Next(Next(Next(s, cap, a), cap, b), cap, c), cap, d)
  {
    var s1 := Next(s, cap, a);
    var s2 := Next(s1, cap, b);
    var s3 := Next(s2, cap, c);
    assert [a, b, c, d][1..] == [b, c, d] && [b, c, d][1..] == [c, d] && [c, d][1..] == [d] && [d][1..] == [];
    OneMove(s3, cap, d);
    assert Possible(s2, cap, [c, d]) && After(s2, cap, [c, d]) == After(s3, cap, [d]);
    assert Possible(s1, cap, [b, c, d]) && After(s1, cap, [b, c, d]) == After(s2, cap, [c, d]);
  }

  /** The two programs of that run. */
  lemma EmptyRound(e: TcpBench)
    requires e == TcpBench(0, [1], [[]], 0, [], []) && e.Valid()
    ensures e.Start(Throughput) == Net(Peer([Put([]), Take(1, 0)], [], [], false), Peer([Take(0, 1), Put(ACK)], [], [], false), [], [])
  {
    var lens := SpanLens(Spans(0, 0, 1));
    assert lens == [0] && lens[1..] == [];
    var awaited := e.ServerThroughput();
    assert awaited == [Awaited(lens, 1)] && awaited[1..] == [];
    assert Takes(lens, 1) == [Take(0, 1)] + Takes([], 1);
    var rounds := e.ThroughputRounds();
    var msgs := Split(e.datas[0], 1);
    assert msgs == [[]] && msgs[1..] == [];
    assert rounds == [Round(msgs, 1, 0)] && rounds[1..] == [];
    assert Puts(msgs) == [Put([])] + Puts([]);
  }
}
