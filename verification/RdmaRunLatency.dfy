/** The latency part of a whole run, and how many meetings and handshakes a finished run has. */
module RdmaRunLatency {
  import opened Sequences
  import opened Positions
  import opened Chunks
  import opened Experiment
  import opened RdmaMachine
  import opened RdmaTheorems
  import opened RdmaOneSided
  import opened RdmaTwoSided
  import opened RdmaLatency
  import opened RdmaActions
  import opened RdmaMeetings
  import opened RdmaRun
  import opened RdmaRunData

  /** Meetings before the latency part of a run. */
  function LatencyStart(e: Bench, metric: Metric): nat
    requires e.Valid()
  {
    if metric == All then TwoSidedEnd(e) else 0
  }

  /** A run with a throughput part: its three sessions, and what follows them if the last gets to its end. */
  lemma ThroughputThen(e: Bench, metric: Metric)
    requires e.Valid() && metric != Latency
    ensures e.RunPlan(metric).blocks
            == e.read.Blocks() + e.write.Blocks() + e.two.SessionPlan(NoMore()).blocks
               + (if e.two.CleanFrom(0) then Behind(e, metric).blocks else [])
  {
    BlocksOf(e, metric);
    e.two.PlanSplits(0, Behind(e, metric));
    var rest := if e.two.CleanFrom(0) then Behind(e, metric).blocks else [];
    Assoc([e.two.HeadBlock()], e.two.PlanFrom(0, NoMore()).blocks, rest);
    Assoc(e.read.Blocks() + e.write.Blocks(), e.two.SessionPlan(NoMore()).blocks, rest);
  }

  /** If the run gets that far, what is left of it there is the latency part, whole. */
  lemma LatencyBehind(e: Bench, metric: Metric)
    requires e.Valid() && metric != Throughput && LatencyStart(e, metric) < |e.RunPlan(metric).blocks|
    ensures e.RunPlan(metric).blocks[LatencyStart(e, metric)..] == e.LatencyPlan().blocks
  {
    if metric == All {
      ThroughputThen(e, metric);
      DropFront(e.read.Blocks() + e.write.Blocks() + e.two.SessionPlan(NoMore()).blocks,
                if e.two.CleanFrom(0) then e.LatencyPlan().blocks else [], e.RunPlan(metric).blocks);
    } else {
      assert e.RunPlan(metric).blocks[0..] == e.LatencyPlan().blocks;
    }
  }

  lemma DropFront(front: seq<Block>, rest: seq<Block>, all: seq<Block>)
    requires all == front + rest
    ensures all[|front|..] == rest
  {
  }

  /** The two blocks of a one-sided latency session, at q in a plan that goes on with a connection, and what they do to the buffers. */
  predicate SessionAt(bs: seq<Block>, m: Mem, q: nat, o: OneSidedLat)
    requires o.Valid()
  {
    && q + 2 < |bs|
    && bs[q].comm == Handshake && bs[q + 1].comm == Message(true, Done, [o.ctl], 1)
    && bs[q + 2].comm == Handshake && bs[q + 2].cops == []
    && var a := MemAfter(bs, m, q + 2);
       && a.region == o.RegionAfter(|o.sizes|)
       && (o.sizes != [] ==> a.local == o.RoundLocal(|o.sizes| - 1, o.RegionAfter(|o.sizes| - 1)))
  }

  /** In any run with such blocks the session keeps its promises. */
  lemma SessionPart(p: Plan, o: OneSidedLat, m: Mem, q: nat, states: seq<State>, t: nat)
    requires PlanOk(p) && o.Valid() && Run(Start(p, m), states) && t < |states|
    requires SessionAt(p.blocks, m, q, o) && q < |states[t].log| <= q + 2
    ensures LastLocalHolds(o, states[t]) && LastRegionHolds(o, states[t])
  {
    var c, v := states[t].client, states[t].server;
    if c.todo != [] && c.todo[0].Send? && c.phase != Moved {
      LocalBeforeMeeting(p, m, states, t);
    }
    if v.todo != [] && v.todo[0].Recv? && v.phase == Moved {
      ReturningFrom(p, m, states, t);
      assert |states[t].log| == q + 2;
      RegionReturned(p, m, states, t);
    }
  }

  /** Both one-sided latency sessions stand where they should, over whatever buffers the run has by then. */
  lemma LatencySessions(e: Bench, bs: seq<Block>, m: Mem, q: nat)
    requires e.Valid() && q <= |bs| && bs[q..] == e.LatencyPlan().blocks && !MemAfter(bs, m, q).fault
    ensures SessionAt(bs, m, q, e.readLat) && SessionAt(bs, m, q + 2, e.writeLat)
  {
    OneThenOther(e, MemAfter(bs, m, q));
    MemFromHere(bs, m, q, 2);
    MemFromHere(bs, m, q, 4);
    LatencyComms(e, bs, q);
  }

  lemma NoFaultTill(e: Bench, metric: Metric, m: Mem, q: nat)
    requires e.Valid() && !m.fault && q <= |e.RunPlan(metric).blocks|
    ensures !MemAfter(e.RunPlan(metric).blocks, m, q).fault
  {
    e.NoFault(metric, m);
    NoFaultBefore(e.RunPlan(metric).blocks, m, q, |e.RunPlan(metric).blocks|);
  }

  lemma MemFromHere(bs: seq<Block>, m: Mem, q: nat, u: nat)
    requires q + u <= |bs|
    ensures MemAfter(bs, m, q + u) == MemAfter(bs[q..], MemAfter(bs, m, q), u)
  {
    assert bs == bs[..q] + bs[q..];
    MemAfterAppend(bs[..q], bs[q..], m, q + u);
    MemAfterAppend(bs[..q], bs[q..], m, q);
  }

  lemma OneThenOther(e: Bench, m: Mem)
    requires e.Valid() && !m.fault
    ensures |e.LatencyPlan().blocks| == 4 + |e.twoLat.Blocks()|
    ensures MemAfter(e.LatencyPlan().blocks, m, 2) == MemAfter(e.readLat.Blocks(), m, 2)
    ensures var m1 := MemAfter(e.readLat.Blocks(), m, 2);
            !m1.fault && MemAfter(e.LatencyPlan().blocks, m, 4) == MemAfter(e.writeLat.Blocks(), m1, 2)
    ensures MemAfter(e.LatencyPlan().blocks, m, 2).region == e.readLat.RegionAfter(|e.readLat.sizes|)
    ensures e.readLat.sizes != [] ==>
              MemAfter(e.LatencyPlan().blocks, m, 2).local == e.readLat.RoundLocal(|e.readLat.sizes| - 1, e.readLat.RegionAfter(|e.readLat.sizes| - 1))
    ensures MemAfter(e.LatencyPlan().blocks, m, 4).region == e.writeLat.RegionAfter(|e.writeLat.sizes|)
    ensures e.writeLat.sizes != [] ==>
              MemAfter(e.LatencyPlan().blocks, m, 4).local == e.writeLat.RoundLocal(|e.writeLat.sizes| - 1, e.writeLat.RegionAfter(|e.writeLat.sizes| - 1))
  {
    MemInFirst(e.readLat.Blocks(), e.writeLat.Blocks(), e.twoLat.Blocks(), m, 2);
    MemInSecond(e.readLat.Blocks(), e.writeLat.Blocks(), e.twoLat.Blocks(), m, 4);
    e.readLat.MemOf(m);
    e.writeLat.MemOf(MemAfter(e.readLat.Blocks(), m, 2));
  }

  lemma LatencyComms(e: Bench, bs: seq<Block>, q: nat)
    requires e.Valid() && q <= |bs| && bs[q..] == e.LatencyPlan().blocks
    ensures q + 4 < |bs|
    ensures bs[q].comm == Handshake && bs[q + 1].comm == Message(true, Done, [e.readLat.ctl], 1)
    ensures bs[q + 2].comm == Handshake && bs[q + 2].cops == [] && bs[q + 3].comm == Message(true, Done, [e.writeLat.ctl], 1)
    ensures bs[q + 4].comm == Handshake && bs[q + 4].cops == []
  {
    var lat := e.LatencyPlan().blocks;
    assert forall u :: 0 <= u < |lat| ==> bs[q + u] == lat[u];
  }

  /** A log whose blocks from q on are a latency part holds that part's meetings there: its controls, and from the fifth on the pings. */
  lemma LatencyLogged(e: Bench, bs: seq<Block>, m: Mem, log: seq<Delivery>, q: nat)
    requires e.Valid() && q <= |bs| && bs[q..] == e.LatencyPlan().blocks
    requires InOrder(log, bs, m)
    ensures Follows(e.twoLat, log, q + 4) && ControlsLogged(e, log, q)
  {
    forall w | q + 4 <= w < |log|
      ensures MeetsAt(e.twoLat, log[w], w - (q + 4))
    {
      PingBlock(e, bs, q, w - (q + 4));
      LatencyMeets(e.twoLat, m, w - (q + 4));
    }
    LatencyComms(e, bs, q);
  }

  predicate ControlsLogged(e: Bench, log: seq<Delivery>, q: nat) {
    && Logged(log, q, Connect, Accept) && Logged(log, q + 1, Send(Done, [e.readLat.ctl]), Recv(Done, 1))
    && Logged(log, q + 2, Connect, Accept) && Logged(log, q + 3, Send(Done, [e.writeLat.ctl]), Recv(Done, 1))
    && Logged(log, q + 4, Connect, Accept)
  }

  lemma PingBlock(e: Bench, bs: seq<Block>, q: nat, u: nat)
    requires e.Valid() && q <= |bs| && bs[q..] == e.LatencyPlan().blocks && q + 4 + u < |bs|
    ensures u < |e.twoLat.Blocks()| && bs[q + 4 + u] == e.twoLat.Blocks()[u]
  {
    var lat := e.LatencyPlan().blocks;
    assert bs[q + (4 + u)] == lat[4 + u];
    assert |e.readLat.Blocks() + e.writeLat.Blocks()| == 4;
  }

  predicate InOrder(log: seq<Delivery>, bs: seq<Block>, m: Mem) {
    |log| <= |bs| && forall w :: 0 <= w < |log| ==> log[w] == Entry(bs, m, w)
  }

  lemma ExpectedInOrder(p: Plan, m: Mem, log: seq<Delivery>)
    requires |log| <= |p.blocks| && log == Expected(p, m, |log|)
    ensures InOrder(log, p.blocks, m)
  {
  }

  lemma LatencyLog(e: Bench, p: Plan, m: Mem, log: seq<Delivery>, q: nat, r: nat, i: nat)
    requires e.Valid() && q <= |p.blocks| && p.blocks[q..] == e.LatencyPlan().blocks
    requires |log| <= |p.blocks| && log == Expected(p, m, |log|)
    ensures ControlsLogged(e, log, q)
    ensures r < |e.twoLat.sizes| ==> RoundLogged(e.twoLat, log, q + 4, r, i)
  {
    ExpectedInOrder(p, m, log);
    LatencyLogged(e, p.blocks, m, log, q);
    if r < |e.twoLat.sizes| {
      LoggedRounds(e.twoLat, log, q + 4, r, i);
    }
  }

  /** A run that has not come to the latency part has logged nothing of it. */
  lemma NotYetLogged(e: Bench, log: seq<Delivery>, q: nat, r: nat, i: nat)
    requires e.Valid() && |log| <= q
    ensures ControlsLogged(e, log, q)
    ensures r < |e.twoLat.sizes| ==> RoundLogged(e.twoLat, log, q + 4, r, i)
  {
    if r < |e.twoLat.sizes| {
      LoggedRounds(e.twoLat, log, q + 4, r, i);
    }
  }

  lemma LogOfRun(e: Bench, metric: Metric, m: Mem, log: seq<Delivery>, r: nat, i: nat)
    requires e.Valid() && metric != Throughput
    requires |log| <= |e.RunPlan(metric).blocks| && log == Expected(e.RunPlan(metric), m, |log|)
    ensures ControlsLogged(e, log, LatencyStart(e, metric))
    ensures r < |e.twoLat.sizes| ==> RoundLogged(e.twoLat, log, LatencyStart(e, metric) + 4, r, i)
  {
    var p, q := e.RunPlan(metric), LatencyStart(e, metric);
    if q < |p.blocks| {
      LatencyBehind(e, metric);
      LatencyLog(e, p, m, log, q, r, i);
    } else {
      NotYetLogged(e, log, q, r, i);
    }
  }

  /** What both sessions promise, in a run whose plan has the latency part at q. */
  ghost predicate BothHold(e: Bench, s: State, q: nat)
    requires e.Valid()
  {
    && (q < |s.log| <= q + 2 ==> LastLocalHolds(e.readLat, s) && LastRegionHolds(e.readLat, s))
    && (q + 2 < |s.log| <= q + 4 ==> LastLocalHolds(e.writeLat, s) && LastRegionHolds(e.writeLat, s))
  }

  lemma SessionsHold(e: Bench, p: Plan, m: Mem, q: nat, states: seq<State>, t: nat)
    requires e.Valid() && q <= |p.blocks| && p.blocks[q..] == e.LatencyPlan().blocks && !MemAfter(p.blocks, m, q).fault
    requires PlanOk(p) && Run(Start(p, m), states) && t < |states|
    ensures BothHold(e, states[t], q)
  {
    var k := |states[t].log|;
    LatencySessions(e, p.blocks, m, q);
    if q < k <= q + 2 {
      SessionPart(p, e.readLat, m, q, states, t);
    }
    if q + 2 < k <= q + 4 {
      SessionPart(p, e.writeLat, m, q + 2, states, t);
    }
  }

  lemma SessionsOfRun(e: Bench, metric: Metric, m: Mem, states: seq<State>, t: nat)
    requires e.Valid() && metric != Throughput && !m.fault
    requires PlanOk(e.RunPlan(metric)) && Run(Start(e.RunPlan(metric), m), states) && t < |states|
    requires LatencyStart(e, metric) < |e.RunPlan(metric).blocks|
    ensures BothHold(e, states[t], LatencyStart(e, metric))
  {
    NoFaultTill(e, metric, m, LatencyStart(e, metric));
    LatencyBehind(e, metric);
    SessionsHold(e, e.RunPlan(metric), m, LatencyStart(e, metric), states, t);
  }

  /**
   The latency part of a whole run, in every reachable state: the read latency session and then the
   write latency session keep their promises about the client's last buffer and the server's region,
   and behind them come a handshake and, round by round, the two-sided latency session's messages.
   */
  lemma WholeRunLatency(e: Bench, metric: Metric, m: Mem, states: seq<State>, t: nat, r: nat, i: nat)
    requires e.Valid() && metric != Throughput && !m.fault
    requires Run(Init(e.Client(metric), e.Server(metric), m), states) && t < |states|
    ensures var s, q := states[t], LatencyStart(e, metric); var k := |s.log|;
            && (q < k <= q + 2 ==> LastLocalHolds(e.readLat, s) && LastRegionHolds(e.readLat, s))
            && (q + 2 < k <= q + 4 ==> LastLocalHolds(e.writeLat, s) && LastRegionHolds(e.writeLat, s))
            && ControlsLogged(e, s.log, q)
            && (r < |e.twoLat.sizes| ==> RoundLogged(e.twoLat, s.log, q + 4, r, i))
  {
    RunsThePlan(e, metric, m, states, t);
    if LatencyStart(e, metric) < |e.RunPlan(metric).blocks| {
      SessionsOfRun(e, metric, m, states, t);
    }
    LogOfRun(e, metric, m, states[t].log, r, i);
  }

  lemma RunsThePlan(e: Bench, metric: Metric, m: Mem, states: seq<State>, t: nat)
    requires e.Valid() && Run(Init(e.Client(metric), e.Server(metric), m), states) && t < |states|
    ensures PlanOk(e.RunPlan(metric)) && Run(Start(e.RunPlan(metric), m), states)
    ensures |states[t].log| <= |e.RunPlan(metric).blocks| && states[t].log == Expected(e.RunPlan(metric), m, |states[t].log|)
  {
    RunIsPlan(e, metric, m);
    EveryStateSafe(e.RunPlan(metric), m, states, t);
  }

  // ---- how many meetings ----

  /** Handshakes among some meetings. */
  function Handshakes(log: seq<Delivery>): nat {
    if log == [] then 0 else (if log[0].send == Connect then 1 else 0) + Handshakes(log[1..])
  }

  function HandshakesOf(bs: seq<Block>): nat {
    if bs == [] then 0 else (if bs[0].comm == Handshake then 1 else 0) + HandshakesOf(bs[1..])
  }

  lemma {:induction false} HandshakesAppend(a: seq<Block>, b: seq<Block>)
    ensures HandshakesOf(a + b) == HandshakesOf(a) + HandshakesOf(b)
  {
    if a == [] {
      assert a + b == b;
    } else {
      TailOfSum(a, b);
      HandshakesAppend(a[1..], b);
    }
  }

  lemma {:induction false} NoHandshakes(bs: seq<Block>)
    requires forall b :: b in bs ==> b.comm.Message?
    ensures HandshakesOf(bs) == 0
  {
    if bs != [] {
      assert bs[0] in bs;
      NoHandshakes(bs[1..]);
    }
  }

  lemma OneHandshake(head: Block, rest: seq<Block>)
    requires head.comm == Handshake && forall b :: b in rest ==> b.comm.Message?
    ensures HandshakesOf([head] + rest) == 1
  {
    TailOfSum([head], rest);
    assert [head][1..] + rest == rest;
    NoHandshakes(rest);
  }

  lemma {:induction false} SameHandshakes(log: seq<Delivery>, bs: seq<Block>)
    requires |log| == |bs| && forall u :: 0 <= u < |log| ==> (log[u].send == Connect <==> bs[u].comm == Handshake)
    ensures Handshakes(log) == HandshakesOf(bs)
  {
    if log != [] {
      SameHandshakes(log[1..], bs[1..]);
    }
  }

  lemma {:induction false} ReadMessages(e: ReadTp, r: nat)
    requires e.Valid() && r <= |e.sizes|
    ensures |e.BlocksFrom(r)| == 1 + 2 * (|e.sizes| - r) && forall b :: b in e.BlocksFrom(r) ==> b.comm.Message?
    decreases |e.sizes| - r
  {
    if r < |e.sizes| {
      ReadMessages(e, r + 1);
    }
  }

  lemma {:induction false} WriteMessages(e: WriteTp, r: nat, pre: seq<Op>)
    requires e.Valid() && r <= |e.sizes|
    ensures |e.BlocksFrom(r, pre)| == 1 + 2 * (|e.sizes| - r) && forall b :: b in e.BlocksFrom(r, pre) ==> b.comm.Message?
    decreases |e.sizes| - r
  {
    if r < |e.sizes| {
      WriteMessages(e, r + 1, [FillLocal(e.sources[r + 1])]);
    }
  }

  predicate PlainMessage(b: Block) { b.cops == [] && b.comm.Message? }

  lemma {:induction false} DataArePlain(data: seq<Byte>, r: nat, x: nat, b: nat)
    requires 0 < b
    ensures forall bl :: bl in DataBlocks(data, r, x, b) ==> PlainMessage(bl)
    decreases if x < |data| then |data| - x else 0
  {
    if x < |data| {
      DataArePlain(data, r, x + b, b);
    }
  }

  lemma AgreedArePlain(e: TwoTp, r: nat)
    requires e.Valid() && r < |e.sizes|
    ensures forall b :: b in e.Agreed(r) ==> PlainMessage(b)
  {
    DataArePlain(e.data, r, 0, e.sizes[r]);
  }

  lemma {:induction false} RoundsArePlain(e: TwoTp, r: nat)
    requires e.Valid() && r <= |e.sizes|
    ensures forall b :: b in e.PlanFrom(r, NoMore()).blocks ==> PlainMessage(b)
    decreases |e.sizes| - r
  {
    if r < |e.sizes| {
      AgreedArePlain(e, r);
      if !e.Divides(r) {
        RoundsArePlain(e, r + 1);
      }
    }
  }

  lemma {:induction false} PlainLength(bs: seq<Block>)
    requires forall b :: b in bs ==> b.cops == []
    ensures |ClientPart(bs)| == |bs|
  {
    if bs != [] {
      assert bs[0] in bs;
      PlainLength(bs[1..]);
    }
  }

  /** A two-sided session that finishes has as many meetings as its client has actions. */
  lemma TwoSidedMeetings(e: TwoTp)
    requires e.Valid()
    ensures HandshakesOf(e.SessionPlan(NoMore()).blocks) == 1
    ensures e.CleanFrom(0) ==> |e.SessionPlan(NoMore()).blocks| == 1 + TurnsUp(|e.data|, e.sizes, 2, |e.sizes|)
  {
    var bs := e.PlanFrom(0, NoMore()).blocks;
    RoundsArePlain(e, 0);
    OneHandshake(e.HeadBlock(), bs);
    if e.CleanFrom(0) {
      PlainLength(e.SessionPlan(NoMore()).blocks);
      e.Projects(NoMore());
      e.PlanSplits(0, NoMore());
      TwoClientEnds(e);
    }
  }

  lemma OneSidedMeetings(e: Bench)
    requires e.Valid()
    ensures |e.read.Blocks()| == 2 + 2 * |e.read.sizes| == |e.write.Blocks()|
    ensures HandshakesOf(e.read.Blocks()) == 1 == HandshakesOf(e.write.Blocks())
  {
    ReadMessages(e.read, 0);
    WriteMessages(e.write, 0, []);
    OneHandshake(e.read.Blocks()[0], e.read.BlocksFrom(0));
    OneHandshake(e.write.Blocks()[0], e.write.BlocksFrom(0, []));
  }

  lemma LatencyMeetings(e: Bench)
    requires e.Valid()
    ensures |e.LatencyPlan().blocks| == 5 + |e.twoLat.sizes| * (e.twoLat.loops + 2)
    ensures HandshakesOf(e.LatencyPlan().blocks) == 3
  {
    var a, b, c := e.readLat.Blocks(), e.writeLat.Blocks(), e.twoLat.Blocks();
    var m := Mem([], [], false);
    LatencyMeets(e.twoLat, m, 0);
    TwoLatencyEnds(e.twoLat);
    e.twoLat.FullFrom(0);
    OneHandshake(a[0], [a[1]]);
    OneHandshake(b[0], [b[1]]);
    OneHandshake(c[0], e.twoLat.BlocksFrom(0));
    HandshakesAppend(a, b);
    HandshakesAppend(a + b, c);
  }

  /** The number of a finished run's meetings, from the sizes and the loop count alone. */
  function MeetingsOf(e: Bench, metric: Metric): nat
    requires e.Valid()
  {
    (if metric == Latency then 0 else 5 + 4 * |e.read.sizes| + TurnsUp(e.read.n, e.read.sizes, 2, |e.read.sizes|))
    + (if metric == Throughput then 0 else 5 + |e.twoLat.sizes| * (e.twoLat.loops + 2))
  }

  lemma PlanMeetings(e: Bench, metric: Metric)
    requires e.Valid() && (metric == Latency || e.two.CleanFrom(0))
    ensures |e.RunPlan(metric).blocks| == MeetingsOf(e, metric)
    ensures HandshakesOf(e.RunPlan(metric).blocks) == if metric == All then 6 else 3
  {
    LatencyMeetings(e);
    if metric != Latency {
      var a, b, own, after := e.read.Blocks(), e.write.Blocks(), e.two.SessionPlan(NoMore()).blocks, Behind(e, metric).blocks;
      OneSidedMeetings(e);
      TwoSidedMeetings(e.two);
      ThroughputThen(e, metric);
      HandshakesAppend(a, b);
      HandshakesAppend(a + b, own);
      HandshakesAppend(a + b + own, after);
    }
  }

  /**
   The meetings of a finished run, counted: three handshakes for each of the two parts it has, two
   control messages a round and one at the end for the one-sided throughput sessions, two and the
   chunks for the two-sided one, and for the latency part two and L a round and two ends.
   */
  lemma FinishedRunMeetings(e: Bench, metric: Metric, m: Mem, states: seq<State>)
    requires e.Valid() && Maximal(Init(e.Client(metric), e.Server(metric), m), states) && Finished(states[|states| - 1])
    ensures var log := states[|states| - 1].log;
            |log| == MeetingsOf(e, metric) && Handshakes(log) == if metric == All then 6 else 3
  {
    RunIsPlan(e, metric, m);
    MaximalRunsEnd(e.RunPlan(metric), m, states);
    FinishedIsClean(e, metric);
    PlanMeetings(e, metric);
    HandshakesInLog(e.RunPlan(metric), m, states[|states| - 1].log);
  }

  /** A run whose programs are over has come through its two-sided session. */
  lemma FinishedIsClean(e: Bench, metric: Metric)
    requires e.Valid() && e.RunPlan(metric).crest == []
    ensures metric == Latency || e.two.CleanFrom(0)
  {
    if metric != Latency {
      BlocksOf(e, metric);
      e.two.PlanSplits(0, Behind(e, metric));
    }
  }

  lemma HandshakesInLog(p: Plan, m: Mem, log: seq<Delivery>)
    requires log == Expected(p, m, |p.blocks|)
    ensures Handshakes(log) == HandshakesOf(p.blocks)
  {
    forall u | 0 <= u < |log|
      ensures log[u].send == Connect <==> p.blocks[u].comm == Handshake
    {
      assert log[u] == Entry(p.blocks, m, u);
    }
    SameHandshakes(log, p.blocks);
  }

  /** The whole programs, counted: what both sides issue in a run, from the sizes and the loop counts alone. */
  lemma WholeProgramLengths(e: Bench)
    requires e.Valid()
    ensures var n, sizes, k := e.read.n, e.read.sizes, |e.read.sizes|;
            && |e.Client(Throughput)| == 6 + 2 * Turns(n, sizes, 4, k) + TurnsUp(n, sizes, 2, k)
            && |e.Server(Throughput)| == 8 + 6 * k + Turns(n, sizes, 3, k)
    ensures |e.Client(Latency)| == 5 + |e.readLat.sizes| * (e.readLat.loops + 1) + |e.writeLat.sizes| * (e.writeLat.loops + 1)
                                     + |e.twoLat.sizes| * (e.twoLat.loops + 2)
    ensures |e.Server(Latency)| == 8 + |e.twoLat.sizes| * (e.twoLat.loops + 2)
    ensures |e.Client(All)| == |e.Client(Throughput)| + |e.Client(Latency)| && |e.Server(All)| == |e.Server(Throughput)| + |e.Server(Latency)|
  {
    ReadClientEnds(e.read);
    ReadServerActions(e.read, 0);
    WriteClientEnds(e.write);
    WriteServerActions(e.write, 0);
    TwoClientEnds(e.two);
    TwoServerEnds(e.two);
    OneSidedLatencyEnds(e.readLat);
    OneSidedLatencyEnds(e.writeLat);
    TwoLatencyEnds(e.twoLat);
  }
}
