/** What a whole run does to the data: the sessions keep their promises one behind the other. */
module RdmaRunData {
  import opened Sequences
  import opened Experiment
  import opened RdmaMachine
  import opened RdmaTheorems
  import opened RdmaOneSided
  import opened RdmaTwoSided
  import opened RdmaRun

  // Meetings by the end of each throughput session, if the run gets there.

  function ReadEnd(e: Bench): nat
    requires e.Valid()
  {
    |e.read.Blocks()|
  }

  function WriteEnd(e: Bench): nat
    requires e.Valid()
  {
    ReadEnd(e) + |e.write.Blocks()|
  }

  function TwoSidedEnd(e: Bench): nat
    requires e.Valid()
  {
    WriteEnd(e) + |e.two.SessionPlan(NoMore()).blocks|
  }

  /** What a run with a throughput part does behind it. */
  function Behind(e: Bench, metric: Metric): Plan
    requires e.Valid()
  {
    if metric == All then e.LatencyPlan() else NoMore()
  }

  lemma BlocksOf(e: Bench, metric: Metric)
    requires e.Valid() && metric != Latency
    ensures var p, two := e.RunPlan(metric), e.two.SessionPlan(Behind(e, metric));
            && p.blocks == e.read.Blocks() + e.write.Blocks() + two.blocks && p.crest == two.crest
  {
  }

  lemma RunIsPlan(e: Bench, metric: Metric, m: Mem)
    requires e.Valid()
    ensures PlanOk(e.RunPlan(metric)) && Start(e.RunPlan(metric), m) == Init(e.Client(metric), e.Server(metric), m)
  {
    e.Projects(metric);
    e.Ok(metric);
  }

  lemma MemInFirst(a: seq<Block>, b: seq<Block>, c: seq<Block>, m: Mem, k: nat)
    requires k <= |a|
    ensures MemAfter(a + b + c, m, k) == MemAfter(a, m, k)
  {
    Assoc(a, b, c);
    MemAfterAppend(a, b + c, m, k);
  }

  lemma MemInSecond(a: seq<Block>, b: seq<Block>, c: seq<Block>, m: Mem, k: nat)
    requires |a| < k <= |a| + |b|
    ensures MemAfter(a + b + c, m, k) == MemAfter(b, MemAfter(a, m, |a|), k - |a|)
  {
    MemAfterAppend(a + b, c, m, k);
    MemAfterAppend(a, b, m, k);
  }

  lemma WithinRun(e: Bench, metric: Metric)
    requires e.Valid() && metric != Latency
    ensures WriteEnd(e) <= |e.RunPlan(metric).blocks|
  {
    BlocksOf(e, metric);
  }

  /** The local buffer at the meetings of the read session. */
  lemma ReadMem(e: Bench, metric: Metric, m: Mem, k: nat)
    requires e.Valid() && metric != Latency && !m.fault && k < ReadEnd(e)
    ensures LocalIsFill(e.RunPlan(metric).blocks, m, k, e.read)
  {
    BlocksOf(e, metric);
    var a := e.read.Blocks();
    MemInFirst(a, e.write.Blocks(), e.two.SessionPlan(Behind(e, metric)).blocks, m, k + 1);
    assert e.RunPlan(metric).blocks[k] == a[k];
    e.read.MemOf(m, k);
  }

  /** The region behind the meetings of the write session. */
  lemma WriteMem(e: Bench, metric: Metric, m: Mem, k: nat)
    requires e.Valid() && metric != Latency && !m.fault && ReadEnd(e) < k <= WriteEnd(e)
    ensures RegionIsSource(e.RunPlan(metric).blocks, m, k, e.write)
  {
    BlocksOf(e, metric);
    var a, b := e.read.Blocks(), e.write.Blocks();
    MemInSecond(a, b, e.two.SessionPlan(Behind(e, metric)).blocks, m, k);
    assert e.RunPlan(metric).blocks[k - 1] == b[k - 1 - |a|];
    e.read.MemOf(m, |a| - 1);
    e.write.MemOf(MemAfter(a, m, |a|), k - 1 - |a|);
  }

  /** Behind an end-of-round message of the write session the client keeps off the region, also across the session's end. */
  lemma NextIsLocal(e: Bench, metric: Metric, k: nat)
    requires e.Valid() && metric != Latency && ReadEnd(e) < k <= WriteEnd(e)
    ensures KeepsOff(e.RunPlan(metric).blocks, k)
  {
    BlocksOf(e, metric);
    KeepsOffWithin(e.read.Blocks(), e.write, e.two.SessionPlan(Behind(e, metric)).blocks, k);
  }

  lemma KeepsOffWithin(a: seq<Block>, w: WriteTp, c: seq<Block>, k: nat)
    requires w.Valid() && |a| < k <= |a| + |w.Blocks()| && c != [] && c[0].cops == []
    ensures KeepsOff(a + w.Blocks() + c, k)
  {
    var b := w.Blocks();
    var bs := a + b + c;
    if k < |bs| && Upward(bs[k - 1].comm) {
      assert bs[k - 1] == b[k - 1 - |a|];
      if k < |a| + |b| {
        assert bs[k] == b[k - |a|];
        assert b[0].comm == Handshake;
        w.Ok();
      } else {
        assert bs[k] == c[0];
      }
    }
  }

  /** The sends alone decide what has been received. */
  lemma {:induction false} ReceivedFromSends(x: seq<Delivery>, y: seq<Delivery>, r: nat)
    requires |x| == |y| && forall u :: 0 <= u < |x| ==> x[u].send == y[u].send
    ensures Received(x, r) == Received(y, r)
  {
    if x != [] {
      ReceivedFromSends(x[..|x| - 1], y[..|y| - 1], r);
    }
  }

  /** Before its end the two-sided session's meetings are those of the session by itself. */
  lemma TwoSidedBlocks(e: Bench, metric: Metric, u: nat)
    requires e.Valid() && metric != Latency && u < |e.two.SessionPlan(NoMore()).blocks|
    ensures var bs := e.RunPlan(metric).blocks;
            WriteEnd(e) + u < |bs| && bs[WriteEnd(e) + u] == e.two.SessionPlan(NoMore()).blocks[u]
  {
    BlocksOf(e, metric);
    e.two.PlanSplits(0, Behind(e, metric));
    var own, all := e.two.SessionPlan(NoMore()).blocks, e.two.SessionPlan(Behind(e, metric)).blocks;
    assert all[u] == own[u];
    var front := e.read.Blocks() + e.write.Blocks();
    assert (front + all)[|front| + u] == all[u];
  }

  /** A client about to report the end of round r, within the run's two-sided session, does so within the session by itself. */
  lemma FinishIsNext(e: Bench, metric: Metric, u: nat, next: Action, r: nat)
    requires e.Valid() && metric != Latency && u <= |e.two.SessionPlan(NoMore()).blocks|
    requires next.Send? && next.tag == Finish(r)
    requires var p := e.two.SessionPlan(Behind(e, metric));
             && u <= |p.blocks|
             && (u < |p.blocks| ==> next == ClientSide(p.blocks[u].comm))
             && (u == |p.blocks| ==> p.crest != [] && next == p.crest[0])
    ensures 0 < u && e.two.FinishNext(e.two.PlanFrom(0, NoMore()), u - 1, r)
  {
    e.two.PlanSplits(0, Behind(e, metric));
    var own, all := e.two.SessionPlan(NoMore()).blocks, e.two.SessionPlan(Behind(e, metric)).blocks;
    assert u < |own| ==> all[u] == own[u];
    assert 0 < u < |own| ==> own[u] == e.two.PlanFrom(0, NoMore()).blocks[u - 1];
  }

  /** What the log of the run holds of the two-sided session is what that session's own log would hold. */
  lemma SameReceived(e: Bench, metric: Metric, m: Mem, log: seq<Delivery>, u: nat, r: nat)
    requires e.Valid() && metric != Latency && u <= |e.two.SessionPlan(NoMore()).blocks| && |log| == WriteEnd(e) + u
    requires |log| <= |e.RunPlan(metric).blocks| && log == Expected(e.RunPlan(metric), m, |log|)
    ensures Received(log[WriteEnd(e)..], r) == Received(Expected(e.two.SessionPlan(NoMore()), m, u), r)
  {
    var own, w := e.two.SessionPlan(NoMore()), WriteEnd(e);
    forall v | 0 <= v < u
      ensures log[w..][v].send == Expected(own, m, u)[v].send
    {
      TwoSidedBlocks(e, metric, v);
      assert log[w + v] == Entry(e.RunPlan(metric).blocks, m, w + v);
    }
    ReceivedFromSends(log[w..], Expected(own, m, u), r);
  }

  lemma TakenWhole(e: Bench, metric: Metric, m: Mem, log: seq<Delivery>, u: nat, next: Action, r: nat)
    requires e.Valid() && metric != Latency && |log| == WriteEnd(e) + u <= TwoSidedEnd(e)
    requires |log| <= |e.RunPlan(metric).blocks| && log == Expected(e.RunPlan(metric), m, |log|)
    requires next.Send? && next.tag == Finish(r)
    requires |log| < |e.RunPlan(metric).blocks| ==> next == ClientSide(e.RunPlan(metric).blocks[|log|].comm)
    requires |log| == |e.RunPlan(metric).blocks| ==> e.RunPlan(metric).crest != [] && next == e.RunPlan(metric).crest[0]
    ensures r < |e.two.sizes| && Received(log[WriteEnd(e)..], r) == e.two.data
  {
    InSession(e, metric, u);
    FinishIsNext(e, metric, u, next, r);
    ReceivedWhole(e.two, m, u, r);
    SameReceived(e, metric, m, log, u, r);
  }

  /** The two-sided session and what follows it are the run's blocks from `WriteEnd` on. */
  lemma InSession(e: Bench, metric: Metric, u: nat)
    requires e.Valid() && metric != Latency
    ensures var p, two := e.RunPlan(metric), e.two.SessionPlan(Behind(e, metric));
            && |p.blocks| == WriteEnd(e) + |two.blocks| && p.crest == two.crest
            && (u < |two.blocks| ==> p.blocks[WriteEnd(e) + u] == two.blocks[u])
  {
    BlocksOf(e, metric);
  }

  lemma TwoSidedPart(e: Bench, metric: Metric, m: Mem, states: seq<State>, t: nat)
    requires e.Valid() && metric != Latency
    requires Run(Init(e.Client(metric), e.Server(metric), m), states) && t < |states|
    requires WriteEnd(e) <= |states[t].log| <= TwoSidedEnd(e)
    ensures TwoSidedRoundHolds(e.two, states[t].client, states[t].log[WriteEnd(e)..])
  {
    var client := states[t].client;
    if client.todo != [] && client.todo[0].Send? && client.todo[0].tag.Finish? && client.phase != Moved {
      RunIsPlan(e, metric, m);
      EveryStateSafe(e.RunPlan(metric), m, states, t);
      NextMeeting(e.RunPlan(metric), m, states, t);
      TakenWhole(e, metric, m, states[t].log, |states[t].log| - WriteEnd(e), client.todo[0], client.todo[0].tag.round);
    }
  }

  /**
   Data, in every reachable state of a whole run with a throughput part, finishing or not: in the
   read session the client ends every round with that round's data, in the write session the
   server finds every round's source, and in the two-sided session the client has taken the whole
   data of every round whose end it reports.
   */
  lemma WholeRunData(e: Bench, metric: Metric, m: Mem, states: seq<State>, t: nat)
    requires e.Valid() && metric != Latency && !m.fault
    requires Run(Init(e.Client(metric), e.Server(metric), m), states) && t < |states|
    ensures var s := states[t]; var k := |s.log|;
            && (k < ReadEnd(e) ==> ReadRoundHolds(e.read, s))
            && (ReadEnd(e) < k <= WriteEnd(e) ==> WriteRoundHolds(e.write, s))
            && (WriteEnd(e) <= k <= TwoSidedEnd(e) ==> TwoSidedRoundHolds(e.two, s.client, s.log[WriteEnd(e)..]))
  {
    var p, k := e.RunPlan(metric), |states[t].log|;
    RunIsPlan(e, metric, m);
    WithinRun(e, metric);
    if k < ReadEnd(e) {
      ReadMem(e, metric, m, k);
      ReadPart(p, e.read, m, states, t);
    }
    if ReadEnd(e) < k <= WriteEnd(e) {
      WriteMem(e, metric, m, k);
      NextIsLocal(e, metric, k);
      WritePart(p, e.write, m, states, t);
    }
    if WriteEnd(e) <= k <= TwoSidedEnd(e) {
      TwoSidedPart(e, metric, m, states, t);
    }
  }
}
