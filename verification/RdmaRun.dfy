/** A whole RDMA run: the sessions `main` goes through on both sides for a metric. */
module RdmaRun {
  import opened Sequences
  import opened Chunks
  import opened Experiment
  import opened RdmaMachine
  import opened RdmaTheorems
  import opened RdmaOneSided
  import opened RdmaTwoSided
  import opened RdmaLatency

  /** Everything the sessions of one run meet with; both sides share the data size and the size lists. */
  datatype Bench = Bench(read: ReadTp, write: WriteTp, two: TwoTp, readLat: OneSidedLat, writeLat: OneSidedLat, twoLat: TwoLat) {
    predicate Valid() {
      && read.Valid() && write.Valid() && two.Valid() && readLat.Valid() && writeLat.Valid() && twoLat.Valid()
      && read.n == write.n == |two.data| && read.sizes == write.sizes == two.sizes
      && !readLat.write && writeLat.write
    }

    function ClientThroughput(): seq<Action>
      requires Valid()
    {
      read.Client() + write.Client() + two.Client()
    }

    function ServerThroughput(): seq<Action>
      requires Valid()
    {
      read.Server() + write.Server() + two.Server()
    }

    function ClientLatency(): seq<Action>
      requires Valid()
    {
      readLat.Client() + writeLat.Client() + twoLat.Client()
    }

    function ServerLatency(): seq<Action>
      requires Valid()
    {
      readLat.Server() + writeLat.Server() + twoLat.Server()
    }

    /** The client's `switch` in main. */
    function Client(metric: Metric): seq<Action>
      requires Valid()
    {
      match metric
      case Throughput => ClientThroughput()
      case Latency => ClientLatency()
      case All => ClientThroughput() + ClientLatency()
    }

    function Server(metric: Metric): seq<Action>
      requires Valid()
    {
      match metric
      case Throughput => ServerThroughput()
      case Latency => ServerLatency()
      case All => ServerThroughput() + ServerLatency()
    }

    function LatencyPlan(): Plan
      requires Valid()
    {
      Plan(readLat.Blocks() + writeLat.Blocks() + twoLat.Blocks(), [], [])
    }

    function ThroughputPlan(after: Plan): Plan
      requires Valid()
    {
      Prepend(read.Blocks() + write.Blocks(), two.SessionPlan(after))
    }

    function RunPlan(metric: Metric): Plan
      requires Valid()
    {
      match metric
      case Throughput => ThroughputPlan(NoMore())
      case Latency => LatencyPlan()
      case All => ThroughputPlan(LatencyPlan())
    }

    lemma LatencyProjects()
      requires Valid()
      ensures ClientProgram(LatencyPlan()) == ClientLatency() && ServerProgram(LatencyPlan()) == ServerLatency()
    {
      readLat.Projects();
      writeLat.Projects();
      twoLat.Projects();
      PartsAppend(readLat.Blocks(), writeLat.Blocks());
      PartsAppend(readLat.Blocks() + writeLat.Blocks(), twoLat.Blocks());
    }

    lemma ThroughputProjects(after: Plan)
      requires Valid()
      ensures ClientProgram(ThroughputPlan(after)) == ClientThroughput() + ClientProgram(after)
      ensures ServerProgram(ThroughputPlan(after)) == ServerThroughput() + ServerProgram(after)
    {
      read.Projects();
      write.Projects();
      two.Projects(after);
      ProgramsPrepend(read.Blocks() + write.Blocks(), two.SessionPlan(after));
      PartsAppend(read.Blocks(), write.Blocks());
      Assoc(read.Client() + write.Client(), two.Client(), ClientProgram(after));
      Assoc(read.Server() + write.Server(), two.Server(), ServerProgram(after));
    }

    /** For every metric the two sides of main are the two sides of one plan: the phases pair up one to one. */
    lemma Projects(metric: Metric)
      requires Valid()
      ensures ClientProgram(RunPlan(metric)) == Client(metric) && ServerProgram(RunPlan(metric)) == Server(metric)
    {
      LatencyProjects();
      match metric
      case Throughput =>
        ThroughputProjects(NoMore());
        assert ClientProgram(NoMore()) == [] && ServerProgram(NoMore()) == [];
      case Latency =>
      case All =>
        ThroughputProjects(LatencyPlan());
    }

    lemma LatencyOk()
      requires Valid()
      ensures PlanOk(LatencyPlan())
    {
      readLat.Ok();
      writeLat.Ok();
      twoLat.Ok();
    }

    lemma ThroughputOk(after: Plan)
      requires Valid() && PlanOk(after)
      ensures PlanOk(ThroughputPlan(after))
    {
      read.Ok();
      write.Ok();
      two.Ok(after);
    }

    lemma Ok(metric: Metric)
      requires Valid()
      ensures PlanOk(RunPlan(metric))
    {
      LatencyOk();
      ThroughputOk(NoMore());
      ThroughputOk(LatencyPlan());
    }

    lemma LatencyNoFault(m: Mem)
      requires Valid() && !m.fault
      ensures !MemAfter(LatencyPlan().blocks, m, |LatencyPlan().blocks|).fault
    {
      var a, b, c := readLat.Blocks(), writeLat.Blocks(), twoLat.Blocks();
      var m1 := MemAfter(a, m, |a|);
      var m2 := MemAfter(b, m1, |b|);
      readLat.NoFault(m);
      writeLat.NoFault(m1);
      twoLat.NoFault(m2);
      MemAfterAppend(a, b, m, |a + b|);
      MemAfterAppend(a + b, c, m, |a + b + c|);
    }

    lemma ThroughputNoFault(after: Plan, m: Mem)
      requires Valid() && !m.fault
      requires forall x: Mem :: !x.fault ==> !MemAfter(after.blocks, x, |after.blocks|).fault
      ensures !MemAfter(ThroughputPlan(after).blocks, m, |ThroughputPlan(after).blocks|).fault
    {
      var a, b, c := read.Blocks(), write.Blocks(), two.SessionPlan(after).blocks;
      var m1 := MemAfter(a, m, |a|);
      var m2 := MemAfter(b, m1, |b|);
      read.MemOf(m, |a| - 1);
      write.MemOf(m1, |b| - 1);
      SessionNoFault(two, after, m2);
      MemAfterAppend(a, b, m, |a + b|);
      MemAfterAppend(a + b, c, m, |a + b + c|);
    }

    lemma NoFault(metric: Metric, m: Mem)
      requires Valid() && !m.fault
      ensures !MemAfter(RunPlan(metric).blocks, m, |RunPlan(metric).blocks|).fault
    {
      forall x: Mem | !x.fault
        ensures !MemAfter(LatencyPlan().blocks, x, |LatencyPlan().blocks|).fault
      {
        LatencyNoFault(x);
      }
      ThroughputNoFault(NoMore(), m);
      ThroughputNoFault(LatencyPlan(), m);
    }
  }

  lemma {:induction false} DataQuiet(data: seq<Byte>, r: nat, x: nat, b: nat, m: Mem)
    requires 0 < b
    ensures MemAfter(DataBlocks(data, r, x, b), m, |DataBlocks(data, r, x, b)|) == m
    decreases if x < |data| then |data| - x else 0
  {
    if x < |data| {
      assert DataBlocks(data, r, x, b)[1..] == DataBlocks(data, r, x + b, b);
      DataQuiet(data, r, x + b, b, m);
    }
  }

  lemma MeetingQuiet(c: Comm, rest: seq<Block>, m: Mem)
    ensures MemAfter([Block([], [], c)] + rest, m, 1 + |rest|) == MemAfter(rest, m, |rest|)
  {
    assert ([Block([], [], c)] + rest)[1..] == rest;
  }

  lemma AgreedQuiet(e: TwoTp, r: nat, m: Mem)
    requires e.Valid() && r < |e.sizes|
    ensures MemAfter(e.Agreed(r), m, |e.Agreed(r)|) == m
  {
    DataQuiet(e.data, r, 0, e.sizes[r], m);
    MeetingQuiet(Message(true, Ready(r), [e.ctl], 1), DataBlocks(e.data, r, 0, e.sizes[r]), m);
  }

  /** A two-sided session touches no buffer, finishing or not. */
  lemma {:induction false} RoundsNoFault(e: TwoTp, r: nat, after: Plan, m: Mem)
    requires e.Valid() && r <= |e.sizes| && !m.fault
    requires forall x: Mem :: !x.fault ==> !MemAfter(after.blocks, x, |after.blocks|).fault
    ensures !MemAfter(e.PlanFrom(r, after).blocks, m, |e.PlanFrom(r, after).blocks|).fault
    decreases |e.sizes| - r
  {
    if r < |e.sizes| {
      AgreedQuiet(e, r, m);
      if !e.Divides(r) {
        RoundsNoFault(e, r + 1, after, m);
        FinishedQuiet(e, r, after, m);
      }
    }
  }

  lemma FinishedQuiet(e: TwoTp, r: nat, after: Plan, m: Mem)
    requires e.Valid() && r < |e.sizes| && !e.Divides(r)
    ensures var bs, rest := e.PlanFrom(r, after).blocks, e.PlanFrom(r + 1, after).blocks;
            MemAfter(bs, m, |bs|) == MemAfter(rest, m, |rest|)
  {
    var agreed, rest := e.Agreed(r), e.PlanFrom(r + 1, after).blocks;
    var tail := [e.FinishBlock(r)] + rest;
    AgreedQuiet(e, r, m);
    MeetingQuiet(e.FinishBlock(r).comm, rest, m);
    MemAfterAppend(agreed, tail, m, |agreed| + |tail|);
    assert agreed + [e.FinishBlock(r)] + rest == agreed + tail;
  }

  lemma SessionNoFault(e: TwoTp, after: Plan, m: Mem)
    requires e.Valid() && !m.fault
    requires forall x: Mem :: !x.fault ==> !MemAfter(after.blocks, x, |after.blocks|).fault
    ensures !MemAfter(e.SessionPlan(after).blocks, m, |e.SessionPlan(after).blocks|).fault
  {
    var m1 := m.(region := e.token);
    ExecOne(AllocRegion(e.token), m);
    assert RunBlock(e.HeadBlock(), m) == m1;
    RoundsNoFault(e, 0, after, m1);
    assert e.SessionPlan(after).blocks[1..] == e.PlanFrom(0, after).blocks;
  }

  /**
   Every reachable state of a whole run, for every metric and across all its sessions: no race on
   a shared region, no access out of bounds, and every message taken by the receive written for it.
   */
  lemma WholeRunSafe(e: Bench, metric: Metric, m: Mem, states: seq<State>, t: nat)
    requires e.Valid() && !m.fault && Run(Init(e.Client(metric), e.Server(metric), m), states) && t < |states|
    ensures !Racing(states[t]) && !states[t].mem.fault
    ensures |states[t].log| <= |e.RunPlan(metric).blocks| && states[t].log == Expected(e.RunPlan(metric), m, |states[t].log|)
    ensures forall d :: d in states[t].log && d.send.Send? ==>
              d.recv.Recv? && d.recv.tag == d.send.tag && |d.send.payload| <= d.recv.cap
  {
    var p := e.RunPlan(metric);
    e.Projects(metric);
    e.Ok(metric);
    e.NoFault(metric, m);
    EveryStateSafe(p, m, states, t);
    MessagesMatch(p, m, states, t);
  }

  /**
   A whole run completes exactly when its metric has no throughput part or no chunk size divides
   the data size; one that does not stands in the first dividing round q of the two-sided session.
   */
  lemma WholeRunCompletesExactly(e: Bench, metric: Metric, m: Mem, states: seq<State>) returns (q: nat)
    requires e.Valid() && Maximal(Init(e.Client(metric), e.Server(metric), m), states)
    ensures var s := states[|states| - 1];
            !Finished(s) ==>
              && q < |e.two.sizes| && e.two.Divides(q) && (forall u :: 0 <= u < q ==> !e.two.Divides(u))
              && s.client.phase == Issued && s.client.todo != [] && s.client.todo[0] == Send(Finish(q), [e.two.ctl])
              && s.server.phase == Issued && s.server.todo != [] && s.server.todo[0] == Send(Chunk(q, e.read.n), [])
    ensures Finished(states[|states| - 1]) <==> metric == Latency || forall b :: b in e.read.sizes ==> e.read.n % b != 0
  {
    var p := e.RunPlan(metric);
    e.Projects(metric);
    e.Ok(metric);
    MaximalRunsEnd(p, m, states);
    var after := if metric == All then e.LatencyPlan() else NoMore();
    q := e.two.RestsFrom(0, after);
    DividingSize(e, q);
  }

  /** The first dividing round, if any, decides whether some size divides the data size. */
  lemma DividingSize(e: Bench, q: nat)
    requires e.Valid() && q <= |e.two.sizes| && (forall u :: 0 <= u < q ==> !e.two.Divides(u)) && (q < |e.two.sizes| ==> e.two.Divides(q))
    ensures q == |e.two.sizes| <==> forall b :: b in e.read.sizes ==> e.read.n % b != 0
  {
    if q < |e.two.sizes| {
      assert e.two.sizes[q] in e.read.sizes && e.read.n % e.two.sizes[q] == 0;
    } else {
      forall b | b in e.read.sizes
        ensures e.read.n % b != 0
      {
        var u :| 0 <= u < |e.two.sizes| && e.two.sizes[u] == b;
        assert !e.two.Divides(u);
      }
    }
  }

  lemma DividesThrough(n: nat, b: nat, a: nat)
    requires 0 < a && 0 < b && n % b == 0 && b % a == 0
    ensures n % a == 0
  {
    var x, y := n / b, b / a;
    assert n == x * b && b == y * a;
    assert n == x * (y * a) == (x * y) * a + 0;
    DivModUnique(n, a, x * y, 0);
  }

  predicate MultipleOf1024(b: nat) { 0 < b && b % 1024 == 0 }

  lemma DeclaredSizesAreMultiples(b: nat)
    requires b in BUFFER_SIZES
    ensures MultipleOf1024(b)
  {
    var s: seq<nat> := BUFFER_SIZES;
    var k :| 0 <= k < |s| && s[k] == b;
    assert MultipleOf1024(s[0]) && MultipleOf1024(s[1]) && MultipleOf1024(s[2]) && MultipleOf1024(s[3]);
    assert MultipleOf1024(s[4]) && MultipleOf1024(s[5]) && MultipleOf1024(s[6]) && MultipleOf1024(s[7]);
    assert MultipleOf1024(s[8]) && MultipleOf1024(s[9]) && MultipleOf1024(s[10]) && MultipleOf1024(s[11]);
    assert MultipleOf1024(s[12]) && MultipleOf1024(s[13]) && MultipleOf1024(s[14]) && MultipleOf1024(s[15]);
  }

  /** With the declared sizes one number decides: every entry is a multiple of the first. */
  lemma DeclaredSizesDivide(n: nat)
    ensures forall b :: b in BUFFER_SIZES ==> b > 0
    ensures (forall b :: b in BUFFER_SIZES ==> n % b != 0) <==> n % 1024 != 0
  {
    forall b | b in BUFFER_SIZES
      ensures b > 0
      ensures n % b == 0 ==> n % 1024 == 0
    {
      DeclaredSizesAreMultiples(b);
      if n % b == 0 {
        DividesThrough(n, b, 1024);
      }
    }
    assert BUFFER_SIZES[0] == 1024;
    assert BUFFER_SIZES[0] in BUFFER_SIZES;
  }

  /** The run with the declared sizes: complete exactly when 1024 does not divide the data size. */
  lemma DeclaredRunCompletesExactly(e: Bench, metric: Metric, m: Mem, states: seq<State>)
    requires e.Valid() && e.read.sizes == BUFFER_SIZES
    requires Maximal(Init(e.Client(metric), e.Server(metric), m), states)
    ensures Finished(states[|states| - 1]) <==> metric == Latency || e.read.n % 1024 != 0
  {
    var q := WholeRunCompletesExactly(e, metric, m, states);
    DeclaredSizesDivide(e.read.n);
  }

  /** A run of n bytes, all zero, with the declared chunk sizes and no latency rounds. */
  function ZeroBench(n: nat): (e: Bench)
    ensures e.Valid() && e.read.sizes == BUFFER_SIZES && e.read.n == n
  {
    var z: seq<Byte>, k := seq(n, _ => 0), |BUFFER_SIZES|;
    Bench(ReadTp(n, BUFFER_SIZES, z, seq(k, _ => z), seq(k, _ => z), 0), WriteTp(n, BUFFER_SIZES, z, seq(k + 1, _ => z), 0),
          TwoTp(BUFFER_SIZES, z, [0], 0), OneSidedLat(false, 0, [], [], [], 0), OneSidedLat(true, 0, [], [], [], 0),
          TwoLat(0, [], [], [], 0))
  }

  lemma SomeRun(e: Bench, metric: Metric, m: Mem) returns (whole: seq<State>)
    requires e.Valid()
    ensures Maximal(Init(e.Client(metric), e.Server(metric), m), whole)
  {
    var p := e.RunPlan(metric);
    e.Projects(metric);
    e.Ok(metric);
    whole := RunsCanBeCompleted(p, m, [Start(p, m)]);
  }

  /** A run that stalls: 1024 bytes, the declared sizes. It cannot go on and is not finished. */
  lemma DeclaredRunStalls(m: Mem) returns (e: Bench, whole: seq<State>)
    ensures e.Valid() && e.read.sizes == BUFFER_SIZES && e.read.n == 1024
    ensures Maximal(Init(e.Client(Throughput), e.Server(Throughput), m), whole)
    ensures !Finished(whole[|whole| - 1])
  {
    e := ZeroBench(1024);
    whole := SomeRun(e, Throughput, m);
    DeclaredRunCompletesExactly(e, Throughput, m, whole);
  }
}
