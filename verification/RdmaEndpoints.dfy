/** RdmaClient and RdmaServer: the tests, the round loops around them, and main's order of the sessions. */
module RdmaEndpoints {
  import opened Sequences
  import opened Chunks
  import opened Experiment
  import opened RdmaMachine
  import opened RdmaOneSided
  import opened RdmaTwoSided
  import opened RdmaLatency
  import opened RdmaRun
  import opened RdmaPeers

  /** Sizes that are `size_t` values. */
  predicate Sized(sizes: seq<nat>) {
    forall r :: 0 <= r < |sizes| ==> sizes[r] < TWO_64
  }

  /** The receive loop's index stays a size_t for every chunk size. */
  predicate IndexSized(n: nat, sizes: seq<nat>) {
    n < TWO_64 && forall r :: 0 <= r < |sizes| ==> 0 < sizes[r] < TWO_64 && ((n + sizes[r] - 1) / sizes[r]) * sizes[r] < TWO_64
  }

  lemma CameThree(start: seq<Action>, trace: seq<Action>, a: seq<Action>, b: seq<Action>, c: seq<Action>, rest: seq<Action>, program: seq<Action>)
    requires Comes(start, trace, a + b + c + rest, program)
    ensures Comes(start, trace + a + b + c, rest, program)
  {
    Came(start, trace, a + b + c, rest, program);
    Assoc4(trace, a, b, c);
  }

  lemma PairThen(t: seq<Action>, x: Action, y: Action, rest: seq<Action>)
    ensures t + ([x, y] + rest) == t + [x] + [y] + rest
  {
  }

  /** A repeated transfer, from the i-th on. */
  lemma RepeatStep(op: Op, k: nat)
    requires 0 < k
    ensures Dos(Repeat(op, k)) == [Do(op)] + Dos(Repeat(op, k - 1))
  {
    assert Repeat(op, k)[1..] == Repeat(op, k - 1);
  }

  /** A latency round with `left` transfers to go. */
  predicate LatencyRound(e: OneSidedLat, r: nat, start: seq<Action>, trace: seq<Action>, left: nat)
    requires e.Valid() && r < |e.sizes|
  {
    Comes(start, trace, Dos(Repeat(e.Transfer(r), left)), Dos(e.RoundOps(r)))
  }

  lemma LatencyRoundBegins(e: OneSidedLat, r: nat, start: seq<Action>)
    requires e.Valid() && r < |e.sizes|
    ensures LatencyRound(e, r, start, start + [Do(AllocLocal(e.locals[r]))], e.loops)
  {
    assert e.RoundOps(r)[1..] == Repeat(e.Transfer(r), e.loops);
    Begins(start, Dos(e.RoundOps(r)));
    Came(start, start, [Do(AllocLocal(e.locals[r]))], Dos(Repeat(e.Transfer(r), e.loops)), Dos(e.RoundOps(r)));
  }

  lemma OneMoreTransfer(e: OneSidedLat, r: nat, start: seq<Action>, trace: seq<Action>, left: nat)
    requires e.Valid() && r < |e.sizes| && 0 < left && LatencyRound(e, r, start, trace, left)
    ensures LatencyRound(e, r, start, trace + [Do(e.Transfer(r))], left - 1)
  {
    RepeatStep(e.Transfer(r), left);
    Came(start, trace, [Do(e.Transfer(r))], Dos(Repeat(e.Transfer(r), left - 1)), Dos(e.RoundOps(r)));
  }

  lemma RepeatTakes(op: Op, k: nat, m: Mem)
    requires 0 < k
    ensures Exec(Repeat(op, k), m) == Exec(Repeat(op, k - 1), Apply(op, m))
  {
    assert Repeat(op, k)[1..] == Repeat(op, k - 1);
  }

  /** The transfers of a round, over its new local buffer, are the round. */
  lemma RoundIsTransfers(e: OneSidedLat, r: nat, m: Mem)
    requires e.Valid() && r < |e.sizes| && m.local == e.locals[r] && |m.region| == |e.region| && !m.fault
    ensures Exec(Repeat(e.Transfer(r), e.loops), m) == Mem(e.RoundLocal(r, m.region), e.RoundRegion(r, m.region), false)
  {
    e.RoundDoes(r, m);
    ExecAppend([AllocLocal(e.locals[r])], Repeat(e.Transfer(r), e.loops), m);
    ExecOne(AllocLocal(e.locals[r]), m);
  }

  lemma LatencyRoundEnds(e: OneSidedLat, r: nat, start: seq<Action>, trace: seq<Action>)
    requires e.Valid() && r < |e.sizes| && LatencyRound(e, r, start, trace, 0)
    ensures trace == start + Dos(e.RoundOps(r))
  {
    AllCame(start, trace, Dos(e.RoundOps(r)));
  }

  class RdmaClient {
    const verbs: Verbs

    constructor (verbs: Verbs)
      ensures this.verbs == verbs
    {
      this.verbs := verbs;
    }

    /** `read_tp_test`: with the region at rest, the local buffer ends up equal to it. */
    method ReadTpTest(e: ReadTp, r: nat, remote: array<Byte>) returns (localBuffer: array<Byte>)
      requires e.Valid() && Sized(e.sizes) && r < |e.sizes| && remote.Length == e.n < TWO_64
      modifies verbs
      ensures localBuffer[..] == remote[..]
      ensures verbs.trace == old(verbs.trace) + e.ClientRound(r)
    {
      localBuffer := verbs.AllocLocal(e.scratch[r]);
      WaitForControlMessage(verbs, Ready(r), e.ctl);
      ReadChunks(verbs, e.sizes[r], localBuffer, remote);
      SendControlMessage(verbs, Finish(r), e.ctl);
      Assoc5(old(verbs.trace), [Do(AllocLocal(e.scratch[r]))], [Recv(Ready(r), 1)],
           Dos(Reads(Spans(0, e.n, e.sizes[r]))), [Send(Finish(r), [e.ctl])]);
    }

    method RunReadTpTests(e: ReadTp, remote: array<Byte>)
      requires e.Valid() && Sized(e.sizes) && remote.Length == e.n < TWO_64
      modifies verbs
      ensures verbs.trace == old(verbs.trace) + e.Client()
    {
      ghost var start := verbs.trace;
      verbs.Connect();
      Begins(start, e.Client());
      Came(start, start, [Connect], e.ClientFrom(0), e.Client());
      for r := 0 to |e.sizes|
        invariant Comes(start, verbs.trace, e.ClientFrom(r), e.Client())
      {
        Came(start, verbs.trace, e.ClientRound(r), e.ClientFrom(r + 1), e.Client());
        var localBuffer := ReadTpTest(e, r, remote);
      }
      SendControlMessage(verbs, Done, e.ctl);
    }

    /** `write_tp_test`: with the region at rest, the region ends up equal to the local buffer. */
    method WriteTpTest(e: WriteTp, r: nat, localBuffer: array<Byte>, remote: array<Byte>)
      requires e.Valid() && Sized(e.sizes) && r < |e.sizes| && localBuffer != remote
      requires localBuffer.Length == e.n && remote.Length == e.n < TWO_64
      modifies verbs, remote
      ensures remote[..] == localBuffer[..]
      ensures verbs.trace == old(verbs.trace) + e.ClientRound(r)
    {
      WaitForControlMessage(verbs, Ready(r), e.ctl);
      WriteChunks(verbs, e.sizes[r], localBuffer, remote);
      SendControlMessage(verbs, Finish(r), e.ctl);
      Assoc4(old(verbs.trace), [Recv(Ready(r), 1)], Dos(Writes(Spans(0, e.n, e.sizes[r]))), [Send(Finish(r), [e.ctl])]);
    }

    /** The local buffer is the data vector, so the refill after a round is what the next round writes. */
    method RunWriteTpTests(e: WriteTp, remote: array<Byte>)
      requires e.Valid() && Sized(e.sizes) && remote.Length == e.n < TWO_64
      modifies verbs, remote
      ensures verbs.trace == old(verbs.trace) + e.Client()
      ensures |e.sizes| > 0 ==> remote[..] == e.sources[|e.sizes| - 1]
    {
      ghost var start := verbs.trace;
      var data := verbs.AllocLocal(e.sources[0]);
      var localBuffer := data;
      verbs.Connect();
      PairThen(start, Do(AllocLocal(e.sources[0])), Connect, e.ClientFrom(0));
      for r := 0 to |e.sizes|
        invariant data[..] == e.sources[r]
        invariant r > 0 ==> remote[..] == e.sources[r - 1]
        invariant Comes(start, verbs.trace, e.ClientFrom(r), e.Client())
      {
        ghost var fill := [Do(FillLocal(e.sources[r + 1]))];
        ghost var before := verbs.trace;
        Assoc(e.ClientRound(r), fill, e.ClientFrom(r + 1));
        Came(start, before, e.ClientRound(r), fill + e.ClientFrom(r + 1), e.Client());
        Came(start, before + e.ClientRound(r), fill, e.ClientFrom(r + 1), e.Client());
        WriteTpTest(e, r, localBuffer, remote);
        verbs.FillLocal(data, e.sources[r + 1]);
      }
      SendControlMessage(verbs, Done, e.ctl);
    }

    /** `two_sided_tp_test`: with the chunks arriving that `TwoSidedChunks` says arrive, the whole data is taken. */
    method TwoSidedTpTest(e: TwoTp, r: nat) returns (ghost taken: seq<seq<Byte>>)
      requires e.Valid() && IndexSized(|e.data|, e.sizes) && r < |e.sizes|
      modifies verbs
      ensures taken == Pieces(e.data, 0, e.sizes[r]) && Join(taken) == e.data
      ensures verbs.trace == old(verbs.trace) + e.ClientRound(r)
    {
      SendControlMessage(verbs, Ready(r), e.ctl);
      taken := ReceiveChunks(verbs, r, |e.data|, e.sizes[r], Pieces(e.data, 0, e.sizes[r]));
      JoinPieces(e.data, 0, e.sizes[r]);
      SendControlMessage(verbs, Finish(r), e.ctl);
      Assoc4(old(verbs.trace), [Send(Ready(r), [e.ctl])], DataRecvs(r, 0, |e.data|, e.sizes[r]), [Send(Finish(r), [e.ctl])]);
    }

    method RunTwoSidedTpTests(e: TwoTp)
      requires e.Valid() && IndexSized(|e.data|, e.sizes)
      modifies verbs
      ensures verbs.trace == old(verbs.trace) + e.Client()
    {
      ghost var start := verbs.trace;
      verbs.Connect();
      Begins(start, e.Client());
      Came(start, start, [Connect], e.ClientFrom(0), e.Client());
      for r := 0 to |e.sizes|
        invariant Comes(start, verbs.trace, e.ClientFrom(r), e.Client())
      {
        Came(start, verbs.trace, e.ClientRound(r), e.ClientFrom(r + 1), e.Client());
        ghost var taken := TwoSidedTpTest(e, r);
      }
      AllCame(start, verbs.trace, e.Client());
    }

    /** The operation timed: `write` in one test, `read` in the other; it does to the two buffers what the machine's does. */
    method TransferOnce(e: OneSidedLat, r: nat, localBuffer: array<Byte>, remote: array<Byte>)
      requires e.Valid() && r < |e.sizes| && remote.Length == |e.region|
      requires localBuffer != remote && localBuffer.Length == e.sizes[r]
      modifies verbs, localBuffer, remote
      ensures Mem(localBuffer[..], remote[..], false) == Apply(e.Transfer(r), Mem(old(localBuffer[..]), old(remote[..]), false))
      ensures verbs.trace == old(verbs.trace) + [Do(e.Transfer(r))]
    {
      if e.write {
        verbs.Write(localBuffer, remote, 0, e.sizes[r]);
      } else {
        verbs.Read(localBuffer, remote, 0, e.sizes[r]);
      }
    }

    /** `read_latency_test` and `write_latency_test`: the same transfer `num_loops` times, and what that leaves in both buffers. */
    method OneSidedLatencyTest(e: OneSidedLat, r: nat, remote: array<Byte>) returns (localBuffer: array<Byte>)
      requires e.Valid() && r < |e.sizes| && remote.Length == |e.region| && e.loops < TWO_31
      modifies verbs, remote
      ensures localBuffer[..] == e.RoundLocal(r, old(remote[..])) && remote[..] == e.RoundRegion(r, old(remote[..]))
      ensures verbs.trace == old(verbs.trace) + Dos(e.RoundOps(r))
    {
      ghost var start, before := verbs.trace, Mem(e.locals[r], remote[..], false);
      localBuffer := verbs.AllocLocal(e.locals[r]);
      LatencyRoundBegins(e, r, start);
      for i := 0 to e.loops
        invariant LatencyRound(e, r, start, verbs.trace, e.loops - i)
        invariant Exec(Repeat(e.Transfer(r), e.loops - i), Mem(localBuffer[..], remote[..], false)) == Exec(Repeat(e.Transfer(r), e.loops), before)
      {
        OneMoreTransfer(e, r, start, verbs.trace, e.loops - i);
        RepeatTakes(e.Transfer(r), e.loops - i, Mem(localBuffer[..], remote[..], false));
        TransferOnce(e, r, localBuffer, remote);
      }
      LatencyRoundEnds(e, r, start, verbs.trace);
      RoundIsTransfers(e, r, before);
    }

    method RunOneSidedLatencyTests(e: OneSidedLat, remote: array<Byte>)
      requires e.Valid() && remote.Length == |e.region| && e.loops < TWO_31
      modifies verbs, remote
      ensures old(remote[..]) == e.region ==> remote[..] == e.RegionAfter(|e.sizes|)
      ensures verbs.trace == old(verbs.trace) + e.Client()
    {
      ghost var start := verbs.trace;
      ghost var done, ops := [Send(Done, [e.ctl])], Dos(e.OpsFrom(0));
      verbs.Connect();
      Assoc4([], [Connect], ops, done);
      Begins(start, e.Client());
      Assoc([Connect], ops, done);
      Came(start, start, [Connect], ops + done, e.Client());
      for r := 0 to |e.sizes|
        invariant old(remote[..]) == e.region ==> remote[..] == e.RegionAfter(r)
        invariant Comes(start, verbs.trace, Dos(e.OpsFrom(r)) + done, e.Client())
      {
        DosAppend(e.RoundOps(r), e.OpsFrom(r + 1));
        Assoc(Dos(e.RoundOps(r)), Dos(e.OpsFrom(r + 1)), done);
        Came(start, verbs.trace, Dos(e.RoundOps(r)), Dos(e.OpsFrom(r + 1)) + done, e.Client());
        var localBuffer := OneSidedLatencyTest(e, r, remote);
      }
      assert Dos([]) + done == done;
      SendControlMessage(verbs, Done, e.ctl);
    }

    method TwoSidedLatencyTest(e: TwoLat, r: nat)
      requires e.Valid() && r < |e.sizes| && e.loops < TWO_31
      modifies verbs
      ensures verbs.trace == old(verbs.trace) + e.ClientRound(r)
    {
      ghost var start, finish := verbs.trace, [Send(Finish(r), [e.ctl])];
      SendControlMessage(verbs, Ready(r), e.ctl);
      Begins(start, e.ClientRound(r));
      Assoc([Send(Ready(r), [e.ctl])], e.SendsFrom(r, 0), finish);
      Came(start, start, [Send(Ready(r), [e.ctl])], e.SendsFrom(r, 0) + finish, e.ClientRound(r));
      for i := 0 to e.loops
        invariant Comes(start, verbs.trace, e.SendsFrom(r, i) + finish, e.ClientRound(r))
      {
        Assoc([Send(Chunk(r, i), e.payloads[r])], e.SendsFrom(r, i + 1), finish);
        Came(start, verbs.trace, [Send(Chunk(r, i), e.payloads[r])], e.SendsFrom(r, i + 1) + finish, e.ClientRound(r));
        verbs.Send(Chunk(r, i), e.payloads[r]);
      }
      assert e.SendsFrom(r, e.loops) + finish == finish;
      SendControlMessage(verbs, Finish(r), e.ctl);
    }

    method RunTwoSidedLatencyTests(e: TwoLat)
      requires e.Valid() && e.loops < TWO_31
      modifies verbs
      ensures verbs.trace == old(verbs.trace) + e.Client()
    {
      ghost var start := verbs.trace;
      verbs.Connect();
      Begins(start, e.Client());
      Came(start, start, [Connect], e.ClientFrom(0), e.Client());
      for r := 0 to |e.sizes|
        invariant Comes(start, verbs.trace, e.ClientFrom(r), e.Client())
      {
        Came(start, verbs.trace, e.ClientRound(r), e.ClientFrom(r + 1), e.Client());
        TwoSidedLatencyTest(e, r);
      }
      AllCame(start, verbs.trace, e.Client());
    }

    method RunThroughputTests(e: Bench, regions: Regions)
      requires e.Valid() && Fits(e) && regions.For(e)
      modifies verbs, regions.write
      ensures verbs.trace == old(verbs.trace) + e.ClientThroughput()
    {
      RunReadTpTests(e.read, regions.read);
      RunWriteTpTests(e.write, regions.write);
      RunTwoSidedTpTests(e.two);
      Assoc4(old(verbs.trace), e.read.Client(), e.write.Client(), e.two.Client());
    }

    method RunLatencyTests(e: Bench, regions: Regions)
      requires e.Valid() && Fits(e) && regions.For(e)
      modifies verbs, regions.readLat, regions.writeLat
      ensures verbs.trace == old(verbs.trace) + e.ClientLatency()
    {
      RunOneSidedLatencyTests(e.readLat, regions.readLat);
      RunOneSidedLatencyTests(e.writeLat, regions.writeLat);
      RunTwoSidedLatencyTests(e.twoLat);
      Assoc4(old(verbs.trace), e.readLat.Client(), e.writeLat.Client(), e.twoLat.Client());
    }

    /** The client's half of main issues exactly the client's program of the whole run. */
    method Run(metric: Metric, e: Bench, regions: Regions)
      requires e.Valid() && Fits(e) && regions.For(e)
      modifies verbs, regions.write, regions.readLat, regions.writeLat
      ensures verbs.trace == old(verbs.trace) + e.Client(metric)
    {
      match metric
      case Throughput =>
        RunThroughputTests(e, regions);
      case Latency =>
        RunLatencyTests(e, regions);
      case All =>
        RunThroughputTests(e, regions);
        RunLatencyTests(e, regions);
        Assoc(old(verbs.trace), e.ClientThroughput(), e.ClientLatency());
    }
  }

  /** What the machine types of the source can stand for. */
  predicate Fits(e: Bench)
    requires e.Valid()
  {
    && e.read.n < TWO_64 && Sized(e.read.sizes) && IndexSized(e.read.n, e.read.sizes)
    && e.readLat.loops < TWO_31 && e.writeLat.loops < TWO_31 && e.twoLat.loops < TWO_31
  }

  /** The server's registered buffers, as the client's region tokens name them. */
  datatype Regions = Regions(read: array<Byte>, write: array<Byte>, readLat: array<Byte>, writeLat: array<Byte>) {
    predicate For(e: Bench) {
      && read.Length == e.read.n && write.Length == e.write.n
      && readLat.Length == |e.readLat.region| && writeLat.Length == |e.writeLat.region|
    }
  }

  /** The L messages that arrive in round r of the two-sided latency session fit the server's buffer. */
  predicate Roomy(e: TwoLat, r: nat, arriving: seq<seq<Byte>>) {
    r < |e.sizes| && |arriving| == e.loops && forall i :: 0 <= i < e.loops ==> |arriving[i]| <= e.sizes[r]
  }

  predicate AllRoomy(e: TwoLat, arriving: seq<seq<seq<Byte>>>) {
    |arriving| == |e.sizes| && forall r :: 0 <= r < |e.sizes| ==> Roomy(e, r, arriving[r])
  }

  /** One of the first k of them does not fill it. */
  predicate SomeShort(e: TwoLat, r: nat, arriving: seq<seq<Byte>>, k: nat)
    requires Roomy(e, r, arriving) && k <= e.loops
  {
    exists i :: 0 <= i < k && |arriving[i]| < e.sizes[r]
  }

  lemma OneMoreShort(e: TwoLat, r: nat, arriving: seq<seq<Byte>>, k: nat)
    requires Roomy(e, r, arriving) && k < e.loops
    ensures SomeShort(e, r, arriving, k + 1) <==> SomeShort(e, r, arriving, k) || |arriving[k]| < e.sizes[r]
  {
    if |arriving[k]| < e.sizes[r] {
      assert 0 <= k < k + 1;
    }
  }

  /** What arrives in a run: the client's payload of every round, `loops` times (`TwoLatencyAligned`). */
  function Arriving(e: TwoLat): (arriving: seq<seq<seq<Byte>>>)
    requires e.Valid()
    ensures AllRoomy(e, arriving)
    ensures forall r :: 0 <= r < |e.sizes| ==> !SomeShort(e, r, arriving[r], e.loops)
  {
    seq(|e.sizes|, r requires 0 <= r < |e.sizes| => seq(e.loops, _ => e.payloads[r]))
  }

  class RdmaServer {
    const verbs: Verbs

    constructor (verbs: Verbs)
      ensures this.verbs == verbs
    {
      this.verbs := verbs;
    }

    /** `run_read_tp_tests`: before every round the registered data is refilled in place. */
    method RunReadTpTests(e: ReadTp) returns (data: array<Byte>)
      requires e.Valid()
      modifies verbs
      ensures data[..] == if |e.sizes| == 0 then e.region else e.fills[|e.sizes| - 1]
      ensures verbs.trace == old(verbs.trace) + e.Server()
    {
      ghost var start := verbs.trace;
      data := verbs.AllocRegion(e.region);
      verbs.Accept();
      PairThen(start, Do(AllocRegion(e.region)), Accept, e.ServerFrom(0));
      for r := 0 to |e.sizes|
        invariant data[..] == if r == 0 then e.region else e.fills[r - 1]
        invariant Comes(start, verbs.trace, e.ServerFrom(r), e.Server())
      {
        ghost var before := verbs.trace;
        verbs.FillRegion(data, e.fills[r]);
        SendControlMessage(verbs, Ready(r), e.ctl);
        WaitForControlMessage(verbs, Finish(r), e.ctl);
        CameThree(start, before, [Do(FillRegion(e.fills[r]))], [Send(Ready(r), [e.ctl])], [Recv(Finish(r), 1)], e.ServerFrom(r + 1), e.Server());
      }
      WaitForControlMessage(verbs, Done, e.ctl);
    }

    /** `run_write_tp_tests`: before every round the registered buffer is cleared; this side puts nothing else into it. */
    method RunWriteTpTests(e: WriteTp) returns (buffer: array<Byte>)
      requires e.Valid()
      modifies verbs
      ensures |e.sizes| == 0 ==> buffer[..] == e.region
      ensures |e.sizes| > 0 ==> buffer.Length == e.n && forall i :: 0 <= i < buffer.Length ==> buffer[i] == 0
      ensures verbs.trace == old(verbs.trace) + e.Server()
    {
      ghost var start := verbs.trace;
      buffer := verbs.AllocRegion(e.region);
      verbs.Accept();
      PairThen(start, Do(AllocRegion(e.region)), Accept, e.ServerFrom(0));
      for r := 0 to |e.sizes|
        invariant r == 0 ==> buffer[..] == e.region
        invariant r > 0 ==> buffer.Length == e.n && buffer[..] == e.Zeros()
        invariant Comes(start, verbs.trace, e.ServerFrom(r), e.Server())
      {
        ghost var before := verbs.trace;
        verbs.FillRegion(buffer, e.Zeros());
        SendControlMessage(verbs, Ready(r), e.ctl);
        WaitForControlMessage(verbs, Finish(r), e.ctl);
        CameThree(start, before, [Do(FillRegion(e.Zeros()))], [Send(Ready(r), [e.ctl])], [Recv(Finish(r), 1)], e.ServerFrom(r + 1), e.Server());
      }
      assert |e.sizes| > 0 ==> forall i :: 0 <= i < buffer.Length ==> buffer[i] == e.Zeros()[i];
      WaitForControlMessage(verbs, Done, e.ctl);
    }

    /** `two_sided_tp_test`: `data` is passed by value; the buffer sent from is a copy. */
    method TwoSidedTpTest(e: TwoTp, r: nat, data: seq<Byte>)
      requires e.Valid() && Sized(e.sizes) && r < |e.sizes| && data == e.data && |data| < TWO_64
      modifies verbs
      ensures verbs.trace == old(verbs.trace) + e.ServerRound(r)
    {
      var buffer := Copied(data);
      WaitForControlMessage(verbs, Ready(r), e.ctl);
      SendChunks(verbs, r, e.sizes[r], buffer);
      WaitForControlMessage(verbs, Finish(r), e.ctl);
      Assoc4(old(verbs.trace), [Recv(Ready(r), 1)], e.ServerSends(r), [Recv(Finish(r), 1)]);
    }

    method RunTwoSidedTpTests(e: TwoTp)
      requires e.Valid() && Sized(e.sizes) && |e.data| < TWO_64
      modifies verbs
      ensures verbs.trace == old(verbs.trace) + e.Server()
    {
      ghost var start := verbs.trace;
      var token := verbs.AllocRegion(e.token);
      verbs.Accept();
      PairThen(start, Do(AllocRegion(e.token)), Accept, e.ServerFrom(0));
      for r := 0 to |e.sizes|
        invariant Comes(start, verbs.trace, e.ServerFrom(r), e.Server())
      {
        Came(start, verbs.trace, e.ServerRound(r), e.ServerFrom(r + 1), e.Server());
        TwoSidedTpTest(e, r, e.data);
      }
      AllCame(start, verbs.trace, e.Server());
    }

    /** `run_read_latency_tests` and `run_write_latency_tests`: register a buffer and wait for the end. */
    method RunOneSidedLatencyTests(e: OneSidedLat)
      requires e.Valid()
      modifies verbs
      ensures verbs.trace == old(verbs.trace) + e.Server()
    {
      var buffer := verbs.AllocRegion(e.region);
      verbs.Accept();
      WaitForControlMessage(verbs, Done, e.ctl);
      Assoc4(old(verbs.trace), [Do(AllocRegion(e.region))], [Accept], [Recv(Done, 1)]);
    }

    /** `two_sided_latency_test`, with the messages that arrive: `short` says whether the short-message warning was printed. */
    method TwoSidedLatencyTest(e: TwoLat, r: nat, arriving: seq<seq<Byte>>) returns (short: bool)
      requires e.Valid() && r < |e.sizes| && e.loops < TWO_31 && Roomy(e, r, arriving)
      modifies verbs
      ensures short <==> SomeShort(e, r, arriving, e.loops)
      ensures verbs.trace == old(verbs.trace) + e.ServerRound(r)
    {
      ghost var start, finish := verbs.trace, [Recv(Finish(r), 1)];
      WaitForControlMessage(verbs, Ready(r), e.ctl);
      Begins(start, e.ServerRound(r));
      Assoc([Recv(Ready(r), 1)], e.RecvsFrom(r, 0), finish);
      Came(start, start, [Recv(Ready(r), 1)], e.RecvsFrom(r, 0) + finish, e.ServerRound(r));
      var buffer := new Byte[e.sizes[r]];
      short := false;
      for i := 0 to e.loops
        invariant short <==> SomeShort(e, r, arriving, i)
        invariant Comes(start, verbs.trace, e.RecvsFrom(r, i) + finish, e.ServerRound(r))
      {
        Assoc([Recv(Chunk(r, i), e.sizes[r])], e.RecvsFrom(r, i + 1), finish);
        Came(start, verbs.trace, [Recv(Chunk(r, i), e.sizes[r])], e.RecvsFrom(r, i + 1) + finish, e.ServerRound(r));
        OneMoreShort(e, r, arriving, i);
        var bytesWritten := verbs.Receive(Chunk(r, i), buffer, arriving[i]);
        if bytesWritten < e.sizes[r] {
          short := true;
        }
      }
      assert e.RecvsFrom(r, e.loops) + finish == finish;
      WaitForControlMessage(verbs, Finish(r), e.ctl);
    }

    /** `run_two_sided_latency_tests`: the warning is printed in no round in which every message fills the buffer. */
    method RunTwoSidedLatencyTests(e: TwoLat, arriving: seq<seq<seq<Byte>>>) returns (warned: bool)
      requires e.Valid() && e.loops < TWO_31 && AllRoomy(e, arriving)
      modifies verbs
      ensures warned <==> exists r :: 0 <= r < |e.sizes| && SomeShort(e, r, arriving[r], e.loops)
      ensures verbs.trace == old(verbs.trace) + e.Server()
    {
      ghost var start := verbs.trace;
      var region := verbs.AllocRegion(e.region);
      verbs.Accept();
      PairThen(start, Do(AllocRegion(e.region)), Accept, e.ServerFrom(0));
      warned := false;
      for r := 0 to |e.sizes|
        invariant warned <==> exists q :: 0 <= q < r && SomeShort(e, q, arriving[q], e.loops)
        invariant Comes(start, verbs.trace, e.ServerFrom(r), e.Server())
      {
        Came(start, verbs.trace, e.ServerRound(r), e.ServerFrom(r + 1), e.Server());
        var short := TwoSidedLatencyTest(e, r, arriving[r]);
        warned := warned || short;
      }
      AllCame(start, verbs.trace, e.Server());
    }

    method RunThroughputTests(e: Bench)
      requires e.Valid() && Fits(e)
      modifies verbs
      ensures verbs.trace == old(verbs.trace) + e.ServerThroughput()
    {
      var data := RunReadTpTests(e.read);
      var buffer := RunWriteTpTests(e.write);
      RunTwoSidedTpTests(e.two);
      Assoc4(old(verbs.trace), e.read.Server(), e.write.Server(), e.two.Server());
    }

    method RunLatencyTests(e: Bench) returns (warned: bool)
      requires e.Valid() && Fits(e)
      modifies verbs
      ensures !warned
      ensures verbs.trace == old(verbs.trace) + e.ServerLatency()
    {
      RunOneSidedLatencyTests(e.readLat);
      RunOneSidedLatencyTests(e.writeLat);
      warned := RunTwoSidedLatencyTests(e.twoLat, Arriving(e.twoLat));
      Assoc4(old(verbs.trace), e.readLat.Server(), e.writeLat.Server(), e.twoLat.Server());
    }

    /** The server's half of main issues exactly the server's program of the whole run. */
    method Run(metric: Metric, e: Bench)
      requires e.Valid() && Fits(e)
      modifies verbs
      ensures verbs.trace == old(verbs.trace) + e.Server(metric)
    {
      match metric
      case Throughput =>
        RunThroughputTests(e);
      case Latency =>
        var warned := RunLatencyTests(e);
      case All =>
        RunThroughputTests(e);
        var warned := RunLatencyTests(e);
        Assoc(old(verbs.trace), e.ServerThroughput(), e.ServerLatency());
    }
  }
}
