/**
 What the TCP programs are, action by action and position by position, in the source's own
 arithmetic, for either side and every metric.
 */
module TcpActions {
  import opened Sequences
  import opened Positions
  import opened Chunks
  import opened Experiment
  import opened TcpMachine
  import opened TcpSessions

  lemma {:induction false} PutsAt(msgs: seq<seq<Byte>>, i: nat)
    requires i < |msgs|
    ensures Puts(msgs)[i] == Put(msgs[i])
  {
    if i > 0 {
      PutsAt(msgs[1..], i - 1);
    }
  }

  lemma {:induction false} TakesAt(lens: seq<nat>, room: nat, i: nat)
    requires i < |lens|
    ensures Takes(lens, room)[i] == Take(lens[i], room)
  {
    if i > 0 {
      TakesAt(lens[1..], room, i - 1);
    }
  }

  function ClientParts(rounds: seq<Round>): (parts: seq<seq<Act>>)
    ensures |parts| == |rounds| && forall r :: 0 <= r < |parts| ==> parts[r] == ClientRound(rounds[r])
  {
    seq(|rounds|, r requires 0 <= r < |rounds| => ClientRound(rounds[r]))
  }

  function ServerParts(rounds: seq<Awaited>): (parts: seq<seq<Act>>)
    ensures |parts| == |rounds| && forall r :: 0 <= r < |parts| ==> parts[r] == ServerRound(rounds[r])
  {
    seq(|rounds|, r requires 0 <= r < |rounds| => ServerRound(rounds[r]))
  }

  lemma {:induction false} ClientIsParts(rounds: seq<Round>)
    ensures ClientRounds(rounds) == Concat(ClientParts(rounds))
  {
    if rounds != [] {
      ClientIsParts(rounds[1..]);
      assert ClientParts(rounds)[1..] == ClientParts(rounds[1..]);
    }
  }

  lemma {:induction false} ServerIsParts(rounds: seq<Awaited>)
    ensures ServerRounds(rounds) == Concat(ServerParts(rounds))
  {
    if rounds != [] {
      ServerIsParts(rounds[1..]);
      assert ServerParts(rounds)[1..] == ServerParts(rounds[1..]);
    }
  }

  /** Actions before the latency part. */
  function LatencyBase(e: TcpBench, metric: Metric): nat
    requires e.Valid()
  {
    if metric == All then Turns(e.n, e.sizes, 2, |e.sizes|) else 0
  }

  /** A throughput round on the client: m whole chunks, the rest, the acknowledgement into the copy of the data. */
  lemma ClientTurn(e: TcpBench, r: nat, b: nat, m: nat, last: nat, rest: nat, i: nat, x: nat)
    requires e.Valid() && r < |e.sizes| && b == e.sizes[r] && ChunksOf(e.n, b, m, last, rest, i, x)
    ensures var turn, data := ClientParts(e.ThroughputRounds())[r], e.datas[r];
            && |turn| == m + 2
            && (i < m ==> x + b <= e.n && turn[i] == Put(data[x..x + b]))
            && last <= e.n && turn[m] == Put(data[last..]) && turn[m + 1] == Take(1, e.n)
  {
    var data := e.datas[r];
    SplitClosedForm(data, b);
    PutsAt(Split(data, b), m);
    if i < m {
      assert Split(data, b)[i] == data[i * b..i * b + b];
      PutsAt(Split(data, b), i);
    }
  }

  /** On the server: m whole chunks and the rest into the chunk buffer, then the acknowledgement. */
  lemma ServerTurn(e: TcpBench, r: nat, b: nat, m: nat, last: nat, rest: nat, i: nat, x: nat)
    requires e.Valid() && r < |e.sizes| && b == e.sizes[r] && ChunksOf(e.n, b, m, last, rest, i, x)
    ensures var turn := ServerParts(e.ServerThroughput())[r];
            && |turn| == m + 2
            && (i < m ==> turn[i] == Take(b, b)) && turn[m] == Take(rest, b) && turn[m + 1] == Put(ACK)
  {
    var lens := SpanLens(Spans(0, e.n, b));
    SpansClosedForm(0, e.n, b);
    TakesAt(lens, b, m);
    if i < m {
      assert Spans(0, e.n, b)[i] == Span(0 + i * b, b);
      TakesAt(lens, b, i);
    }
  }

  lemma ThroughputStarts(e: TcpBench, r: nat)
    requires e.Valid() && r <= |e.sizes|
    ensures Before(ClientParts(e.ThroughputRounds()), r) == Turns(e.n, e.sizes, 2, r)
    ensures Before(ServerParts(e.ServerThroughput()), r) == Turns(e.n, e.sizes, 2, r)
  {
    forall q | 0 <= q < |e.sizes|
      ensures |ClientParts(e.ThroughputRounds())[q]| == e.n / e.sizes[q] + 2
      ensures |ServerParts(e.ServerThroughput())[q]| == e.n / e.sizes[q] + 2
    {
      ClientTurn(e, q, e.sizes[q], e.n / e.sizes[q], e.n - e.n % e.sizes[q], e.n % e.sizes[q], 0, 0);
      ServerTurn(e, q, e.sizes[q], e.n / e.sizes[q], e.n - e.n % e.sizes[q], e.n % e.sizes[q], 0, 0);
    }
    BeforeIsTurns(ClientParts(e.ThroughputRounds()), e.n, e.sizes, 2, r);
    BeforeIsTurns(ServerParts(e.ServerThroughput()), e.n, e.sizes, 2, r);
  }

  lemma ClientLatencyTurn(e: TcpBench, q: nat, i: nat, j: nat)
    requires e.Valid() && q < |e.latSizes| && j == i % 40
    ensures var c := ClientParts(e.LatencyRounds())[q];
            |c| == e.loops + 1 && (i < e.loops ==> c[i] == Put(e.buffers[q][j])) && c[e.loops] == Take(1, e.latSizes[q])
  {
    if i < e.loops {
      PutsAt(LatencyMsgs(e.buffers[q], e.loops), i);
    }
  }

  lemma ServerLatencyTurn(e: TcpBench, q: nat, i: nat, b: nat)
    requires e.Valid() && q < |e.latSizes| && b == e.latSizes[q]
    ensures var s := ServerParts(e.ServerLatency())[q];
            |s| == e.loops + 1 && (i < e.loops ==> s[i] == Take(b, b)) && s[e.loops] == Put(ACK)
  {
    if i < e.loops {
      TakesAt(Same(b, e.loops), b, i);
    }
  }

  lemma LatencyStarts(e: TcpBench, q: nat)
    requires e.Valid() && q <= |e.latSizes|
    ensures Before(ClientParts(e.LatencyRounds()), q) == q * (e.loops + 1)
    ensures Before(ServerParts(e.ServerLatency()), q) == q * (e.loops + 1)
  {
    forall k | 0 <= k < |e.latSizes|
      ensures |ClientParts(e.LatencyRounds())[k]| == e.loops + 1 == |ServerParts(e.ServerLatency())[k]|
    {
      ClientLatencyTurn(e, k, 0, 0);
      ServerLatencyTurn(e, k, 0, e.latSizes[k]);
    }
    BeforeIsProduct(ClientParts(e.LatencyRounds()), e.loops + 1, q);
    BeforeIsProduct(ServerParts(e.ServerLatency()), e.loops + 1, q);
  }

  /** The two parts of a run's programs. */
  lemma ClientProgramParts(e: TcpBench, metric: Metric)
    requires e.Valid()
    ensures var t, l := Concat(ClientParts(e.ThroughputRounds())), Concat(ClientParts(e.LatencyRounds()));
            e.Start(metric).client.todo == (if metric == Latency then [] else t) + (if metric == Throughput then [] else l)
  {
    ClientIsParts(e.ThroughputRounds());
    ClientIsParts(e.LatencyRounds());
    ClientRoundsAppend(e.ThroughputRounds(), e.LatencyRounds());
  }

  lemma ServerProgramParts(e: TcpBench, metric: Metric)
    requires e.Valid()
    ensures var t, l := Concat(ServerParts(e.ServerThroughput())), Concat(ServerParts(e.ServerLatency()));
            e.Start(metric).server.todo == (if metric == Latency then [] else t) + (if metric == Throughput then [] else l)
  {
    ServerIsParts(e.ServerThroughput());
    ServerIsParts(e.ServerLatency());
    ServerRoundsAppend(e.ServerThroughput(), e.ServerLatency());
  }

  /** A part among the first ones, and one behind them. */
  lemma InFront(parts: seq<seq<Act>>, behind: seq<Act>, whole: seq<Act>, r: nat)
    requires whole == Concat(parts) + behind && r < |parts|
    ensures Contains(whole, Before(parts, r), parts[r])
  {
    assert [] + Concat(parts) == Concat(parts);
    Placed([], parts, behind, whole, r);
  }

  lemma Behind(front: seq<Act>, parts: seq<seq<Act>>, whole: seq<Act>, r: nat)
    requires whole == front + Concat(parts) && r < |parts|
    ensures Contains(whole, |front| + Before(parts, r), parts[r])
  {
    assert front + Concat(parts) + [] == front + Concat(parts);
    Placed(front, parts, [], whole, r);
  }

  lemma ThroughputLength(e: TcpBench)
    requires e.Valid()
    ensures |Concat(ClientParts(e.ThroughputRounds()))| == Turns(e.n, e.sizes, 2, |e.sizes|) == |Concat(ServerParts(e.ServerThroughput()))|
  {
    ThroughputStarts(e, |e.sizes|);
    ConcatLength(ClientParts(e.ThroughputRounds()));
    ConcatLength(ServerParts(e.ServerThroughput()));
  }

  lemma ClientThroughputPlaced(e: TcpBench, metric: Metric, r: nat, todo: seq<Act>, at: nat)
    requires e.Valid() && metric != Latency && r < |e.sizes| && todo == e.Start(metric).client.todo && at == Turns(e.n, e.sizes, 2, r)
    ensures Contains(todo, at, ClientParts(e.ThroughputRounds())[r])
  {
    ClientProgramParts(e, metric);
    ThroughputStarts(e, r);
    InFront(ClientParts(e.ThroughputRounds()), if metric == Throughput then [] else Concat(ClientParts(e.LatencyRounds())), todo, r);
  }

  lemma ClientFront(e: TcpBench, metric: Metric, todo: seq<Act>) returns (front: seq<Act>)
    requires e.Valid() && metric != Throughput && todo == e.Start(metric).client.todo
    ensures todo == front + Concat(ClientParts(e.LatencyRounds())) && |front| == LatencyBase(e, metric)
  {
    ClientProgramParts(e, metric);
    ThroughputLength(e);
    front := if metric == Latency then [] else Concat(ClientParts(e.ThroughputRounds()));
  }

  lemma ClientLatencyPlaced(e: TcpBench, metric: Metric, q: nat, todo: seq<Act>, base: nat, at: nat)
    requires e.Valid() && metric != Throughput && q < |e.latSizes| && todo == e.Start(metric).client.todo
    requires base == LatencyBase(e, metric) && at == base + Before(ClientParts(e.LatencyRounds()), q)
    ensures Contains(todo, at, ClientParts(e.LatencyRounds())[q])
  {
    var front := ClientFront(e, metric, todo);
    Behind(front, ClientParts(e.LatencyRounds()), todo, q);
  }

  lemma ServerThroughputPlaced(e: TcpBench, metric: Metric, r: nat, todo: seq<Act>, at: nat)
    requires e.Valid() && metric != Latency && r < |e.sizes| && todo == e.Start(metric).server.todo && at == Turns(e.n, e.sizes, 2, r)
    ensures Contains(todo, at, ServerParts(e.ServerThroughput())[r])
  {
    ServerProgramParts(e, metric);
    ThroughputStarts(e, r);
    InFront(ServerParts(e.ServerThroughput()), if metric == Throughput then [] else Concat(ServerParts(e.ServerLatency())), todo, r);
  }

  lemma ServerFront(e: TcpBench, metric: Metric, todo: seq<Act>) returns (front: seq<Act>)
    requires e.Valid() && metric != Throughput && todo == e.Start(metric).server.todo
    ensures todo == front + Concat(ServerParts(e.ServerLatency())) && |front| == LatencyBase(e, metric)
  {
    ServerProgramParts(e, metric);
    ThroughputLength(e);
    front := if metric == Latency then [] else Concat(ServerParts(e.ServerThroughput()));
  }

  lemma ServerLatencyPlaced(e: TcpBench, metric: Metric, q: nat, todo: seq<Act>, base: nat, at: nat)
    requires e.Valid() && metric != Throughput && q < |e.latSizes| && todo == e.Start(metric).server.todo
    requires base == LatencyBase(e, metric) && at == base + Before(ServerParts(e.ServerLatency()), q)
    ensures Contains(todo, at, ServerParts(e.ServerLatency())[q])
  {
    var front := ServerFront(e, metric, todo);
    Behind(front, ServerParts(e.ServerLatency()), todo, q);
  }

  /**
   Throughput round r of the client: n / b whole chunks of that round's data go out and then the
   n % b bytes left, and one byte comes in, into a buffer of n.
   */
  lemma TcpClientThroughput(e: TcpBench, metric: Metric, r: nat, b: nat, m: nat, last: nat, rest: nat, i: nat, x: nat, c: seq<Act>, at: nat)
    requires e.Valid() && metric != Latency && r < |e.sizes| && b == e.sizes[r] && ChunksOf(e.n, b, m, last, rest, i, x)
    requires c == e.Start(metric).client.todo && at == Turns(e.n, e.sizes, 2, r)
    ensures i < m ==> x + b <= e.n && Stands(c, at + i, Put(e.datas[r][x..x + b]))
    ensures last <= e.n && Stands(c, at + m, Put(e.datas[r][last..])) && Stands(c, at + m + 1, Take(1, e.n))
  {
    ClientThroughputPlaced(e, metric, r, c, at);
    ClientTurn(e, r, b, m, last, rest, i, x);
    var chunk := if i < m then Put(e.datas[r][x..x + b]) else Put([]);
    TurnTwo(c, at, ClientParts(e.ThroughputRounds())[r], m, i, chunk, Put(e.datas[r][last..]), Take(1, e.n));
  }

  /** The same round of the server: as many bytes into a chunk buffer of b, and "y" out. */
  lemma TcpServerThroughput(e: TcpBench, metric: Metric, r: nat, b: nat, m: nat, last: nat, rest: nat, i: nat, x: nat, s: seq<Act>, at: nat)
    requires e.Valid() && metric != Latency && r < |e.sizes| && b == e.sizes[r] && ChunksOf(e.n, b, m, last, rest, i, x)
    requires s == e.Start(metric).server.todo && at == Turns(e.n, e.sizes, 2, r)
    ensures (i < m ==> Stands(s, at + i, Take(b, b))) && Stands(s, at + m, Take(rest, b)) && Stands(s, at + m + 1, Put([121]))
  {
    ServerThroughputPlaced(e, metric, r, s, at);
    ServerTurn(e, r, b, m, last, rest, i, x);
    TurnTwo(s, at, ServerParts(e.ServerThroughput())[r], m, i, Take(b, b), Take(rest, b), Put(ACK));
  }

  /** Latency round q of the client: L messages, buffer i mod 40 the i-th, and one byte back into the first buffer. */
  lemma TcpClientLatency(e: TcpBench, metric: Metric, q: nat, i: nat, j: nat, c: seq<Act>, at: nat)
    requires e.Valid() && metric != Throughput && q < |e.latSizes| && j == i % 40
    requires c == e.Start(metric).client.todo && at == LatencyBase(e, metric) + q * (e.loops + 1)
    ensures (i < e.loops ==> Stands(c, at + i, Put(e.buffers[q][j]))) && Stands(c, at + e.loops, Take(1, e.latSizes[q]))
  {
    var turn := ClientLatencyAt(e, metric, q, i, j, c, at);
    TurnOne(c, at, turn, e.loops, i, Put(e.buffers[q][j]), Take(1, e.latSizes[q]));
  }

  lemma ClientLatencyAt(e: TcpBench, metric: Metric, q: nat, i: nat, j: nat, c: seq<Act>, at: nat) returns (turn: seq<Act>)
    requires e.Valid() && metric != Throughput && q < |e.latSizes| && j == i % 40
    requires c == e.Start(metric).client.todo && at == LatencyBase(e, metric) + q * (e.loops + 1)
    ensures Contains(c, at, turn) && |turn| == e.loops + 1
    ensures (i < e.loops ==> turn[i] == Put(e.buffers[q][j])) && turn[e.loops] == Take(1, e.latSizes[q])
  {
    turn := ClientParts(e.LatencyRounds())[q];
    LatencyStarts(e, q);
    ClientLatencyPlaced(e, metric, q, c, LatencyBase(e, metric), at);
    ClientLatencyTurn(e, q, i, j);
  }

  /** The same round of the server: L receives of the round's size, and "y" out. */
  lemma TcpServerLatency(e: TcpBench, metric: Metric, q: nat, i: nat, b: nat, s: seq<Act>, at: nat)
    requires e.Valid() && metric != Throughput && q < |e.latSizes| && b == e.latSizes[q]
    requires s == e.Start(metric).server.todo && at == LatencyBase(e, metric) + q * (e.loops + 1)
    ensures (i < e.loops ==> Stands(s, at + i, Take(b, b))) && Stands(s, at + e.loops, Put([121]))
  {
    var turn := ServerLatencyAt(e, metric, q, i, b, s, at);
    TurnOne(s, at, turn, e.loops, i, Take(b, b), Put(ACK));
  }

  lemma ServerLatencyAt(e: TcpBench, metric: Metric, q: nat, i: nat, b: nat, s: seq<Act>, at: nat) returns (turn: seq<Act>)
    requires e.Valid() && metric != Throughput && q < |e.latSizes| && b == e.latSizes[q]
    requires s == e.Start(metric).server.todo && at == LatencyBase(e, metric) + q * (e.loops + 1)
    ensures Contains(s, at, turn) && |turn| == e.loops + 1
    ensures (i < e.loops ==> turn[i] == Take(b, b)) && turn[e.loops] == Put(ACK)
  {
    turn := ServerParts(e.ServerLatency())[q];
    LatencyStarts(e, q);
    ServerLatencyPlaced(e, metric, q, s, LatencyBase(e, metric), at);
    ServerLatencyTurn(e, q, i, b);
  }

  /** And there is nothing else in them. */
  lemma TcpProgramLengths(e: TcpBench, metric: Metric)
    requires e.Valid()
    ensures |e.Start(metric).client.todo| == |e.Start(metric).server.todo|
            == (if metric == Latency then 0 else Turns(e.n, e.sizes, 2, |e.sizes|))
               + (if metric == Throughput then 0 else |e.latSizes| * (e.loops + 1))
  {
    ClientProgramParts(e, metric);
    ServerProgramParts(e, metric);
    ThroughputLength(e);
    LatencyStarts(e, |e.latSizes|);
    ConcatLength(ClientParts(e.LatencyRounds()));
    ConcatLength(ServerParts(e.ServerLatency()));
  }
}
