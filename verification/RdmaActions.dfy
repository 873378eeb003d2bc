/**
 What the RDMA programs are, action by action and position by position, in the source's own
 arithmetic: which round, which offset, which length, which byte. Together these facts leave no
 freedom in the programs that the sessions are defined by.
 */
module RdmaActions {
  import opened Sequences
  import opened Chunks
  import opened Positions
  import opened RdmaMachine
  import opened RdmaOneSided
  import opened RdmaTwoSided
  import opened RdmaLatency

  // ---- read throughput ----

  function ReadClientRounds(e: ReadTp): (parts: seq<seq<Action>>)
    requires e.Valid()
    ensures |parts| == |e.sizes| && forall r :: 0 <= r < |parts| ==> parts[r] == e.ClientRound(r)
  {
    seq(|e.sizes|, r requires 0 <= r < |e.sizes| => e.ClientRound(r))
  }

  function ReadServerRounds(e: ReadTp): (parts: seq<seq<Action>>)
    requires e.Valid()
    ensures |parts| == |e.sizes| && forall r :: 0 <= r < |parts| ==> parts[r] == e.ServerRound(r)
  {
    seq(|e.sizes|, r requires 0 <= r < |e.sizes| => e.ServerRound(r))
  }

  lemma {:induction false} ReadClientParts(e: ReadTp, r: nat)
    requires e.Valid() && r <= |e.sizes|
    ensures e.ClientFrom(r) == Concat(ReadClientRounds(e)[r..]) + [Send(Done, [e.ctl])]
    decreases |e.sizes| - r
  {
    if r < |e.sizes| {
      ReadClientParts(e, r + 1);
      assert ReadClientRounds(e)[r..][1..] == ReadClientRounds(e)[r + 1..];
      Assoc(e.ClientRound(r), Concat(ReadClientRounds(e)[r + 1..]), [Send(Done, [e.ctl])]);
    }
  }

  lemma {:induction false} ReadServerParts(e: ReadTp, r: nat)
    requires e.Valid() && r <= |e.sizes|
    ensures e.ServerFrom(r) == Concat(ReadServerRounds(e)[r..]) + [Recv(Done, 1)]
    decreases |e.sizes| - r
  {
    if r < |e.sizes| {
      ReadServerParts(e, r + 1);
      assert ReadServerRounds(e)[r..][1..] == ReadServerRounds(e)[r + 1..];
      Assoc(e.ServerRound(r), Concat(ReadServerRounds(e)[r + 1..]), [Recv(Done, 1)]);
    }
  }

  /** The stretches of such a round: m + 1 of them, the i-th at x and of b bytes, the last one the `rest` bytes at `last`. */
  predicate Stretches(spans: seq<Span>, b: nat, m: nat, last: nat, rest: nat, i: nat, x: nat) {
    |spans| == m + 1 && (i < m ==> spans[i] == Span(x, b)) && spans[m] == Span(last, rest)
  }

  lemma SpanAt(n: nat, b: nat, m: nat, last: nat, rest: nat, i: nat, x: nat)
    requires ChunksOf(n, b, m, last, rest, i, x)
    ensures Stretches(Spans(0, n, b), b, m, last, rest, i, x)
  {
    SpansClosedForm(0, n, b);
    if i < m {
      assert Spans(0, n, b)[i] == Span(0 + i * b, b);
    }
  }

  lemma ReadRoundAt(e: ReadTp, r: nat, b: nat, m: nat, last: nat, rest: nat, i: nat, x: nat)
    requires e.Valid() && r < |e.sizes| && b == e.sizes[r] && Stretches(Spans(0, e.n, b), b, m, last, rest, i, x)
    ensures var c := ReadClientRounds(e)[r];
            && |c| == m + 4
            && c[0] == Do(AllocLocal(e.scratch[r])) && c[1] == Recv(Ready(r), 1)
            && (i < m ==> c[2 + i] == Do(ReadChunk(x, b)))
            && c[2 + m] == Do(ReadChunk(last, rest))
            && c[3 + m] == Send(Finish(r), [e.ctl])
  {
  }

  lemma ReadClientWhole(e: ReadTp)
    requires e.Valid()
    ensures e.Client() == [Connect] + Concat(ReadClientRounds(e)) + [Send(Done, [e.ctl])]
  {
    ReadClientParts(e, 0);
    assert ReadClientRounds(e)[0..] == ReadClientRounds(e);
  }

  lemma ReadClientStarts(e: ReadTp, r: nat)
    requires e.Valid() && r <= |e.sizes|
    ensures Before(ReadClientRounds(e), r) == Turns(e.n, e.sizes, 4, r)
  {
    forall q | 0 <= q < |e.sizes|
      ensures |ReadClientRounds(e)[q]| == e.n / e.sizes[q] + 4
    {
      SpanAt(e.n, e.sizes[q], e.n / e.sizes[q], e.n - e.n % e.sizes[q], e.n % e.sizes[q], 0, 0);
      ReadRoundAt(e, q, e.sizes[q], e.n / e.sizes[q], e.n - e.n % e.sizes[q], e.n % e.sizes[q], 0, 0);
    }
    BeforeIsTurns(ReadClientRounds(e), e.n, e.sizes, 4, r);
  }

  lemma ReadClientTurn(e: ReadTp, r: nat, b: nat, m: nat, last: nat, rest: nat, i: nat, x: nat) returns (turn: seq<Action>)
    requires e.Valid() && r < |e.sizes| && b == e.sizes[r] && Stretches(Spans(0, e.n, b), b, m, last, rest, i, x)
    ensures Contains(e.Client(), 1 + Turns(e.n, e.sizes, 4, r), turn) && |turn| == m + 4
    ensures turn[0] == Do(AllocLocal(e.scratch[r])) && turn[1] == Recv(Ready(r), 1) && (i < m ==> turn[2 + i] == Do(ReadChunk(x, b)))
    ensures turn[2 + m] == Do(ReadChunk(last, rest)) && turn[3 + m] == Send(Finish(r), [e.ctl])
  {
    turn := ReadClientRounds(e)[r];
    ReadRoundAt(e, r, b, m, last, rest, i, x);
    ReadClientPlaced(e, r);
  }

  lemma ReadClientPlaced(e: ReadTp, r: nat)
    requires e.Valid() && r < |e.sizes|
    ensures Contains(e.Client(), 1 + Turns(e.n, e.sizes, 4, r), ReadClientRounds(e)[r])
  {
    ReadClientWhole(e);
    ReadClientStarts(e, r);
    Placed([Connect], ReadClientRounds(e), [Send(Done, [e.ctl])], e.Client(), r);
  }

  lemma ReadRoundStands(e: ReadTp, r: nat, b: nat, m: nat, last: nat, rest: nat, i: nat, x: nat)
    requires e.Valid() && r < |e.sizes| && b == e.sizes[r] && Stretches(Spans(0, e.n, b), b, m, last, rest, i, x)
    ensures var c, at := e.Client(), 1 + Turns(e.n, e.sizes, 4, r);
            && Stands(c, at, Do(AllocLocal(e.scratch[r])))
            && Stands(c, at + 1, Recv(Ready(r), 1))
            && (i < m ==> Stands(c, at + 2 + i, Do(ReadChunk(x, b))))
            && Stands(c, at + 2 + m, Do(ReadChunk(last, rest)))
            && Stands(c, at + 3 + m, Send(Finish(r), [e.ctl]))
  {
    var turn := ReadClientTurn(e, r, b, m, last, rest, i, x);
    TurnTwoTwo(e.Client(), 1 + Turns(e.n, e.sizes, 4, r), turn, m, i, Do(AllocLocal(e.scratch[r])), Recv(Ready(r), 1),
               Do(ReadChunk(x, b)), Do(ReadChunk(last, rest)), Send(Finish(r), [e.ctl]));
  }

  /**
   The read client: a connection, and in round r a new local buffer, the wait for Ready, n / b reads
   of b bytes at the multiples of that round's b, one of the n % b bytes from n - n % b, and the
   end-of-round message; in the end one last message.
   */
  lemma ReadClientActions(e: ReadTp, r: nat, b: nat, m: nat, last: nat, rest: nat, i: nat, x: nat)
    requires e.Valid() && r < |e.sizes| && b == e.sizes[r] && ChunksOf(e.n, b, m, last, rest, i, x)
    ensures var c, at := e.Client(), 1 + Turns(e.n, e.sizes, 4, r);
            && Stands(c, at, Do(AllocLocal(e.scratch[r])))
            && Stands(c, at + 1, Recv(Ready(r), 1))
            && (i < m ==> Stands(c, at + 2 + i, Do(ReadChunk(x, b))))
            && Stands(c, at + 2 + m, Do(ReadChunk(last, rest)))
            && Stands(c, at + 3 + m, Send(Finish(r), [e.ctl]))
  {
    SpanAt(e.n, b, m, last, rest, i, x);
    ReadRoundStands(e, r, b, m, last, rest, i, x);
  }

  lemma ReadClientEnds(e: ReadTp)
    requires e.Valid()
    ensures var c := e.Client();
            |c| == 2 + Turns(e.n, e.sizes, 4, |e.sizes|) && c[0] == Connect && c[|c| - 1] == Send(Done, [e.ctl])
  {
    ReadClientWhole(e);
    ReadClientStarts(e, |e.sizes|);
    PlacedAround([Connect], ReadClientRounds(e), [Send(Done, [e.ctl])], e.Client());
  }

  /** The read server: its buffer, the connection, and in round r the refill, Ready and the wait for the end; then one last wait. */
  lemma ReadServerActions(e: ReadTp, r: nat)
    requires e.Valid()
    ensures var s := e.Server();
            && |s| == 3 + 3 * |e.sizes|
            && s[0] == Do(AllocRegion(e.region)) && s[1] == Accept && s[|s| - 1] == Recv(Done, 1)
            && (r < |e.sizes| ==>
                  && Stands(s, 2 + 3 * r, Do(FillRegion(e.fills[r])))
                  && Stands(s, 3 + 3 * r, Send(Ready(r), [e.ctl]))
                  && Stands(s, 4 + 3 * r, Recv(Finish(r), 1)))
  {
    var parts, head := ReadServerRounds(e), [Do(AllocRegion(e.region)), Accept];
    ReadServerParts(e, 0);
    assert parts[0..] == parts;
    Assoc(head, Concat(parts), [Recv(Done, 1)]);
    BeforeIsProduct(parts, 3, |e.sizes|);
    PlacedAround(head, parts, [Recv(Done, 1)], e.Server());
    if r < |e.sizes| {
      BeforeIsProduct(parts, 3, r);
      Placed(head, parts, [Recv(Done, 1)], e.Server(), r);
      StandsEach(e.Server(), 2 + 3 * r, parts[r]);
    }
  }

  // ---- write throughput ----

  function WriteClientRounds(e: WriteTp): (parts: seq<seq<Action>>)
    requires e.Valid()
    ensures |parts| == |e.sizes|
    ensures forall r :: 0 <= r < |parts| ==> parts[r] == e.ClientRound(r) + [Do(FillLocal(e.sources[r + 1]))]
  {
    seq(|e.sizes|, r requires 0 <= r < |e.sizes| => e.ClientRound(r) + [Do(FillLocal(e.sources[r + 1]))])
  }

  function WriteServerRounds(e: WriteTp): (parts: seq<seq<Action>>)
    requires e.Valid()
    ensures |parts| == |e.sizes| && forall r :: 0 <= r < |parts| ==> parts[r] == e.ServerRound(r)
  {
    seq(|e.sizes|, r requires 0 <= r < |e.sizes| => e.ServerRound(r))
  }

  lemma {:induction false} WriteClientParts(e: WriteTp, r: nat)
    requires e.Valid() && r <= |e.sizes|
    ensures e.ClientFrom(r) == Concat(WriteClientRounds(e)[r..]) + [Send(Done, [e.ctl])]
    decreases |e.sizes| - r
  {
    if r < |e.sizes| {
      WriteClientParts(e, r + 1);
      assert WriteClientRounds(e)[r..][1..] == WriteClientRounds(e)[r + 1..];
      Assoc(WriteClientRounds(e)[r], Concat(WriteClientRounds(e)[r + 1..]), [Send(Done, [e.ctl])]);
    }
  }

  lemma {:induction false} WriteServerParts(e: WriteTp, r: nat)
    requires e.Valid() && r <= |e.sizes|
    ensures e.ServerFrom(r) == Concat(WriteServerRounds(e)[r..]) + [Recv(Done, 1)]
    decreases |e.sizes| - r
  {
    if r < |e.sizes| {
      WriteServerParts(e, r + 1);
      assert WriteServerRounds(e)[r..][1..] == WriteServerRounds(e)[r + 1..];
      Assoc(e.ServerRound(r), Concat(WriteServerRounds(e)[r + 1..]), [Recv(Done, 1)]);
    }
  }

  lemma WriteRoundAt(e: WriteTp, r: nat, b: nat, m: nat, last: nat, rest: nat, i: nat, x: nat)
    requires e.Valid() && r < |e.sizes| && b == e.sizes[r] && Stretches(Spans(0, e.n, b), b, m, last, rest, i, x)
    ensures var c := WriteClientRounds(e)[r];
            && |c| == m + 4
            && c[0] == Recv(Ready(r), 1)
            && (i < m ==> c[1 + i] == Do(WriteChunk(x, b)))
            && c[1 + m] == Do(WriteChunk(last, rest))
            && c[2 + m] == Send(Finish(r), [e.ctl])
            && c[3 + m] == Do(FillLocal(e.sources[r + 1]))
  {
  }

  lemma WriteClientWhole(e: WriteTp)
    requires e.Valid()
    ensures e.Client() == [Do(AllocLocal(e.sources[0])), Connect] + Concat(WriteClientRounds(e)) + [Send(Done, [e.ctl])]
  {
    WriteClientParts(e, 0);
    assert WriteClientRounds(e)[0..] == WriteClientRounds(e);
    Assoc([Do(AllocLocal(e.sources[0])), Connect], Concat(WriteClientRounds(e)), [Send(Done, [e.ctl])]);
  }

  lemma WriteClientStarts(e: WriteTp, r: nat)
    requires e.Valid() && r <= |e.sizes|
    ensures Before(WriteClientRounds(e), r) == Turns(e.n, e.sizes, 4, r)
  {
    forall q | 0 <= q < |e.sizes|
      ensures |WriteClientRounds(e)[q]| == e.n / e.sizes[q] + 4
    {
      SpanAt(e.n, e.sizes[q], e.n / e.sizes[q], e.n - e.n % e.sizes[q], e.n % e.sizes[q], 0, 0);
      WriteRoundAt(e, q, e.sizes[q], e.n / e.sizes[q], e.n - e.n % e.sizes[q], e.n % e.sizes[q], 0, 0);
    }
    BeforeIsTurns(WriteClientRounds(e), e.n, e.sizes, 4, r);
  }

  lemma WriteClientTurn(e: WriteTp, r: nat, b: nat, m: nat, last: nat, rest: nat, i: nat, x: nat) returns (turn: seq<Action>)
    requires e.Valid() && r < |e.sizes| && b == e.sizes[r] && Stretches(Spans(0, e.n, b), b, m, last, rest, i, x)
    ensures Contains(e.Client(), 2 + Turns(e.n, e.sizes, 4, r), turn) && |turn| == m + 4
    ensures turn[0] == Recv(Ready(r), 1) && (i < m ==> turn[1 + i] == Do(WriteChunk(x, b))) && turn[1 + m] == Do(WriteChunk(last, rest))
    ensures turn[2 + m] == Send(Finish(r), [e.ctl]) && turn[3 + m] == Do(FillLocal(e.sources[r + 1]))
  {
    turn := WriteClientRounds(e)[r];
    WriteRoundAt(e, r, b, m, last, rest, i, x);
    WriteClientPlaced(e, r);
  }

  lemma WriteClientPlaced(e: WriteTp, r: nat)
    requires e.Valid() && r < |e.sizes|
    ensures Contains(e.Client(), 2 + Turns(e.n, e.sizes, 4, r), WriteClientRounds(e)[r])
  {
    WriteClientWhole(e);
    WriteClientStarts(e, r);
    Placed([Do(AllocLocal(e.sources[0])), Connect], WriteClientRounds(e), [Send(Done, [e.ctl])], e.Client(), r);
  }

  lemma WriteRoundStands(e: WriteTp, r: nat, b: nat, m: nat, last: nat, rest: nat, i: nat, x: nat)
    requires e.Valid() && r < |e.sizes| && b == e.sizes[r] && Stretches(Spans(0, e.n, b), b, m, last, rest, i, x)
    ensures var c, at := e.Client(), 2 + Turns(e.n, e.sizes, 4, r);
            && Stands(c, at, Recv(Ready(r), 1))
            && (i < m ==> Stands(c, at + 1 + i, Do(WriteChunk(x, b))))
            && Stands(c, at + 1 + m, Do(WriteChunk(last, rest)))
            && Stands(c, at + 2 + m, Send(Finish(r), [e.ctl]))
            && Stands(c, at + 3 + m, Do(FillLocal(e.sources[r + 1])))
  {
    var turn := WriteClientTurn(e, r, b, m, last, rest, i, x);
    TurnOneThree(e.Client(), 2 + Turns(e.n, e.sizes, 4, r), turn, m, i, Recv(Ready(r), 1),
                 Do(WriteChunk(x, b)), Do(WriteChunk(last, rest)), Send(Finish(r), [e.ctl]), Do(FillLocal(e.sources[r + 1])));
  }

  /**
   The write client: its data, a connection, and in round r the wait for Ready, n / b writes of b
   bytes at the multiples of that round's b, one of the n % b bytes from n - n % b, the end-of-round
   message and the refill of the data; in the end one last message.
   */
  lemma WriteClientActions(e: WriteTp, r: nat, b: nat, m: nat, last: nat, rest: nat, i: nat, x: nat)
    requires e.Valid() && r < |e.sizes| && b == e.sizes[r] && ChunksOf(e.n, b, m, last, rest, i, x)
    ensures var c, at := e.Client(), 2 + Turns(e.n, e.sizes, 4, r);
            && Stands(c, at, Recv(Ready(r), 1))
            && (i < m ==> Stands(c, at + 1 + i, Do(WriteChunk(x, b))))
            && Stands(c, at + 1 + m, Do(WriteChunk(last, rest)))
            && Stands(c, at + 2 + m, Send(Finish(r), [e.ctl]))
            && Stands(c, at + 3 + m, Do(FillLocal(e.sources[r + 1])))
  {
    SpanAt(e.n, b, m, last, rest, i, x);
    WriteRoundStands(e, r, b, m, last, rest, i, x);
  }

  lemma WriteClientEnds(e: WriteTp)
    requires e.Valid()
    ensures var c := e.Client();
            && |c| == 3 + Turns(e.n, e.sizes, 4, |e.sizes|)
            && c[0] == Do(AllocLocal(e.sources[0])) && c[1] == Connect && c[|c| - 1] == Send(Done, [e.ctl])
  {
    WriteClientWhole(e);
    WriteClientStarts(e, |e.sizes|);
    PlacedAround([Do(AllocLocal(e.sources[0])), Connect], WriteClientRounds(e), [Send(Done, [e.ctl])], e.Client());
  }

  /** The write server: its buffer, the connection, and in round r the memset to zero, Ready and the wait for the end; then one last wait. */
  lemma WriteServerActions(e: WriteTp, r: nat)
    requires e.Valid()
    ensures var s := e.Server();
            && |s| == 3 + 3 * |e.sizes|
            && s[0] == Do(AllocRegion(e.region)) && s[1] == Accept && s[|s| - 1] == Recv(Done, 1)
            && (r < |e.sizes| ==>
                  && 4 + 3 * r < |s|
                  && s[2 + 3 * r].Do? && s[2 + 3 * r].op.FillRegion? && Cleared(s[2 + 3 * r].op.bytes, e.n)
                  && s[3 + 3 * r] == Send(Ready(r), [e.ctl])
                  && s[4 + 3 * r] == Recv(Finish(r), 1))
  {
    var parts, head := WriteServerRounds(e), [Do(AllocRegion(e.region)), Accept];
    WriteServerParts(e, 0);
    assert parts[0..] == parts;
    Assoc(head, Concat(parts), [Recv(Done, 1)]);
    BeforeIsProduct(parts, 3, |e.sizes|);
    PlacedAround(head, parts, [Recv(Done, 1)], e.Server());
    if r < |e.sizes| {
      BeforeIsProduct(parts, 3, r);
      Placed(head, parts, [Recv(Done, 1)], e.Server(), r);
      StandsEach(e.Server(), 2 + 3 * r, parts[r]);
    }
  }

  // ---- two-sided throughput ----

  function TwoClientRounds(e: TwoTp): (parts: seq<seq<Action>>)
    requires e.Valid()
    ensures |parts| == |e.sizes| && forall r :: 0 <= r < |parts| ==> parts[r] == e.ClientRound(r)
  {
    seq(|e.sizes|, r requires 0 <= r < |e.sizes| => e.ClientRound(r))
  }

  function TwoServerRounds(e: TwoTp): (parts: seq<seq<Action>>)
    requires e.Valid()
    ensures |parts| == |e.sizes| && forall r :: 0 <= r < |parts| ==> parts[r] == e.ServerRound(r)
  {
    seq(|e.sizes|, r requires 0 <= r < |e.sizes| => e.ServerRound(r))
  }

  lemma {:induction false} TwoClientParts(e: TwoTp, r: nat)
    requires e.Valid() && r <= |e.sizes|
    ensures e.ClientFrom(r) == Concat(TwoClientRounds(e)[r..])
    decreases |e.sizes| - r
  {
    if r < |e.sizes| {
      TwoClientParts(e, r + 1);
      assert TwoClientRounds(e)[r..][1..] == TwoClientRounds(e)[r + 1..];
    }
  }

  lemma {:induction false} TwoServerParts(e: TwoTp, r: nat)
    requires e.Valid() && r <= |e.sizes|
    ensures e.ServerFrom(r) == Concat(TwoServerRounds(e)[r..])
    decreases |e.sizes| - r
  {
    if r < |e.sizes| {
      TwoServerParts(e, r + 1);
      assert TwoServerRounds(e)[r..][1..] == TwoServerRounds(e)[r + 1..];
    }
  }

  /** The i-th receive of a round, from the loop's index x on. */
  lemma {:induction false} RecvsAt(r: nat, x: nat, n: nat, b: nat, i: nat)
    requires 0 < b && i < |DataRecvs(r, x, n, b)|
    ensures DataRecvs(r, x, n, b)[i] == Recv(Chunk(r, x + i * b), b)
    decreases i
  {
    if i > 0 {
      RecvsAt(r, x + b, n, b, i - 1);
      StepBack(i, b);
    }
  }

  /** The messages of a round from offset off on. */
  lemma {:induction false} SendsAt(data: seq<Byte>, r: nat, off: nat, b: nat, i: nat)
    requires 0 < b && off <= |data|
    ensures var sends, n := DataSends(data, r, off, b), |data|; var m, rest := (n - off) / b, (n - off) % b;
            && |sends| == m + 1
            && (i < m ==> off + i * b + b <= n && sends[i] == Send(Chunk(r, off + i * b), data[off + i * b..off + i * b + b]))
            && sends[m] == Send(Chunk(r, n - rest), data[n - rest..])
    decreases |data| - off
  {
    var left := |data| - off;
    if left < b {
      DivModUnique(left, b, 0, left);
    } else {
      DivModStep(left, b);
      assert left - b == |data| - (off + b);
      SendsAt(data, r, off + b, b, if i > 0 then i - 1 else 0);
      if i > 0 {
        StepBack(i, b);
      }
    }
  }

  lemma TwoClientRoundAt(e: TwoTp, r: nat, b: nat, k: nat, i: nat, x: nat)
    requires e.Valid() && r < |e.sizes| && b == e.sizes[r] && k == (|e.data| + b - 1) / b && x == i * b
    ensures var c := TwoClientRounds(e)[r];
            && |c| == k + 2
            && c[0] == Send(Ready(r), [e.ctl])
            && (i < k ==> c[1 + i] == Recv(Chunk(r, x), b))
            && c[1 + k] == Send(Finish(r), [e.ctl])
  {
    MessageCounts(0, |e.data|, b);
    if i < k {
      RecvsAt(r, 0, |e.data|, b, i);
    }
  }

  lemma TwoClientWhole(e: TwoTp)
    requires e.Valid()
    ensures e.Client() == [Connect] + Concat(TwoClientRounds(e)) + []
  {
    TwoClientParts(e, 0);
    assert TwoClientRounds(e)[0..] == TwoClientRounds(e);
  }

  lemma TwoClientStarts(e: TwoTp, r: nat)
    requires e.Valid() && r <= |e.sizes|
    ensures Before(TwoClientRounds(e), r) == TurnsUp(|e.data|, e.sizes, 2, r)
  {
    forall q | 0 <= q < |e.sizes|
      ensures |TwoClientRounds(e)[q]| == (|e.data| + e.sizes[q] - 1) / e.sizes[q] + 2
    {
      TwoClientRoundAt(e, q, e.sizes[q], (|e.data| + e.sizes[q] - 1) / e.sizes[q], 0, 0);
    }
    BeforeIsTurnsUp(TwoClientRounds(e), |e.data|, e.sizes, 2, r);
  }

  lemma TwoClientTurn(e: TwoTp, r: nat)
    requires e.Valid() && r < |e.sizes|
    ensures Contains(e.Client(), 1 + TurnsUp(|e.data|, e.sizes, 2, r), TwoClientRounds(e)[r])
  {
    TwoClientWhole(e);
    TwoClientStarts(e, r);
    Placed([Connect], TwoClientRounds(e), [], e.Client(), r);
  }

  /** The two-sided client: a connection, and in round r Ready, ceil(n / b) receives of b bytes, and the end-of-round message. */
  lemma TwoClientActions(e: TwoTp, r: nat, b: nat, k: nat, i: nat, x: nat)
    requires e.Valid() && r < |e.sizes| && b == e.sizes[r] && k == (|e.data| + b - 1) / b && x == i * b
    ensures var c, at := e.Client(), 1 + TurnsUp(|e.data|, e.sizes, 2, r);
            && Stands(c, at, Send(Ready(r), [e.ctl]))
            && (i < k ==> Stands(c, at + 1 + i, Recv(Chunk(r, x), b)))
            && Stands(c, at + 1 + k, Send(Finish(r), [e.ctl]))
  {
    TwoClientTurn(e, r);
    TwoClientRoundAt(e, r, b, k, i, x);
    TurnOneOne(e.Client(), 1 + TurnsUp(|e.data|, e.sizes, 2, r), TwoClientRounds(e)[r], k, i,
               Send(Ready(r), [e.ctl]), Recv(Chunk(r, x), b), Send(Finish(r), [e.ctl]));
  }

  lemma TwoClientEnds(e: TwoTp)
    requires e.Valid()
    ensures |e.Client()| == 1 + TurnsUp(|e.data|, e.sizes, 2, |e.sizes|) && e.Client()[0] == Connect
  {
    TwoClientWhole(e);
    TwoClientStarts(e, |e.sizes|);
    PlacedAround([Connect], TwoClientRounds(e), [], e.Client());
  }

  lemma TwoServerRoundAt(e: TwoTp, r: nat, b: nat, m: nat, last: nat, rest: nat, i: nat, x: nat)
    requires e.Valid() && r < |e.sizes| && b == e.sizes[r] && ChunksOf(|e.data|, b, m, last, rest, i, x)
    ensures var c := TwoServerRounds(e)[r];
            && |c| == m + 3
            && c[0] == Recv(Ready(r), 1)
            && (i < m ==> x + b <= |e.data| && c[1 + i] == Send(Chunk(r, x), e.data[x..x + b]))
            && last <= |e.data| && c[1 + m] == Send(Chunk(r, last), e.data[last..])
            && c[2 + m] == Recv(Finish(r), 1)
  {
    SendsAt(e.data, r, 0, b, i);
  }

  lemma TwoServerWhole(e: TwoTp)
    requires e.Valid()
    ensures e.Server() == [Do(AllocRegion(e.token)), Accept] + Concat(TwoServerRounds(e)) + []
  {
    TwoServerParts(e, 0);
    assert TwoServerRounds(e)[0..] == TwoServerRounds(e);
  }

  lemma TwoServerStarts(e: TwoTp, r: nat)
    requires e.Valid() && r <= |e.sizes|
    ensures Before(TwoServerRounds(e), r) == Turns(|e.data|, e.sizes, 3, r)
  {
    forall q | 0 <= q < |e.sizes|
      ensures |TwoServerRounds(e)[q]| == |e.data| / e.sizes[q] + 3
    {
      TwoServerRoundAt(e, q, e.sizes[q], |e.data| / e.sizes[q], |e.data| - |e.data| % e.sizes[q], |e.data| % e.sizes[q], 0, 0);
    }
    BeforeIsTurns(TwoServerRounds(e), |e.data|, e.sizes, 3, r);
  }

  lemma TwoServerTurn(e: TwoTp, r: nat)
    requires e.Valid() && r < |e.sizes|
    ensures Contains(e.Server(), 2 + Turns(|e.data|, e.sizes, 3, r), TwoServerRounds(e)[r])
  {
    TwoServerWhole(e);
    TwoServerStarts(e, r);
    Placed([Do(AllocRegion(e.token)), Accept], TwoServerRounds(e), [], e.Server(), r);
  }

  /**
   The two-sided server: its one-byte buffer, the connection, and in round r the wait for Ready,
   n / b messages of b bytes, one of the n % b bytes left, which may be none, and the wait for the end.
   */
  lemma TwoServerActions(e: TwoTp, r: nat, b: nat, m: nat, last: nat, rest: nat, i: nat, x: nat)
    requires e.Valid() && r < |e.sizes| && b == e.sizes[r] && ChunksOf(|e.data|, b, m, last, rest, i, x)
    ensures var s, at := e.Server(), 2 + Turns(|e.data|, e.sizes, 3, r);
            && Stands(s, at, Recv(Ready(r), 1))
            && (i < m ==> x + b <= |e.data| && Stands(s, at + 1 + i, Send(Chunk(r, x), e.data[x..x + b])))
            && last <= |e.data| && Stands(s, at + 1 + m, Send(Chunk(r, last), e.data[last..]))
            && Stands(s, at + 2 + m, Recv(Finish(r), 1))
  {
    TwoServerTurn(e, r);
    TwoServerRoundAt(e, r, b, m, last, rest, i, x);
    var chunk := if i < m then Send(Chunk(r, x), e.data[x..x + b]) else Accept;
    TurnOneTwo(e.Server(), 2 + Turns(|e.data|, e.sizes, 3, r), TwoServerRounds(e)[r], m, i,
               Recv(Ready(r), 1), chunk, Send(Chunk(r, last), e.data[last..]), Recv(Finish(r), 1));
  }

  lemma TwoServerEnds(e: TwoTp)
    requires e.Valid()
    ensures var s := e.Server();
            |s| == 2 + Turns(|e.data|, e.sizes, 3, |e.sizes|) && s[0] == Do(AllocRegion(e.token)) && s[1] == Accept
  {
    TwoServerWhole(e);
    TwoServerStarts(e, |e.sizes|);
    PlacedAround([Do(AllocRegion(e.token)), Accept], TwoServerRounds(e), [], e.Server());
  }

  // ---- one-sided latency ----

  function TransferRounds(e: OneSidedLat): (parts: seq<seq<Action>>)
    requires e.Valid()
    ensures |parts| == |e.sizes| && forall r :: 0 <= r < |parts| ==> parts[r] == Dos(e.RoundOps(r))
  {
    seq(|e.sizes|, r requires 0 <= r < |e.sizes| => Dos(e.RoundOps(r)))
  }

  lemma {:induction false} TransferParts(e: OneSidedLat, r: nat)
    requires e.Valid() && r <= |e.sizes|
    ensures Dos(e.OpsFrom(r)) == Concat(TransferRounds(e)[r..])
    decreases |e.sizes| - r
  {
    if r < |e.sizes| {
      TransferParts(e, r + 1);
      assert TransferRounds(e)[r..][1..] == TransferRounds(e)[r + 1..];
      DosAppend(e.RoundOps(r), e.OpsFrom(r + 1));
    }
  }

  lemma {:induction false} RepeatAt(op: Op, k: nat, i: nat)
    ensures |Repeat(op, k)| == k && (i < k ==> Repeat(op, k)[i] == op)
  {
    if k > 0 {
      RepeatAt(op, k - 1, if i > 0 then i - 1 else 0);
    }
  }

  lemma TransferRoundAt(e: OneSidedLat, r: nat, i: nat)
    requires e.Valid() && r < |e.sizes|
    ensures var c, b := Dos(e.RoundOps(r)), e.sizes[r];
            && |c| == e.loops + 1 && c[0] == Do(AllocLocal(e.locals[r]))
            && (i < e.loops ==> c[1 + i] == Do(if e.write then WriteChunk(0, b) else ReadChunk(0, b)))
  {
    RepeatAt(e.Transfer(r), e.loops, i);
  }

  lemma TransfersWhole(e: OneSidedLat)
    requires e.Valid()
    ensures e.Client() == [Connect] + Concat(TransferRounds(e)) + [Send(Done, [e.ctl])]
    ensures forall r :: 0 <= r < |e.sizes| ==> |TransferRounds(e)[r]| == e.loops + 1
  {
    TransferParts(e, 0);
    assert TransferRounds(e)[0..] == TransferRounds(e);
    forall r | 0 <= r < |e.sizes|
      ensures |TransferRounds(e)[r]| == e.loops + 1
    {
      TransferRoundAt(e, r, 0);
    }
  }

  lemma TransferTurn(e: OneSidedLat, r: nat, i: nat) returns (turn: seq<Action>)
    requires e.Valid() && r < |e.sizes|
    ensures Contains(e.Client(), 1 + r * (e.loops + 1), turn)
    ensures var c, b := Dos(e.RoundOps(r)), e.sizes[r];
            && |turn| == e.loops + 1 && turn[0] == Do(AllocLocal(e.locals[r]))
            && (i < e.loops ==> turn[1 + i] == Do(if e.write then WriteChunk(0, b) else ReadChunk(0, b)))
  {
    turn := TransferRounds(e)[r];
    TransferRoundAt(e, r, i);
    TransfersWhole(e);
    BeforeIsProduct(TransferRounds(e), e.loops + 1, r);
    Placed([Connect], TransferRounds(e), [Send(Done, [e.ctl])], e.Client(), r);
  }

  /** A one-sided latency client: in round r a new local buffer and L reads (or writes) of all of that round's b bytes at offset 0. */
  lemma OneSidedLatencyActions(e: OneSidedLat, r: nat, i: nat)
    requires e.Valid() && r < |e.sizes|
    ensures var c, at, b := e.Client(), 1 + r * (e.loops + 1), e.sizes[r];
            && Stands(c, at, Do(AllocLocal(e.locals[r])))
            && (i < e.loops ==> Stands(c, at + 1 + i, Do(if e.write then WriteChunk(0, b) else ReadChunk(0, b))))
  {
    var turn := TransferTurn(e, r, i);
  }

  /** It begins with a connection and ends with one last message; the server registers its buffer, accepts and waits. */
  lemma OneSidedLatencyEnds(e: OneSidedLat)
    requires e.Valid()
    ensures var c := e.Client();
            |c| == 2 + |e.sizes| * (e.loops + 1) && c[0] == Connect && c[|c| - 1] == Send(Done, [e.ctl])
    ensures e.Server() == [Do(AllocRegion(e.region)), Accept, Recv(Done, 1)]
  {
    TransfersWhole(e);
    BeforeIsProduct(TransferRounds(e), e.loops + 1, |e.sizes|);
    PlacedAround([Connect], TransferRounds(e), [Send(Done, [e.ctl])], e.Client());
  }

  // ---- two-sided latency ----

  function PingRounds(e: TwoLat): (parts: seq<seq<Action>>)
    requires e.Valid()
    ensures |parts| == |e.sizes| && forall r :: 0 <= r < |parts| ==> parts[r] == e.ClientRound(r)
  {
    seq(|e.sizes|, r requires 0 <= r < |e.sizes| => e.ClientRound(r))
  }

  function PongRounds(e: TwoLat): (parts: seq<seq<Action>>)
    requires e.Valid()
    ensures |parts| == |e.sizes| && forall r :: 0 <= r < |parts| ==> parts[r] == e.ServerRound(r)
  {
    seq(|e.sizes|, r requires 0 <= r < |e.sizes| => e.ServerRound(r))
  }

  lemma {:induction false} PingParts(e: TwoLat, r: nat)
    requires e.Valid() && r <= |e.sizes|
    ensures e.ClientFrom(r) == Concat(PingRounds(e)[r..]) && e.ServerFrom(r) == Concat(PongRounds(e)[r..])
    decreases |e.sizes| - r
  {
    if r < |e.sizes| {
      PingParts(e, r + 1);
      assert PingRounds(e)[r..][1..] == PingRounds(e)[r + 1..];
      assert PongRounds(e)[r..][1..] == PongRounds(e)[r + 1..];
    }
  }

  lemma {:induction false} PingsAt(e: TwoLat, r: nat, from: nat, i: nat)
    requires e.Valid() && r < |e.sizes| && from <= e.loops
    ensures |e.SendsFrom(r, from)| == e.loops - from == |e.RecvsFrom(r, from)|
    ensures i < e.loops - from ==>
              && e.SendsFrom(r, from)[i] == Send(Chunk(r, from + i), e.payloads[r])
              && e.RecvsFrom(r, from)[i] == Recv(Chunk(r, from + i), e.sizes[r])
    decreases e.loops - from
  {
    if from < e.loops {
      PingsAt(e, r, from + 1, if i > 0 then i - 1 else 0);
    }
  }

  lemma PingRoundAt(e: TwoLat, r: nat, i: nat)
    requires e.Valid() && r < |e.sizes|
    ensures var c, s, l := e.ClientRound(r), e.ServerRound(r), e.loops;
            && |c| == l + 2 == |s|
            && c[0] == Send(Ready(r), [e.ctl]) && s[0] == Recv(Ready(r), 1)
            && (i < l ==> c[1 + i] == Send(Chunk(r, i), e.payloads[r]) && s[1 + i] == Recv(Chunk(r, i), e.sizes[r]))
            && c[1 + l] == Send(Finish(r), [e.ctl]) && s[1 + l] == Recv(Finish(r), 1)
  {
    PingsAt(e, r, 0, i);
  }

  lemma PingsWhole(e: TwoLat)
    requires e.Valid()
    ensures e.Client() == [Connect] + Concat(PingRounds(e)) + []
    ensures e.Server() == [Do(AllocRegion(e.region)), Accept] + Concat(PongRounds(e)) + []
    ensures forall r :: 0 <= r < |e.sizes| ==> |PingRounds(e)[r]| == e.loops + 2 == |PongRounds(e)[r]|
  {
    PingParts(e, 0);
    assert PingRounds(e)[0..] == PingRounds(e) && PongRounds(e)[0..] == PongRounds(e);
    forall r | 0 <= r < |e.sizes|
      ensures |PingRounds(e)[r]| == e.loops + 2 == |PongRounds(e)[r]|
    {
      PingRoundAt(e, r, 0);
    }
  }

  lemma TwoLatencyEnds(e: TwoLat)
    requires e.Valid()
    ensures |e.Client()| == 1 + |e.sizes| * (e.loops + 2) && e.Client()[0] == Connect
    ensures |e.Server()| == 2 + |e.sizes| * (e.loops + 2)
    ensures e.Server()[0] == Do(AllocRegion(e.region)) && e.Server()[1] == Accept
  {
    PingsWhole(e);
    BeforeIsProduct(PingRounds(e), e.loops + 2, |e.sizes|);
    BeforeIsProduct(PongRounds(e), e.loops + 2, |e.sizes|);
    PlacedAround([Connect], PingRounds(e), [], e.Client());
    PlacedAround([Do(AllocRegion(e.region)), Accept], PongRounds(e), [], e.Server());
  }

  lemma PingTurn(e: TwoLat, r: nat, i: nat) returns (turn: seq<Action>)
    requires e.Valid() && r < |e.sizes|
    ensures Contains(e.Client(), 1 + r * (e.loops + 2), turn) && |turn| == e.loops + 2
    ensures turn[0] == Send(Ready(r), [e.ctl]) && (i < e.loops ==> turn[1 + i] == Send(Chunk(r, i), e.payloads[r]))
    ensures turn[1 + e.loops] == Send(Finish(r), [e.ctl])
  {
    turn := PingRounds(e)[r];
    PingRoundAt(e, r, i);
    PingsWhole(e);
    BeforeIsProduct(PingRounds(e), e.loops + 2, r);
    Placed([Connect], PingRounds(e), [], e.Client(), r);
  }

  /** The two-sided latency client: in round r Ready, L messages of the round's whole buffer, and the end-of-round message. */
  lemma TwoLatencyClientActions(e: TwoLat, r: nat, i: nat)
    requires e.Valid() && r < |e.sizes|
    ensures var c, at := e.Client(), 1 + r * (e.loops + 2);
            && Stands(c, at, Send(Ready(r), [e.ctl]))
            && (i < e.loops ==> Stands(c, at + 1 + i, Send(Chunk(r, i), e.payloads[r])))
            && Stands(c, at + 1 + e.loops, Send(Finish(r), [e.ctl]))
  {
    var turn := PingTurn(e, r, i);
  }

  lemma PongTurn(e: TwoLat, r: nat, i: nat) returns (turn: seq<Action>)
    requires e.Valid() && r < |e.sizes|
    ensures Contains(e.Server(), 2 + r * (e.loops + 2), turn) && |turn| == e.loops + 2
    ensures turn[0] == Recv(Ready(r), 1) && (i < e.loops ==> turn[1 + i] == Recv(Chunk(r, i), e.sizes[r]))
    ensures turn[1 + e.loops] == Recv(Finish(r), 1)
  {
    turn := PongRounds(e)[r];
    PingRoundAt(e, r, i);
    PingsWhole(e);
    BeforeIsProduct(PongRounds(e), e.loops + 2, r);
    Placed([Do(AllocRegion(e.region)), Accept], PongRounds(e), [], e.Server(), r);
  }

  /** Its server: in round r the wait for Ready, L receives of the round's size, and the wait for the end. */
  lemma TwoLatencyServerActions(e: TwoLat, r: nat, i: nat)
    requires e.Valid() && r < |e.sizes|
    ensures var s, at := e.Server(), 2 + r * (e.loops + 2);
            && Stands(s, at, Recv(Ready(r), 1))
            && (i < e.loops ==> Stands(s, at + 1 + i, Recv(Chunk(r, i), e.sizes[r])))
            && Stands(s, at + 1 + e.loops, Recv(Finish(r), 1))
  {
    var turn := PongTurn(e, r, i);
  }
}
