/** TcpClient and TcpServer: the test loops of both sides and the order in which main runs them. */
module TcpPeers {
  import opened Sequences
  import opened Chunks
  import opened Experiment
  import opened TcpMachine
  import opened TcpSessions
  import opened TcpLoops

  /** `dev_random_data`: the vector is refilled in place with bytes nobody chooses. */
  method DevRandomData(data: array<Byte>, random: seq<Byte>)
    requires |random| == data.Length
    modifies data
    ensures data[..] == random
  {
    forall i | 0 <= i < data.Length {
      data[i] := random[i];
    }
  }

  // ---- one more message in a loop over messages ----

  lemma OneMorePut(c0: seq<Call>, c1: seq<Call>, c2: seq<Call>, sent: seq<seq<Byte>>, m: seq<Byte>)
    requires Made(c0, c1, Puts(sent)) && Made(c1, c2, [Put(m)])
    ensures Made(c0, c2, Puts(sent + [m]))
  {
    MadeThen(c0, c1, c2, Puts(sent), [Put(m)]);
    PutsAppend(sent, [m]);
    OnePut(m);
  }

  function AndOne(taken: seq<nat>, k: nat): seq<nat> { taken + [k] }

  lemma OneMoreTake(c0: seq<Call>, c1: seq<Call>, c2: seq<Call>, taken: seq<nat>, k: nat, room: nat)
    requires Made(c0, c1, Takes(taken, room)) && Made(c1, c2, [Take(k, room)])
    ensures Made(c0, c2, Takes(AndOne(taken, k), room))
  {
    MadeThen(c0, c1, c2, Takes(taken, room), [Take(k, room)]);
    TakesAppend(taken, [k], room);
    OneTake(k, room);
  }

  // ---- where the chunk loops stand ----

  /** Everything the sender's loop keeps at `offset`: the data before it is out, and the calls made are those of its chunks. */
  predicate Sending(data: seq<Byte>, b: nat, offset: nat, sent: seq<seq<Byte>>, out0: seq<Byte>, outbound: seq<Byte>, c0: seq<Call>, calls: seq<Call>) {
    && AtChunk(|data|, b, offset) && outbound == out0 + data[..offset]
    && sent + SplitFrom(data, offset, b) == Split(data, b)
    && Made(c0, calls, Puts(sent))
  }

  lemma NothingOut(data: seq<Byte>, b: nat, offset: nat, sent: seq<seq<Byte>>, out0: seq<Byte>, c0: seq<Call>)
    requires 0 < b && offset == 0 && sent == []
    ensures Sending(data, b, offset, sent, out0, out0, c0, c0)
  {
    assert Made(c0, c0, []);
    assert out0 + data[..0] == out0 && [] + Split(data, b) == Split(data, b);
  }

  lemma ChunkIsLeft(data: seq<Byte>, n: SizeT, b: SizeT, offset: SizeT, sent: seq<seq<Byte>>, out0: seq<Byte>, outbound: seq<Byte>, c0: seq<Call>, calls: seq<Call>)
    requires Sending(data, b, offset, sent, out0, outbound, c0, calls) && n == |data| && offset < n - n % b
    ensures offset + b <= n && Add64(offset, b) == offset + b
  {
    ChunkGuard(n, b, offset, Add64(offset, b));
  }

  lemma SentOneMore(data: seq<Byte>, n: SizeT, b: SizeT, offset: SizeT, next: SizeT, sent: seq<seq<Byte>>, out0: seq<Byte>, outbound: seq<Byte>, c0: seq<Call>,
                    calls: seq<Call>, calls': seq<Call>)
    requires Sending(data, b, offset, sent, out0, outbound, c0, calls) && n == |data| && offset < n - n % b
    requires next == Add64(offset, b) == offset + b <= n
    requires Made(calls, calls', [Put(data[offset..next])])
    ensures Sending(data, b, next, sent + [data[offset..next]], out0, outbound + data[offset..next], c0, calls')
  {
    var m := data[offset..next];
    ChunkGuard(n, b, offset, next);
    OneMorePut(c0, calls, calls', sent, m);
    assert data[..next] == data[..offset] + m;
    Assoc(out0, data[..offset], m);
    Assoc(sent, [m], SplitFrom(data, next, b));
  }

  lemma RestIsLeft(data: seq<Byte>, n: SizeT, b: SizeT, offset: SizeT, sent: seq<seq<Byte>>, out0: seq<Byte>, outbound: seq<Byte>, c0: seq<Call>, calls: seq<Call>)
    requires Sending(data, b, offset, sent, out0, outbound, c0, calls) && n == |data| && offset >= n - n % b
    ensures offset == n - n % b && n - offset < b
  {
    ChunkGuard(n, b, offset, Add64(offset, b));
  }

  lemma WholeOut(out0: seq<Byte>, data: seq<Byte>, offset: nat)
    requires offset <= |data|
    ensures out0 + data[..offset] + data[offset..] == out0 + data
  {
    assert data[..offset] + data[offset..] == data;
    Assoc(out0, data[..offset], data[offset..]);
  }

  lemma SentRemainder(data: seq<Byte>, b: nat, offset: nat, sent: seq<seq<Byte>>, out0: seq<Byte>, outbound: seq<Byte>, c0: seq<Call>, calls: seq<Call>, calls': seq<Call>)
    requires Sending(data, b, offset, sent, out0, outbound, c0, calls) && |data| - offset < b
    requires Made(calls, calls', [Put(data[offset..|data|])])
    ensures outbound + data[offset..|data|] == out0 + data && Made(c0, calls', Puts(Split(data, b)))
  {
    assert data[offset..|data|] == data[offset..];
    OneMorePut(c0, calls, calls', sent, data[offset..]);
    WholeOut(out0, data, offset);
  }

  /** The receiver's loop at `offset`: its data holds the stream so far, and the calls made are those of the chunks before. */
  predicate TakenUpTo(n: nat, b: nat, offset: nat, taken: seq<nat>, calls: seq<Call>, c0: seq<Call>) {
    && 0 < b && offset <= n
    && taken + SpanLens(Spans(offset, n, b)) == SpanLens(Spans(0, n, b))
    && Made(c0, calls, Takes(taken, b))
  }

  lemma LensStep(off: nat, n: nat, b: nat)
    requires 0 < b <= n - off && off <= n
    ensures SpanLens(Spans(off, n, b)) == [b] + SpanLens(Spans(off + b, n, b))
  {
    assert Spans(off, n, b)[1..] == Spans(off + b, n, b);
  }

  lemma LensMoved(n: nat, b: nat, offset: nat, next: nat, taken: seq<nat>)
    requires 0 < b && next == offset + b <= n
    ensures AndOne(taken, b) + SpanLens(Spans(next, n, b)) == taken + SpanLens(Spans(offset, n, b))
  {
    LensStep(offset, n, b);
    Assoc(taken, [b], SpanLens(Spans(next, n, b)));
  }

  lemma TookOneMore(n: nat, b: nat, offset: nat, next: nat, taken: seq<nat>, calls: seq<Call>, c0: seq<Call>, calls': seq<Call>)
    requires TakenUpTo(n, b, offset, taken, calls, c0) && Made(calls, calls', [Take(b, b)]) && next == offset + b <= n
    ensures TakenUpTo(n, b, next, AndOne(taken, b), calls', c0)
  {
    OneMoreTake(c0, calls, calls', taken, b, b);
    LensMoved(n, b, offset, next, taken);
  }

  lemma TookRemainder(n: nat, b: nat, offset: nat, taken: seq<nat>, calls: seq<Call>, c0: seq<Call>, calls': seq<Call>)
    requires TakenUpTo(n, b, offset, taken, calls, c0) && n - offset < b && Made(calls, calls', [Take(n - offset, b)])
    ensures Made(c0, calls', Takes(SpanLens(Spans(0, n, b)), b))
  {
    OneMoreTake(c0, calls, calls', taken, n - offset, b);
    assert SpanLens(Spans(offset, n, b)) == [n - offset];
  }

  /** Everything the receiver's loop keeps: its data, the rest of the stream, and the calls made. */
  predicate Receiving(n: nat, b: nat, offset: nat, stream: seq<Byte>, held: seq<Byte>, taken: seq<nat>, c0: seq<Call>,
                      data: seq<Byte>, inbound: seq<Byte>, calls: seq<Call>) {
    && AtChunk(n, b, offset) && n <= |stream| && n == |data| && inbound == stream[offset..]
    && Stored(data, stream, held, offset)
    && TakenUpTo(n, b, offset, taken, calls, c0)
  }

  lemma DropDrop(stream: seq<Byte>, offset: nat, k: nat, next: nat)
    requires next == offset + k <= |stream|
    ensures stream[offset..][k..] == stream[next..]
    ensures stream[offset..][..k] == stream[offset..next]
  {
  }

  /** The bytes of `piece` stand at `at`, everything else is as before. */
  predicate Pasted(before: seq<Byte>, at: nat, piece: seq<Byte>, after: seq<Byte>) {
    && at + |piece| <= |before| == |after|
    && forall i :: 0 <= i < |after| ==> after[i] == if at <= i < at + |piece| then piece[i - at] else before[i]
  }

  lemma WholePaste(before: seq<Byte>, piece: seq<Byte>, after: seq<Byte>)
    requires Pasted(before, 0, piece, after) && |piece| == |before|
    ensures after == piece
  {
  }

  lemma ChunkIsThere(n: SizeT, b: SizeT, offset: SizeT, stream: seq<Byte>, held: seq<Byte>, taken: seq<nat>, c0: seq<Call>,
                     data: seq<Byte>, inbound: seq<Byte>, calls: seq<Call>)
    requires Receiving(n, b, offset, stream, held, taken, c0, data, inbound, calls) && offset < n - n % b
    ensures offset + b <= n && b <= |inbound| && Add64(offset, b) == offset + b
  {
    ChunkGuard(n, b, offset, Add64(offset, b));
  }

  lemma ReceivedOneMore(n: SizeT, b: SizeT, offset: SizeT, next: SizeT, stream: seq<Byte>, held: seq<Byte>, taken: seq<nat>, c0: seq<Call>,
                        data: seq<Byte>, inbound: seq<Byte>, calls: seq<Call>, data': seq<Byte>, calls': seq<Call>)
    requires Receiving(n, b, offset, stream, held, taken, c0, data, inbound, calls)
    requires offset < n - n % b && next == Add64(offset, b) == offset + b <= n && b <= |inbound|
    requires Pasted(data, offset, inbound[..b], data')
    requires Made(calls, calls', [Take(b, b)])
    ensures Receiving(n, b, next, stream, held, AndOne(taken, b), c0, data', inbound[b..], calls')
  {
    ChunkGuard(n, b, offset, next);
    StoredMore(data, data', stream, held, offset, b, next);
    TookOneMore(n, b, offset, next, taken, calls, c0, calls');
    DropDrop(stream, offset, b, next);
  }

  lemma RemainderIsThere(n: SizeT, b: SizeT, offset: SizeT, stream: seq<Byte>, held: seq<Byte>, taken: seq<nat>, c0: seq<Call>,
                         data: seq<Byte>, inbound: seq<Byte>, calls: seq<Call>)
    requires Receiving(n, b, offset, stream, held, taken, c0, data, inbound, calls) && offset >= n - n % b
    ensures offset == n - n % b && n % b < b && n % b <= |inbound|
  {
    ChunkGuard(n, b, offset, Add64(offset, b));
  }

  lemma ReceivedRemainder(n: nat, b: nat, offset: nat, stream: seq<Byte>, held: seq<Byte>, taken: seq<nat>, c0: seq<Call>,
                          data: seq<Byte>, inbound: seq<Byte>, calls: seq<Call>, data': seq<Byte>, calls': seq<Call>)
    requires Receiving(n, b, offset, stream, held, taken, c0, data, inbound, calls)
    requires n - offset < b && n - offset <= |inbound|
    requires Pasted(data, offset, inbound[..n - offset], data')
    requires Made(calls, calls', [Take(n - offset, b)])
    ensures data' == stream[..n] && inbound[n - offset..] == stream[n..]
    ensures Made(c0, calls', Takes(SpanLens(Spans(0, n, b)), b))
  {
    StoredMore(data, data', stream, held, offset, n - offset, n);
    StoredIs(data', stream, held, n);
    TookRemainder(n, b, offset, taken, calls, c0, calls');
    DropDrop(stream, offset, n - offset, n);
  }

  lemma NothingReceived(n: nat, b: nat, offset: nat, stream: seq<Byte>, held: seq<Byte>, taken: seq<nat>, c0: seq<Call>)
    requires 0 < b && offset == 0 && taken == [] && |held| == n <= |stream|
    ensures Receiving(n, b, offset, stream, held, taken, c0, held, stream, c0)
  {
    assert Made(c0, c0, []);
  }

  // ---- one more round ----

  lemma OneMoreSent(c0: seq<Call>, c1: seq<Call>, c2: seq<Call>, done: seq<Round>, round: Round)
    requires Made(c0, c1, ClientRounds(done)) && Made(c1, c2, ClientRound(round))
    ensures Made(c0, c2, ClientRounds(done + [round]))
  {
    MadeThen(c0, c1, c2, ClientRounds(done), ClientRound(round));
    ClientRoundsAppend(done, [round]);
    assert [round][1..] == [] && ClientRound(round) + [] == ClientRound(round);
    assert ClientRounds([round]) == ClientRound(round);
  }

  lemma OneMoreServed(c0: seq<Call>, c1: seq<Call>, c2: seq<Call>, done: seq<Awaited>, round: Awaited)
    requires Made(c0, c1, ServerRounds(done)) && Made(c1, c2, ServerRound(round))
    ensures Made(c0, c2, ServerRounds(done + [round]))
  {
    MadeThen(c0, c1, c2, ServerRounds(done), ServerRound(round));
    ServerRoundsAppend(done, [round]);
    assert [round][1..] == [] && ServerRound(round) + [] == ServerRound(round);
    assert ServerRounds([round]) == ServerRound(round);
  }

  lemma JoinOneMoreRound(rounds: seq<Round>, r: nat)
    requires r < |rounds|
    ensures Join(Flat(rounds[..r + 1])) == Join(Flat(rounds[..r])) + Join(rounds[r].msgs)
  {
    var one := [rounds[r]];
    assert rounds[..r + 1] == rounds[..r] + one;
    FlatAppend(rounds[..r], one);
    assert one[1..] == [] && rounds[r].msgs + [] == rounds[r].msgs;
    assert Flat(one) == rounds[r].msgs;
    JoinAppend(Flat(rounds[..r]), rounds[r].msgs);
  }

  /** Sizes whose messages move in counts an int can hold. */
  ghost predicate Countable(socket: Socket, sizes: seq<nat>) {
    forall r :: 0 <= r < |sizes| ==> socket.Countable(sizes[r])
  }

  /** What the client's vector holds when round r begins; `last` is the refill behind the last round. */
  function Fill(e: TcpBench, last: seq<Byte>, r: nat): seq<Byte> {
    if r < |e.datas| then e.datas[r] else last
  }

  /** Bytes the server reads in a run, and acknowledgements the client does. */
  function Total(rounds: seq<Awaited>): nat {
    if rounds == [] then 0 else Sum(rounds[0].lens) + Total(rounds[1..])
  }

  function Sum(lens: seq<nat>): nat {
    if lens == [] then 0 else lens[0] + Sum(lens[1..])
  }

  lemma {:induction false} TotalAppend(a: seq<Awaited>, b: seq<Awaited>)
    ensures Total(a + b) == Total(a) + Total(b)
  {
    if a == [] {
      assert a + b == b;
    } else {
      assert (a + b)[1..] == a[1..] + b;
      TotalAppend(a[1..], b);
    }
  }

  lemma {:induction false} SumOfSpans(off: nat, n: nat, b: nat)
    requires 0 < b && off <= n
    ensures Sum(SpanLens(Spans(off, n, b))) == n - off
    decreases n - off
  {
    if n - off < b {
      assert SpanLens([Span(off, n - off)]) == [n - off];
      assert Sum([n - off]) == n - off + Sum([]);
    } else {
      SumOfSpans(off + b, n, b);
      assert SpanLens(Spans(off, n, b))[1..] == SpanLens(Spans(off + b, n, b));
    }
  }

  /** The client's latency loop after i messages: they are out, and the calls made are theirs. */
  predicate MessagesSent(all: seq<seq<Byte>>, i: nat, out0: seq<Byte>, outbound: seq<Byte>, c0: seq<Call>, calls: seq<Call>) {
    i <= |all| && outbound == out0 + Join(all[..i]) && Made(c0, calls, Puts(all[..i]))
  }

  lemma NothingSent(all: seq<seq<Byte>>, out0: seq<Byte>, c0: seq<Call>)
    ensures MessagesSent(all, 0, out0, out0, c0, c0)
  {
    assert all[..0] == [] && out0 + [] == out0;
  }

  lemma OneMoreMessage(all: seq<seq<Byte>>, i: nat, out0: seq<Byte>, outbound: seq<Byte>, c0: seq<Call>, calls: seq<Call>, calls': seq<Call>)
    requires MessagesSent(all, i, out0, outbound, c0, calls) && i < |all|
    requires Made(calls, calls', [Put(all[i])])
    ensures MessagesSent(all, i + 1, out0, outbound + all[i], c0, calls')
  {
    OneMorePut(c0, calls, calls', all[..i], all[i]);
    TakeOneMore(all, i);
    JoinAppend(all[..i], [all[i]]);
    JoinOfOne(all[i]);
    Assoc(out0, Join(all[..i]), all[i]);
  }

  lemma JoinOfOne(m: seq<Byte>)
    ensures Join([m]) == m
  {
    assert [m][1..] == [];
  }

  /** One of the first q sizes is zero. */
  predicate SomeEmpty(sizes: seq<nat>, q: nat)
    requires q <= |sizes|
  {
    exists k :: 0 <= k < q && sizes[k] == 0
  }

  lemma OneMoreEmpty(sizes: seq<nat>, q: nat)
    requires q < |sizes|
    ensures SomeEmpty(sizes, q + 1) <==> SomeEmpty(sizes, q) || sizes[q] == 0
  {
    if sizes[q] == 0 {
      assert 0 <= q < q + 1;
    }
  }

  /** The client's rounds so far: their messages are out, their acknowledgements in, and the calls made are theirs. */
  predicate RoundsDone(rounds: seq<Round>, r: nat, out0: seq<Byte>, outbound: seq<Byte>, in0: seq<Byte>, inbound: seq<Byte>,
                       c0: seq<Call>, calls: seq<Call>) {
    && r <= |rounds| && r <= |in0| && inbound == in0[r..]
    && outbound == out0 + Join(Flat(rounds[..r]))
    && Made(c0, calls, ClientRounds(rounds[..r]))
  }

  lemma NoRoundDone(rounds: seq<Round>, r: nat, out0: seq<Byte>, in0: seq<Byte>, c0: seq<Call>)
    requires r == 0
    ensures RoundsDone(rounds, r, out0, out0, in0, in0, c0, c0)
  {
    assert rounds[..0] == [] && out0 + [] == out0 && in0[0..] == in0;
  }

  lemma OneMoreRound(rounds: seq<Round>, r: nat, out0: seq<Byte>, outbound: seq<Byte>, in0: seq<Byte>, inbound: seq<Byte>,
                     c0: seq<Call>, calls: seq<Call>, calls': seq<Call>)
    requires RoundsDone(rounds, r, out0, outbound, in0, inbound, c0, calls) && r < |rounds| && r < |in0|
    requires Made(calls, calls', ClientRound(rounds[r]))
    ensures RoundsDone(rounds, r + 1, out0, outbound + Join(rounds[r].msgs), in0, inbound[1..], c0, calls')
  {
    OneMoreSent(c0, calls, calls', rounds[..r], rounds[r]);
    TakeOneMore(rounds, r);
    JoinOneMoreRound(rounds, r);
    Assoc(out0, Join(Flat(rounds[..r])), Join(rounds[r].msgs));
  }

  lemma AllRoundsDone(rounds: seq<Round>, r: nat, out0: seq<Byte>, outbound: seq<Byte>, in0: seq<Byte>, inbound: seq<Byte>,
                      c0: seq<Call>, calls: seq<Call>)
    requires RoundsDone(rounds, r, out0, outbound, in0, inbound, c0, calls) && r == |rounds|
    ensures outbound == out0 + Join(Flat(rounds)) && inbound == in0[r..] && Made(c0, calls, ClientRounds(rounds))
  {
    assert rounds[..r] == rounds;
  }

  /** One phase's rounds and then another's. */
  lemma TwoPhases(a: seq<Round>, b: seq<Round>, out0: seq<Byte>, c0: seq<Call>, c1: seq<Call>, c2: seq<Call>)
    requires Made(c0, c1, ClientRounds(a)) && Made(c1, c2, ClientRounds(b))
    ensures Made(c0, c2, ClientRounds(a + b))
    ensures out0 + Join(Flat(a)) + Join(Flat(b)) == out0 + Join(Flat(a + b))
  {
    MadeThen(c0, c1, c2, ClientRounds(a), ClientRounds(b));
    ClientRoundsAppend(a, b);
    FlatAppend(a, b);
    JoinAppend(Flat(a), Flat(b));
    Assoc(out0, Join(Flat(a)), Join(Flat(b)));
  }

  class TcpClient {
    const socket: Socket

    constructor (socket: Socket)
      ensures this.socket == socket
    {
      this.socket := socket;
    }

    /** A send of `len` bytes of the data from `at` on. */
    method SendPart(copy: array<Byte>, at: nat, len: SizeT)
      requires at + len <= copy.Length && socket.Countable(len)
      modifies socket
      ensures socket.outbound == old(socket.outbound) + copy[..][at..at + len] && socket.inbound == old(socket.inbound)
      ensures Made(old(socket.calls), socket.calls, [Put(copy[..][at..at + len])])
    {
      SendTcpMessage(socket, copy[at..], len);
      assert copy[at..][..len] == copy[..][at..at + len];
    }

    /** The chunk loop of `throughput_test` and the send of the remainder behind it. */
    method SendChunks(b: SizeT, copy: array<Byte>)
      requires 0 < b && socket.Countable(b) && copy.Length < TWO_64
      modifies socket
      ensures socket.outbound == old(socket.outbound) + copy[..] && socket.inbound == old(socket.inbound)
      ensures Made(old(socket.calls), socket.calls, Puts(Split(copy[..], b)))
    {
      var n: SizeT := copy.Length;
      var lastIndex: SizeT := n - n % b;
      var offset: SizeT := 0;
      ghost var data, c0, out0 := copy[..], socket.calls, socket.outbound;
      ghost var sent: seq<seq<Byte>> := [];
      NothingOut(data, b, offset, sent, out0, c0);
      while offset < lastIndex
        invariant socket.inbound == old(socket.inbound)
        invariant Sending(data, b, offset, sent, out0, socket.outbound, c0, socket.calls)
        decreases lastIndex - offset
      {
        ghost var calls, outbound, next := socket.calls, socket.outbound, Add64(offset, b);
        ChunkIsLeft(data, n, b, offset, sent, out0, outbound, c0, calls);
        SendPart(copy, offset, b);
        SentOneMore(data, n, b, offset, next, sent, out0, outbound, c0, calls, socket.calls);
        sent := sent + [data[offset..next]];
        offset := Add64(offset, b);
      }
      ghost var calls, outbound := socket.calls, socket.outbound;
      RestIsLeft(data, n, b, offset, sent, out0, outbound, c0, calls);
      SendPart(copy, lastIndex, n % b);
      SentRemainder(data, b, offset, sent, out0, outbound, c0, calls, socket.calls);
    }

    /**
     `throughput_test`: sends the data chunk by chunk and waits for the acknowledgement. The data
     is passed by value, so the acknowledgement, stored over its first byte, spoils only the copy;
     an empty copy has no first byte.
     */
    method ThroughputTest(b: SizeT, data: seq<Byte>) returns (overrun: bool)
      requires 0 < b && socket.Countable(b) && |data| < TWO_64 && |socket.inbound| >= 1
      modifies socket
      ensures overrun <==> data == []
      ensures socket.outbound == old(socket.outbound) + data
      ensures socket.inbound == old(socket.inbound)[1..]
      ensures Made(old(socket.calls), socket.calls, Puts(Split(data, b)) + [Take(1, |data|)])
    {
      var copy := new Byte[|data|](i requires 0 <= i < |data| => data[i]);
      assert copy[..] == data;
      SendChunks(b, copy);
      ghost var sent := socket.calls;
      overrun := ReceiveMessage(socket, 1, copy);
      MadeThen(old(socket.calls), sent, socket.calls, Puts(Split(data, b)), [Take(1, |data|)]);
    }

    /** `latency_test`: streams `loops` messages from the buffers in turn, with one acknowledgement at the end. */
    method LatencyTest(b: SizeT, loops: nat, contents: seq<seq<Byte>>) returns (overrun: bool)
      requires socket.Countable(b) && loops < TWO_31
      requires |contents| == NUM_BUFFERS && forall i :: 0 <= i < NUM_BUFFERS ==> |contents[i]| == b
      requires |socket.inbound| >= 1
      modifies socket
      ensures socket.outbound == old(socket.outbound) + Join(LatencyMsgs(contents, loops))
      ensures socket.inbound == old(socket.inbound)[1..]
      ensures overrun <==> b == 0
      ensures Made(old(socket.calls), socket.calls, Puts(LatencyMsgs(contents, loops)) + [Take(1, b)])
    {
      var buffers := new seq<Byte>[NUM_BUFFERS](i requires 0 <= i < NUM_BUFFERS => contents[i]);
      ghost var c0, out0, all := socket.calls, socket.outbound, LatencyMsgs(contents, loops);
      NothingSent(all, out0, c0);
      var i := 0;
      while i < loops
        invariant i <= loops && buffers[..] == contents && socket.inbound == old(socket.inbound)
        invariant MessagesSent(all, i, out0, socket.outbound, c0, socket.calls)
        decreases loops - i
      {
        ghost var calls, outbound := socket.calls, socket.outbound;
        var buffer := buffers[i % NUM_BUFFERS];
        SendTcpMessage(socket, buffer, b);
        assert buffer[..b] == buffer == all[i];
        OneMoreMessage(all, i, out0, outbound, c0, calls, socket.calls);
        i := i + 1;
      }
      assert all[..i] == all;
      ghost var c2 := socket.calls;
      var first := new Byte[b](j requires 0 <= j < b => contents[0][j]);
      overrun := ReceiveMessage(socket, 1, first);
      MadeThen(c0, c2, socket.calls, Puts(all), [Take(1, b)]);
    }

    /** `run_throughput_tests`: every round sends what the vector then holds, and refills it in place. */
    method RunThroughputTests(e: TcpBench, last: seq<Byte>) returns (overrun: bool)
      requires e.Valid() && Countable(socket, e.sizes) && e.n < TWO_64 && |last| == e.n
      requires |socket.inbound| >= |e.sizes|
      modifies socket
      ensures overrun <==> e.sizes != [] && e.n == 0
      ensures socket.outbound == old(socket.outbound) + Join(Flat(e.ThroughputRounds()))
      ensures socket.inbound == old(socket.inbound)[|e.sizes|..]
      ensures Made(old(socket.calls), socket.calls, ClientRounds(e.ThroughputRounds()))
    {
      var data := new Byte[e.n];
      DevRandomData(data, Fill(e, last, 0));
      ghost var rounds, c0, in0, out0 := e.ThroughputRounds(), socket.calls, socket.inbound, socket.outbound;
      NoRoundDone(rounds, 0, out0, in0, c0);
      overrun := false;
      for r := 0 to |e.sizes|
        invariant data.Length == e.n && data[..] == Fill(e, last, r)
        invariant overrun <==> r > 0 && e.n == 0
        invariant RoundsDone(rounds, r, out0, socket.outbound, in0, socket.inbound, c0, socket.calls)
      {
        ghost var calls, outbound, inbound := socket.calls, socket.outbound, socket.inbound;
        var out := ThroughputTest(e.sizes[r], data[..]);
        overrun := overrun || out;
        SplitJoin(e.datas[r], e.sizes[r]);
        OneMoreRound(rounds, r, out0, outbound, in0, inbound, c0, calls, socket.calls);
        DevRandomData(data, Fill(e, last, r + 1));
      }
      AllRoundsDone(rounds, |e.sizes|, out0, socket.outbound, in0, socket.inbound, c0, socket.calls);
    }

    method RunLatencyTests(e: TcpBench) returns (overrun: bool)
      requires e.Valid() && Countable(socket, e.latSizes) && e.loops < TWO_31
      requires |socket.inbound| >= |e.latSizes|
      modifies socket
      ensures overrun <==> SomeEmpty(e.latSizes, |e.latSizes|)
      ensures socket.outbound == old(socket.outbound) + Join(Flat(e.LatencyRounds()))
      ensures socket.inbound == old(socket.inbound)[|e.latSizes|..]
      ensures Made(old(socket.calls), socket.calls, ClientRounds(e.LatencyRounds()))
    {
      ghost var rounds, c0, in0, out0 := e.LatencyRounds(), socket.calls, socket.inbound, socket.outbound;
      NoRoundDone(rounds, 0, out0, in0, c0);
      overrun := false;
      for q := 0 to |e.latSizes|
        invariant overrun <==> SomeEmpty(e.latSizes, q)
        invariant RoundsDone(rounds, q, out0, socket.outbound, in0, socket.inbound, c0, socket.calls)
      {
        ghost var calls, outbound, inbound := socket.calls, socket.outbound, socket.inbound;
        var out := LatencyTest(e.latSizes[q], e.loops, e.buffers[q]);
        OneMoreEmpty(e.latSizes, q);
        overrun := overrun || out;
        OneMoreRound(rounds, q, out0, outbound, in0, inbound, c0, calls, socket.calls);
      }
      AllRoundsDone(rounds, |e.latSizes|, out0, socket.outbound, in0, socket.inbound, c0, socket.calls);
    }

    /** The client's half of main: the phases of the metric, over the one socket. */
    method Run(metric: Metric, e: TcpBench, last: seq<Byte>) returns (overrun: bool)
      requires e.Valid() && Countable(socket, e.sizes) && Countable(socket, e.latSizes) && e.loops < TWO_31
      requires e.n < TWO_64 && |last| == e.n
      requires |socket.inbound| >= |e.Rounds(metric)|
      modifies socket
      ensures overrun <==> !e.AcksFit(metric)
      ensures socket.outbound == old(socket.outbound) + Join(Flat(e.Rounds(metric)))
      ensures Made(old(socket.calls), socket.calls, ClientRounds(e.Rounds(metric)))
    {
      match metric
      case Throughput =>
        overrun := RunThroughputTests(e, last);
      case Latency =>
        overrun := RunLatencyTests(e);
      case All =>
        overrun := RunThroughputTests(e, last);
        ghost var between := socket.calls;
        var out := RunLatencyTests(e);
        overrun := overrun || out;
        TwoPhases(e.ThroughputRounds(), e.LatencyRounds(), old(socket.outbound), old(socket.calls), between, socket.calls);
    }
  }

  /** Everything the latency loop keeps after i messages: what it stored, that the rest is on its way, and the calls made. */
  predicate InLatency(b: nat, loops: nat, i: nat, start: seq<Byte>, got: seq<seq<Byte>>, inbound: seq<Byte>, c0: seq<Call>, calls: seq<Call>) {
    && i <= loops && |got| == i
    && TookMessages(start, got, inbound, b)
    && Sum(Same(b, loops - i)) <= |inbound|
    && Made(c0, calls, Takes(Same(b, i), b))
  }

  lemma SameStep(b: nat, k: nat)
    ensures Same(b, k + 1) == Same(b, k) + [b]
    ensures Sum(Same(b, k + 1)) == b + Sum(Same(b, k))
  {
    assert Same(b, k + 1)[1..] == Same(b, k);
  }

  lemma MessageIsThere(b: nat, loops: nat, i: nat, start: seq<Byte>, got: seq<seq<Byte>>, inbound: seq<Byte>, c0: seq<Call>, calls: seq<Call>)
    requires InLatency(b, loops, i, start, got, inbound, c0, calls) && i < loops
    ensures b <= |inbound|
  {
    SameStep(b, loops - i - 1);
  }

  lemma ReceivedMessage(b: nat, loops: nat, i: nat, start: seq<Byte>, got: seq<seq<Byte>>, inbound: seq<Byte>, c0: seq<Call>, calls: seq<Call>, message: seq<Byte>, calls': seq<Call>)
    requires InLatency(b, loops, i, start, got, inbound, c0, calls) && i < loops && b <= |inbound|
    requires message == inbound[..b] && Made(calls, calls', [Take(b, b)])
    ensures InLatency(b, loops, i + 1, start, got + [message], inbound[b..], c0, calls')
  {
    SameStep(b, loops - i - 1);
    TookMessage(start, got, inbound, b);
    OneMoreTake(c0, calls, calls', Same(b, i), b, b);
    SameStep(b, i);
  }

  class TcpServer {
    const socket: Socket

    constructor (socket: Socket)
      ensures this.socket == socket
    {
      this.socket := socket;
    }

    /** The chunk loop of `throughput_test` and the remainder behind it: the stream, rebuilt through one reused chunk buffer. */
    method ReceiveChunks(b: SizeT, data: array<Byte>)
      requires 0 < b && socket.Countable(b) && data.Length < TWO_64 && data.Length <= |socket.inbound|
      modifies socket, data
      ensures data[..] == old(socket.inbound)[..data.Length]
      ensures socket.inbound == old(socket.inbound)[data.Length..] && socket.outbound == old(socket.outbound)
      ensures Made(old(socket.calls), socket.calls, Takes(SpanLens(Spans(0, data.Length, b)), b))
    {
      var n: SizeT := data.Length;
      var lastIndex: SizeT := n - n % b;
      var littleBuffer := new Byte[b];
      var offset: SizeT := 0;
      ghost var c0, stream, held := socket.calls, socket.inbound, data[..];
      ghost var taken: seq<nat> := [];
      NothingReceived(n, b, offset, stream, held, taken, c0);
      while offset < lastIndex
        invariant Receiving(n, b, offset, stream, held, taken, c0, data[..], socket.inbound, socket.calls)
        invariant socket.outbound == old(socket.outbound)
        decreases lastIndex - offset
      {
        ghost var calls, before, inbound := socket.calls, data[..], socket.inbound;
        ChunkIsThere(n, b, offset, stream, held, taken, c0, before, inbound, calls);
        ReceiveChunk(b, b, littleBuffer, data, offset);
        ReceivedOneMore(n, b, offset, Add64(offset, b), stream, held, taken, c0, before, inbound, calls, data[..], socket.calls);
        taken := AndOne(taken, b);
        offset := Add64(offset, b);
      }
      ghost var calls, before, inbound := socket.calls, data[..], socket.inbound;
      RemainderIsThere(n, b, offset, stream, held, taken, c0, before, inbound, calls);
      ReceiveChunk(b, n % b, littleBuffer, data, lastIndex);
      ReceivedRemainder(n, b, offset, stream, held, taken, c0, before, inbound, calls, data[..], socket.calls);
    }

    /** `throughput_test`: rebuilds the data and acknowledges it. */
    method ThroughputTest(b: SizeT, n: SizeT) returns (data: array<Byte>)
      requires 0 < b && socket.Countable(b) && n <= |socket.inbound|
      modifies socket
      ensures data[..] == old(socket.inbound)[..n]
      ensures socket.inbound == old(socket.inbound)[n..]
      ensures socket.outbound == old(socket.outbound) + ACK
      ensures Made(old(socket.calls), socket.calls, Takes(SpanLens(Spans(0, n, b)), b) + [Put(ACK)])
    {
      data := new Byte[n];
      ReceiveChunks(b, data);
      ghost var taken := socket.calls;
      SendTcpMessage(socket, ACK, 1);
      assert ACK[..1] == ACK;
      MadeThen(old(socket.calls), taken, socket.calls, Takes(SpanLens(Spans(0, n, b)), b), [Put(ACK)]);
    }

    /** One iteration: a message into the chunk buffer, and the chunk buffer's first `len` bytes into the data. */
    method ReceiveChunk(b: nat, len: SizeT, littleBuffer: array<Byte>, data: array<Byte>, at: nat)
      requires littleBuffer != data && littleBuffer.Length == b && len <= b && at + len <= data.Length
      requires socket.Countable(len) && len <= |socket.inbound|
      modifies socket, littleBuffer, data
      ensures Pasted(old(data[..]), at, old(socket.inbound)[..len], data[..])
      ensures socket.inbound == old(socket.inbound)[len..] && socket.outbound == old(socket.outbound)
      ensures Made(old(socket.calls), socket.calls, [Take(len, b)])
    {
      var overrun := ReceiveMessage(socket, len, littleBuffer);
      StoredIs(littleBuffer[..], old(socket.inbound), old(littleBuffer[..]), len);
      Copy(littleBuffer, littleBuffer.Length - (littleBuffer.Length - len), data, at);
    }

    /** `latency_test`: receives `loops` messages through the same buffer; `got` names what each receive stored. */
    method LatencyTest(b: SizeT, loops: nat) returns (ghost got: seq<seq<Byte>>)
      requires socket.Countable(b) && loops < TWO_31 && Sum(Same(b, loops)) <= |socket.inbound|
      modifies socket
      ensures |got| == loops && TookMessages(old(socket.inbound), got, socket.inbound, b)
      ensures socket.outbound == old(socket.outbound) + ACK
      ensures Made(old(socket.calls), socket.calls, Takes(Same(b, loops), b) + [Put(ACK)])
    {
      var data := new Byte[b];
      var littleBuffer := new Byte[b];
      ghost var c0, start := socket.calls, socket.inbound;
      got := [];
      var i := 0;
      assert Made(c0, c0, []) && Takes(Same(b, 0), b) == [];
      while i < loops
        invariant i <= loops && socket.outbound == old(socket.outbound)
        invariant InLatency(b, loops, i, start, got, socket.inbound, c0, socket.calls)
        decreases loops - i
      {
        ghost var calls, inbound := socket.calls, socket.inbound;
        MessageIsThere(b, loops, i, start, got, inbound, c0, calls);
        ghost var before := data[..];
        ReceiveChunk(b, b, littleBuffer, data, 0);
        WholePaste(before, inbound[..b], data[..]);
        ReceivedMessage(b, loops, i, start, got, inbound, c0, calls, data[..], socket.calls);
        got := got + [data[..]];
        i := i + 1;
      }
      ghost var c2 := socket.calls;
      SendTcpMessage(socket, ACK, 1);
      assert ACK[..1] == ACK;
      MadeThen(c0, c2, socket.calls, Takes(Same(b, loops), b), [Put(ACK)]);
    }

    /** `run_throughput_tests`: `received` names what each round rebuilt. */
    method RunThroughputTests(e: TcpBench) returns (ghost received: seq<seq<Byte>>)
      requires e.Valid() && Countable(socket, e.sizes) && e.n < TWO_64 && Total(e.ServerThroughput()) <= |socket.inbound|
      modifies socket
      ensures |received| == |e.sizes| && TookMessages(old(socket.inbound), received, socket.inbound, e.n)
      ensures |socket.inbound| == |old(socket.inbound)| - Total(e.ServerThroughput())
      ensures socket.outbound == old(socket.outbound) + Acks(|e.sizes|)
      ensures Made(old(socket.calls), socket.calls, ServerRounds(e.ServerThroughput()))
    {
      ghost var rounds, c0, in0, out0 := e.ServerThroughput(), socket.calls, socket.inbound, socket.outbound;
      received := [];
      for r := 0 to |e.sizes|
        invariant |received| == r && TookMessages(in0, received, socket.inbound, e.n)
        invariant |socket.inbound| == |in0| - Total(rounds[..r])
        invariant socket.outbound == out0 + Acks(r)
        invariant Made(c0, socket.calls, ServerRounds(rounds[..r]))
      {
        ghost var calls, stream := socket.calls, socket.inbound;
        SumOfSpans(0, e.n, e.sizes[r]);
        TotalOneMore(rounds, r);
        TookMessage(in0, received, stream, e.n);
        var data := ThroughputTest(e.sizes[r], e.n);
        received := received + [data[..]];
        OneMoreAck(out0, r);
        OneMoreServed(c0, calls, socket.calls, rounds[..r], rounds[r]);
        TakeOneMore(rounds, r);
      }
      assert rounds[..|e.sizes|] == rounds;
    }

    /** `run_latency_tests`: `got` names the messages of each round. */
    method RunLatencyTests(e: TcpBench) returns (ghost got: seq<seq<seq<Byte>>>)
      requires e.Valid() && Countable(socket, e.latSizes) && e.loops < TWO_31 && Total(e.ServerLatency()) <= |socket.inbound|
      modifies socket
      ensures |got| == |e.latSizes| && RoundShapes(e, got) && old(socket.inbound) == JoinAll(got) + socket.inbound
      ensures socket.outbound == old(socket.outbound) + Acks(|e.latSizes|)
      ensures Made(old(socket.calls), socket.calls, ServerRounds(e.ServerLatency()))
    {
      ghost var rounds, c0, in0, out0 := e.ServerLatency(), socket.calls, socket.inbound, socket.outbound;
      got := [];
      for q := 0 to |e.latSizes|
        invariant |got| == q && RoundShapes(e, got) && in0 == JoinAll(got) + socket.inbound
        invariant Total(rounds[..q]) <= |in0| && |socket.inbound| == |in0| - Total(rounds[..q])
        invariant socket.outbound == out0 + Acks(q)
        invariant Made(c0, socket.calls, ServerRounds(rounds[..q]))
      {
        ghost var calls := socket.calls;
        TotalOneMore(rounds, q);
        ghost var round := LatencyTest(e.latSizes[q], e.loops);
        JoinLength(round, e.latSizes[q]);
        OneMoreCut(in0, got, round, socket.inbound);
        got := got + [round];
        OneMoreAck(out0, q);
        OneMoreServed(c0, calls, socket.calls, rounds[..q], rounds[q]);
        TakeOneMore(rounds, q);
      }
      assert rounds[..|e.latSizes|] == rounds;
    }

    /** The server's half of main: what it received, and one acknowledgement a round. */
    method Run(metric: Metric, e: TcpBench) returns (ghost received: seq<seq<Byte>>, ghost got: seq<seq<seq<Byte>>>)
      requires e.Valid() && Countable(socket, e.sizes) && Countable(socket, e.latSizes) && e.loops < TWO_31 && e.n < TWO_64
      requires Total(e.ServerExpects(metric)) <= |socket.inbound|
      modifies socket
      ensures Served(e, metric, old(socket.inbound), received, got, socket.inbound)
      ensures socket.outbound == old(socket.outbound) + Acks(|e.Rounds(metric)|)
      ensures Made(old(socket.calls), socket.calls, ServerRounds(e.ServerExpects(metric)))
    {
      received, got := [], [];
      match metric
      case Throughput =>
        received := RunThroughputTests(e);
        NoLatency(e, old(socket.inbound), received, socket.inbound);
      case Latency =>
        got := RunLatencyTests(e);
        NoThroughput(e, old(socket.inbound), got, socket.inbound);
      case All =>
        TotalAppend(e.ServerThroughput(), e.ServerLatency());
        received := RunThroughputTests(e);
        ghost var between, mid := socket.calls, socket.inbound;
        got := RunLatencyTests(e);
        BothServed(e, old(socket.inbound), received, mid, got, socket.inbound);
        MoreAcks(old(socket.outbound), |e.sizes|, |e.latSizes|);
        MadeThen(old(socket.calls), between, socket.calls, ServerRounds(e.ServerThroughput()), ServerRounds(e.ServerLatency()));
        ServerRoundsAppend(e.ServerThroughput(), e.ServerLatency());
    }
  }

  // ---- what the server's loops make of the stream ----

  /** One acknowledgement a round. */
  function Acks(k: nat): (acks: seq<Byte>)
    ensures |acks| == k && forall i :: 0 <= i < k ==> acks[i] == ACK[0]
  {
    seq(k, _ => ACK[0])
  }

  lemma OneMoreAck(out: seq<Byte>, k: nat)
    ensures out + Acks(k) + ACK == out + Acks(k + 1)
  {
    assert Acks(k + 1) == Acks(k) + ACK;
  }

  lemma MoreAcks(out: seq<Byte>, j: nat, k: nat)
    ensures out + Acks(j) + Acks(k) == out + Acks(j + k)
  {
    assert Acks(j + k) == Acks(j) + Acks(k);
  }

  /** The messages of several rounds, joined. */
  function JoinAll(got: seq<seq<seq<Byte>>>): seq<Byte> {
    if got == [] then [] else Join(got[0]) + JoinAll(got[1..])
  }

  lemma {:induction false} JoinAllAppend(a: seq<seq<seq<Byte>>>, b: seq<seq<seq<Byte>>>)
    ensures JoinAll(a + b) == JoinAll(a) + JoinAll(b)
  {
    if a == [] {
      assert a + b == b;
    } else {
      TailOfSum(a, b);
      JoinAllAppend(a[1..], b);
      Assoc(Join(a[0]), JoinAll(a[1..]), JoinAll(b));
    }
  }

  lemma OneMoreCut(start: seq<Byte>, got: seq<seq<seq<Byte>>>, round: seq<seq<Byte>>, rest: seq<Byte>)
    requires start == JoinAll(got) + (Join(round) + rest)
    ensures start == JoinAll(got + [round]) + rest
  {
    JoinAllAppend(got, [round]);
    assert [round][1..] == [] && JoinAll([round]) == Join(round) + [];
    Assoc(JoinAll(got), Join(round), rest);
  }

  /** As many messages a round as there are loops, each of the round's size. */
  predicate RoundShapes(e: TcpBench, got: seq<seq<seq<Byte>>>) {
    && |got| <= |e.latSizes|
    && forall q :: 0 <= q < |got| ==> |got[q]| == e.loops && forall j :: 0 <= j < e.loops ==> |got[q][j]| == e.latSizes[q]
  }

  /**
   What the server made of the stream: the data of each throughput round and the messages of each
   latency round, of the lengths it expects, lie in it one behind the other.
   */
  predicate Served(e: TcpBench, metric: Metric, start: seq<Byte>, received: seq<seq<Byte>>, got: seq<seq<seq<Byte>>>, rest: seq<Byte>) {
    && |received| == (if metric == Latency then 0 else |e.sizes|)
    && (forall r :: 0 <= r < |received| ==> |received[r]| == e.n)
    && |got| == (if metric == Throughput then 0 else |e.latSizes|) && RoundShapes(e, got)
    && start == Join(received) + (JoinAll(got) + rest)
  }

  lemma NoLatency(e: TcpBench, start: seq<Byte>, received: seq<seq<Byte>>, rest: seq<Byte>)
    requires |received| == |e.sizes| && TookMessages(start, received, rest, e.n)
    ensures Served(e, Throughput, start, received, [], rest)
  {
    assert JoinAll([]) + rest == rest;
  }

  lemma NoThroughput(e: TcpBench, start: seq<Byte>, got: seq<seq<seq<Byte>>>, rest: seq<Byte>)
    requires |got| == |e.latSizes| && RoundShapes(e, got) && start == JoinAll(got) + rest
    ensures Served(e, Latency, start, [], got, rest)
  {
    assert Join([]) + start == start;
  }

  lemma BothServed(e: TcpBench, start: seq<Byte>, received: seq<seq<Byte>>, mid: seq<Byte>, got: seq<seq<seq<Byte>>>, rest: seq<Byte>)
    requires |received| == |e.sizes| && TookMessages(start, received, mid, e.n)
    requires |got| == |e.latSizes| && RoundShapes(e, got) && mid == JoinAll(got) + rest
    ensures Served(e, All, start, received, got, rest)
  {
  }

  /** Messages of known lengths can be cut out of a stream in one way only. */
  lemma {:induction false} OneWayToCut(a: seq<seq<Byte>>, b: seq<seq<Byte>>, restA: seq<Byte>, restB: seq<Byte>)
    requires |a| == |b| && (forall i :: 0 <= i < |a| ==> |a[i]| == |b[i]|)
    requires Join(a) + restA == Join(b) + restB
    ensures a == b && restA == restB
  {
    if a == [] {
      assert [] + restA == restA && [] + restB == restB;
    } else {
      Assoc(a[0], Join(a[1..]), restA);
      Assoc(b[0], Join(b[1..]), restB);
      OneCut(a[0], Join(a[1..]) + restA, b[0], Join(b[1..]) + restB);
      OneWayToCut(a[1..], b[1..], restA, restB);
      assert a == [a[0]] + a[1..] && b == [b[0]] + b[1..];
    }
  }

  lemma OneCut(a: seq<Byte>, x: seq<Byte>, b: seq<Byte>, y: seq<Byte>)
    requires |a| == |b| && a + x == b + y
    ensures a == b && x == y
  {
    assert a == (a + x)[..|a|] && b == (b + y)[..|b|];
    assert x == (a + x)[|a|..] && y == (b + y)[|b|..];
  }

  /** Rounds of messages of known lengths can be cut out of a stream in one way only. */
  lemma {:induction false} OneWayToCutRounds(got: seq<seq<seq<Byte>>>, rounds: seq<Round>, rest: seq<Byte>, behind: seq<Byte>)
    requires |got| == |rounds| && forall q :: 0 <= q < |got| ==> SameLens(got[q], rounds[q].msgs)
    requires JoinAll(got) + rest == Join(Flat(rounds)) + behind
    ensures rest == behind && forall q :: 0 <= q < |got| ==> got[q] == rounds[q].msgs
  {
    if got == [] {
      assert [] + rest == rest && [] + behind == behind;
    } else {
      var r := rounds[0];
      JoinAppend(r.msgs, Flat(rounds[1..]));
      Assoc(Join(got[0]), JoinAll(got[1..]), rest);
      Assoc(Join(r.msgs), Join(Flat(rounds[1..])), behind);
      assert SameLens(got[0], r.msgs);
      OneWayToCut(got[0], r.msgs, JoinAll(got[1..]) + rest, Join(Flat(rounds[1..])) + behind);
      OneWayToCutRounds(got[1..], rounds[1..], rest, behind);
      assert forall q :: 1 <= q < |got| ==> got[q] == got[1..][q - 1] && rounds[q] == rounds[1..][q - 1];
    }
  }

  predicate SameLens(a: seq<seq<Byte>>, b: seq<seq<Byte>>) {
    |a| == |b| && forall i :: 0 <= i < |a| ==> |a[i]| == |b[i]|
  }

  /**
   What the client's loops put out, fed to the server's loops, comes back whole for every metric:
   the client's data of every throughput round, and the client's messages of every latency round.
   */
  lemma LoopsAgree(e: TcpBench, metric: Metric, received: seq<seq<Byte>>, got: seq<seq<seq<Byte>>>, behind: seq<Byte>, rest: seq<Byte>)
    requires e.Valid() && Served(e, metric, Join(Flat(e.Rounds(metric))) + behind, received, got, rest)
    ensures rest == behind
    ensures metric != Latency ==> received == e.datas
    ensures metric != Throughput ==>
              |got| == |e.latSizes| && forall q :: 0 <= q < |got| ==> got[q] == LatencyMsgs(e.buffers[q], e.loops)
  {
    var lat := if metric == Throughput then [] else e.LatencyRounds();
    var behindAll := Join(Flat(lat)) + behind;
    OutputOf(e, metric, behind);
    var datas := if metric == Latency then [] else e.datas;
    OneWayToCut(received, datas, JoinAll(got) + rest, behindAll);
    forall q | 0 <= q < |got|
      ensures SameLens(got[q], lat[q].msgs)
    {
      LatencyLens(e, q);
    }
    OneWayToCutRounds(got, lat, rest, behind);
  }

  lemma LatencyLens(e: TcpBench, q: nat)
    requires e.Valid() && q < |e.latSizes|
    ensures forall j :: 0 <= j < e.loops ==> |e.LatencyRound(q).msgs[j]| == e.latSizes[q]
  {
    e.LatencyAgrees(q);
    assert forall j :: 0 <= j < e.loops ==> Lens(LatencyMsgs(e.buffers[q], e.loops))[j] == Same(e.latSizes[q], e.loops)[j];
  }

  /** The client's output: its data of every throughput round, then its messages of every latency round. */
  lemma OutputOf(e: TcpBench, metric: Metric, behind: seq<Byte>)
    requires e.Valid()
    ensures var datas := if metric == Latency then [] else e.datas;
            var lat := if metric == Throughput then [] else e.LatencyRounds();
            Join(Flat(e.Rounds(metric))) + behind == Join(datas) + (Join(Flat(lat)) + behind)
  {
    JoinOfRounds(e, |e.sizes|);
    assert e.datas[..|e.sizes|] == e.datas && e.ThroughputRounds()[..|e.sizes|] == e.ThroughputRounds();
    match metric
    case Throughput =>
      assert Join([]) + behind == behind;
    case Latency =>
      assert Join([]) + (Join(Flat(e.LatencyRounds())) + behind) == Join(Flat(e.LatencyRounds())) + behind;
    case All =>
      FlatAppend(e.ThroughputRounds(), e.LatencyRounds());
      JoinAppend(Flat(e.ThroughputRounds()), Flat(e.LatencyRounds()));
      Assoc(Join(e.datas), Join(Flat(e.LatencyRounds())), behind);
  }

  lemma {:induction false} JoinOfRounds(e: TcpBench, r: nat)
    requires e.Valid() && r <= |e.sizes|
    ensures Join(Flat(e.ThroughputRounds()[..r])) == Join(e.datas[..r])
  {
    if r > 0 {
      JoinOfRounds(e, r - 1);
      JoinOneMoreRound(e.ThroughputRounds(), r - 1);
      SplitJoin(e.datas[r - 1], e.sizes[r - 1]);
      JoinOneMore(e.datas, r - 1);
    }
  }

  lemma JoinOneMore(datas: seq<seq<Byte>>, r: nat)
    requires r < |datas|
    ensures Join(datas[..r + 1]) == Join(datas[..r]) + datas[r]
  {
    TakeOneMore(datas, r);
    JoinAppend(datas[..r], [datas[r]]);
    JoinOfOne(datas[r]);
  }

  /** The rounds up to r are within the whole, and one more adds its own bytes. */
  lemma TotalOneMore(rounds: seq<Awaited>, r: nat)
    requires r < |rounds|
    ensures Total(rounds[..r + 1]) == Total(rounds[..r]) + Sum(rounds[r].lens)
    ensures Total(rounds[..r + 1]) <= Total(rounds)
  {
    TakeOneMore(rounds, r);
    TotalAppend(rounds[..r], [rounds[r]]);
    TotalOfOne(rounds[r]);
    TotalOfFront(rounds, r + 1);
  }

  lemma TotalOfOne(round: Awaited)
    ensures Total([round]) == Sum(round.lens)
  {
    assert [round][1..] == [];
  }

  lemma TotalOfFront(rounds: seq<Awaited>, r: nat)
    requires r <= |rounds|
    ensures Total(rounds[..r]) <= Total(rounds)
  {
    assert rounds == rounds[..r] + rounds[r..];
    TotalAppend(rounds[..r], rounds[r..]);
  }

  lemma {:induction false} JoinLength(got: seq<seq<Byte>>, len: nat)
    requires forall j :: 0 <= j < |got| ==> |got[j]| == len
    ensures |Join(got)| == Sum(Same(len, |got|))
  {
    if got != [] {
      JoinLength(got[1..], len);
      assert Same(len, |got|)[1..] == Same(len, |got| - 1);
    }
  }

  /** The receives so far and the stream they came from. */
  predicate TookMessages(start: seq<Byte>, got: seq<seq<Byte>>, rest: seq<Byte>, len: nat) {
    start == Join(got) + rest && forall j :: 0 <= j < |got| ==> |got[j]| == len
  }

  lemma TookMessage(start: seq<Byte>, got: seq<seq<Byte>>, rest: seq<Byte>, len: nat)
    requires TookMessages(start, got, rest, len) && len <= |rest|
    ensures TookMessages(start, got + [rest[..len]], rest[len..], len)
  {
    var m := rest[..len];
    JoinAppend(got, [m]);
    assert [m][1..] == [] && Join([m]) == m + [];
    assert rest == m + rest[len..];
  }
}
