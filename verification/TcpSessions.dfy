/**
 The TCP sessions: rounds of messages up, each round closed by a one-byte acknowledgement down,
 for throughput and latency alike and over one socket.
 */
module TcpSessions {
  import opened Chunks
  import opened Experiment
  import opened TcpMachine

  /** The server's one-byte acknowledgement, "y". */
  const ACK: seq<Byte> := [121]

  // ---- the two programs, each from its own side's loops ----

  function Puts(msgs: seq<seq<Byte>>): (acts: seq<Act>)
    ensures |acts| == |msgs|
  {
    if msgs == [] then [] else [Put(msgs[0])] + Puts(msgs[1..])
  }

  function Takes(lens: seq<nat>, room: nat): (acts: seq<Act>)
    ensures |acts| == |lens|
  {
    if lens == [] then [] else [Take(lens[0], room)] + Takes(lens[1..], room)
  }

  /**
   A round: the client's messages, the room of the buffer the server takes them into, and that of
   the buffer the client takes the acknowledgement into.
   */
  datatype Round = Round(msgs: seq<seq<Byte>>, room: nat, back: nat)

  /** A round as the server expects it. */
  datatype Awaited = Awaited(lens: seq<nat>, room: nat)

  function ClientRound(r: Round): seq<Act> { Puts(r.msgs) + [Take(1, r.back)] }

  function ServerRound(r: Awaited): seq<Act> { Takes(r.lens, r.room) + [Put(ACK)] }

  function ClientRounds(rounds: seq<Round>): seq<Act> {
    if rounds == [] then [] else ClientRound(rounds[0]) + ClientRounds(rounds[1..])
  }

  function ServerRounds(rounds: seq<Awaited>): seq<Act> {
    if rounds == [] then [] else ServerRound(rounds[0]) + ServerRounds(rounds[1..])
  }

  // ---- the session both are sides of ----

  function Ups(msgs: seq<seq<Byte>>, room: nat): (ms: seq<Msg>)
    ensures |ms| == |msgs| && forall i :: 0 <= i < |ms| ==> ms[i] == Msg(true, msgs[i], room)
  {
    if msgs == [] then [] else [Msg(true, msgs[0], room)] + Ups(msgs[1..], room)
  }

  function UpsOf(r: Round): seq<Msg> { Ups(r.msgs, r.room) }

  function AckOf(r: Round): Msg { Msg(false, ACK, r.back) }

  function RoundMsgs(r: Round): seq<Msg> { UpsOf(r) + [AckOf(r)] }

  function Session(rounds: seq<Round>): seq<Msg> {
    if rounds == [] then [] else RoundMsgs(rounds[0]) + Session(rounds[1..])
  }

  /** All the messages of some rounds, in order. */
  function Flat(rounds: seq<Round>): seq<seq<Byte>> {
    if rounds == [] then [] else rounds[0].msgs + Flat(rounds[1..])
  }

  function Lens(msgs: seq<seq<Byte>>): (lens: seq<nat>)
    ensures |lens| == |msgs| && forall i :: 0 <= i < |msgs| ==> lens[i] == |msgs[i]|
  {
    if msgs == [] then [] else [|msgs[0]|] + Lens(msgs[1..])
  }

  function RoundLens(rounds: seq<Round>): (r: seq<Awaited>)
    ensures |r| == |rounds| && forall i :: 0 <= i < |rounds| ==> r[i] == Awaited(Lens(rounds[i].msgs), rounds[i].room)
  {
    if rounds == [] then [] else [Awaited(Lens(rounds[0].msgs), rounds[0].room)] + RoundLens(rounds[1..])
  }

  lemma {:induction false} UpsProject(msgs: seq<seq<Byte>>, room: nat)
    ensures Program(Ups(msgs, room), true) == Puts(msgs)
    ensures Program(Ups(msgs, room), false) == Takes(Lens(msgs), room)
    ensures Going(Ups(msgs, room), true) == msgs && Going(Ups(msgs, room), false) == []
  {
    if msgs != [] {
      UpsProject(msgs[1..], room);
      assert Ups(msgs, room)[1..] == Ups(msgs[1..], room);
      assert msgs[0][0..] == msgs[0];
      assert Lens(msgs)[1..] == Lens(msgs[1..]);
    }
  }

  lemma AckProjects(ack: Msg)
    requires ack.bytes == ACK && !ack.up
    ensures Program([ack], true) == [Take(1, ack.room)] && Program([ack], false) == [Put(ACK)]
    ensures Going([ack], true) == [] && Going([ack], false) == [ACK]
  {
    assert [ack][1..] == [] && ACK[0..] == ACK;
  }

  lemma RoundProjects(r: Round)
    ensures Program(RoundMsgs(r), true) == ClientRound(r)
    ensures Program(RoundMsgs(r), false) == ServerRound(Awaited(Lens(r.msgs), r.room))
    ensures Going(RoundMsgs(r), true) == r.msgs
    ensures Going(RoundMsgs(r), false) == [ACK]
  {
    UpsProject(r.msgs, r.room);
    AckProjects(AckOf(r));
    ProgramAppend(UpsOf(r), [AckOf(r)], true);
    ProgramAppend(UpsOf(r), [AckOf(r)], false);
    GoingAppend(UpsOf(r), [AckOf(r)], true);
    GoingAppend(UpsOf(r), [AckOf(r)], false);
  }

  /** The client's and the server's programs are the two sides of the session, and its upward messages are the rounds'. */
  lemma {:induction false} SessionProjects(rounds: seq<Round>)
    ensures Program(Session(rounds), true) == ClientRounds(rounds)
    ensures Program(Session(rounds), false) == ServerRounds(RoundLens(rounds))
    ensures Going(Session(rounds), true) == Flat(rounds)
  {
    if rounds != [] {
      SessionProjects(rounds[1..]);
      RoundProjects(rounds[0]);
      ProgramAppend(RoundMsgs(rounds[0]), Session(rounds[1..]), true);
      ProgramAppend(RoundMsgs(rounds[0]), Session(rounds[1..]), false);
      GoingAppend(RoundMsgs(rounds[0]), Session(rounds[1..]), true);
      assert RoundLens(rounds)[1..] == RoundLens(rounds[1..]);
    }
  }

  lemma {:induction false} SessionAppend(a: seq<Round>, b: seq<Round>)
    ensures Session(a + b) == Session(a) + Session(b)
  {
    if a == [] {
      assert a + b == b;
    } else {
      assert (a + b)[1..] == a[1..] + b;
      SessionAppend(a[1..], b);
    }
  }

  lemma {:induction false} FlatAppend(a: seq<Round>, b: seq<Round>)
    ensures Flat(a + b) == Flat(a) + Flat(b)
  {
    if a == [] {
      assert a + b == b;
    } else {
      assert (a + b)[1..] == a[1..] + b;
      FlatAppend(a[1..], b);
    }
  }

  lemma {:induction false} ClientRoundsAppend(a: seq<Round>, b: seq<Round>)
    ensures ClientRounds(a + b) == ClientRounds(a) + ClientRounds(b)
  {
    if a == [] {
      assert a + b == b;
    } else {
      assert (a + b)[1..] == a[1..] + b;
      ClientRoundsAppend(a[1..], b);
    }
  }

  /** The session up to round r and from round r on. */
  lemma SessionSplits(rounds: seq<Round>, r: nat)
    requires r <= |rounds|
    ensures var i := |Session(rounds[..r])|;
            && i <= |Session(rounds)|
            && Session(rounds)[..i] == Session(rounds[..r])
            && Session(rounds)[i..] == Session(rounds[r..])
  {
    assert rounds == rounds[..r] + rounds[r..];
    SessionAppend(rounds[..r], rounds[r..]);
  }

  lemma {:induction false} ServerRoundsAppend(a: seq<Awaited>, b: seq<Awaited>)
    ensures ServerRounds(a + b) == ServerRounds(a) + ServerRounds(b)
  {
    if a == [] {
      assert a + b == b;
    } else {
      assert (a + b)[1..] == a[1..] + b;
      ServerRoundsAppend(a[1..], b);
    }
  }

  function Begin(rounds: seq<Round>): Net {
    Net(Peer(ClientRounds(rounds), [], [], false), Peer(ServerRounds(RoundLens(rounds)), [], [], false), [], [])
  }

  lemma BeginIsOpen(rounds: seq<Round>)
    ensures Begin(rounds) == Open(Session(rounds))
  {
    SessionProjects(rounds);
  }

  // ---- what every run does ----

  /** A peer whose program is at message i stands right there: nothing of it moved, everything before received. */
  lemma StandsAt(ms: seq<Msg>, p: Peer, dir: bool, i: nat)
    requires PeerAt(p, ms, dir) && i <= |ms| && p.todo == Program(ms[i..], dir)
    ensures MsgIndex(p, ms) == i && p.got == Going(ms[..i], !dir) && Position(p, ms) == |Hops(ms[..i])|
  {
    if i < |ms| {
      assert ms[i..][0] == ms[i];
      assert p.todo[0] == ActFor(ms[i], dir, 0);
      assert ms[i].bytes[0..] == ms[i].bytes;
    } else {
      assert ms[..i] == ms;
    }
  }

  /** The session before and from the acknowledgement of round r. */
  lemma SessionAtAck(rounds: seq<Round>, r: nat)
    requires r < |rounds|
    ensures var i := |Session(rounds[..r])| + |rounds[r].msgs|;
            && i <= |Session(rounds)|
            && Session(rounds)[..i] == Session(rounds[..r]) + UpsOf(rounds[r])
            && Session(rounds)[i..] == [AckOf(rounds[r])] + Session(rounds[r + 1..])
  {
    SessionSplits(rounds, r);
    var b := rounds[r..];
    assert b[0] == rounds[r] && b[1..] == rounds[r + 1..];
    var i := |Session(rounds[..r])|;
    var ms := Session(rounds);
    assert ms[i..] == RoundMsgs(rounds[r]) + Session(rounds[r + 1..]);
    CutFurther(ms, i, UpsOf(rounds[r]), [AckOf(rounds[r])], Session(rounds[r + 1..]));
  }

  lemma CutFurther(ms: seq<Msg>, i: nat, a: seq<Msg>, b: seq<Msg>, c: seq<Msg>)
    requires i <= |ms| && ms[i..] == a + b + c
    ensures i + |a| <= |ms| && ms[..i + |a|] == ms[..i] + a && ms[i + |a|..] == b + c
  {
    assert |ms| == i + |ms[i..]|;
    assert ms[i..][..|a|] == a && ms[i..][|a|..] == b + c;
    assert ms[i + |a|..] == ms[i..][|a|..];
    assert ms[..i + |a|] == ms[..i] + ms[i..][..|a|];
  }

  lemma ProgramOfAck(r: Round, rest: seq<Round>)
    ensures Program([AckOf(r)] + Session(rest), false) == [Put(ACK)] + ServerRounds(RoundLens(rest))
  {
    SessionProjects(rest);
    assert ([AckOf(r)] + Session(rest))[1..] == Session(rest);
    assert ACK[0..] == ACK;
  }

  lemma Reached(rounds: seq<Round>, cap: nat, run: seq<Move>)
    requires Possible(Begin(rounds), cap, run)
    ensures Inv(Session(rounds), After(Begin(rounds), cap, run))
  {
    BeginIsOpen(rounds);
    InvInit(Session(rounds));
    RunKeeps(Session(rounds), Open(Session(rounds)), cap, run);
  }

  lemma GotBefore(ms: seq<Msg>, p: Peer, i: nat, front: seq<Msg>, back: seq<Msg>)
    requires PeerAt(p, ms, false) && i <= |ms| && front == ms[..i] && back == ms[i..] && p.todo == Program(back, false)
    ensures p.got == Going(front, true)
  {
    StandsAt(ms, p, false, i);
  }

  lemma GoingBeforeAck(rounds: seq<Round>, r: nat)
    requires r < |rounds|
    ensures Going(Session(rounds[..r]) + UpsOf(rounds[r]), true) == Flat(rounds[..r]) + rounds[r].msgs
  {
    SessionProjects(rounds[..r]);
    UpsProject(rounds[r].msgs, rounds[r].room);
    GoingAppend(Session(rounds[..r]), UpsOf(rounds[r]), true);
  }

  /** What comes before the acknowledgement of round r, and what the server has left to do there. */
  lemma CutAtAck(rounds: seq<Round>, r: nat) returns (i: nat, front: seq<Msg>, back: seq<Msg>)
    requires r < |rounds|
    ensures i <= |Session(rounds)| && front == Session(rounds)[..i] && back == Session(rounds)[i..]
    ensures Going(front, true) == Flat(rounds[..r]) + rounds[r].msgs
    ensures Program(back, false) == [Put(ACK)] + ServerRounds(RoundLens(rounds[r + 1..]))
  {
    front, back := Session(rounds[..r]) + UpsOf(rounds[r]), [AckOf(rounds[r])] + Session(rounds[r + 1..]);
    i := |front|;
    SessionAtAck(rounds, r);
    ProgramOfAck(rounds[r], rounds[r + 1..]);
    GoingBeforeAck(rounds, r);
  }

  /** When the server comes to acknowledge round r, it has received exactly the messages of rounds 0 .. r. */
  lemma ReceivedBeforeAck(rounds: seq<Round>, cap: nat, run: seq<Move>, r: nat)
    requires Possible(Begin(rounds), cap, run) && r < |rounds|
    requires After(Begin(rounds), cap, run).server.todo == [Put(ACK)] + ServerRounds(RoundLens(rounds[r + 1..]))
    ensures After(Begin(rounds), cap, run).server.got == Flat(rounds[..r]) + rounds[r].msgs
  {
    var i, front, back := CutAtAck(rounds, r);
    Reached(rounds, cap, run);
    GotBefore(Session(rounds), After(Begin(rounds), cap, run).server, i, front, back);
  }

  /** At a turn the session's bytes change direction: down before it, up from it on. */
  lemma TurnHops(ms: seq<Msg>, i: nat)
    requires TurnAt(ms, i)
    ensures var hs, x := Hops(ms), |Hops(ms[..i])|;
            x <= |hs| && (0 < x ==> !hs[x - 1].up) && (x < |hs| ==> hs[x].up)
  {
    if i > 0 {
      HopsEnds(ms, i - 1);
    }
    if i < |ms| {
      HopsEnds(ms, i);
    } else {
      assert ms[..i] == ms;
    }
  }

  /** A client about to send, having just received, shares the session's position with the server: nothing is in flight. */
  lemma QuietWhenTurning(ms: seq<Msg>, s: Net, i: nat)
    requires Inv(ms, s) && TurnAt(ms, i) && s.client.todo == Program(ms[i..], true)
    ensures s.up == [] && s.down == [] && Position(s.server, ms) == Position(s.client, ms)
  {
    StandsAt(ms, s.client, true, i);
    TurnHops(ms, i);
    PositionBounds(s.server, ms, false);
  }

  /** Message i is where a client, having just received, turns to sending. */
  predicate TurnAt(ms: seq<Msg>, i: nat) {
    && i <= |ms|
    && (0 < i ==> !ms[i - 1].up && ms[i - 1].bytes != [])
    && (i < |ms| ==> ms[i].up && ms[i].bytes != [])
  }

  /** A round that begins with a byte. */
  predicate Sends(r: Round) { r.msgs != [] && r.msgs[0] != [] }

  lemma RoundsAreTurns(rounds: seq<Round>, r: nat)
    requires r <= |rounds|
    requires forall q :: 0 <= q < |rounds| ==> Sends(rounds[q])
    ensures TurnAt(Session(rounds), |Session(rounds[..r])|)
  {
    var ms, i := Session(rounds), |Session(rounds[..r])|;
    SessionSplits(rounds, r);
    if r > 0 {
      SessionAtAck(rounds, r - 1);
      SessionSplits(rounds[..r], r - 1);
      assert rounds[..r][..r - 1] == rounds[..r - 1];
      assert rounds[..r][r - 1..] == [rounds[r - 1]];
      assert [rounds[r - 1]][1..] == [];
      assert Session([rounds[r - 1]]) == RoundMsgs(rounds[r - 1]) + [];
      assert i == |Session(rounds[..r - 1])| + |rounds[r - 1].msgs| + 1;
      assert ms[i - 1] == ms[i - 1..][0] == AckOf(rounds[r - 1]);
    }
    if r < |rounds| {
      assert rounds[r..][0] == rounds[r];
      assert ms[i] == ms[i..][0] == UpsOf(rounds[r])[0];
    } else {
      assert rounds[..r] == rounds;
    }
  }

  /**
   Quiescence: whenever the client stands at the start of a round, or behind the last one, both
   directions of the stream are empty, so no byte of one round is ever read in another. The rounds
   may be of either test, so this covers the switch from throughput to latency on one socket.
   */
  lemma QuietBetweenRounds(rounds: seq<Round>, cap: nat, run: seq<Move>, r: nat)
    requires Possible(Begin(rounds), cap, run) && r <= |rounds|
    requires forall q :: 0 <= q < |rounds| ==> Sends(rounds[q])
    requires After(Begin(rounds), cap, run).client.todo == ClientRounds(rounds[r..])
    ensures var s := After(Begin(rounds), cap, run);
            s.up == [] && s.down == [] && s.server.got == Flat(rounds[..r])
  {
    Reached(rounds, cap, run);
    var ms := Session(rounds);
    var s := After(Begin(rounds), cap, run);
    SessionSplits(rounds, r);
    SessionProjects(rounds[..r]);
    SessionProjects(rounds[r..]);
    RoundsAreTurns(rounds, r);
    QuietWhenTurning(ms, s, |Session(rounds[..r])|);
    ServerCaughtUp(ms, s, |Session(rounds[..r])|);
  }

  lemma PositionWithin(ms: seq<Msg>, p: Peer, dir: bool)
    requires PeerAt(p, ms, dir)
    ensures var j := MsgIndex(p, ms);
            && |Hops(ms[..j])| <= Position(p, ms)
            && (j < |ms| ==> Position(p, ms) <= |Hops(ms[..j + 1])|)
  {
    var j := MsgIndex(p, ms);
    if j < |ms| {
      HopsAround(ms, j);
    } else {
      assert ms[..j] == ms;
    }
  }

  /** A peer at the hop count of message i, which moves a byte, is not past that message. */
  lemma NotPast(ms: seq<Msg>, i: nat, j: nat, x: nat, hi: nat, hj: nat)
    requires i <= |ms| && j <= |ms| && hi == |Hops(ms[..i])| && hj == |Hops(ms[..j])|
    requires hj <= x == hi && (i < |ms| ==> ms[i].bytes != [])
    ensures j <= i
  {
    if i < j {
      HopsNext(ms, i);
      HopsGrow(ms, i + 1, j);
    }
  }

  /** A peer at the hop count of message i, the one before which moves a byte, is at most one message short of it. */
  lemma NotBefore(ms: seq<Msg>, i: nat, j: nat, x: nat, hi: nat, hj: nat)
    requires i <= |ms| && j < i && hi == |Hops(ms[..i])| && hj == |Hops(ms[..j + 1])|
    requires hi == x <= hj && ms[i - 1].bytes != []
    ensures j + 1 == i
  {
    if j + 1 < i {
      HopsGrow(ms, j + 1, i - 1);
      HopsNext(ms, i - 1);
    }
  }

  /** A server as far as the start of message i is past no later message and behind no earlier one but the last. */
  lemma ServerIndex(ms: seq<Msg>, p: Peer, i: nat)
    requires PeerAt(p, ms, false) && TurnAt(ms, i) && Position(p, ms) == |Hops(ms[..i])|
    ensures MsgIndex(p, ms) == i || (0 < i && MsgIndex(p, ms) == i - 1)
  {
    var j, x := MsgIndex(p, ms), Position(p, ms);
    PositionWithin(ms, p, false);
    NotPast(ms, i, j, x, |Hops(ms[..i])|, |Hops(ms[..j])|);
    if j < i {
      NotBefore(ms, i, j, x, |Hops(ms[..i])|, |Hops(ms[..j + 1])|);
    }
  }

  /** With both at the start of message i, the server has received everything before it and nothing after. */
  lemma ServerCaughtUp(ms: seq<Msg>, s: Net, i: nat)
    requires Inv(ms, s) && TurnAt(ms, i) && s.client.todo == Program(ms[i..], true)
    requires Position(s.server, ms) == Position(s.client, ms)
    ensures s.server.got == Going(ms[..i], true)
  {
    StandsAt(ms, s.client, true, i);
    ServerIndex(ms, s.server, i);
    var j := MsgIndex(s.server, ms);
    if j < i {
      GoingNext(ms, j, true);
    }
  }

  lemma HopsGrow(ms: seq<Msg>, i: nat, j: nat)
    requires i <= j <= |ms|
    ensures |Hops(ms[..i])| <= |Hops(ms[..j])|
  {
    assert ms[..j] == ms[..i] + ms[i..j];
    HopsAppend(ms[..i], ms[i..j]);
  }

  // ---- the benchmark's rounds ----

  /** The messages of a latency round: the buffers in turn, `loops` of them. */
  function LatencyMsgs(buffers: seq<seq<Byte>>, loops: nat): (msgs: seq<seq<Byte>>)
    requires |buffers| == NUM_BUFFERS
    ensures |msgs| == loops && forall i :: 0 <= i < loops ==> msgs[i] == buffers[i % NUM_BUFFERS]
  {
    seq(loops, i requires 0 <= i < loops => buffers[i % NUM_BUFFERS])
  }

  function SpanLens(spans: seq<Span>): (lens: seq<nat>)
    ensures |lens| == |spans| && forall i :: 0 <= i < |spans| ==> lens[i] == spans[i].len
  {
    if spans == [] then [] else [spans[0].len] + SpanLens(spans[1..])
  }

  function Same(len: nat, k: nat): (lens: seq<nat>)
    ensures |lens| == k && forall i :: 0 <= i < k ==> lens[i] == len
  {
    seq(k, _ => len)
  }

  /** The lengths of the messages cut from some data are those of the spans, which the receiver computes from the size alone. */
  lemma LensOfSplit(data: seq<Byte>, off: nat, b: nat)
    requires 0 < b && off <= |data|
    ensures Lens(SplitFrom(data, off, b)) == SpanLens(Spans(off, |data|, b))
  {
    SplitFollowsSpans(data, off, b);
    var msgs, spans := SplitFrom(data, off, b), Spans(off, |data|, b);
    forall i | 0 <= i < |msgs|
      ensures |msgs[i]| == spans[i].len
    {
      assert msgs[i] == data[spans[i].off..spans[i].off + spans[i].len];
    }
  }

  lemma RoundLensAppend(a: seq<Round>, b: seq<Round>)
    ensures RoundLens(a + b) == RoundLens(a) + RoundLens(b)
  {
  }

  /**
   A TCP run: `datas[r]` is what the client's data holds in throughput round r (generated, then
   refilled in place after every round), `buffers[q]` the 40 buffers of latency round q.
   */
  datatype TcpBench = TcpBench(n: nat, sizes: seq<nat>, datas: seq<seq<Byte>>, loops: nat, latSizes: seq<nat>, buffers: seq<seq<seq<Byte>>>) {
    predicate Valid() {
      && |datas| == |sizes| && |buffers| == |latSizes|
      && (forall r :: 0 <= r < |sizes| ==> 0 < sizes[r] && |datas[r]| == n)
      && (forall q :: 0 <= q < |latSizes| ==>
            |buffers[q]| == NUM_BUFFERS && forall i :: 0 <= i < NUM_BUFFERS ==> |buffers[q][i]| == latSizes[q])
    }

    /** No round of the run is without a byte to send. */
    predicate EveryRoundSends(metric: Metric) {
      && (metric != Latency && sizes != [] ==> 0 < n)
      && (metric != Throughput && latSizes != [] ==> 0 < loops && forall q :: 0 <= q < |latSizes| ==> 0 < latSizes[q])
    }

    /** Every buffer an acknowledgement is stored into has a byte for it. */
    predicate AcksFit(metric: Metric) {
      && (metric != Latency && sizes != [] ==> 0 < n)
      && (metric != Throughput ==> forall q :: 0 <= q < |latSizes| ==> 0 < latSizes[q])
    }

    /** The chunks go into the server's chunk buffer; the acknowledgement comes back into the client's copy of its data. */
    function ThroughputRound(r: nat): Round
      requires Valid() && r < |sizes|
    {
      Round(Split(datas[r], sizes[r]), sizes[r], |datas[r]|)
    }

    function ThroughputRounds(): (rounds: seq<Round>)
      requires Valid()
      ensures |rounds| == |sizes| && forall r :: 0 <= r < |sizes| ==> rounds[r] == ThroughputRound(r)
    {
      seq(|sizes|, r requires 0 <= r < |sizes| => ThroughputRound(r))
    }

    /** The acknowledgement of a latency round comes back into the first of its buffers. */
    function LatencyRound(q: nat): Round
      requires Valid() && q < |latSizes|
    {
      Round(LatencyMsgs(buffers[q], loops), latSizes[q], |buffers[q][0]|)
    }

    function LatencyRounds(): (rounds: seq<Round>)
      requires Valid()
      ensures |rounds| == |latSizes| && forall q :: 0 <= q < |latSizes| ==> rounds[q] == LatencyRound(q)
    {
      seq(|latSizes|, q requires 0 <= q < |latSizes| => LatencyRound(q))
    }

    /** What the client sends, in the order of main's `switch`. */
    function Rounds(metric: Metric): seq<Round>
      requires Valid()
    {
      match metric
      case Throughput => ThroughputRounds()
      case Latency => LatencyRounds()
      case All => ThroughputRounds() + LatencyRounds()
    }

    // What the server expects, from the sizes alone.

    function ServerThroughput(): (rounds: seq<Awaited>)
      requires Valid()
      ensures |rounds| == |sizes|
      ensures forall r :: 0 <= r < |sizes| ==> rounds[r] == Awaited(SpanLens(Spans(0, n, sizes[r])), sizes[r])
    {
      seq(|sizes|, r requires 0 <= r < |sizes| => Awaited(SpanLens(Spans(0, n, sizes[r])), sizes[r]))
    }

    function ServerLatency(): (rounds: seq<Awaited>)
      requires Valid()
      ensures |rounds| == |latSizes|
      ensures forall q :: 0 <= q < |latSizes| ==> rounds[q] == Awaited(Same(latSizes[q], loops), latSizes[q])
    {
      seq(|latSizes|, q requires 0 <= q < |latSizes| => Awaited(Same(latSizes[q], loops), latSizes[q]))
    }

    function ServerExpects(metric: Metric): seq<Awaited>
      requires Valid()
    {
      match metric
      case Throughput => ServerThroughput()
      case Latency => ServerLatency()
      case All => ServerThroughput() + ServerLatency()
    }

    lemma ThroughputAgrees(r: nat)
      requires Valid() && r < |sizes|
      ensures Lens(Split(datas[r], sizes[r])) == SpanLens(Spans(0, n, sizes[r]))
    {
      LensOfSplit(datas[r], 0, sizes[r]);
    }

    lemma LatencyAgrees(q: nat)
      requires Valid() && q < |latSizes|
      ensures Lens(LatencyMsgs(buffers[q], loops)) == Same(latSizes[q], loops)
    {
      var msgs := LatencyMsgs(buffers[q], loops);
      forall i | 0 <= i < loops
        ensures |msgs[i]| == latSizes[q]
      {
        assert msgs[i] == buffers[q][i % NUM_BUFFERS];
      }
    }

    lemma RoundsAgree()
      requires Valid()
      ensures RoundLens(ThroughputRounds()) == ServerThroughput()
      ensures RoundLens(LatencyRounds()) == ServerLatency()
    {
      forall r | 0 <= r < |sizes|
        ensures Lens(ThroughputRound(r).msgs) == SpanLens(Spans(0, n, sizes[r]))
      {
        ThroughputAgrees(r);
      }
      forall q | 0 <= q < |latSizes|
        ensures Lens(LatencyRound(q).msgs) == Same(latSizes[q], loops)
      {
        LatencyAgrees(q);
      }
    }

    /** The server's idea of every message's length, from the shared sizes, is what the client sends. */
    lemma SidesAgree(metric: Metric)
      requires Valid()
      ensures RoundLens(Rounds(metric)) == ServerExpects(metric)
    {
      RoundsAgree();
      RoundLensAppend(ThroughputRounds(), LatencyRounds());
    }

    function Start(metric: Metric): Net
      requires Valid()
    {
      Net(Peer(ClientRounds(Rounds(metric)), [], [], false), Peer(ServerRounds(ServerExpects(metric)), [], [], false), [], [])
    }
  }

  /**
   Throughput end to end, for every data size, chunk size and run: when the server comes to send
   the acknowledgement of round r, the chunks it received in that round, put together, are the
   client's data of that round.
   */
  lemma ThroughputEndToEnd(e: TcpBench, metric: Metric, cap: nat, run: seq<Move>, r: nat)
    requires e.Valid() && metric != Latency && Possible(e.Start(metric), cap, run) && r < |e.sizes|
    requires After(e.Start(metric), cap, run).server.todo == [Put(ACK)] + ServerRounds(e.ServerExpects(metric)[r + 1..])
    ensures var got := After(e.Start(metric), cap, run).server.got;
            var before := |Flat(e.Rounds(metric)[..r])|;
            before <= |got| && Join(got[before..]) == e.datas[r]
  {
    e.SidesAgree(metric);
    var rounds := e.Rounds(metric);
    assert RoundLens(rounds[r + 1..]) == RoundLens(rounds)[r + 1..];
    ReceivedBeforeAck(rounds, cap, run, r);
    assert rounds[r] == e.ThroughputRound(r);
    SplitJoin(e.datas[r], e.sizes[r]);
    BehindFlat(Flat(rounds[..r]), rounds[r].msgs);
  }

  lemma BehindFlat(before: seq<seq<Byte>>, msgs: seq<seq<Byte>>)
    ensures (before + msgs)[|before|..] == msgs
  {
  }

  /** Where latency round q stands among the rounds of a metric. */
  function LatencyIndex(e: TcpBench, metric: Metric, q: nat): nat {
    (if metric == All then |e.sizes| else 0) + q
  }

  lemma LatencyRoundIs(e: TcpBench, metric: Metric, q: nat)
    requires e.Valid() && metric != Throughput && q < |e.latSizes|
    ensures LatencyIndex(e, metric, q) < |e.Rounds(metric)|
    ensures e.Rounds(metric)[LatencyIndex(e, metric, q)] == e.LatencyRound(q)
  {
  }

  lemma GotAreRounds(e: TcpBench, metric: Metric, cap: nat, run: seq<Move>)
    requires e.Valid() && Possible(e.Start(metric), cap, run)
    ensures After(e.Start(metric), cap, run).server.got <= Flat(e.Rounds(metric))
  {
    e.SidesAgree(metric);
    BeginIsOpen(e.Rounds(metric));
    SessionProjects(e.Rounds(metric));
    BoundariesKept(Session(e.Rounds(metric)), cap, run);
  }

  lemma LatencyMessageAt(e: TcpBench, metric: Metric, q: nat, i: nat)
    requires e.Valid() && metric != Throughput && q < |e.latSizes| && i < e.loops
    ensures LatencyIndex(e, metric, q) < |e.Rounds(metric)|
    ensures var flat, k := Flat(e.Rounds(metric)), |Flat(e.Rounds(metric)[..LatencyIndex(e, metric, q)])| + i;
            k < |flat| && flat[k] == e.buffers[q][i % NUM_BUFFERS]
  {
    LatencyRoundIs(e, metric, q);
    FlatAt(e.Rounds(metric), LatencyIndex(e, metric, q), i);
  }

  /** Latency keeps boundaries: the i-th completed receive of latency round q is exactly buffer i mod 40 of that round. */
  lemma LatencyBoundaries(e: TcpBench, metric: Metric, cap: nat, run: seq<Move>, q: nat, i: nat)
    requires e.Valid() && metric != Throughput && Possible(e.Start(metric), cap, run)
    requires q < |e.latSizes| && i < e.loops
    ensures LatencyIndex(e, metric, q) < |e.Rounds(metric)|
    ensures var got := After(e.Start(metric), cap, run).server.got;
            var k := |Flat(e.Rounds(metric)[..LatencyIndex(e, metric, q)])| + i;
            k < |got| ==> got[k] == e.buffers[q][i % NUM_BUFFERS]
  {
    GotAreRounds(e, metric, cap, run);
    LatencyMessageAt(e, metric, q, i);
  }

  lemma FlatAt(rounds: seq<Round>, r: nat, i: nat)
    requires r < |rounds| && i < |rounds[r].msgs|
    ensures var k := |Flat(rounds[..r])| + i; k < |Flat(rounds)| && Flat(rounds)[k] == rounds[r].msgs[i]
  {
    assert rounds == rounds[..r] + rounds[r..] && rounds[r..][0] == rounds[r];
    FlatAppend(rounds[..r], rounds[r..]);
  }

  /** Quiescence of the benchmark: between any two rounds, and between the two tests, the socket is empty. */
  lemma TcpQuietBetweenRounds(e: TcpBench, metric: Metric, cap: nat, run: seq<Move>, r: nat)
    requires e.Valid() && Possible(e.Start(metric), cap, run) && r <= |e.Rounds(metric)|
    requires e.EveryRoundSends(metric)
    requires After(e.Start(metric), cap, run).client.todo == ClientRounds(e.Rounds(metric)[r..])
    ensures var s := After(e.Start(metric), cap, run);
            s.up == [] && s.down == [] && s.server.got == Flat(e.Rounds(metric)[..r])
  {
    e.SidesAgree(metric);
    RoundsNotEmpty(e, metric);
    QuietBetweenRounds(e.Rounds(metric), cap, run, r);
  }

  lemma RoundsNotEmpty(e: TcpBench, metric: Metric)
    requires e.Valid() && e.EveryRoundSends(metric)
    ensures forall q :: 0 <= q < |e.Rounds(metric)| ==> Sends(e.Rounds(metric)[q])
  {
    if metric != Latency {
      forall t | 0 <= t < |e.sizes|
        ensures Sends(e.ThroughputRounds()[t])
      {
        assert |e.datas[t]| == e.n;
      }
    }
    if metric != Throughput {
      forall q | 0 <= q < |e.latSizes|
        ensures Sends(e.LatencyRounds()[q])
      {
        assert e.LatencyRound(q).msgs[0] == e.buffers[q][0];
      }
    }
  }
}
