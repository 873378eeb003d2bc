/**
 Two TCP peers as a step machine over an adversarial byte stream. All that is assumed of TCP is a
 reliable in-order byte stream in each direction (section 1.5 of RFC 793), here with room for
 `cap` bytes in flight: each `send` accepts and each `recv` hands over some positive number of
 bytes, chosen by nobody we control, and the peers' calls interleave in any way.

 There is no framing on the wire. A session is described by the list of messages both sides have
 in mind; each side's program is its projection, and the theorems say that the bytes fall back
 into exactly those messages.
 */
module TcpMachine {
  import opened Chunks

  /**
   What a peer is in the middle of: `send_tcp_message` with these bytes to go, or `receive_message`
   with this many missing, into a buffer of `room` bytes.
   */
  datatype Act = Put(left: seq<Byte>) | Take(missing: nat, room: nat)

  /**
   A peer: what it still has to do, the message it is receiving, the messages it has received, and
   whether some receive has stored a byte behind the end of its buffer.
   */
  datatype Peer = Peer(todo: seq<Act>, buf: seq<Byte>, got: seq<seq<Byte>>, fault: bool)

  /** The two peers and the bytes in flight from client to server (`up`) and back (`down`). */
  datatype Net = Net(client: Peer, server: Peer, up: seq<Byte>, down: seq<Byte>)

  /** A call that moves k bytes (a receive, into a buffer of `room`), or the return from a retry loop that has moved them all. */
  datatype Call = SendCall(k: nat) | RecvCall(k: nat, room: nat) | Return

  datatype Move = Move(byClient: bool, call: Call)

  // ---- one peer: `out` and `inn` are the streams it writes and reads ----

  /** Nothing of the action is left to move. */
  predicate Over(a: Act) { a == Put([]) || (a.Take? && a.missing == 0) }

  predicate CanCall(p: Peer, out: seq<Byte>, inn: seq<Byte>, cap: nat, c: Call) {
    && p.todo != []
    && match c
       case SendCall(k) => p.todo[0].Put? && 1 <= k <= |p.todo[0].left| && |out| + k <= cap
       case RecvCall(k, room) => p.todo[0].Take? && 1 <= k <= p.todo[0].missing && k <= |inn| && room == p.todo[0].room
       case Return => Over(p.todo[0])
  }

  /** The bytes are stored behind those of the message already there, which may be behind the buffer's end. */
  function Stores(p: Peer, bytes: seq<Byte>): Peer
    requires p.todo != [] && p.todo[0].Take? && |bytes| <= p.todo[0].missing
  {
    Peer([Take(p.todo[0].missing - |bytes|, p.todo[0].room)] + p.todo[1..], p.buf + bytes, p.got,
         p.fault || |p.buf| + |bytes| > p.todo[0].room)
  }

  function Leaves(p: Peer): Peer
    requires p.todo != []
  {
    if p.todo[0].Put? then p.(todo := p.todo[1..]) else p.(todo := p.todo[1..], buf := [], got := p.got + [p.buf])
  }

  function AfterCall(p: Peer, out: seq<Byte>, inn: seq<Byte>, cap: nat, c: Call): (r: (Peer, seq<Byte>, seq<Byte>))
    requires CanCall(p, out, inn, cap, c)
  {
    var rest := p.todo[1..];
    match c
    case SendCall(k) => (p.(todo := [Put(p.todo[0].left[k..])] + rest), out + p.todo[0].left[..k], inn)
    case RecvCall(k, room) => (Stores(p, inn[..k]), out, inn[k..])
    case Return => (Leaves(p), out, inn)
  }

  // ---- both ----

  /** The same connection seen from the other end. */
  function Flip(s: Net): Net { Net(s.server, s.client, s.down, s.up) }

  predicate ClientCan(s: Net, cap: nat, c: Call) { CanCall(s.client, s.up, s.down, cap, c) }

  function ClientNext(s: Net, cap: nat, c: Call): Net
    requires ClientCan(s, cap, c)
  {
    var r := AfterCall(s.client, s.up, s.down, cap, c);
    Net(r.0, s.server, r.1, r.2)
  }

  predicate Can(s: Net, cap: nat, mv: Move) {
    if mv.byClient then ClientCan(s, cap, mv.call) else ClientCan(Flip(s), cap, mv.call)
  }

  function Next(s: Net, cap: nat, mv: Move): Net
    requires Can(s, cap, mv)
  {
    if mv.byClient then ClientNext(s, cap, mv.call) else Flip(ClientNext(Flip(s), cap, mv.call))
  }

  /** A run is any sequence of moves each of which is possible. */
  predicate Possible(s: Net, cap: nat, run: seq<Move>)
    decreases |run|
  {
    run == [] || (Can(s, cap, run[0]) && Possible(Next(s, cap, run[0]), cap, run[1..]))
  }

  function After(s: Net, cap: nat, run: seq<Move>): Net
    requires Possible(s, cap, run)
    decreases |run|
  {
    if run == [] then s else After(Next(s, cap, run[0]), cap, run[1..])
  }

  ghost predicate Stuck(s: Net, cap: nat) {
    forall mv :: !Can(s, cap, mv)
  }

  // ---- sessions ----

  /** A message and the room of the buffer its receiver takes it into. */
  datatype Msg = Msg(up: bool, bytes: seq<Byte>, room: nat)

  /** The action for message g at the end that sends the messages going `dir`, t bytes of it already moved. */
  function ActFor(g: Msg, dir: bool, t: nat): Act
    requires t <= |g.bytes|
  {
    if g.up == dir then Put(g.bytes[t..]) else Take(|g.bytes| - t, g.room)
  }

  /** One end's program: send its own messages, receive the others by their length. */
  function Program(ms: seq<Msg>, dir: bool): (acts: seq<Act>)
    ensures |acts| == |ms|
  {
    if ms == [] then [] else [ActFor(ms[0], dir, 0)] + Program(ms[1..], dir)
  }

  /** The messages going `dir`, in order. */
  function Going(ms: seq<Msg>, dir: bool): (r: seq<seq<Byte>>) {
    if ms == [] then [] else (if ms[0].up == dir then [ms[0].bytes] else []) + Going(ms[1..], dir)
  }

  function Open(ms: seq<Msg>): Net {
    Net(Peer(Program(ms, true), [], [], false), Peer(Program(ms, false), [], [], false), [], [])
  }

  // ---- positions ----

  /** One byte of the session and the way it goes. */
  datatype Hop = Hop(up: bool, byte: Byte)

  function Hops(ms: seq<Msg>): (hs: seq<Hop>) {
    if ms == [] then [] else HopsOf(ms[0]) + Hops(ms[1..])
  }

  function HopsOf(g: Msg): (hs: seq<Hop>)
    ensures |hs| == |g.bytes| && forall i :: 0 <= i < |hs| ==> hs[i] == Hop(g.up, g.bytes[i])
  {
    seq(|g.bytes|, i requires 0 <= i < |g.bytes| => Hop(g.up, g.bytes[i]))
  }

  function BytesOf(hs: seq<Hop>): (bs: seq<Byte>)
    ensures |bs| == |hs| && forall i :: 0 <= i < |hs| ==> bs[i] == hs[i].byte
  {
    seq(|hs|, i requires 0 <= i < |hs| => hs[i].byte)
  }

  /** Which message a peer is in, how far, and how many bytes of the session that is. */
  function MsgIndex(p: Peer, ms: seq<Msg>): int { |ms| - |p.todo| }

  function Moved(p: Peer, g: Msg): int {
    if p.todo == [] then 0
    else match p.todo[0] case Put(left) => |g.bytes| - |left| case Take(k, room) => |g.bytes| - k
  }

  function Position(p: Peer, ms: seq<Msg>): int {
    var i := MsgIndex(p, ms);
    if 0 <= i < |ms| then |Hops(ms[..i])| + Moved(p, ms[i]) else |Hops(ms)|
  }

  /** A peer is in message i with t bytes of it moved, and has received exactly the messages before. */
  predicate PeerAt(p: Peer, ms: seq<Msg>, dir: bool) {
    var i := MsgIndex(p, ms);
    && 0 <= i <= |ms|
    && p.got == Going(ms[..i], !dir)
    && (i == |ms| ==> p.todo == [] && p.buf == [])
    && (i < |ms| ==>
          var t := Moved(p, ms[i]);
          && 0 <= t <= |ms[i].bytes|
          && p.todo == [ActFor(ms[i], dir, t)] + Program(ms[i + 1..], dir)
          && p.buf == (if ms[i].up == dir then [] else ms[i].bytes[..t]))
  }

  /** The bytes between two positions all go one way and are what is in flight that way; nothing is in flight the other way. */
  predicate InFlight(hs: seq<Hop>, behind: int, ahead: int, dir: bool, flight: seq<Byte>, other: seq<Byte>) {
    && 0 <= behind <= ahead <= |hs|
    && (forall h :: behind <= h < ahead ==> hs[h].up == dir)
    && flight == BytesOf(hs[behind..ahead])
    && other == []
  }

  /** The connection as one end sees it: `me` sends the messages going `dir`. */
  predicate InvFrom(ms: seq<Msg>, me: Peer, peer: Peer, out: seq<Byte>, inn: seq<Byte>, dir: bool) {
    var x, y := Position(me, ms), Position(peer, ms);
    && PeerAt(me, ms, dir) && PeerAt(peer, ms, !dir)
    && (y <= x ==> InFlight(Hops(ms), y, x, dir, out, inn))
    && (x <= y ==> InFlight(Hops(ms), x, y, !dir, inn, out))
  }

  predicate Inv(ms: seq<Msg>, s: Net) {
    InvFrom(ms, s.client, s.server, s.up, s.down, true)
  }

  // ---- lemmas about positions ----

  lemma {:induction false} HopsAppend(a: seq<Msg>, b: seq<Msg>)
    ensures Hops(a + b) == Hops(a) + Hops(b)
  {
    if a == [] {
      assert a + b == b;
    } else {
      assert (a + b)[1..] == a[1..] + b;
      HopsAppend(a[1..], b);
    }
  }

  lemma {:induction false} GoingAppend(a: seq<Msg>, b: seq<Msg>, dir: bool)
    ensures Going(a + b, dir) == Going(a, dir) + Going(b, dir)
  {
    if a == [] {
      assert a + b == b;
    } else {
      assert (a + b)[1..] == a[1..] + b;
      GoingAppend(a[1..], b, dir);
    }
  }

  lemma {:induction false} ProgramAppend(a: seq<Msg>, b: seq<Msg>, dir: bool)
    ensures Program(a + b, dir) == Program(a, dir) + Program(b, dir)
  {
    if a == [] {
      assert a + b == b;
    } else {
      assert (a + b)[1..] == a[1..] + b;
      ProgramAppend(a[1..], b, dir);
    }
  }

  /** The bytes of message i lie in the session right after those of the messages before it. */
  lemma HopsAround(ms: seq<Msg>, i: nat)
    requires i < |ms|
    ensures Hops(ms) == Hops(ms[..i]) + HopsOf(ms[i]) + Hops(ms[i + 1..])
    ensures Hops(ms[..i + 1]) == Hops(ms[..i]) + HopsOf(ms[i])
  {
    assert ms == ms[..i] + ms[i..];
    HopsAppend(ms[..i], ms[i..]);
    assert ms[i..][1..] == ms[i + 1..];
    HopsNext(ms, i);
  }

  lemma HopsNext(ms: seq<Msg>, i: nat)
    requires i < |ms|
    ensures Hops(ms[..i + 1]) == Hops(ms[..i]) + HopsOf(ms[i])
  {
    assert ms[..i + 1] == ms[..i] + [ms[i]];
    HopsAppend(ms[..i], [ms[i]]);
    assert [ms[i]][1..] == [];
    assert Hops([ms[i]]) == HopsOf(ms[i]) + [];
  }

  lemma PositionBounds(p: Peer, ms: seq<Msg>, dir: bool)
    requires PeerAt(p, ms, dir)
    ensures 0 <= Position(p, ms) <= |Hops(ms)|
  {
    var i := MsgIndex(p, ms);
    if i < |ms| {
      HopsAround(ms, i);
    }
  }

  /** Bytes t .. t+k of message i are the session's bytes from its position on, and go its way. */
  lemma HopsOfMessage(ms: seq<Msg>, i: nat, t: nat, k: nat, x: nat)
    requires i < |ms| && t + k <= |ms[i].bytes| && x == |Hops(ms[..i])| + t
    ensures x + k <= |Hops(ms)|
    ensures forall h :: x <= h < x + k ==> Hops(ms)[h].up == ms[i].up
    ensures BytesOf(Hops(ms)[x..x + k]) == ms[i].bytes[t..t + k]
  {
    HopsAround(ms, i);
    var hs := Hops(ms);
    forall h | x <= h < x + k
      ensures hs[h] == Hop(ms[i].up, ms[i].bytes[h - x + t])
    {
      HopWithin(Hops(ms[..i]), HopsOf(ms[i]), Hops(ms[i + 1..]), h);
    }
    BytesAt(hs, x, k, ms[i].bytes, t);
  }

  lemma HopWithin(a: seq<Hop>, b: seq<Hop>, c: seq<Hop>, h: nat)
    requires |a| <= h < |a| + |b|
    ensures (a + b + c)[h] == b[h - |a|]
  {
  }

  lemma BytesAt(hs: seq<Hop>, x: nat, k: nat, bytes: seq<Byte>, t: nat)
    requires x + k <= |hs| && t + k <= |bytes|
    requires forall h :: x <= h < x + k ==> hs[h].byte == bytes[h - x + t]
    ensures BytesOf(hs[x..x + k]) == bytes[t..t + k]
  {
  }

  /** The first and the last byte of message i go its way. */
  lemma HopsEnds(ms: seq<Msg>, i: nat)
    requires i < |ms| && ms[i].bytes != []
    ensures var x, y := |Hops(ms[..i])|, |Hops(ms[..i + 1])|;
            x < y <= |Hops(ms)| && Hops(ms)[x].up == ms[i].up && Hops(ms)[y - 1].up == ms[i].up
  {
    var x, t := |Hops(ms[..i])|, |ms[i].bytes| - 1;
    HopsAround(ms, i);
    HopsOfMessage(ms, i, 0, 1, x);
    HopsOfMessage(ms, i, t, 1, x + t);
  }

  /** An action under way, one call further. */
  lemma InMessage(p: Peer, ms: seq<Msg>, dir: bool)
    requires PeerAt(p, ms, dir) && p.todo != []
    ensures var i := MsgIndex(p, ms);
            && 0 <= i < |ms|
            && var t := Moved(p, ms[i]);
               && Position(p, ms) == |Hops(ms[..i])| + t
               && 0 <= t <= |ms[i].bytes|
               && (p.todo[0].Put? ==> ms[i].up == dir && p.todo[0].left == ms[i].bytes[t..])
               && (p.todo[0].Take? ==>
                     && ms[i].up != dir && p.todo[0].missing == |ms[i].bytes| - t
                     && p.todo[0].room == ms[i].room && |p.buf| == t)
  {
  }

  /** What it takes to stand in message i with t bytes of it moved. */
  lemma StandsIn(p: Peer, ms: seq<Msg>, dir: bool, i: nat, t: nat)
    requires i < |ms| && t <= |ms[i].bytes| && p.got == Going(ms[..i], !dir)
    requires p.todo == [ActFor(ms[i], dir, t)] + Program(ms[i + 1..], dir)
    requires p.buf == if ms[i].up == dir then [] else ms[i].bytes[..t]
    ensures PeerAt(p, ms, dir) && MsgIndex(p, ms) == i && Position(p, ms) == |Hops(ms[..i])| + t
  {
    assert MsgIndex(p, ms) == i && Moved(p, ms[i]) == t;
  }

  lemma PeerSends(p: Peer, ms: seq<Msg>, dir: bool, k: nat)
    requires PeerAt(p, ms, dir) && p.todo != [] && p.todo[0].Put? && k <= |p.todo[0].left|
    ensures var p' := p.(todo := [Put(p.todo[0].left[k..])] + p.todo[1..]);
            PeerAt(p', ms, dir) && Position(p', ms) == Position(p, ms) + k
  {
    var i := MsgIndex(p, ms);
    InMessage(p, ms, dir);
    var t := Moved(p, ms[i]);
    assert ms[i].bytes[t..][k..] == ms[i].bytes[t + k..];
    StandsIn(p.(todo := [Put(p.todo[0].left[k..])] + p.todo[1..]), ms, dir, i, t + k);
  }

  lemma PeerReceives(p: Peer, ms: seq<Msg>, dir: bool, bytes: seq<Byte>, k: nat, p': Peer)
    requires PeerAt(p, ms, dir) && p.todo != [] && p.todo[0].Take? && k == |bytes| <= p.todo[0].missing
    requires var i := MsgIndex(p, ms); var t := Moved(p, ms[i]);
             0 <= t && t + k <= |ms[i].bytes| && bytes == ms[i].bytes[t..t + k]
    requires p' == Stores(p, bytes)
    ensures PeerAt(p', ms, dir) && Position(p', ms) == Position(p, ms) + k
  {
    var i := MsgIndex(p, ms);
    InMessage(p, ms, dir);
    var t := Moved(p, ms[i]);
    assert ms[i].bytes[..t] + ms[i].bytes[t..t + k] == ms[i].bytes[..t + k];
    StandsIn(p', ms, dir, i, t + k);
  }

  lemma GoingNext(ms: seq<Msg>, i: nat, dir: bool)
    requires i < |ms|
    ensures Going(ms[..i + 1], dir) == Going(ms[..i], dir) + if ms[i].up == dir then [ms[i].bytes] else []
  {
    assert ms[..i + 1] == ms[..i] + [ms[i]];
    GoingAppend(ms[..i], [ms[i]], dir);
    assert [ms[i]][1..] == [];
  }

  lemma PeerReturns(p: Peer, ms: seq<Msg>, dir: bool)
    requires PeerAt(p, ms, dir) && p.todo != [] && Over(p.todo[0])
    ensures PeerAt(Leaves(p), ms, dir) && Position(Leaves(p), ms) == Position(p, ms)
  {
    var i := MsgIndex(p, ms);
    InMessage(p, ms, dir);
    var p' := Leaves(p);
    HopsAround(ms, i);
    GoingNext(ms, i, !dir);
    assert ms[i].bytes[..|ms[i].bytes|] == ms[i].bytes;
    assert p'.todo == Program(ms[i + 1..], dir);
    assert MsgIndex(p', ms) == i + 1;
    if i + 1 < |ms| {
      var g := ms[i + 1];
      assert ms[i + 1..][1..] == ms[i + 2..];
      assert g.bytes[0..] == g.bytes && g.bytes[..0] == [];
      assert Moved(p', g) == 0;
    } else {
      assert ms[..i + 1] == ms;
    }
  }

  lemma FlightGrows(hs: seq<Hop>, y: int, x: int, k: nat, dir: bool, out: seq<Byte>, inn: seq<Byte>, bytes: seq<Byte>)
    requires InFlight(hs, y, x, dir, out, inn) && x + k <= |hs|
    requires (forall h :: x <= h < x + k ==> hs[h].up == dir) && bytes == BytesOf(hs[x..x + k])
    ensures InFlight(hs, y, x + k, dir, out + bytes, inn)
  {
    assert hs[y..x + k] == hs[y..x] + hs[x..x + k];
  }

  lemma FlightShrinks(hs: seq<Hop>, x: int, y: int, k: nat, dir: bool, inn: seq<Byte>, out: seq<Byte>)
    requires InFlight(hs, x, y, dir, inn, out) && k <= |inn|
    ensures InFlight(hs, x + k, y, dir, inn[k..], out)
    ensures inn[..k] == BytesOf(hs[x..x + k])
  {
    assert hs[x..y][k..] == hs[x + k..y];
  }

  lemma AheadIsInv(ms: seq<Msg>, me: Peer, peer: Peer, out: seq<Byte>, inn: seq<Byte>, dir: bool)
    requires PeerAt(me, ms, dir) && PeerAt(peer, ms, !dir)
    requires Position(peer, ms) < Position(me, ms)
    requires InFlight(Hops(ms), Position(peer, ms), Position(me, ms), dir, out, inn)
    ensures InvFrom(ms, me, peer, out, inn, dir)
  {
  }

  lemma BehindIsInv(ms: seq<Msg>, me: Peer, peer: Peer, out: seq<Byte>, inn: seq<Byte>, dir: bool, x: int)
    requires PeerAt(me, ms, dir) && PeerAt(peer, ms, !dir)
    requires x == Position(me, ms) <= Position(peer, ms)
    requires InFlight(Hops(ms), x, Position(peer, ms), !dir, inn, out)
    ensures InvFrom(ms, me, peer, out, inn, dir)
  {
    if Position(me, ms) == Position(peer, ms) {
      assert inn == [];
    }
  }

  lemma SendKeeps(ms: seq<Msg>, me: Peer, peer: Peer, out: seq<Byte>, inn: seq<Byte>, dir: bool, cap: nat, k: nat)
    requires InvFrom(ms, me, peer, out, inn, dir) && CanCall(me, out, inn, cap, SendCall(k))
    ensures var r := AfterCall(me, out, inn, cap, SendCall(k)); InvFrom(ms, r.0, peer, r.1, r.2, dir)
  {
    var i, x, y := MsgIndex(me, ms), Position(me, ms), Position(peer, ms);
    var left := me.todo[0].left;
    WritesNext(ms, me, dir, k, x);
    SendsAhead(ms, me, peer, out, inn, dir);
    PeerSends(me, ms, dir, k);
    FlightGrows(Hops(ms), y, x, k, dir, out, inn, left[..k]);
    var me' := me.(todo := [Put(left[k..])] + me.todo[1..]);
    AheadIsInv(ms, me', peer, out + left[..k], inn, dir);
  }

  /** What a peer writes next is the message it is in, from where it stands. */
  lemma WritesNext(ms: seq<Msg>, me: Peer, dir: bool, k: nat, x: nat)
    requires PeerAt(me, ms, dir) && me.todo != [] && me.todo[0].Put? && k <= |me.todo[0].left| && x == Position(me, ms)
    ensures x + k <= |Hops(ms)| && forall h :: x <= h < x + k ==> Hops(ms)[h].up == dir
    ensures me.todo[0].left[..k] == BytesOf(Hops(ms)[x..x + k])
  {
    var i := MsgIndex(me, ms);
    InMessage(me, ms, dir);
    var t := Moved(me, ms[i]);
    HopsOfMessage(ms, i, t, k, x);
    assert ms[i].bytes[t..][..k] == ms[i].bytes[t..t + k];
  }

  /** A peer with bytes to read is behind the other. */
  lemma ReadsBehind(ms: seq<Msg>, me: Peer, peer: Peer, out: seq<Byte>, inn: seq<Byte>, dir: bool)
    requires InvFrom(ms, me, peer, out, inn, dir) && inn != []
    ensures Position(me, ms) < Position(peer, ms)
    ensures InFlight(Hops(ms), Position(me, ms), Position(peer, ms), !dir, inn, out)
  {
  }

  /** A peer with bytes to send is not behind the other. */
  lemma SendsAhead(ms: seq<Msg>, me: Peer, peer: Peer, out: seq<Byte>, inn: seq<Byte>, dir: bool)
    requires InvFrom(ms, me, peer, out, inn, dir)
    requires 0 <= Position(me, ms) < |Hops(ms)| && Hops(ms)[Position(me, ms)].up == dir
    ensures Position(peer, ms) <= Position(me, ms)
    ensures InFlight(Hops(ms), Position(peer, ms), Position(me, ms), dir, out, inn)
  {
  }

  /** What a peer reads next is the message it is in, from where it stands. */
  lemma NextBytes(ms: seq<Msg>, me: Peer, dir: bool, k: nat, x: nat, t: nat)
    requires PeerAt(me, ms, dir) && me.todo != [] && me.todo[0].Take? && k <= me.todo[0].missing
    requires x == Position(me, ms) && t == Moved(me, ms[MsgIndex(me, ms)])
    ensures var bytes := ms[MsgIndex(me, ms)].bytes;
            t + k <= |bytes| && x + k <= |Hops(ms)| && BytesOf(Hops(ms)[x..x + k]) == bytes[t..t + k]
  {
    InMessage(me, ms, dir);
    HopsOfMessage(ms, MsgIndex(me, ms), t, k, x);
  }

  /** The bytes handed over are those of the message, and what is in flight behind them is the rest. */
  lemma ReadsNext(ms: seq<Msg>, me: Peer, dir: bool, k: nat, x: nat, y: nat, t: nat, inn: seq<Byte>, out: seq<Byte>)
    requires PeerAt(me, ms, dir) && me.todo != [] && me.todo[0].Take? && k <= |inn| && k <= me.todo[0].missing
    requires x == Position(me, ms) && t == Moved(me, ms[MsgIndex(me, ms)])
    requires InFlight(Hops(ms), x, y, !dir, inn, out)
    ensures t + k <= |ms[MsgIndex(me, ms)].bytes| && inn[..k] == ms[MsgIndex(me, ms)].bytes[t..t + k]
    ensures InFlight(Hops(ms), x + k, y, !dir, inn[k..], out)
  {
    NextBytes(ms, me, dir, k, x, t);
    FlightShrinks(Hops(ms), x, y, k, !dir, inn, out);
  }

  lemma ReceiverMoves(ms: seq<Msg>, me: Peer, dir: bool, k: nat, x: nat, y: nat, inn: seq<Byte>, out: seq<Byte>, me': Peer)
    requires PeerAt(me, ms, dir) && me.todo != [] && me.todo[0].Take? && k <= |inn| && k <= me.todo[0].missing
    requires x == Position(me, ms) && InFlight(Hops(ms), x, y, !dir, inn, out) && me' == Stores(me, inn[..k])
    ensures PeerAt(me', ms, dir) && Position(me', ms) == x + k
    ensures InFlight(Hops(ms), x + k, y, !dir, inn[k..], out)
  {
    InMessage(me, ms, dir);
    ReadsNext(ms, me, dir, k, x, y, Moved(me, ms[MsgIndex(me, ms)]), inn, out);
    PeerReceives(me, ms, dir, inn[..k], k, me');
  }

  lemma RecvKeeps(ms: seq<Msg>, me: Peer, peer: Peer, out: seq<Byte>, inn: seq<Byte>, dir: bool, k: nat, me': Peer)
    requires InvFrom(ms, me, peer, out, inn, dir) && me.todo != [] && me.todo[0].Take?
    requires 1 <= k <= |inn| && k <= me.todo[0].missing && me' == Stores(me, inn[..k])
    ensures InvFrom(ms, me', peer, out, inn[k..], dir)
  {
    var x, y := Position(me, ms), Position(peer, ms);
    PositionBounds(me, ms, dir);
    ReadsBehind(ms, me, peer, out, inn, dir);
    ReceiverMoves(ms, me, dir, k, x, y, inn, out, me');
    BehindIsInv(ms, me', peer, out, inn[k..], dir, x + k);
  }

  lemma ReturnKeeps(ms: seq<Msg>, me: Peer, peer: Peer, out: seq<Byte>, inn: seq<Byte>, dir: bool, cap: nat)
    requires InvFrom(ms, me, peer, out, inn, dir) && CanCall(me, out, inn, cap, Return)
    ensures var r := AfterCall(me, out, inn, cap, Return); InvFrom(ms, r.0, peer, r.1, r.2, dir)
  {
    PeerReturns(me, ms, dir);
  }

  lemma CallKeeps(ms: seq<Msg>, me: Peer, peer: Peer, out: seq<Byte>, inn: seq<Byte>, dir: bool, cap: nat, c: Call)
    requires InvFrom(ms, me, peer, out, inn, dir) && CanCall(me, out, inn, cap, c)
    ensures var r := AfterCall(me, out, inn, cap, c); InvFrom(ms, r.0, peer, r.1, r.2, dir)
  {
    match c
    case SendCall(k) => SendKeeps(ms, me, peer, out, inn, dir, cap, k);
    case RecvCall(k, room) => RecvKeeps(ms, me, peer, out, inn, dir, k, Stores(me, inn[..k]));
    case Return => ReturnKeeps(ms, me, peer, out, inn, dir, cap);
  }

  lemma MoveKeeps(ms: seq<Msg>, s: Net, cap: nat, mv: Move)
    requires Inv(ms, s) && Can(s, cap, mv)
    ensures Inv(ms, Next(s, cap, mv))
  {
    if mv.byClient {
      CallKeeps(ms, s.client, s.server, s.up, s.down, true, cap, mv.call);
    } else {
      CallKeeps(ms, s.server, s.client, s.down, s.up, false, cap, mv.call);
    }
  }

  lemma InvInit(ms: seq<Msg>)
    ensures Inv(ms, Open(ms))
  {
    var s := Open(ms);
    assert ms[..0] == [];
    if ms != [] {
      assert ms[0].bytes[0..] == ms[0].bytes && ms[0].bytes[..0] == [];
      assert Moved(s.client, ms[0]) == 0 && Moved(s.server, ms[0]) == 0;
    }
    assert PeerAt(s.client, ms, true) && PeerAt(s.server, ms, false);
    assert Position(s.client, ms) == 0 == Position(s.server, ms);
  }

  lemma {:induction false} RunKeeps(ms: seq<Msg>, s: Net, cap: nat, run: seq<Move>)
    requires Inv(ms, s) && |s.up| <= cap && |s.down| <= cap && Possible(s, cap, run)
    ensures var s' := After(s, cap, run); Inv(ms, s') && |s'.up| <= cap && |s'.down| <= cap
    decreases |run|
  {
    if run != [] {
      MoveKeeps(ms, s, cap, run[0]);
      RunKeeps(ms, Next(s, cap, run[0]), cap, run[1..]);
    }
  }

  // ---- theorems ----

  /** The messages a peer has received are a prefix of the ones meant for it. */
  lemma GotIsPrefix(p: Peer, ms: seq<Msg>, dir: bool)
    requires PeerAt(p, ms, dir)
    ensures p.got <= Going(ms, !dir)
  {
    var i := MsgIndex(p, ms);
    assert ms == ms[..i] + ms[i..];
    GoingAppend(ms[..i], ms[i..], !dir);
  }

  /**
   Message boundaries, for every run: however the bytes are cut up and the calls interleave, the
   completed receives of either side are, one for one and in order, the messages the other side
   sent, and no direction ever holds more than its capacity.
   */
  lemma BoundariesKept(ms: seq<Msg>, cap: nat, run: seq<Move>)
    requires Possible(Open(ms), cap, run)
    ensures var s := After(Open(ms), cap, run);
            && s.server.got <= Going(ms, true) && s.client.got <= Going(ms, false)
            && |s.up| <= cap && |s.down| <= cap
  {
    InvInit(ms);
    RunKeeps(ms, Open(ms), cap, run);
    var s := After(Open(ms), cap, run);
    GotIsPrefix(s.client, ms, true);
    GotIsPrefix(s.server, ms, false);
  }

  /** Bytes still to send count twice, bytes in flight once, and every unfinished call once. */
  function Unsent(todo: seq<Act>): nat {
    if todo == [] then 0 else (if todo[0].Put? then |todo[0].left| else 0) + Unsent(todo[1..])
  }

  function Weight(s: Net): nat {
    2 * Unsent(s.client.todo) + 2 * Unsent(s.server.todo) + |s.up| + |s.down| + |s.client.todo| + |s.server.todo|
  }

  lemma CallShrinks(p: Peer, out: seq<Byte>, inn: seq<Byte>, cap: nat, c: Call)
    requires CanCall(p, out, inn, cap, c)
    ensures var r := AfterCall(p, out, inn, cap, c);
            2 * Unsent(r.0.todo) + |r.1| + |r.2| + |r.0.todo| < 2 * Unsent(p.todo) + |out| + |inn| + |p.todo|
  {
    match c
    case SendCall(k) =>
      assert ([Put(p.todo[0].left[k..])] + p.todo[1..])[1..] == p.todo[1..];
    case RecvCall(k, room) =>
      assert ([Take(p.todo[0].missing - k, room)] + p.todo[1..])[1..] == p.todo[1..];
    case Return =>
  }

  /** Termination: every move lowers the weight, so no run is longer than the weight at the start. */
  lemma {:induction false} RunsAreBounded(s: Net, cap: nat, run: seq<Move>)
    requires Possible(s, cap, run)
    ensures Weight(After(s, cap, run)) + |run| <= Weight(s)
    decreases |run|
  {
    if run != [] {
      if run[0].byClient {
        CallShrinks(s.client, s.up, s.down, cap, run[0].call);
      } else {
        CallShrinks(s.server, s.down, s.up, cap, run[0].call);
      }
      RunsAreBounded(Next(s, cap, run[0]), cap, run[1..]);
    }
  }

  /** The end whose turn it is: the sender of the next byte if nothing is in flight, the receiver of what is in flight. */
  lemma SomeoneCanMove(ms: seq<Msg>, me: Peer, peer: Peer, out: seq<Byte>, inn: seq<Byte>, dir: bool, cap: nat)
    requires InvFrom(ms, me, peer, out, inn, dir) && 1 <= cap && me.todo != []
    requires Position(me, ms) < Position(peer, ms)
             || (Position(me, ms) == Position(peer, ms)
                 && (Position(me, ms) < |Hops(ms)| ==> Hops(ms)[Position(me, ms)].up == dir))
    ensures exists c :: CanCall(me, out, inn, cap, c)
  {
    InMessage(me, ms, dir);
    var i, x := MsgIndex(me, ms), Position(me, ms);
    var t := Moved(me, ms[i]);
    if t == |ms[i].bytes| {
      assert CanCall(me, out, inn, cap, Return);
    } else {
      HopsOfMessage(ms, i, t, 1, x);
      if ms[i].up == dir {
        assert CanCall(me, out, inn, cap, SendCall(1));
      } else {
        assert CanCall(me, out, inn, cap, RecvCall(1, ms[i].room));
      }
    }
  }

  lemma FinishedIsLast(p: Peer, ms: seq<Msg>, dir: bool)
    requires PeerAt(p, ms, dir)
    ensures p.todo == [] ==> Position(p, ms) == |Hops(ms)| && p.got == Going(ms, !dir)
    ensures Position(p, ms) < |Hops(ms)| ==> p.todo != []
  {
    if p.todo == [] {
      assert ms[..|ms|] == ms;
    }
  }

  /** Progress: with room for one byte, a state in which nobody can move is one in which both are done. */
  lemma StuckIsDone(ms: seq<Msg>, s: Net, cap: nat)
    requires Inv(ms, s) && 1 <= cap && Stuck(s, cap)
    ensures s.client.todo == [] && s.server.todo == []
    ensures s.up == [] && s.down == []
  {
    var x, y := Position(s.client, ms), Position(s.server, ms);
    FinishedIsLast(s.client, ms, true);
    FinishedIsLast(s.server, ms, false);
    PositionBounds(s.client, ms, true);
    PositionBounds(s.server, ms, false);
    if s.client.todo != [] && (x < y || (x == y && (x < |Hops(ms)| ==> Hops(ms)[x].up))) {
      SomeoneCanMove(ms, s.client, s.server, s.up, s.down, true, cap);
      var c :| CanCall(s.client, s.up, s.down, cap, c);
      assert Can(s, cap, Move(true, c));
    }
    if s.server.todo != [] && (y < x || (x == y && (x < |Hops(ms)| ==> !Hops(ms)[x].up))) {
      SomeoneCanMove(ms, s.server, s.client, s.down, s.up, false, cap);
      var c :| CanCall(s.server, s.down, s.up, cap, c);
      assert Can(s, cap, Move(false, c));
    }
  }

  /**
   A run that cannot go on, whatever its segmentation: both programs are finished, every message
   has arrived whole, and nothing is left in flight.
   */
  lemma MaximalRunsFinish(ms: seq<Msg>, cap: nat, run: seq<Move>)
    requires 1 <= cap && Possible(Open(ms), cap, run) && Stuck(After(Open(ms), cap, run), cap)
    ensures var s := After(Open(ms), cap, run);
            && s.client.todo == [] && s.server.todo == []
            && s.server.got == Going(ms, true) && s.client.got == Going(ms, false)
            && s.up == [] && s.down == []
  {
    InvInit(ms);
    RunKeeps(ms, Open(ms), cap, run);
    var s := After(Open(ms), cap, run);
    StuckIsDone(ms, s, cap);
    FinishedIsLast(s.client, ms, true);
    FinishedIsLast(s.server, ms, false);
  }

  // ---- receives and the buffers they store into ----

  /** A message that does not fit the buffer it is received into. */
  predicate Overfull(g: Msg) { |g.bytes| > g.room }

  /** Every message fits the buffer it is received into. */
  predicate AllFit(ms: seq<Msg>) { forall j :: 0 <= j < |ms| ==> !Overfull(ms[j]) }

  /** One of the first i messages was meant for this end and did not fit. */
  predicate Spilled(ms: seq<Msg>, dir: bool, i: nat)
    requires i <= |ms|
  {
    exists j :: 0 <= j < i && ms[j].up != dir && Overfull(ms[j])
  }

  /** The message an end is in has already outgrown its buffer. */
  predicate Spilling(p: Peer, ms: seq<Msg>, dir: bool, i: nat) {
    i < |ms| && ms[i].up != dir && |p.buf| > ms[i].room
  }

  /** An end is at fault exactly when a message received, or the one being received, has outgrown its buffer. */
  predicate FaultAt(p: Peer, ms: seq<Msg>, dir: bool)
    requires PeerAt(p, ms, dir)
  {
    p.fault <==> Spilled(ms, dir, MsgIndex(p, ms)) || Spilling(p, ms, dir, MsgIndex(p, ms))
  }

  lemma SpilledOneMore(ms: seq<Msg>, dir: bool, i: nat)
    requires i < |ms|
    ensures Spilled(ms, dir, i + 1) <==> Spilled(ms, dir, i) || (ms[i].up != dir && Overfull(ms[i]))
  {
    if ms[i].up != dir && Overfull(ms[i]) {
      assert 0 <= i < i + 1;
    }
  }

  lemma StoringFault(p: Peer, ms: seq<Msg>, dir: bool, bytes: seq<Byte>)
    requires PeerAt(p, ms, dir) && FaultAt(p, ms, dir)
    requires p.todo != [] && p.todo[0].Take? && |bytes| <= p.todo[0].missing && PeerAt(Stores(p, bytes), ms, dir)
    ensures FaultAt(Stores(p, bytes), ms, dir)
  {
    InMessage(p, ms, dir);
    assert MsgIndex(Stores(p, bytes), ms) == MsgIndex(p, ms);
  }

  lemma LeavingFault(p: Peer, ms: seq<Msg>, dir: bool)
    requires PeerAt(p, ms, dir) && FaultAt(p, ms, dir)
    requires p.todo != [] && Over(p.todo[0]) && PeerAt(Leaves(p), ms, dir)
    ensures FaultAt(Leaves(p), ms, dir)
  {
    var i := MsgIndex(p, ms);
    InMessage(p, ms, dir);
    SpilledOneMore(ms, dir, i);
    assert MsgIndex(Leaves(p), ms) == i + 1;
    assert Leaves(p).buf == [];
  }

  lemma CallKeepsFault(ms: seq<Msg>, me: Peer, peer: Peer, out: seq<Byte>, inn: seq<Byte>, dir: bool, cap: nat, c: Call)
    requires InvFrom(ms, me, peer, out, inn, dir) && CanCall(me, out, inn, cap, c) && FaultAt(me, ms, dir)
    ensures var me' := AfterCall(me, out, inn, cap, c).0; PeerAt(me', ms, dir) && FaultAt(me', ms, dir)
  {
    CallKeeps(ms, me, peer, out, inn, dir, cap, c);
    match c
    case SendCall(k) =>
      assert MsgIndex(AfterCall(me, out, inn, cap, c).0, ms) == MsgIndex(me, ms);
    case RecvCall(k, room) =>
      StoringFault(me, ms, dir, inn[..k]);
    case Return =>
      LeavingFault(me, ms, dir);
  }

  /** In every reachable state the faults are exactly those of the messages received so far. */
  lemma {:induction false} FaultsKept(ms: seq<Msg>, s: Net, cap: nat, run: seq<Move>)
    requires Inv(ms, s) && FaultAt(s.client, ms, true) && FaultAt(s.server, ms, false) && Possible(s, cap, run)
    ensures var s' := After(s, cap, run); Inv(ms, s') && FaultAt(s'.client, ms, true) && FaultAt(s'.server, ms, false)
    decreases |run|
  {
    if run != [] {
      var mv := run[0];
      MoveKeeps(ms, s, cap, mv);
      if mv.byClient {
        CallKeepsFault(ms, s.client, s.server, s.up, s.down, true, cap, mv.call);
      } else {
        CallKeepsFault(ms, s.server, s.client, s.down, s.up, false, cap, mv.call);
      }
      FaultsKept(ms, Next(s, cap, mv), cap, run[1..]);
    }
  }

  lemma FaultsReached(ms: seq<Msg>, cap: nat, run: seq<Move>)
    requires Possible(Open(ms), cap, run)
    ensures var s := After(Open(ms), cap, run); Inv(ms, s) && FaultAt(s.client, ms, true) && FaultAt(s.server, ms, false)
  {
    InvInit(ms);
    var s := Open(ms);
    assert MsgIndex(s.client, ms) == 0 == MsgIndex(s.server, ms);
    FaultsKept(ms, s, cap, run);
  }

  predicate Faulty(s: Net) { s.client.fault || s.server.fault }

  /** If every message fits, no receive of any run leaves its buffer. */
  lemma NoOverrun(ms: seq<Msg>, cap: nat, run: seq<Move>)
    requires Possible(Open(ms), cap, run) && AllFit(ms)
    ensures !Faulty(After(Open(ms), cap, run))
  {
    FaultsReached(ms, cap, run);
    var s := After(Open(ms), cap, run);
    BufferWithin(s.client, ms, true);
    BufferWithin(s.server, ms, false);
  }

  lemma BufferWithin(p: Peer, ms: seq<Msg>, dir: bool)
    requires PeerAt(p, ms, dir)
    ensures var i := MsgIndex(p, ms); i < |ms| ==> |p.buf| <= |ms[i].bytes|
  {
  }

  /** A run that cannot go on has stored behind a buffer exactly when some message does not fit its own. */
  lemma MaximalRunsOverrun(ms: seq<Msg>, cap: nat, run: seq<Move>)
    requires 1 <= cap && Possible(Open(ms), cap, run) && Stuck(After(Open(ms), cap, run), cap)
    ensures Faulty(After(Open(ms), cap, run)) <==> !AllFit(ms)
  {
    FaultsReached(ms, cap, run);
    MaximalRunsFinish(ms, cap, run);
    if AllFit(ms) {
      NoOverrun(ms, cap, run);
    } else {
      var j :| 0 <= j < |ms| && Overfull(ms[j]);
      var s := After(Open(ms), cap, run);
      if ms[j].up {
        assert Spilled(ms, false, MsgIndex(s.server, ms));
      } else {
        assert Spilled(ms, true, MsgIndex(s.client, ms));
      }
    }
  }

  /** Such runs exist from any state: carry on while somebody can move. */
  lemma {:induction false} RunsCanBeCompleted(s: Net, cap: nat) returns (run: seq<Move>)
    ensures Possible(s, cap, run) && Stuck(After(s, cap, run), cap)
    decreases Weight(s)
  {
    if Stuck(s, cap) {
      run := [];
    } else {
      var mv :| Can(s, cap, mv);
      assert Possible(s, cap, [mv]) by {
        assert [mv][1..] == [];
      }
      RunsAreBounded(s, cap, [mv]);
      assert After(s, cap, [mv]) == Next(s, cap, mv) by {
        assert [mv][1..] == [];
      }
      var rest := RunsCanBeCompleted(Next(s, cap, mv), cap);
      run := [mv] + rest;
      assert run[1..] == rest;
    }
  }
}
