/**
 The TCP loops as they are written: retry loops over partial sends and receives, chunk loops over
 those, round loops over the chunks. Every method is proved to hand over exactly the bytes it
 promises for any partial counts, and to make exactly the calls its program in the step machine
 prescribes (`Leads`).
 */
module TcpLoops {
  import opened Sequences
  import opened Chunks
  import opened TcpMachine
  import opened TcpSessions

  // ---- calls and programs ----

  predicate CanDo(prog: seq<Act>, c: Call) {
    && prog != []
    && match c
       case SendCall(k) => prog[0].Put? && 1 <= k <= |prog[0].left|
       case RecvCall(k, room) => prog[0].Take? && 1 <= k <= prog[0].missing && room == prog[0].room
       case Return => Over(prog[0])
  }

  function Did(prog: seq<Act>, c: Call): seq<Act>
    requires CanDo(prog, c)
  {
    match c
    case SendCall(k) => [Put(prog[0].left[k..])] + prog[1..]
    case RecvCall(k, room) => [Take(prog[0].missing - k, room)] + prog[1..]
    case Return => prog[1..]
  }

  /** The calls are ones the program allows, one after the other, and leave `prog'` to do. */
  predicate Leads(prog: seq<Act>, calls: seq<Call>, prog': seq<Act>)
    decreases |calls|
  {
    if calls == [] then prog == prog' else CanDo(prog, calls[0]) && Leads(Did(prog, calls[0]), calls[1..], prog')
  }

  /** These are the machine's own steps: any call of the machine is one its program allows, with the same rest. */
  lemma MachineCallsFollowPrograms(p: Peer, out: seq<Byte>, inn: seq<Byte>, cap: nat, c: Call)
    requires CanCall(p, out, inn, cap, c)
    ensures CanDo(p.todo, c) && AfterCall(p, out, inn, cap, c).0.todo == Did(p.todo, c)
  {
  }

  function CallsOf(run: seq<Move>, byClient: bool): seq<Call> {
    if run == [] then []
    else (if run[0].byClient == byClient then [run[0].call] else []) + CallsOf(run[1..], byClient)
  }

  /** In every run of the machine each side makes calls its program allows, in the program's order. */
  lemma {:induction false} RunsFollowPrograms(s: Net, cap: nat, run: seq<Move>)
    requires Possible(s, cap, run)
    ensures Leads(s.client.todo, CallsOf(run, true), After(s, cap, run).client.todo)
    ensures Leads(s.server.todo, CallsOf(run, false), After(s, cap, run).server.todo)
    decreases |run|
  {
    if run != [] {
      RunsFollowPrograms(Next(s, cap, run[0]), cap, run[1..]);
      var c, mine := run[0].call, CallsOf(run[1..], run[0].byClient);
      assert ([c] + mine)[1..] == mine;
      assert [] + CallsOf(run[1..], !run[0].byClient) == CallsOf(run[1..], !run[0].byClient);
      assert CallsOf(run, run[0].byClient) == [c] + mine;
      assert CallsOf(run, !run[0].byClient) == CallsOf(run[1..], !run[0].byClient);
      if run[0].byClient {
        MachineCallsFollowPrograms(s.client, s.up, s.down, cap, c);
      } else {
        MachineCallsFollowPrograms(s.server, s.down, s.up, cap, c);
      }
    }
  }

  lemma {:induction false} LeadsTwice(a: seq<Act>, c1: seq<Call>, b: seq<Act>, c2: seq<Call>, d: seq<Act>)
    requires Leads(a, c1, b) && Leads(b, c2, d)
    ensures Leads(a, c1 + c2, d)
    decreases |c1|
  {
    if c1 == [] {
      assert c1 + c2 == c2;
    } else {
      TailOfSum(c1, c2);
      LeadsTwice(Did(a, c1[0]), c1[1..], b, c2, d);
    }
  }

  lemma DidWithMore(a: seq<Act>, c: Call, more: seq<Act>)
    requires CanDo(a, c)
    ensures CanDo(a + more, c) && Did(a + more, c) == Did(a, c) + more
  {
    assert (a + more)[0] == a[0] && (a + more)[1..] == a[1..] + more;
  }

  lemma {:induction false} LeadsWithMore(a: seq<Act>, c: seq<Call>, b: seq<Act>, more: seq<Act>)
    requires Leads(a, c, b)
    ensures Leads(a + more, c, b + more)
    decreases |c|
  {
    if c != [] {
      DidWithMore(a, c[0], more);
      LeadsWithMore(Did(a, c[0]), c[1..], b, more);
    }
  }

  /** One program after another. */
  lemma LeadsThrough(a: seq<Act>, c1: seq<Call>, b: seq<Act>, c2: seq<Call>)
    requires Leads(a, c1, []) && Leads(b, c2, [])
    ensures Leads(a + b, c1 + c2, [])
  {
    LeadsWithMore(a, c1, [], b);
    assert [] + b == b;
    LeadsTwice(a + b, c1, b, c2, []);
  }

  lemma LeadsOne(prog: seq<Act>, c: Call)
    requires CanDo(prog, c)
    ensures Leads(prog, [c], Did(prog, c))
  {
    assert [c][1..] == [];
  }

  /** Between two states of the call log exactly this program has been carried out. */
  predicate Made(before: seq<Call>, after: seq<Call>, prog: seq<Act>) {
    before <= after && Leads(prog, after[|before|..], [])
  }

  lemma MadeThen(c0: seq<Call>, c1: seq<Call>, c2: seq<Call>, a: seq<Act>, b: seq<Act>)
    requires Made(c0, c1, a) && Made(c1, c2, b)
    ensures Made(c0, c2, a + b)
  {
    LeadsThrough(a, c1[|c0|..], b, c2[|c1|..]);
    assert c2[|c0|..] == c1[|c0|..] + c2[|c1|..];
  }

  lemma {:induction false} PutsAppend(a: seq<seq<Byte>>, b: seq<seq<Byte>>)
    ensures Puts(a + b) == Puts(a) + Puts(b)
  {
    if a == [] {
      assert a + b == b;
    } else {
      assert (a + b)[1..] == a[1..] + b;
      PutsAppend(a[1..], b);
    }
  }

  lemma {:induction false} TakesAppend(a: seq<nat>, b: seq<nat>, room: nat)
    ensures Takes(a + b, room) == Takes(a, room) + Takes(b, room)
  {
    if a == [] {
      assert a + b == b;
    } else {
      assert (a + b)[1..] == a[1..] + b;
      TakesAppend(a[1..], b, room);
    }
  }

  lemma OnePut(m: seq<Byte>)
    ensures Puts([m]) == [Put(m)]
  {
    assert [m][1..] == [];
  }

  lemma OneTake(k: nat, room: nat)
    ensures Takes([k], room) == [Take(k, room)]
  {
    assert [k][1..] == [];
  }

  /** A call that continues the retry loop, added to the calls made so far. */
  lemma LeadsOn(prog: seq<Act>, calls: seq<Call>, now: seq<Act>, c: Call)
    requires Leads(prog, calls, now) && CanDo(now, c)
    ensures Leads(prog, calls + [c], Did(now, c))
  {
    LeadsOne(now, c);
    LeadsTwice(prog, calls, now, [c], Did(now, c));
  }

  // ---- the socket ----

  type Positive = x: nat | 0 < x witness 1

  /**
   One end of a connection. `inbound` is what the stream will still hand over, in order; `outbound`
   what it has accepted. That enough bytes are on their way is the peer's doing, so a receive asks
   for it: without them the call would not return.
   */
  class Socket {
    var inbound: seq<Byte>
    var outbound: seq<Byte>
    ghost var calls: seq<Call>
    /** The most bytes one call moves. */
    const most: Positive

    constructor (stream: seq<Byte>, most: Positive)
      ensures inbound == stream && outbound == [] && calls == [] && this.most == most
    {
      inbound, outbound, calls, this.most := stream, [], [], most;
    }

    /** Every count a call can report in moving a message of this size is what it reads as in an int. */
    ghost predicate Countable(size: nat) {
      size < TWO_64 && forall k: nat :: k <= size && k <= most ==> ToInt(k) == k
    }

    /** That is: the message is small enough itself, or every call's share of it is. */
    lemma CountableExactly(size: nat)
      ensures Countable(size) <==> size < TWO_64 && (size < TWO_31 || most < TWO_31)
    {
      if size >= TWO_31 && most >= TWO_31 {
        assert ToInt(TWO_31) != TWO_31;
      }
    }

    /** `send`: accepts some positive number of the bytes offered. */
    method Send(message: seq<Byte>) returns (k: nat)
      requires message != []
      modifies this
      ensures 1 <= k <= |message| && k <= most
      ensures outbound == old(outbound) + message[..k] && inbound == old(inbound)
      ensures calls == old(calls) + [SendCall(k)]
    {
      k :| 1 <= k <= |message| && k <= most;
      outbound, calls := outbound + message[..k], calls + [SendCall(k)];
    }

    /**
     `recv`: hands over some positive number of the next bytes, at most `len`, to be stored from
     index `at` of the buffer on. What does not fit is stored behind the buffer's end (`overrun`),
     where nothing is known of it.
     */
    method Recv(buffer: array<Byte>, at: nat, len: nat) returns (k: nat, overrun: bool)
      requires 0 < len && inbound != []
      modifies this, buffer
      ensures 1 <= k <= len && k <= |old(inbound)| && k <= most
      ensures overrun <==> at + k > buffer.Length
      ensures forall i :: 0 <= i < buffer.Length ==>
                buffer[i] == if at <= i < at + k then old(inbound)[i - at] else old(buffer[i])
      ensures inbound == old(inbound)[k..] && outbound == old(outbound)
      ensures calls == old(calls) + [RecvCall(k, buffer.Length)]
    {
      k :| 1 <= k <= len && k <= |inbound| && k <= most;
      overrun := at + k > buffer.Length;
      forall i | at <= i < at + k && i < buffer.Length {
        buffer[i] := inbound[i - at];
      }
      inbound, calls := inbound[k..], calls + [RecvCall(k, buffer.Length)];
    }

    /** A retry loop is left; the machine sees it as a step of its own. */
    ghost method Left()
      modifies this`calls
      ensures calls == old(calls) + [Return]
    {
      calls := calls + [Return];
    }
  }

  // ---- the retry loops, the same on both sides ----

  /** Where a retry loop stands: the calls made since `before` have brought its action this far. */
  predicate Reached(before: seq<Call>, calls: seq<Call>, whole: Act, now: Act) {
    before <= calls && Leads([whole], calls[|before|..], [now])
  }

  lemma Entered(calls: seq<Call>, whole: Act)
    ensures Reached(calls, calls, whole, whole)
  {
    assert calls[|calls|..] == [];
  }

  lemma OneCallOn(before: seq<Call>, calls: seq<Call>, whole: Act, now: Act, c: Call, next: Act)
    requires Reached(before, calls, whole, now) && CanDo([now], c) && Did([now], c) == [next]
    ensures Reached(before, calls + [c], whole, next)
  {
    LeadsOn([whole], calls[|before|..], [now], c);
    assert (calls + [c])[|before|..] == calls[|before|..] + [c];
  }

  /** The loop is left: every byte has moved, and the calls carry out the whole action. */
  lemma LoopLeft(before: seq<Call>, calls: seq<Call>, whole: Act, last: Act)
    requires Reached(before, calls, whole, last) && Over(last)
    ensures Made(before, calls + [Return], [whole])
  {
    LeadsOn([whole], calls[|before|..], [last], Return);
    assert Did([last], Return) == [];
    assert (calls + [Return])[|before|..] == calls[|before|..] + [Return];
  }

  /** One more `send`. */
  lemma SentMore(before: seq<Call>, calls: seq<Call>, message: seq<Byte>, size: nat, sent: nat, k: nat, out: seq<Byte>)
    requires sent + k <= size <= |message| && 1 <= k
    requires Reached(before, calls, Put(message[..size]), Put(message[sent..size]))
    ensures Reached(before, calls + [SendCall(k)], Put(message[..size]), Put(message[sent + k..size]))
    ensures out + message[..sent] + message[sent..size][..k] == out + message[..sent + k]
  {
    assert message[sent..size][k..] == message[sent + k..size];
    OneCallOn(before, calls, Put(message[..size]), Put(message[sent..size]), SendCall(k), Put(message[sent + k..size]));
    assert message[..sent + k] == message[..sent] + message[sent..size][..k];
  }

  /** `send_tcp_message`: the whole message goes out, in order, whatever each `send` accepts. */
  method SendTcpMessage(socket: Socket, message: seq<Byte>, size: SizeT)
    requires size <= |message| && socket.Countable(size)
    modifies socket
    ensures socket.outbound == old(socket.outbound) + message[..size] && socket.inbound == old(socket.inbound)
    ensures Made(old(socket.calls), socket.calls, [Put(message[..size])])
  {
    var bytesSent: SizeT := 0;
    assert message[0..size] == message[..size];
    Entered(socket.calls, Put(message[..size]));
    while bytesSent < size
      invariant bytesSent <= size
      invariant socket.outbound == old(socket.outbound) + message[..bytesSent] && socket.inbound == old(socket.inbound)
      invariant Reached(old(socket.calls), socket.calls, Put(message[..size]), Put(message[bytesSent..size]))
      decreases size - bytesSent
    {
      ghost var calls := socket.calls;
      var k := socket.Send(message[bytesSent..size]);
      SentMore(old(socket.calls), calls, message, size, bytesSent, k, old(socket.outbound));
      assert socket.Countable(size) && ToInt(k) == k;
      bytesSent := AddCount(bytesSent, k);
    }
    assert message[bytesSent..size] == [];
    LoopLeft(old(socket.calls), socket.calls, Put(message[..size]), Put([]));
    socket.Left();
  }

  /** The buffer of a receive loop: the stream as far as it has been read, and then what the buffer held before. */
  predicate Stored(buffer: seq<Byte>, stream: seq<Byte>, held: seq<Byte>, read: nat) {
    && read <= |stream| && |buffer| == |held|
    && forall i :: 0 <= i < |buffer| ==> buffer[i] == if i < read then stream[i] else held[i]
  }

  lemma StoredIs(buffer: seq<Byte>, stream: seq<Byte>, held: seq<Byte>, read: nat)
    requires Stored(buffer, stream, held, read) && read <= |held|
    ensures buffer == stream[..read] + held[read..] && buffer[..read] == stream[..read]
  {
  }

  lemma StoredMore(buffer: seq<Byte>, buffer': seq<Byte>, stream: seq<Byte>, held: seq<Byte>, read: nat, k: nat, next: nat)
    requires Stored(buffer, stream, held, read) && next == read + k <= |stream| && |buffer'| == |buffer|
    requires forall i :: 0 <= i < |buffer| ==> buffer'[i] == if read <= i < next then stream[read..][i - read] else buffer[i]
    ensures Stored(buffer', stream, held, next)
    ensures stream[read..][k..] == stream[next..]
  {
  }

  /** Everything the receive loop keeps after `read` bytes. */
  predicate Reading(size: nat, room: nat, read: nat, stream: seq<Byte>, held: seq<Byte>, buffer: seq<Byte>, inbound: seq<Byte>,
                    before: seq<Call>, calls: seq<Call>, overrun: bool) {
    && read <= size <= |stream| && inbound == stream[read..] && |held| == room
    && Stored(buffer, stream, held, read) && (overrun <==> read > room)
    && Reached(before, calls, Take(size, room), Take(size - read, room))
  }

  lemma ReadMore(size: nat, room: nat, read: nat, stream: seq<Byte>, held: seq<Byte>, buffer: seq<Byte>, inbound: seq<Byte>,
                 before: seq<Call>, calls: seq<Call>, overrun: bool, k: nat, buffer': seq<Byte>, out: bool)
    requires Reading(size, room, read, stream, held, buffer, inbound, before, calls, overrun)
    requires 1 <= k <= size - read && (out <==> read + k > room) && |buffer'| == |buffer|
    requires forall i :: 0 <= i < |buffer| ==> buffer'[i] == if read <= i < read + k then inbound[i - read] else buffer[i]
    ensures Reading(size, room, read + k, stream, held, buffer', inbound[k..], before, calls + [RecvCall(k, room)], overrun || out)
  {
    StoredMore(buffer, buffer', stream, held, read, k, read + k);
    OneCallOn(before, calls, Take(size, room), Take(size - read, room), RecvCall(k, room), Take(size - read - k, room));
  }

  /**
   `receive_message`: the next `size` bytes of the stream, in order, whatever each `recv` hands
   over; they leave the buffer exactly if there are more of them than it has room for.
   */
  method ReceiveMessage(socket: Socket, size: SizeT, data: array<Byte>) returns (overrun: bool)
    requires socket.Countable(size) && size <= |socket.inbound|
    modifies socket, data
    ensures overrun <==> size > data.Length
    ensures Stored(data[..], old(socket.inbound), old(data[..]), size)
    ensures socket.inbound == old(socket.inbound)[size..] && socket.outbound == old(socket.outbound)
    ensures Made(old(socket.calls), socket.calls, [Take(size, data.Length)])
  {
    var bytesRead: SizeT := 0;
    overrun := false;
    ghost var stream, held, room, before := socket.inbound, data[..], data.Length, socket.calls;
    Entered(before, Take(size, room));
    while bytesRead < size
      invariant socket.outbound == old(socket.outbound)
      invariant Reading(size, room, bytesRead, stream, held, data[..], socket.inbound, before, socket.calls, overrun)
      decreases size - bytesRead
    {
      ghost var calls, buffer, inbound := socket.calls, data[..], socket.inbound;
      var k, out := socket.Recv(data, bytesRead, size - bytesRead);
      ReadMore(size, room, bytesRead, stream, held, buffer, inbound, before, calls, overrun, k, data[..], out);
      assert socket.Countable(size) && ToInt(k) == k;
      bytesRead := AddCount(bytesRead, k);
      overrun := overrun || out;
    }
    LoopLeft(before, socket.calls, Take(size, room), Take(0, room));
    socket.Left();
  }

  /** `std::copy` of the first `len` bytes of one vector into another from `at` on. */
  method Copy(source: array<Byte>, len: nat, target: array<Byte>, at: nat)
    requires source != target && len <= source.Length && at + len <= target.Length
    modifies target
    ensures target[..] == old(target[..])[..at] + source[..len] + old(target[..])[at + len..]
  {
    forall i | at <= i < at + len {
      target[i] := source[i - at];
    }
  }
}
