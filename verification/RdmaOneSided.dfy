/**
 The one-sided throughput sessions: the two programs each peer's loops issue, the plan they are
 the projections of, and what every run of them does to the data.
 */
module RdmaOneSided {
  import opened Sequences
  import opened Chunks
  import opened RdmaMachine
  import opened RdmaTheorems

  function Reads(spans: seq<Span>): (ops: seq<Op>)
    ensures |ops| == |spans| && forall i :: 0 <= i < |spans| ==> ops[i] == ReadChunk(spans[i].off, spans[i].len)
  {
    if spans == [] then [] else [ReadChunk(spans[0].off, spans[0].len)] + Reads(spans[1..])
  }

  function Writes(spans: seq<Span>): (ops: seq<Op>)
    ensures |ops| == |spans| && forall i :: 0 <= i < |spans| ==> ops[i] == WriteChunk(spans[i].off, spans[i].len)
  {
    if spans == [] then [] else [WriteChunk(spans[0].off, spans[0].len)] + Writes(spans[1..])
  }

  lemma NothingBetween(a: seq<Action>, b: seq<Action>, c: seq<Action>, d: seq<Action>)
    ensures a + b + Dos([]) + c + d == a + b + c + d
  {
    assert a + b + [] == a + b;
  }

  /** After one more chunk is copied, what remains to copy gives the same whole. */
  lemma SpliceThenRest(target: seq<Byte>, off: nat, source: seq<Byte>, len: nat)
    requires |target| == |source| && off + len <= |source|
    ensures var t := Splice(target, off, source, len);
            |t| == |target| && t[..off + len] + source[off + len..] == target[..off] + source[off..]
  {
    assert source[off..] == source[off..off + len] + source[off + len..];
    assert Splice(target, off, source, len)[..off + len] == target[..off] + source[off..off + len];
  }

  /** Reading every span from `off` on, chunk by chunk, copies the region from `off` on. */
  lemma {:induction false} ReadsCopy(off: nat, n: nat, b: nat, m: Mem)
    requires 0 < b && off <= n && |m.local| == n && |m.region| == n
    ensures Exec(Reads(Spans(off, n, b)), m) == m.(local := m.local[..off] + m.region[off..])
    decreases n - off
  {
    var s := Spans(off, n, b);
    var m1 := Apply(Reads(s)[0], m);
    SpliceThenRest(m.local, off, m.region, s[0].len);
    if n - off < b {
      ExecOne(ReadChunk(off, n - off), m);
    } else {
      var t := Spans(off + b, n, b);
      assert s[1..] == t;
      assert Reads(s) == [ReadChunk(off, b)] + Reads(t);
      ReadsCopy(off + b, n, b, m1);
    }
  }

  lemma {:induction false} WritesCopy(off: nat, n: nat, b: nat, m: Mem)
    requires 0 < b && off <= n && |m.local| == n && |m.region| == n
    ensures Exec(Writes(Spans(off, n, b)), m) == m.(region := m.region[..off] + m.local[off..])
    decreases n - off
  {
    var s := Spans(off, n, b);
    var m1 := Apply(Writes(s)[0], m);
    SpliceThenRest(m.region, off, m.local, s[0].len);
    if n - off < b {
      ExecOne(WriteChunk(off, n - off), m);
    } else {
      var t := Spans(off + b, n, b);
      assert s[1..] == t;
      assert Writes(s) == [WriteChunk(off, b)] + Writes(t);
      WritesCopy(off + b, n, b, m1);
    }
  }

  // ---- read throughput ----

  /**
   A read session: `fills[r]` is what the server's refill leaves in its data in round r,
   `scratch[r]` what the client's new local buffer happens to hold, `ctl` the byte in a control
   message's buffer. None of them is ever chosen by the protocol.
   */
  datatype ReadTp = ReadTp(n: nat, sizes: seq<nat>, region: seq<Byte>, fills: seq<seq<Byte>>, scratch: seq<seq<Byte>>, ctl: Byte) {
    predicate Valid() {
      && |fills| == |sizes| == |scratch| && |region| == n
      && forall r :: 0 <= r < |sizes| ==> 0 < sizes[r] && |fills[r]| == n && |scratch[r]| == n
    }

    function ClientRound(r: nat): seq<Action>
      requires Valid() && r < |sizes|
    {
      [Do(AllocLocal(scratch[r]))] + [Recv(Ready(r), 1)] + Dos(Reads(Spans(0, n, sizes[r]))) + [Send(Finish(r), [ctl])]
    }

    function ClientFrom(r: nat): seq<Action>
      requires Valid() && r <= |sizes|
      decreases |sizes| - r
    {
      if r == |sizes| then [Send(Done, [ctl])] else ClientRound(r) + ClientFrom(r + 1)
    }

    function ServerRound(r: nat): seq<Action>
      requires Valid() && r < |sizes|
    {
      [Do(FillRegion(fills[r]))] + [Send(Ready(r), [ctl])] + [Recv(Finish(r), 1)]
    }

    function ServerFrom(r: nat): seq<Action>
      requires Valid() && r <= |sizes|
      decreases |sizes| - r
    {
      if r == |sizes| then [Recv(Done, 1)] else ServerRound(r) + ServerFrom(r + 1)
    }

    function Client(): seq<Action>
      requires Valid()
    {
      [Connect] + ClientFrom(0)
    }

    function Server(): seq<Action>
      requires Valid()
    {
      [Do(AllocRegion(region)), Accept] + ServerFrom(0)
    }

    function BlocksFrom(r: nat): seq<Block>
      requires Valid() && r <= |sizes|
      decreases |sizes| - r
    {
      if r == |sizes| then [Block([], [], Message(true, Done, [ctl], 1))]
      else
        [Block([AllocLocal(scratch[r])], [FillRegion(fills[r])], Message(false, Ready(r), [ctl], 1))]
        + ([Block(Reads(Spans(0, n, sizes[r])), [], Message(true, Finish(r), [ctl], 1))]
           + BlocksFrom(r + 1))
    }

    function Blocks(): seq<Block>
      requires Valid()
    {
      [Block([], [AllocRegion(region)], Handshake)] + BlocksFrom(0)
    }

    lemma {:induction false} ProjectsFrom(r: nat)
      requires Valid() && r <= |sizes|
      ensures ClientPart(BlocksFrom(r)) == ClientFrom(r) && ServerPart(BlocksFrom(r)) == ServerFrom(r)
      decreases |sizes| - r
    {
      if r == |sizes| {
        PartsOfOne(BlocksFrom(r)[0]);
      } else {
        ProjectsFrom(r + 1);
        var b1 := Block([AllocLocal(scratch[r])], [FillRegion(fills[r])], Message(false, Ready(r), [ctl], 1));
        var b2 := Block(Reads(Spans(0, n, sizes[r])), [], Message(true, Finish(r), [ctl], 1));
        PartsOfTwo(b1, b2, BlocksFrom(r + 1), ClientFrom(r + 1), ServerFrom(r + 1));
        DosOfOne(AllocLocal(scratch[r]));
        DosOfOne(FillRegion(fills[r]));
        NothingBetween(Dos(b1.sops), [ServerSide(b1.comm)], [ServerSide(b2.comm)], ServerFrom(r + 1));
      }
    }

    /** The two independently written programs are the two sides of one plan. */
    lemma Projects()
      requires Valid()
      ensures ClientPart(Blocks()) == Client() && ServerPart(Blocks()) == Server()
    {
      ProjectsFrom(0);
      PartsOfOpening(AllocRegion(region), BlocksFrom(0));
    }

    lemma {:induction false} OkFrom(r: nat)
      requires Valid() && r <= |sizes|
      ensures forall b :: b in BlocksFrom(r) ==> BlockOk(b) && Prepared(b)
      decreases |sizes| - r
    {
      if r < |sizes| {
        OkFrom(r + 1);
      }
    }

    lemma Ok()
      requires Valid()
      ensures forall b :: b in Blocks() ==> BlockOk(b) && Prepared(b)
    {
      OkFrom(0);
    }

    /** At every end-of-round control message the local buffer is that round's data; nothing goes out of bounds. */
    lemma {:induction false} MemFrom(r: nat, m: Mem, t: nat)
      requires Valid() && r <= |sizes| && t < |BlocksFrom(r)|
      requires |m.region| == n && !m.fault
      ensures var a := MemAfter(BlocksFrom(r), m, t + 1); var c := BlocksFrom(r)[t].comm;
              && !a.fault
              && (c.Message? && c.tag.Finish? ==> c.tag.round < |sizes| && a.local == fills[c.tag.round])
              && (c.Message? && c.tag.Ready? ==> c.tag.round < |sizes| && a.region == fills[c.tag.round])
      decreases |sizes| - r
    {
      var bs := BlocksFrom(r);
      if r < |sizes| {
        var m1 := RunBlock(bs[0], m);
        ExecOne(FillRegion(fills[r]), m);
        ExecOne(AllocLocal(scratch[r]), m.(region := fills[r]));
        assert m1 == Mem(scratch[r], fills[r], false);
        var m2 := RunBlock(bs[1], m1);
        assert m2 == m1.(local := fills[r]) by {
          ReadsCopy(0, n, sizes[r], m1);
          assert Exec(bs[1].sops, m1) == m1;
          assert m1.local[..0] + m1.region[0..] == fills[r];
        }
        assert bs[1..][1..] == BlocksFrom(r + 1);
        assert MemAfter(bs, m, 1) == m1;
        assert MemAfter(bs, m, 2) == MemAfter(bs[1..], m1, 1) == m2;
        if t >= 2 {
          MemFrom(r + 1, m2, t - 2);
          assert MemAfter(bs, m, t + 1) == MemAfter(bs[1..], m1, t) == MemAfter(BlocksFrom(r + 1), m2, t - 1);
          assert bs[t] == BlocksFrom(r + 1)[t - 2];
        }
      } else {
        assert RunBlock(bs[0], m) == m;
      }
    }

    lemma MemOf(m: Mem, t: nat)
      requires Valid() && t < |Blocks()| && !m.fault
      ensures var a := MemAfter(Blocks(), m, t + 1); var c := Blocks()[t].comm;
              && !a.fault
              && (c.Message? && c.tag.Finish? ==> c.tag.round < |sizes| && a.local == fills[c.tag.round])
              && (c.Message? && c.tag.Ready? ==> c.tag.round < |sizes| && a.region == fills[c.tag.round])
    {
      var bs := Blocks();
      var m1 := m.(region := region);
      ExecOne(AllocRegion(region), m);
      assert RunBlock(bs[0], m) == m1;
      assert bs[1..] == BlocksFrom(0);
      if t == 0 {
        assert MemAfter(bs, m, 1) == m1;
      } else {
        MemFrom(0, m1, t - 1);
      }
    }
  }

  /** A client about to send the end-of-round message of round r holds that round's data in its local buffer. */
  ghost predicate ReadRoundHolds(e: ReadTp, s: State)
    requires e.Valid()
  {
    forall r: nat, payload ::
      s.client.todo != [] && s.client.todo[0] == Send(Finish(r), payload) && s.client.phase != Moved
      ==> r < |e.sizes| && s.mem.local == e.fills[r]
  }

  /** Should block k end in an end-of-round message, the local buffer there is that round's data. */
  predicate LocalIsFill(bs: seq<Block>, m: Mem, k: nat, e: ReadTp)
    requires e.Valid()
  {
    k < |bs| && bs[k].comm.Message? && bs[k].comm.tag.Finish? ==>
      bs[k].comm.tag.round < |e.sizes| && MemAfter(bs, m, k + 1).local == e.fills[bs[k].comm.tag.round]
  }

  /** In a run whose local buffer at its meetings is as the read session has it, the client keeps the session's promise. */
  lemma ReadPart(p: Plan, e: ReadTp, m: Mem, states: seq<State>, t: nat)
    requires PlanOk(p) && e.Valid() && Run(Start(p, m), states) && t < |states|
    requires |states[t].log| < |p.blocks| && LocalIsFill(p.blocks, m, |states[t].log|, e)
    ensures ReadRoundHolds(e, states[t])
  {
    var client := states[t].client;
    if client.todo != [] && client.todo[0].Send? && client.todo[0].tag.Finish? && client.phase != Moved {
      LocalBeforeMeeting(p, m, states, t);
    }
  }

  /** A server about to announce round r has its refill of that round in the registered buffer. */
  ghost predicate FilledWhenReady(e: ReadTp, s: State)
    requires e.Valid()
  {
    forall r: nat, payload ::
      s.server.todo != [] && s.server.todo[0] == Send(Ready(r), payload) && s.server.phase != Moved
      ==> r < |e.sizes| && s.mem.region == e.fills[r]
  }

  /**
   The read session, for every data size, every list of positive chunk sizes and every run: the
   server's refill never overlaps an outstanding client read, no access leaves a buffer, and
   whenever the client is about to send its end-of-round control message its local buffer equals
   the data the server generated for that very round.
   */
  lemma ReadSessionSafe(e: ReadTp, m: Mem, states: seq<State>, t: nat)
    requires e.Valid() && !m.fault && Run(Init(e.Client(), e.Server(), m), states) && t < |states|
    ensures !Racing(states[t]) && !states[t].mem.fault
    ensures ReadRoundHolds(e, states[t]) && FilledWhenReady(e, states[t])
  {
    var p := Plan(e.Blocks(), [], []);
    e.Projects();
    e.Ok();
    assert ClientProgram(p) == e.Client() && ServerProgram(p) == e.Server();
    e.MemOf(m, |p.blocks| - 1);
    EveryStateSafe(p, m, states, t);
    var k := |states[t].log|;
    if k < |p.blocks| {
      e.MemOf(m, k);
      ReadPart(p, e, m, states, t);
    } else {
      ClientIsDone(p, m, states, t);
    }
    var v := states[t].server;
    if v.todo != [] && v.todo[0].Send? && v.phase != Moved {
      RegionWhenSending(p, m, states, t);
    }
  }

  /** The read session always finishes: no run deadlocks, and none leaves a message pending. */
  lemma ReadSessionFinishes(e: ReadTp, m: Mem, states: seq<State>)
    requires e.Valid() && Maximal(Init(e.Client(), e.Server(), m), states)
    ensures Finished(states[|states| - 1])
    ensures states[|states| - 1].log == Expected(Plan(e.Blocks(), [], []), m, |e.Blocks()|)
  {
    var p := Plan(e.Blocks(), [], []);
    e.Projects();
    e.Ok();
    assert ClientProgram(p) == e.Client() && ServerProgram(p) == e.Server();
    MaximalRunsEnd(p, m, states);
  }

  /** Bytes that are all zero, as many as the data has. */
  predicate Cleared(bytes: seq<Byte>, n: nat) {
    |bytes| == n && forall i :: 0 <= i < n ==> bytes[i] == 0
  }

  // ---- write throughput ----

  /**
   A write session. The client's local buffer is its data vector: `sources[r]` is what the vector
   holds in round r, `sources[0]` as generated and every later one by the refill in place after
   the round before. `region` is what the server's new buffer happens to hold.
   */
  datatype WriteTp = WriteTp(n: nat, sizes: seq<nat>, region: seq<Byte>, sources: seq<seq<Byte>>, ctl: Byte) {
    predicate Valid() {
      && |sources| == |sizes| + 1 && |region| == n
      && (forall r :: 0 <= r < |sizes| ==> 0 < sizes[r])
      && (forall r :: 0 <= r < |sources| ==> |sources[r]| == n)
    }

    function Zeros(): (z: seq<Byte>)
      ensures |z| == n
    {
      seq(n, _ => 0)
    }

    function ClientRound(r: nat): seq<Action>
      requires Valid() && r < |sizes|
    {
      [Recv(Ready(r), 1)] + Dos(Writes(Spans(0, n, sizes[r]))) + [Send(Finish(r), [ctl])]
    }

    function ClientFrom(r: nat): seq<Action>
      requires Valid() && r <= |sizes|
      decreases |sizes| - r
    {
      if r == |sizes| then [Send(Done, [ctl])]
      else ClientRound(r) + [Do(FillLocal(sources[r + 1]))] + ClientFrom(r + 1)
    }

    function ServerRound(r: nat): seq<Action>
      requires Valid() && r < |sizes|
    {
      [Do(FillRegion(Zeros()))] + [Send(Ready(r), [ctl])] + [Recv(Finish(r), 1)]
    }

    function ServerFrom(r: nat): seq<Action>
      requires Valid() && r <= |sizes|
      decreases |sizes| - r
    {
      if r == |sizes| then [Recv(Done, 1)] else ServerRound(r) + ServerFrom(r + 1)
    }

    function Client(): seq<Action>
      requires Valid()
    {
      [Do(AllocLocal(sources[0])), Connect] + ClientFrom(0)
    }

    function Server(): seq<Action>
      requires Valid()
    {
      [Do(AllocRegion(region)), Accept] + ServerFrom(0)
    }

    /** The blocks from round r on; `pre` is the refill the client still owes from the round before. */
    function BlocksFrom(r: nat, pre: seq<Op>): seq<Block>
      requires Valid() && r <= |sizes|
      decreases |sizes| - r
    {
      if r == |sizes| then [Block(pre, [], Message(true, Done, [ctl], 1))]
      else
        [Block(pre, [FillRegion(Zeros())], Message(false, Ready(r), [ctl], 1))]
        + ([Block(Writes(Spans(0, n, sizes[r])), [], Message(true, Finish(r), [ctl], 1))]
           + BlocksFrom(r + 1, [FillLocal(sources[r + 1])]))
    }

    function Blocks(): seq<Block>
      requires Valid()
    {
      [Block([AllocLocal(sources[0])], [AllocRegion(region)], Handshake)] + BlocksFrom(0, [])
    }

    lemma {:induction false} ProjectsFrom(r: nat, pre: seq<Op>)
      requires Valid() && r <= |sizes|
      ensures ClientPart(BlocksFrom(r, pre)) == Dos(pre) + ClientFrom(r)
      ensures ServerPart(BlocksFrom(r, pre)) == ServerFrom(r)
      decreases |sizes| - r
    {
      if r == |sizes| {
        PartsOfOne(BlocksFrom(r, pre)[0]);
      } else {
        var next := [FillLocal(sources[r + 1])];
        ProjectsFrom(r + 1, next);
        var b1 := Block(pre, [FillRegion(Zeros())], Message(false, Ready(r), [ctl], 1));
        var b2 := Block(Writes(Spans(0, n, sizes[r])), [], Message(true, Finish(r), [ctl], 1));
        PartsOfTwo(b1, b2, BlocksFrom(r + 1, next), Dos(next) + ClientFrom(r + 1), ServerFrom(r + 1));
        DosOfOne(FillLocal(sources[r + 1]));
        DosOfOne(FillRegion(Zeros()));
        NothingBetween(Dos(b1.sops), [ServerSide(b1.comm)], [ServerSide(b2.comm)], ServerFrom(r + 1));
        Assoc(ClientRound(r), Dos(next), ClientFrom(r + 1));
        Assoc(Dos(pre), ClientRound(r), Dos(next) + ClientFrom(r + 1));
        Assoc4(Dos(pre), [Recv(Ready(r), 1)], Dos(b2.cops), [Send(Finish(r), [ctl])]);
      }
    }

    lemma Projects()
      requires Valid()
      ensures ClientPart(Blocks()) == Client() && ServerPart(Blocks()) == Server()
    {
      ProjectsFrom(0, []);
      PartsCons(Block([AllocLocal(sources[0])], [AllocRegion(region)], Handshake), BlocksFrom(0, []));
      DosOfOne(AllocRegion(region));
      DosOfOne(AllocLocal(sources[0]));
      assert Dos([]) + ClientFrom(0) == ClientFrom(0);
    }

    /** After an end-of-round message the client keeps off the region until the next meeting. */
    lemma {:induction false} OkFrom(r: nat, pre: seq<Op>)
      requires Valid() && r <= |sizes| && forall op :: op in pre ==> LocalOp(op)
      ensures forall b :: b in BlocksFrom(r, pre) ==> BlockOk(b) && Prepared(b)
      ensures forall t :: 0 <= t < |BlocksFrom(r, pre)| - 1 && Upward(BlocksFrom(r, pre)[t].comm) ==>
                forall op :: op in BlocksFrom(r, pre)[t + 1].cops ==> LocalOp(op)
      decreases |sizes| - r
    {
      if r < |sizes| {
        var next := [FillLocal(sources[r + 1])];
        OkFrom(r + 1, next);
        var bs, tail := BlocksFrom(r, pre), BlocksFrom(r + 1, next);
        assert bs[0].comm == Message(false, Ready(r), [ctl], 1);
        assert bs[2].cops == tail[0].cops == next;
        forall t | 0 <= t < |bs| - 1 && Upward(bs[t].comm)
          ensures forall op :: op in bs[t + 1].cops ==> LocalOp(op)
        {
          if t >= 2 {
            assert bs[t] == tail[t - 2] && bs[t + 1] == tail[t - 2 + 1];
          }
        }
      }
    }

    lemma Ok()
      requires Valid()
      ensures forall b :: b in Blocks() ==> BlockOk(b) && Prepared(b)
      ensures forall t :: 1 <= t < |Blocks()| - 1 && Upward(Blocks()[t].comm) ==>
                forall op :: op in Blocks()[t + 1].cops ==> LocalOp(op)
    {
      OkFrom(0, []);
      forall t | 1 <= t < |Blocks()| - 1 && Upward(Blocks()[t].comm)
        ensures forall op :: op in Blocks()[t + 1].cops ==> LocalOp(op)
      {
        assert Blocks()[t] == BlocksFrom(0, [])[t - 1] && Blocks()[t + 1] == BlocksFrom(0, [])[t - 1 + 1];
      }
    }

    lemma {:induction false} MemFrom(r: nat, pre: seq<Op>, m: Mem, t: nat)
      requires Valid() && r <= |sizes| && t < |BlocksFrom(r, pre)|
      requires |m.region| == n && |m.local| == n && !m.fault
      requires (pre == [] && m.local == sources[r]) || pre == [FillLocal(sources[r])]
      ensures var a := MemAfter(BlocksFrom(r, pre), m, t + 1); var c := BlocksFrom(r, pre)[t].comm;
              && !a.fault
              && (c.Message? && c.tag.Finish? ==> c.tag.round < |sizes| && a.region == sources[c.tag.round])
              && (c.Message? && c.tag.Ready? ==> Cleared(a.region, n))
      decreases |sizes| - r
    {
      var bs := BlocksFrom(r, pre);
      if r < |sizes| {
        var next := [FillLocal(sources[r + 1])];
        var m1 := RunBlock(bs[0], m);
        ExecOne(FillRegion(Zeros()), m);
        ExecOne(FillLocal(sources[r]), m.(region := Zeros()));
        assert m1 == Mem(sources[r], Zeros(), false);
        var m2 := RunBlock(bs[1], m1);
        assert m2 == m1.(region := sources[r]) by {
          WritesCopy(0, n, sizes[r], m1);
          assert Exec(bs[1].sops, m1) == m1;
          assert m1.region[..0] + m1.local[0..] == sources[r];
        }
        assert bs[1..][1..] == BlocksFrom(r + 1, next);
        assert MemAfter(bs, m, 1) == m1;
        assert MemAfter(bs, m, 2) == MemAfter(bs[1..], m1, 1) == m2;
        if t >= 2 {
          MemFrom(r + 1, next, m2, t - 2);
          assert MemAfter(bs, m, t + 1) == MemAfter(bs[1..], m1, t) == MemAfter(BlocksFrom(r + 1, next), m2, t - 1);
          assert bs[t] == BlocksFrom(r + 1, next)[t - 2];
        }
      } else {
        ExecOne(FillLocal(sources[r]), m);
        assert MemAfter(bs, m, 1) == RunBlock(bs[0], m);
      }
    }

    lemma MemOf(m: Mem, t: nat)
      requires Valid() && t < |Blocks()| && !m.fault
      ensures var a := MemAfter(Blocks(), m, t + 1); var c := Blocks()[t].comm;
              && !a.fault
              && (c.Message? && c.tag.Finish? ==> c.tag.round < |sizes| && a.region == sources[c.tag.round])
              && (c.Message? && c.tag.Ready? ==> Cleared(a.region, n))
    {
      var bs := Blocks();
      var m1 := Mem(sources[0], region, false);
      ExecOne(AllocRegion(region), m);
      ExecOne(AllocLocal(sources[0]), m.(region := region));
      assert RunBlock(bs[0], m) == m1;
      assert bs[1..] == BlocksFrom(0, []);
      if t == 0 {
        assert MemAfter(bs, m, 1) == m1;
      } else {
        MemFrom(0, [], m1, t - 1);
      }
    }
  }

  /** A server returning from the wait for the end of round r has that round's source in its whole buffer. */
  ghost predicate WriteRoundHolds(e: WriteTp, s: State)
    requires e.Valid()
  {
    forall r: nat, cap ::
      s.server.todo != [] && s.server.todo[0] == Recv(Finish(r), cap) && s.server.phase == Moved
      ==> r < |e.sizes| && s.mem.region == e.sources[r]
  }

  /** Should the block before k end in an end-of-round message, the region behind it is that round's source. */
  predicate RegionIsSource(bs: seq<Block>, m: Mem, k: nat, e: WriteTp)
    requires e.Valid()
  {
    0 < k <= |bs| && bs[k - 1].comm.Message? && bs[k - 1].comm.tag.Finish? ==>
      bs[k - 1].comm.tag.round < |e.sizes| && MemAfter(bs, m, k).region == e.sources[bs[k - 1].comm.tag.round]
  }

  /** In a run whose region behind its meetings is as the write session has it, the server finds what the session promises. */
  lemma WritePart(p: Plan, e: WriteTp, m: Mem, states: seq<State>, t: nat)
    requires PlanOk(p) && e.Valid() && Run(Start(p, m), states) && t < |states|
    requires KeepsOff(p.blocks, |states[t].log|) && RegionIsSource(p.blocks, m, |states[t].log|, e)
    ensures WriteRoundHolds(e, states[t])
  {
    var server := states[t].server;
    if server.todo != [] && server.todo[0].Recv? && server.todo[0].tag.Finish? && server.phase == Moved {
      RegionReturned(p, m, states, t);
    }
  }

  /** A server about to announce a round has nothing but zeros in the registered buffer. */
  ghost predicate ClearWhenReady(e: WriteTp, s: State) {
    forall r: nat, payload ::
      s.server.todo != [] && s.server.todo[0] == Send(Ready(r), payload) && s.server.phase != Moved
      ==> |s.mem.region| == e.n && forall i :: 0 <= i < e.n ==> s.mem.region[i] == 0
  }

  /**
   The write session: the server's memset never overlaps an outstanding client write, and while
   the server's wait for the end of round r returns, its whole buffer equals the client's round-r
   source, although the client may already be refilling that source for the next round.
   */
  lemma WriteSessionSafe(e: WriteTp, m: Mem, states: seq<State>, t: nat)
    requires e.Valid() && !m.fault && Run(Init(e.Client(), e.Server(), m), states) && t < |states|
    ensures !Racing(states[t]) && !states[t].mem.fault
    ensures WriteRoundHolds(e, states[t]) && ClearWhenReady(e, states[t])
  {
    var p := Plan(e.Blocks(), [], []);
    e.Projects();
    e.Ok();
    assert ClientProgram(p) == e.Client() && ServerProgram(p) == e.Server();
    e.MemOf(m, |p.blocks| - 1);
    EveryStateSafe(p, m, states, t);
    var k := |states[t].log|;
    if k > 0 {
      e.MemOf(m, k - 1);
    }
    WritePart(p, e, m, states, t);
    var v := states[t].server;
    if v.todo != [] && v.todo[0].Send? && v.phase != Moved {
      RegionWhenSending(p, m, states, t);
      e.MemOf(m, k);
    }
  }

  lemma WriteSessionFinishes(e: WriteTp, m: Mem, states: seq<State>)
    requires e.Valid() && Maximal(Init(e.Client(), e.Server(), m), states)
    ensures Finished(states[|states| - 1])
    ensures states[|states| - 1].log == Expected(Plan(e.Blocks(), [], []), m, |e.Blocks()|)
  {
    var p := Plan(e.Blocks(), [], []);
    e.Projects();
    e.Ok();
    assert ClientProgram(p) == e.Client() && ServerProgram(p) == e.Server();
    MaximalRunsEnd(p, m, states);
  }

  // ---- counting control messages ----

  function Sends(program: seq<Action>): nat {
    if program == [] then 0 else (if program[0].Send? then 1 else 0) + Sends(program[1..])
  }

  function Waits(program: seq<Action>): nat {
    if program == [] then 0 else (if program[0].Recv? then 1 else 0) + Waits(program[1..])
  }

  lemma {:induction false} CountsAppend(a: seq<Action>, b: seq<Action>)
    ensures Sends(a + b) == Sends(a) + Sends(b) && Waits(a + b) == Waits(a) + Waits(b)
  {
    if a == [] {
      assert a + b == b;
    } else {
      assert (a + b)[1..] == a[1..] + b;
      CountsAppend(a[1..], b);
    }
  }

  lemma CountsOne(a: Action)
    ensures Sends([a]) == (if a.Send? then 1 else 0) && Waits([a]) == (if a.Recv? then 1 else 0)
  {
    assert [a][1..] == [];
  }

  lemma {:induction false} DosCountNothing(ops: seq<Op>)
    ensures Sends(Dos(ops)) == 0 && Waits(Dos(ops)) == 0
  {
    if ops != [] {
      CountsOne(Do(ops[0]));
      DosCountNothing(ops[1..]);
      CountsAppend([Do(ops[0])], Dos(ops[1..]));
    }
  }

  /** Three single actions around a list of buffer operations, and more after them. */
  lemma RoundCounts(a: seq<Action>, b: Action, ops: seq<Op>, c: Action, rest: seq<Action>)
    ensures Sends(a + [b] + Dos(ops) + [c] + rest) == Sends(a) + Sends([b]) + Sends([c]) + Sends(rest)
    ensures Waits(a + [b] + Dos(ops) + [c] + rest) == Waits(a) + Waits([b]) + Waits([c]) + Waits(rest)
  {
    DosCountNothing(ops);
    CountsAppend(a, [b]);
    CountsAppend(a + [b], Dos(ops));
    CountsAppend(a + [b] + Dos(ops), [c]);
    CountsAppend(a + [b] + Dos(ops) + [c], rest);
  }

  /** With k rounds the server sends k control messages and waits for k + 1; the client mirrors it. */
  lemma {:induction false} ReadControlCounts(e: ReadTp, r: nat)
    requires e.Valid() && r <= |e.sizes|
    ensures var k := |e.sizes| - r;
            && Sends(e.ServerFrom(r)) == k == Waits(e.ClientFrom(r))
            && Waits(e.ServerFrom(r)) == k + 1 == Sends(e.ClientFrom(r))
    decreases |e.sizes| - r
  {
    var send, recv := Send(Finish(r), [e.ctl]), Recv(Ready(r), 1);
    CountsOne(send);
    CountsOne(recv);
    CountsOne(Send(Ready(r), [e.ctl]));
    CountsOne(Recv(Finish(r), 1));
    CountsOne(Send(Done, [e.ctl]));
    CountsOne(Recv(Done, 1));
    if r < |e.sizes| {
      ReadControlCounts(e, r + 1);
      CountsOne(Do(AllocLocal(e.scratch[r])));
      CountsOne(Do(FillRegion(e.fills[r])));
      RoundCounts([Do(AllocLocal(e.scratch[r]))], recv, Reads(Spans(0, e.n, e.sizes[r])), send, e.ClientFrom(r + 1));
      var v := [Do(FillRegion(e.fills[r]))];
      RoundCounts(v, Send(Ready(r), [e.ctl]), [], Recv(Finish(r), 1), e.ServerFrom(r + 1));
      assert v + [Send(Ready(r), [e.ctl])] + Dos([]) == v + [Send(Ready(r), [e.ctl])];
    }
  }

  lemma {:induction false} WriteControlCounts(e: WriteTp, r: nat)
    requires e.Valid() && r <= |e.sizes|
    ensures var k := |e.sizes| - r;
            && Sends(e.ServerFrom(r)) == k == Waits(e.ClientFrom(r))
            && Waits(e.ServerFrom(r)) == k + 1 == Sends(e.ClientFrom(r))
    decreases |e.sizes| - r
  {
    CountsOne(Send(Done, [e.ctl]));
    CountsOne(Recv(Done, 1));
    if r < |e.sizes| {
      WriteControlCounts(e, r + 1);
      WriteRoundCounts(e, r);
      ClearRoundCounts(e, r);
    }
  }

  lemma WriteRoundCounts(e: WriteTp, r: nat)
    requires e.Valid() && r < |e.sizes|
    ensures Sends(e.ClientFrom(r)) == 1 + Sends(e.ClientFrom(r + 1)) && Waits(e.ClientFrom(r)) == 1 + Waits(e.ClientFrom(r + 1))
  {
    var fill, send, recv := [Do(FillLocal(e.sources[r + 1]))], Send(Finish(r), [e.ctl]), Recv(Ready(r), 1);
    CountsOne(fill[0]);
    CountsOne(send);
    CountsOne(recv);
    CountsAppend(fill, e.ClientFrom(r + 1));
    RoundCounts([], recv, Writes(Spans(0, e.n, e.sizes[r])), send, fill + e.ClientFrom(r + 1));
    assert [] + [recv] == [recv];
    Assoc(e.ClientRound(r), fill, e.ClientFrom(r + 1));
  }

  lemma ClearRoundCounts(e: WriteTp, r: nat)
    requires e.Valid() && r < |e.sizes|
    ensures Sends(e.ServerFrom(r)) == 1 + Sends(e.ServerFrom(r + 1)) && Waits(e.ServerFrom(r)) == 1 + Waits(e.ServerFrom(r + 1))
  {
    var memset, send, recv := [Do(FillRegion(e.Zeros()))], Send(Ready(r), [e.ctl]), Recv(Finish(r), 1);
    CountsOne(memset[0]);
    CountsOne(send);
    CountsOne(recv);
    RoundCounts(memset, send, [], recv, e.ServerFrom(r + 1));
    assert memset + [send] + Dos([]) == memset + [send];
  }
}
