/** The latency sessions: L reads, L writes, or L messages for every buffer size. */
module RdmaLatency {
  import opened Sequences
  import opened Chunks
  import opened RdmaMachine
  import opened RdmaTheorems

  function Repeat(op: Op, k: nat): (ops: seq<Op>)
    ensures forall o :: o in ops ==> o == op
  {
    if k == 0 then [] else [op] + Repeat(op, k - 1)
  }

  // ---- one-sided latency ----

  /**
   A read (or write) latency session: for each size a new local buffer holding `locals[r]`, then
   `loops` reads (or writes) of its whole length at offset 0 of the server's region.
   */
  datatype OneSidedLat = OneSidedLat(write: bool, loops: nat, sizes: seq<nat>, region: seq<Byte>, locals: seq<seq<Byte>>, ctl: Byte) {
    predicate Valid() {
      && |locals| == |sizes|
      && forall r :: 0 <= r < |sizes| ==> |locals[r]| == sizes[r] <= |region|
    }

    function Transfer(r: nat): Op
      requires Valid() && r < |sizes|
    {
      if write then WriteChunk(0, sizes[r]) else ReadChunk(0, sizes[r])
    }

    function RoundOps(r: nat): seq<Op>
      requires Valid() && r < |sizes|
    {
      [AllocLocal(locals[r])] + Repeat(Transfer(r), loops)
    }

    function OpsFrom(r: nat): seq<Op>
      requires Valid() && r <= |sizes|
      decreases |sizes| - r
    {
      if r == |sizes| then [] else RoundOps(r) + OpsFrom(r + 1)
    }

    function Client(): seq<Action>
      requires Valid()
    {
      [Connect] + Dos(OpsFrom(0)) + [Send(Done, [ctl])]
    }

    function Server(): seq<Action>
      requires Valid()
    {
      [Do(AllocRegion(region)), Accept, Recv(Done, 1)]
    }

    function Blocks(): seq<Block>
      requires Valid()
    {
      [Block([], [AllocRegion(region)], Handshake)] + [Block(OpsFrom(0), [], Message(true, Done, [ctl], 1))]
    }

    lemma Projects()
      requires Valid()
      ensures ClientPart(Blocks()) == Client() && ServerPart(Blocks()) == Server()
    {
      var b := Block(OpsFrom(0), [], Message(true, Done, [ctl], 1));
      PartsOfOpening(AllocRegion(region), [b]);
      PartsOfOne(b);
      Assoc([Connect], Dos(OpsFrom(0)), [Send(Done, [ctl])]);
      assert Dos([]) + [Recv(Done, 1)] == [Recv(Done, 1)];
      assert [Do(AllocRegion(region)), Accept] + [Recv(Done, 1)] == Server();
    }

    lemma {:induction false} OpsAreClients(r: nat)
      requires Valid() && r <= |sizes|
      ensures forall op :: op in OpsFrom(r) ==> ClientOp(op)
      decreases |sizes| - r
    {
      if r < |sizes| {
        OpsAreClients(r + 1);
      }
    }

    lemma Ok()
      requires Valid()
      ensures forall b :: b in Blocks() ==> BlockOk(b)
    {
      OpsAreClients(0);
    }

    /** The local buffer of round r, over a region holding `before`, once its transfers are done. */
    function RoundLocal(r: nat, before: seq<Byte>): seq<Byte>
      requires Valid() && r < |sizes| && |before| == |region|
    {
      if !write && 0 < loops then before[..sizes[r]] else locals[r]
    }

    /** The region behind round r: a write round leaves its local buffer in front of the earlier bytes. */
    function RoundRegion(r: nat, before: seq<Byte>): (after: seq<Byte>)
      requires Valid() && r < |sizes| && |before| == |region|
      ensures |after| == |region|
    {
      if write && 0 < loops then locals[r] + before[sizes[r]..] else before
    }

    /** The region behind the first r rounds. */
    function RegionAfter(r: nat): (after: seq<Byte>)
      requires Valid() && r <= |sizes|
      ensures |after| == |region|
    {
      if r == 0 then region else RoundRegion(r - 1, RegionAfter(r - 1))
    }

    /** Reads leave the region as it was. */
    lemma {:induction false} ReadsLeaveRegion(r: nat)
      requires Valid() && r <= |sizes| && !write
      ensures RegionAfter(r) == region
    {
      if r > 0 {
        ReadsLeaveRegion(r - 1);
      }
    }

    /** A round's transfers, however many, have the effect of one and leave neither buffer. */
    lemma RoundDoes(r: nat, m: Mem)
      requires Valid() && r < |sizes| && |m.region| == |region| && !m.fault
      ensures Exec(RoundOps(r), m) == Mem(RoundLocal(r, m.region), RoundRegion(r, m.region), false)
    {
      var m1 := m.(local := locals[r]);
      ExecAppend([AllocLocal(locals[r])], Repeat(Transfer(r), loops), m);
      ExecOne(AllocLocal(locals[r]), m);
      if loops == 0 {
        assert Exec(Repeat(Transfer(r), 0), m1) == m1;
      } else {
        TransferDoes(r, m1);
        RepeatIsOnce(Transfer(r), loops, m1);
      }
    }

    lemma TransferDoes(r: nat, m: Mem)
      requires Valid() && r < |sizes| && |m.region| == |region| && |m.local| == sizes[r] && !m.fault
      ensures var m' := Apply(Transfer(r), m);
              m' == if write then Mem(m.local, m.local + m.region[sizes[r]..], false) else Mem(m.region[..sizes[r]], m.region, false)
      ensures Apply(Transfer(r), Apply(Transfer(r), m)) == Apply(Transfer(r), m)
    {
      var b := sizes[r];
      if write {
        WholeSplice(m.region, m.local, b);
        WholeSplice(m.local + m.region[b..], m.local, b);
      } else {
        WholeSplice(m.local, m.region, b);
        WholeSplice(m.region[..b], m.region, b);
      }
    }

    lemma {:induction false} OpsDo(r: nat, m: Mem)
      requires Valid() && r <= |sizes| && m.region == RegionAfter(r) && !m.fault
      requires 0 < r ==> m.local == RoundLocal(r - 1, RegionAfter(r - 1))
      ensures var m' := Exec(OpsFrom(r), m);
              && !m'.fault && m'.region == RegionAfter(|sizes|)
              && (sizes != [] ==> m'.local == RoundLocal(|sizes| - 1, RegionAfter(|sizes| - 1)))
      decreases |sizes| - r
    {
      if r < |sizes| {
        RoundDoes(r, m);
        ExecAppend(RoundOps(r), OpsFrom(r + 1), m);
        OpsDo(r + 1, Exec(RoundOps(r), m));
      }
    }

    /** The buffers at the session's two meetings. */
    lemma MemOf(m: Mem)
      requires Valid() && !m.fault
      ensures MemAfter(Blocks(), m, 1) == m.(region := region)
      ensures var a := MemAfter(Blocks(), m, 2);
              && !a.fault && a.region == RegionAfter(|sizes|)
              && (sizes != [] ==> a.local == RoundLocal(|sizes| - 1, RegionAfter(|sizes| - 1)))
    {
      var m1 := m.(region := region);
      var bs := Blocks();
      ExecOne(AllocRegion(region), m);
      assert RunBlock(bs[0], m) == m1;
      assert bs[1..] == [bs[1]] && bs[1..][1..] == [];
      assert MemAfter(bs, m, 1) == MemAfter(bs[1..], m1, 0) == m1;
      assert MemAfter(bs, m, 2) == MemAfter(bs[1..], m1, 1) == RunBlock(bs[1], m1);
      OpsDo(0, m1);
    }

    lemma NoFault(m: Mem)
      requires Valid() && !m.fault
      ensures !MemAfter(Blocks(), m, |Blocks()|).fault
    {
      MemOf(m);
    }
  }

  lemma WholeSplice(target: seq<Byte>, source: seq<Byte>, len: nat)
    requires len <= |target| && len <= |source|
    ensures Splice(target, 0, source, len) == source[..len] + target[len..]
    ensures len == |target| ==> Splice(target, 0, source, len) == source[..len]
    ensures len == |source| ==> Splice(target, 0, source, len) == source + target[len..]
  {
  }

  /** An operation that changes nothing the second time may as well be done once. */
  lemma {:induction false} RepeatIsOnce(op: Op, k: nat, m: Mem)
    requires 0 < k && Apply(op, Apply(op, m)) == Apply(op, m)
    ensures Exec(Repeat(op, k), m) == Apply(op, m)
  {
    assert Repeat(op, k)[1..] == Repeat(op, k - 1);
    if k == 1 {
      assert Exec([], Apply(op, m)) == Apply(op, m);
    } else {
      RepeatIsOnce(op, k - 1, Apply(op, m));
    }
  }

  /** A client about to end the session holds in its last local buffer what the last round leaves there. */
  ghost predicate LastLocalHolds(e: OneSidedLat, s: State)
    requires e.Valid()
  {
    forall payload ::
      s.client.todo != [] && s.client.todo[0] == Send(Done, payload) && s.client.phase != Moved && e.sizes != []
      ==> s.mem.local == e.RoundLocal(|e.sizes| - 1, e.RegionAfter(|e.sizes| - 1))
  }

  /** A server that has heard of the session's end finds its region as the rounds leave it. */
  ghost predicate LastRegionHolds(e: OneSidedLat, s: State)
    requires e.Valid()
  {
    forall cap ::
      s.server.todo != [] && s.server.todo[0] == Recv(Done, cap) && s.server.phase == Moved
      ==> s.mem.region == e.RegionAfter(|e.sizes|)
  }

  /**
   The one-sided latency sessions, in every reachable state: no race and no access out of bounds;
   a client about to end the session holds in its last local buffer what the last round leaves
   there, and a server that has heard of the end finds its region as the rounds leave it.
   */
  lemma OneSidedLatencySafe(e: OneSidedLat, m: Mem, states: seq<State>, t: nat)
    requires e.Valid() && !m.fault && Run(Init(e.Client(), e.Server(), m), states) && t < |states|
    ensures !Racing(states[t]) && !states[t].mem.fault
    ensures LastLocalHolds(e, states[t]) && LastRegionHolds(e, states[t])
  {
    var p := Plan(e.Blocks(), [], []);
    e.Projects();
    e.Ok();
    assert ClientProgram(p) == e.Client() && ServerProgram(p) == e.Server();
    e.MemOf(m);
    EveryStateSafe(p, m, states, t);
    var c, v := states[t].client, states[t].server;
    if c.todo != [] && c.todo[0].Send? && c.phase != Moved {
      LocalAtMeeting(p, m, states, t);
      assert |states[t].log| == 1;
    }
    if v.todo != [] && v.todo[0].Recv? && v.phase == Moved {
      ReturningFrom(p, m, states, t);
      assert |states[t].log| == 2;
      RegionAfterMeeting(p, m, states, t);
    }
  }

  /** In the source's terms: the last read leaves the region's first bytes, the last write its own buffer in front of the bytes before. */
  lemma LastTransfer(e: OneSidedLat)
    requires e.Valid() && e.sizes != [] && 0 < e.loops
    ensures var last := |e.sizes| - 1;
            && (!e.write ==> e.RoundLocal(last, e.RegionAfter(last)) == e.region[..e.sizes[last]])
            && (e.write ==> e.RegionAfter(last + 1) == e.locals[last] + e.RegionAfter(last)[e.sizes[last]..])
  {
    if !e.write {
      e.ReadsLeaveRegion(|e.sizes| - 1);
    }
  }

  lemma OneSidedLatencyFinishes(e: OneSidedLat, m: Mem, states: seq<State>)
    requires e.Valid() && Maximal(Init(e.Client(), e.Server(), m), states)
    ensures Finished(states[|states| - 1])
  {
    var p := Plan(e.Blocks(), [], []);
    e.Projects();
    e.Ok();
    assert ClientProgram(p) == e.Client() && ServerProgram(p) == e.Server();
    MaximalRunsEnd(p, m, states);
  }

  // ---- two-sided latency ----

  /** A two-sided latency session: in round r the client sends `payloads[r]`, its whole buffer, `loops` times. */
  datatype TwoLat = TwoLat(loops: nat, sizes: seq<nat>, region: seq<Byte>, payloads: seq<seq<Byte>>, ctl: Byte) {
    predicate Valid() {
      && |payloads| == |sizes|
      && forall r :: 0 <= r < |sizes| ==> |payloads[r]| == sizes[r]
    }

    function SendsFrom(r: nat, i: nat): seq<Action>
      requires Valid() && r < |sizes| && i <= loops
      decreases loops - i
    {
      if i == loops then [] else [Send(Chunk(r, i), payloads[r])] + SendsFrom(r, i + 1)
    }

    function RecvsFrom(r: nat, i: nat): seq<Action>
      requires Valid() && r < |sizes| && i <= loops
      decreases loops - i
    {
      if i == loops then [] else [Recv(Chunk(r, i), sizes[r])] + RecvsFrom(r, i + 1)
    }

    function ClientRound(r: nat): seq<Action>
      requires Valid() && r < |sizes|
    {
      [Send(Ready(r), [ctl])] + SendsFrom(r, 0) + [Send(Finish(r), [ctl])]
    }

    function ServerRound(r: nat): seq<Action>
      requires Valid() && r < |sizes|
    {
      [Recv(Ready(r), 1)] + RecvsFrom(r, 0) + [Recv(Finish(r), 1)]
    }

    function ClientFrom(r: nat): seq<Action>
      requires Valid() && r <= |sizes|
      decreases |sizes| - r
    {
      if r == |sizes| then [] else ClientRound(r) + ClientFrom(r + 1)
    }

    function ServerFrom(r: nat): seq<Action>
      requires Valid() && r <= |sizes|
      decreases |sizes| - r
    {
      if r == |sizes| then [] else ServerRound(r) + ServerFrom(r + 1)
    }

    function Client(): seq<Action>
      requires Valid()
    {
      [Connect] + ClientFrom(0)
    }

    function Server(): seq<Action>
      requires Valid()
    {
      [Do(AllocRegion(region)), Accept] + ServerFrom(0)
    }

    function Up(tag: Tag, payload: seq<Byte>): Block {
      Block([], [], Message(true, tag, payload, |payload|))
    }

    function DataBlocks(r: nat, i: nat): seq<Block>
      requires Valid() && r < |sizes| && i <= loops
      decreases loops - i
    {
      if i == loops then [] else [Up(Chunk(r, i), payloads[r])] + DataBlocks(r, i + 1)
    }

    function RoundBlocks(r: nat): seq<Block>
      requires Valid() && r < |sizes|
    {
      [Up(Ready(r), [ctl])] + DataBlocks(r, 0) + [Up(Finish(r), [ctl])]
    }

    function BlocksFrom(r: nat): seq<Block>
      requires Valid() && r <= |sizes|
      decreases |sizes| - r
    {
      if r == |sizes| then [] else RoundBlocks(r) + BlocksFrom(r + 1)
    }

    function Blocks(): seq<Block>
      requires Valid()
    {
      [Block([], [AllocRegion(region)], Handshake)] + BlocksFrom(0)
    }

    lemma {:induction false} DataProjects(r: nat, i: nat)
      requires Valid() && r < |sizes| && i <= loops
      ensures ClientPart(DataBlocks(r, i)) == SendsFrom(r, i) && ServerPart(DataBlocks(r, i)) == RecvsFrom(r, i)
      decreases loops - i
    {
      if i < loops {
        DataProjects(r, i + 1);
        PartsOfMeeting(Up(Chunk(r, i), payloads[r]).comm, DataBlocks(r, i + 1));
      }
    }

    lemma RoundProjects(r: nat)
      requires Valid() && r < |sizes|
      ensures ClientPart(RoundBlocks(r)) == ClientRound(r) && ServerPart(RoundBlocks(r)) == ServerRound(r)
    {
      DataProjects(r, 0);
      PartsOfMeeting(Up(Ready(r), [ctl]).comm, DataBlocks(r, 0));
      PartsAppend([Up(Ready(r), [ctl])] + DataBlocks(r, 0), [Up(Finish(r), [ctl])]);
      PartsOfOne(Up(Finish(r), [ctl]));
      assert Dos([]) + [Send(Finish(r), [ctl])] == [Send(Finish(r), [ctl])];
      assert Dos([]) + [Recv(Finish(r), 1)] == [Recv(Finish(r), 1)];
    }

    lemma {:induction false} ProjectsFrom(r: nat)
      requires Valid() && r <= |sizes|
      ensures ClientPart(BlocksFrom(r)) == ClientFrom(r) && ServerPart(BlocksFrom(r)) == ServerFrom(r)
      decreases |sizes| - r
    {
      if r < |sizes| {
        RoundProjects(r);
        ProjectsFrom(r + 1);
        PartsAppend(RoundBlocks(r), BlocksFrom(r + 1));
      }
    }

    lemma Projects()
      requires Valid()
      ensures ClientPart(Blocks()) == Client() && ServerPart(Blocks()) == Server()
    {
      ProjectsFrom(0);
      PartsOfOpening(AllocRegion(region), BlocksFrom(0));
    }

    /** Meetings only, and every message fills the receive it meets. */
    predicate FullUp(b: Block) {
      && b.cops == [] && b.sops == []
      && b.comm.Message? && b.comm.toServer && |b.comm.payload| == b.comm.cap
    }

    lemma {:induction false} DataFull(r: nat, i: nat)
      requires Valid() && r < |sizes| && i <= loops
      ensures forall b :: b in DataBlocks(r, i) ==> FullUp(b)
      decreases loops - i
    {
      if i < loops {
        DataFull(r, i + 1);
      }
    }

    lemma {:induction false} FullFrom(r: nat)
      requires Valid() && r <= |sizes|
      ensures forall b :: b in BlocksFrom(r) ==> FullUp(b)
      decreases |sizes| - r
    {
      if r < |sizes| {
        DataFull(r, 0);
        FullFrom(r + 1);
      }
    }

    lemma Ok()
      requires Valid()
      ensures forall b :: b in Blocks() ==> BlockOk(b)
    {
      FullFrom(0);
    }

    lemma {:induction false} QuietMem(bs: seq<Block>, m: Mem, k: nat)
      requires k <= |bs| && forall b :: b in bs ==> FullUp(b)
      ensures MemAfter(bs, m, k) == m
    {
      if k > 0 {
        assert bs[0] in bs;
        QuietMem(bs[1..], m, k - 1);
      }
    }

    lemma NoFault(m: Mem)
      requires Valid() && !m.fault
      ensures !MemAfter(Blocks(), m, |Blocks()|).fault
    {
      FullFrom(0);
      ExecOne(AllocRegion(region), m);
      assert Blocks()[1..] == BlocksFrom(0);
      QuietMem(BlocksFrom(0), m.(region := region), |BlocksFrom(0)|);
    }
  }

  /**
   The start control, each of the L data messages and the finish control of every round are taken
   by the receive written for them, in order, and every message arrives with the full length of
   the receive, so the server's short-message warning cannot be printed.
   */
  lemma TwoLatencyAligned(e: TwoLat, m: Mem, states: seq<State>, t: nat)
    requires e.Valid() && !m.fault && Run(Init(e.Client(), e.Server(), m), states) && t < |states|
    ensures states[t].log <= Expected(Plan(e.Blocks(), [], []), m, |e.Blocks()|)
    ensures forall d :: d in states[t].log && d.send.Send? ==>
              d.recv == Recv(d.send.tag, |d.send.payload|)
    ensures !states[t].mem.fault
  {
    var p := Plan(e.Blocks(), [], []);
    e.Projects();
    e.Ok();
    e.NoFault(m);
    assert ClientProgram(p) == e.Client() && ServerProgram(p) == e.Server();
    EveryStateSafe(p, m, states, t);
    e.FullFrom(0);
    var log := states[t].log;
    forall d | d in log && d.send.Send?
      ensures d.recv == Recv(d.send.tag, |d.send.payload|)
    {
      var u :| 0 <= u < |log| && log[u] == d;
      assert d == Entry(p.blocks, m, u);
      if u > 0 {
        assert p.blocks[u] in e.BlocksFrom(0);
      }
    }
  }

  lemma TwoLatencyFinishes(e: TwoLat, m: Mem, states: seq<State>)
    requires e.Valid() && Maximal(Init(e.Client(), e.Server(), m), states)
    ensures Finished(states[|states| - 1])
    ensures states[|states| - 1].log == Expected(Plan(e.Blocks(), [], []), m, |e.Blocks()|)
  {
    var p := Plan(e.Blocks(), [], []);
    e.Projects();
    e.Ok();
    assert ClientProgram(p) == e.Client() && ServerProgram(p) == e.Server();
    MaximalRunsEnd(p, m, states);
  }
}
