/** What every run of the two programs of a plan does. */
module RdmaTheorems {
  import opened RdmaMachine

  /** A buffer operation the peer has started and not yet returned from. */
  predicate Working(p: Proc) {
    p.todo != [] && p.phase != Idle && p.todo[0].Do?
  }

  /** Refill or memset of the region on one side, and a read or write of it on the other. */
  predicate Racing(s: State) {
    Working(s.client) && Working(s.server) && !LocalOp(s.client.todo[0].op)
  }

  /** The meetings that must have taken place, in order. */
  function Expected(p: Plan, m: Mem, k: nat): (log: seq<Delivery>)
    requires k <= |p.blocks|
    ensures |log| == k && forall t :: 0 <= t < k ==> log[t] == Entry(p.blocks, m, t)
  {
    seq(k, t requires 0 <= t < k => Entry(p.blocks, m, t))
  }

  /** Nothing more can happen: nothing left to do, or both wait for a partner that never comes. */
  predicate AtEnd(p: Plan, m: Mem, s: State) {
    && s.client == Proc(p.crest, if p.crest == [] then Idle else Issued)
    && s.server == Proc(p.srest, if p.srest == [] then Idle else Issued)
    && s.log == Expected(p, m, |p.blocks|)
    && s.mem == MemAfter(p.blocks, m, |p.blocks|)
  }

  lemma SettledFault(c: Proc, s: Proc, m: Mem)
    ensures m.fault ==> Settled(c, s, m).fault
  {
  }

  /** The fault flag of any reachable state is one the blocks, run one after the other, would raise too. */
  lemma FaultInBlock(p: Plan, m: Mem, s: State, i: nat, j: nat)
    requires PlanOk(p) && At(p, m, s, i, j) && !MemAfter(p.blocks, m, |p.blocks|).fault
    ensures !s.mem.fault
  {
    var k := |s.log|;
    var b := BlockAt(p, k);
    ClientHead(p, k, i);
    ServerHead(p, k, j);
    var j' := if Outstanding(s.server) then j + 1 else j;
    var i' := if Outstanding(s.client) then i + 1 else i;
    var m0 := MemAfter(p.blocks, m, k);
    if Outstanding(s.server) {
      BaseServerNext(p, m, k, i, j);
    }
    if Outstanding(s.client) {
      ExecTakeOne(b.cops, i, Exec(b.sops[..j'], m0));
    }
    assert Settled(s.client, s.server, s.mem) == Base(p, m, k, i', j');
    SettledFault(s.client, s.server, s.mem);
    if k < |p.blocks| {
      NoFaultBefore(p.blocks, m, k + 1, |p.blocks|);
      MemAfterNext(p.blocks, m, k);
      BaseLeadsOn(p, m, k, i', j');
    }
  }

  /** Doing the rest of the block from a base state ends in the block's result. */
  lemma {:induction false} BaseLeadsOn(p: Plan, m: Mem, k: nat, i: nat, j: nat)
    requires PlanOk(p) && k < |p.blocks| && i <= |p.blocks[k].cops| && j <= |p.blocks[k].sops|
    ensures Base(p, m, k, i, j).fault ==> MemAfter(p.blocks, m, k + 1).fault
    decreases |p.blocks[k].sops| - j
  {
    var b := p.blocks[k];
    var m0 := MemAfter(p.blocks, m, k);
    if j < |b.sops| {
      BaseServerNext(p, m, k, i, j);
      BaseLeadsOn(p, m, k, i, j + 1);
    } else {
      assert b.sops[..j] == b.sops && b.cops == b.cops[..i] + b.cops[i..];
      MemAfterNext(p.blocks, m, k);
      ExecAppend(b.cops[..i], b.cops[i..], Exec(b.sops, m0));
      FaultSticks(b.cops[i..], Base(p, m, k, i, j));
    }
  }

  /** Both at work on buffers means inside one block, where one side keeps off the region. */
  lemma NoRaceAt(p: Plan, m: Mem, s: State, i: nat, j: nat)
    requires PlanOk(p) && At(p, m, s, i, j)
    ensures !Racing(s)
  {
    var k := |s.log|;
    var b := BlockAt(p, k);
    ClientHead(p, k, i);
    ServerHead(p, k, j);
    if Working(s.client) && Working(s.server) {
      assert k < |p.blocks|;
      assert b in p.blocks;
      assert b.sops != [];
      if s.client.phase == Moved {
        assert s.client.todo[0] == Do(b.cops[i - 1]);
        assert b.cops[i - 1] in b.cops;
      } else {
        assert b.cops[i] in b.cops;
      }
    }
  }

  /**
   Safety, in every reachable state: the peers never work on the region at the same time, every
   message so far was taken by the receive written for it, with the payload and the buffers of
   the block-by-block order, and no transfer left a buffer or overflowed a receive.
   */
  lemma EveryStateSafe(p: Plan, m: Mem, states: seq<State>, t: nat)
    requires PlanOk(p) && Run(Start(p, m), states) && t < |states|
    ensures !Racing(states[t])
    ensures |states[t].log| <= |p.blocks| && states[t].log == Expected(p, m, |states[t].log|)
    ensures !MemAfter(p.blocks, m, |p.blocks|).fault ==> !states[t].mem.fault
  {
    RunKeepsInv(p, m, states, t);
    var s := states[t];
    var i: nat, j: nat :| At(p, m, s, i, j);
    NoRaceAt(p, m, s, i, j);
    if !MemAfter(p.blocks, m, |p.blocks|).fault {
      FaultInBlock(p, m, s, i, j);
    }
  }

  /** Every message of every reachable state was taken by the receive written for it, and fits it. */
  lemma MessagesMatch(p: Plan, m: Mem, states: seq<State>, t: nat)
    requires PlanOk(p) && Run(Start(p, m), states) && t < |states|
    ensures forall d :: d in states[t].log && d.send.Send? ==>
              d.recv.Recv? && d.recv.tag == d.send.tag && |d.send.payload| <= d.recv.cap
    ensures forall d :: d in states[t].log ==> d.send.Send? || (d.send.Connect? && d.recv.Accept?)
  {
    EveryStateSafe(p, m, states, t);
    var log := states[t].log;
    forall d | d in log
      ensures d.send.Send? ==> d.recv.Recv? && d.recv.tag == d.send.tag && |d.send.payload| <= d.recv.cap
      ensures d.send.Send? || (d.send.Connect? && d.recv.Accept?)
    {
      var u :| 0 <= u < |log| && log[u] == d;
      assert d == Entry(p.blocks, m, u);
      assert p.blocks[u] in p.blocks;
    }
  }

  /** With its whole block done, the client's local buffer no longer depends on how far the server is. */
  lemma LocalOfBlock(p: Plan, m: Mem, k: nat, j: nat)
    requires PlanOk(p) && k < |p.blocks| && j <= |p.blocks[k].sops|
    ensures Base(p, m, k, |p.blocks[k].cops|, j).local == MemAfter(p.blocks, m, k + 1).local
  {
    var b := p.blocks[k];
    var m0 := MemAfter(p.blocks, m, k);
    assert b in p.blocks;
    assert b.cops[..|b.cops|] == b.cops;
    MemAfterNext(p.blocks, m, k);
    if b.sops == [] {
      assert b.sops[..j] == b.sops;
    } else {
      ServerKeepsLocal(b.sops[..j], m0);
      ServerKeepsLocal(b.sops, m0);
      LocalOpsAreLocal(b.cops, Exec(b.sops[..j], m0), Exec(b.sops, m0));
    }
  }

  lemma LocalAt(p: Plan, m: Mem, s: State, i: nat, j: nat)
    requires PlanOk(p) && At(p, m, s, i, j)
    requires s.client.todo != [] && !s.client.todo[0].Do? && s.client.phase != Moved
    requires |s.log| < |p.blocks|
    ensures var k := |s.log|;
            && s.client.todo[0] == ClientSide(p.blocks[k].comm)
            && s.mem.local == MemAfter(p.blocks, m, k + 1).local
  {
    var k := |s.log|;
    ClientHead(p, k, i);
    ServerHead(p, k, j);
    if Outstanding(s.server) {
      assert p.blocks[k] in p.blocks;
      assert p.blocks[k].sops[j] in p.blocks[k].sops;
    }
    LocalOfBlock(p, m, k, j);
  }

  /** A client on its way into a meeting holds, in its local buffer, what the block order puts there. */
  lemma LocalBeforeMeeting(p: Plan, m: Mem, states: seq<State>, t: nat)
    requires PlanOk(p) && Run(Start(p, m), states) && t < |states|
    requires var c := states[t].client; c.todo != [] && !c.todo[0].Do? && c.phase != Moved
    requires |states[t].log| < |p.blocks|
    ensures var k := |states[t].log|;
            && states[t].client.todo[0] == ClientSide(p.blocks[k].comm)
            && states[t].mem.local == MemAfter(p.blocks, m, k + 1).local
  {
    RunKeepsInv(p, m, states, t);
    var i: nat, j: nat :| At(p, m, states[t], i, j);
    LocalAt(p, m, states[t], i, j);
  }

  /** If the client's program ends with its blocks, every meeting it is on its way into is one of them. */
  lemma LocalAtMeeting(p: Plan, m: Mem, states: seq<State>, t: nat)
    requires PlanOk(p) && Run(Start(p, m), states) && t < |states|
    requires var c := states[t].client; c.todo != [] && !c.todo[0].Do? && c.phase != Moved
    requires p.crest == []
    ensures var k := |states[t].log|;
            && k < |p.blocks|
            && states[t].client.todo[0] == ClientSide(p.blocks[k].comm)
            && states[t].mem.local == MemAfter(p.blocks, m, k + 1).local
  {
    RunKeepsInv(p, m, states, t);
    var i: nat, j: nat :| At(p, m, states[t], i, j);
    ClientHead(p, |states[t].log|, i);
    LocalBeforeMeeting(p, m, states, t);
  }

  /** What a client that is not inside a block waits to do: the next meeting, or the first action of its rest. */
  lemma NextMeeting(p: Plan, m: Mem, states: seq<State>, t: nat)
    requires PlanOk(p) && Run(Start(p, m), states) && t < |states|
    requires var c := states[t].client; c.todo != [] && !c.todo[0].Do? && c.phase != Moved
    ensures var k := |states[t].log|;
            && k <= |p.blocks|
            && (k < |p.blocks| ==> states[t].client.todo[0] == ClientSide(p.blocks[k].comm))
            && (k == |p.blocks| ==> states[t].client.todo == p.crest)
  {
    RunKeepsInv(p, m, states, t);
    var i: nat, j: nat :| At(p, m, states[t], i, j);
    ClientHead(p, |states[t].log|, i);
  }

  /** With every meeting over, a client whose program ends with them has nothing left but to return from the last. */
  lemma ClientIsDone(p: Plan, m: Mem, states: seq<State>, t: nat)
    requires PlanOk(p) && Run(Start(p, m), states) && t < |states| && p.crest == [] && |states[t].log| >= |p.blocks|
    ensures states[t].client.todo == [] || states[t].client.phase == Moved
  {
    RunKeepsInv(p, m, states, t);
    var i: nat, j: nat :| At(p, m, states[t], i, j);
  }

  /** A server that has not yet returned from a meeting is in the last one that took place. */
  lemma ReturningFrom(p: Plan, m: Mem, states: seq<State>, t: nat)
    requires PlanOk(p) && Run(Start(p, m), states) && t < |states|
    requires var s := states[t].server; s.todo != [] && !s.todo[0].Do? && s.phase == Moved
    ensures var k := |states[t].log|; 0 < k <= |p.blocks| && states[t].server.todo[0] == ServerSide(p.blocks[k - 1].comm)
  {
    RunKeepsInv(p, m, states, t);
    var i: nat, j: nat :| At(p, m, states[t], i, j);
  }

  /** With nothing of its block done by the server, and only local operations by the client, the region is as it was. */
  lemma RegionOfBase(p: Plan, m: Mem, k: nat, i: nat)
    requires k <= |p.blocks| && i <= |BlockAt(p, k).cops| && forall op :: op in BlockAt(p, k).cops ==> LocalOp(op)
    ensures Base(p, m, k, i, 0).region == MemAfter(p.blocks, m, k).region
  {
    var b, m0 := BlockAt(p, k), MemAfter(p.blocks, m, k);
    assert b.sops[..0] == [];
    LocalOpsAreLocal(b.cops[..i], m0, m0);
  }

  lemma RegionAt(p: Plan, m: Mem, s: State, i: nat, j: nat)
    requires PlanOk(p) && At(p, m, s, i, j)
    requires s.server.todo != [] && !s.server.todo[0].Do? && s.server.phase == Moved
    requires forall op :: op in BlockAt(p, |s.log|).cops ==> LocalOp(op)
    ensures var k := |s.log|;
            && 0 < k <= |p.blocks|
            && s.server.todo[0] == ServerSide(p.blocks[k - 1].comm)
            && s.mem.region == MemAfter(p.blocks, m, k).region
  {
    var k := |s.log|;
    assert j == 0;
    OperationsAt(p, m, s, i, j);
    if Outstanding(s.client) {
      assert BlockAt(p, k).cops[i] in BlockAt(p, k).cops;
    }
    RegionOfBase(p, m, k, i);
  }

  /** A server returning from a meeting finds the region as the block order left it, unless the client's next block writes it. */
  lemma RegionAfterMeeting(p: Plan, m: Mem, states: seq<State>, t: nat)
    requires PlanOk(p) && Run(Start(p, m), states) && t < |states|
    requires var s := states[t].server; s.todo != [] && !s.todo[0].Do? && s.phase == Moved
    requires |states[t].log| < |p.blocks| ==> forall op :: op in p.blocks[|states[t].log|].cops ==> LocalOp(op)
    ensures var k := |states[t].log|;
            && 0 < k <= |p.blocks|
            && states[t].server.todo[0] == ServerSide(p.blocks[k - 1].comm)
            && states[t].mem.region == MemAfter(p.blocks, m, k).region
  {
    RunKeepsInv(p, m, states, t);
    var i: nat, j: nat :| At(p, m, states[t], i, j);
    RegionAt(p, m, states[t], i, j);
  }

  /** With the server's part of a block done, and the client keeping to its local buffer, the region no longer depends on the client. */
  lemma RegionOfBlock(p: Plan, m: Mem, k: nat, i: nat)
    requires PlanOk(p) && k < |p.blocks| && i <= |p.blocks[k].cops| && forall op :: op in p.blocks[k].cops ==> LocalOp(op)
    ensures Base(p, m, k, i, |p.blocks[k].sops|).region == MemAfter(p.blocks, m, k + 1).region
  {
    var b := p.blocks[k];
    var m1 := Exec(b.sops, MemAfter(p.blocks, m, k));
    assert b.sops[..|b.sops|] == b.sops;
    MemAfterNext(p.blocks, m, k);
    LocalOpsAreLocal(b.cops[..i], m1, m1);
    LocalOpsAreLocal(b.cops, m1, m1);
  }

  lemma RegionReadyAt(p: Plan, m: Mem, s: State, i: nat, j: nat)
    requires PlanOk(p) && At(p, m, s, i, j) && |s.log| < |p.blocks|
    requires s.server.todo != [] && !s.server.todo[0].Do? && s.server.phase != Moved
    requires forall op :: op in p.blocks[|s.log|].cops ==> LocalOp(op)
    ensures var k := |s.log|;
            && s.server.todo[0] == ServerSide(p.blocks[k].comm)
            && s.mem.region == MemAfter(p.blocks, m, k + 1).region
  {
    var k := |s.log|;
    ServerHead(p, k, j);
    assert j == |p.blocks[k].sops|;
    OperationsAt(p, m, s, i, j);
    if Outstanding(s.client) {
      assert p.blocks[k].cops[i] in p.blocks[k].cops;
    }
    RegionOfBlock(p, m, k, i);
  }

  /** A server on its way into a meeting finds the region as its own operations left it, if the client keeps off it till then. */
  lemma RegionBeforeMeeting(p: Plan, m: Mem, states: seq<State>, t: nat)
    requires PlanOk(p) && Run(Start(p, m), states) && t < |states| && |states[t].log| < |p.blocks|
    requires var s := states[t].server; s.todo != [] && !s.todo[0].Do? && s.phase != Moved
    requires forall op :: op in p.blocks[|states[t].log|].cops ==> LocalOp(op)
    ensures var k := |states[t].log|;
            && states[t].server.todo[0] == ServerSide(p.blocks[k].comm)
            && states[t].mem.region == MemAfter(p.blocks, m, k + 1).region
  {
    RunKeepsInv(p, m, states, t);
    var i: nat, j: nat :| At(p, m, states[t], i, j);
    RegionReadyAt(p, m, states[t], i, j);
  }

  /** A server that is about to send has operations of its own before, so the client has kept off the region. */
  predicate Prepared(b: Block) {
    b.comm.Message? && !b.comm.toServer ==> b.sops != []
  }

  lemma RegionWhenSending(p: Plan, m: Mem, states: seq<State>, t: nat)
    requires PlanOk(p) && p.srest == [] && (forall b :: b in p.blocks ==> Prepared(b))
    requires Run(Start(p, m), states) && t < |states|
    requires var s := states[t].server; s.todo != [] && s.todo[0].Send? && s.phase != Moved
    ensures var k := |states[t].log|;
            && k < |p.blocks|
            && states[t].server.todo[0] == ServerSide(p.blocks[k].comm)
            && states[t].mem.region == MemAfter(p.blocks, m, k + 1).region
  {
    NextServerMeeting(p, m, states, t);
    assert p.blocks[|states[t].log|] in p.blocks;
    RegionBeforeMeeting(p, m, states, t);
  }

  /** What a server that is not inside a block waits to do. */
  lemma NextServerMeeting(p: Plan, m: Mem, states: seq<State>, t: nat)
    requires PlanOk(p) && Run(Start(p, m), states) && t < |states|
    requires var s := states[t].server; s.todo != [] && !s.todo[0].Do? && s.phase != Moved
    ensures var k := |states[t].log|;
            && k <= |p.blocks|
            && (k < |p.blocks| ==> states[t].server.todo[0] == ServerSide(p.blocks[k].comm))
            && (k == |p.blocks| ==> states[t].server.todo == p.srest)
  {
    RunKeepsInv(p, m, states, t);
    var i: nat, j: nat :| At(p, m, states[t], i, j);
    ServerHead(p, |states[t].log|, j);
  }

  /** The client keeps off the region right behind meeting k, if that was a message to the server. */
  predicate KeepsOff(bs: seq<Block>, k: nat) {
    0 < k < |bs| && Upward(bs[k - 1].comm) ==> forall op :: op in bs[k].cops ==> LocalOp(op)
  }

  /** A server returning from a wait finds the region as the block order left it, if the client then keeps off it. */
  lemma RegionReturned(p: Plan, m: Mem, states: seq<State>, t: nat)
    requires PlanOk(p) && Run(Start(p, m), states) && t < |states|
    requires var s := states[t].server; s.todo != [] && s.todo[0].Recv? && s.phase == Moved
    requires KeepsOff(p.blocks, |states[t].log|)
    ensures var k := |states[t].log|;
            && 0 < k <= |p.blocks|
            && states[t].server.todo[0] == ServerSide(p.blocks[k - 1].comm)
            && states[t].mem.region == MemAfter(p.blocks, m, k).region
  {
    ReturningFrom(p, m, states, t);
    RegionAfterMeeting(p, m, states, t);
  }

  // ---- termination and maximal runs ----

  function ProcWeight(p: Proc): int {
    3 * |p.todo| - (match p.phase case Idle => 0 case Issued => 1 case Moved => 2)
  }

  function Weight(s: State): int {
    ProcWeight(s.client) + ProcWeight(s.server)
  }

  lemma StepShrinks(s: State, s': State)
    requires Step(s, s')
    ensures Weight(s') < Weight(s)
  {
  }

  lemma {:induction false} RunShrinks(p: Plan, m: Mem, states: seq<State>, t: nat)
    requires PlanOk(p) && Run(Start(p, m), states) && t < |states|
    ensures Weight(states[t]) + t <= 3 * (|ClientProgram(p)| + |ServerProgram(p)|)
  {
    if t > 0 {
      RunShrinks(p, m, states, t - 1);
      assert Step(states[t - 1], states[t - 1 + 1]);
      StepShrinks(states[t - 1], states[t]);
    }
  }

  /** A run's length exactly: three steps an action, but one for both where two actions meet. */
  lemma {:induction false} RunLength(first: State, states: seq<State>, t: nat)
    requires Run(first, states) && t < |states|
    ensures t + |states[t].log| - |first.log| == Weight(first) - Weight(states[t])
  {
    if t > 0 {
      RunLength(first, states, t - 1);
      assert Step(states[t - 1], states[t - 1 + 1]);
      StepCounts(states[t - 1], states[t]);
    }
  }

  lemma StepCounts(s: State, s': State)
    requires Step(s, s')
    ensures Weight(s) - Weight(s') == 1 + |s'.log| - |s.log|
  {
  }

  lemma WeightNonNegative(p: Plan, m: Mem, s: State)
    requires PlanOk(p) && Inv(p, m, s)
    ensures Weight(s) >= 0
  {
    var i: nat, j: nat :| At(p, m, s, i, j);
  }

  /** No run takes more than three steps an action. */
  lemma RunsAreBounded(p: Plan, m: Mem, states: seq<State>)
    requires PlanOk(p) && Run(Start(p, m), states)
    ensures |states| <= 1 + 3 * (|ClientProgram(p)| + |ServerProgram(p)|)
  {
    var t := |states| - 1;
    RunShrinks(p, m, states, t);
    RunKeepsInv(p, m, states, t);
    WeightNonNegative(p, m, states[t]);
  }

  /** A peer that cannot move alone has nothing left, or has started an action that needs the other. */
  lemma WaitingPeers(s: State)
    requires Stuck(s)
    ensures s.client.todo == [] || (s.client.phase == Issued && !s.client.todo[0].Do?)
    ensures s.server.todo == [] || (s.server.phase == Issued && !s.server.todo[0].Do?)
    ensures s.client.todo != [] && s.server.todo != [] ==> !Meets(s.client.todo[0], s.server.todo[0])
  {
    var c, v := s.client, s.server;
    if c.todo != [] && !(c.phase == Issued && !c.todo[0].Do?) {
      var s' := match c.phase
        case Idle => s.(client := c.(phase := Issued))
        case Issued => s.(client := c.(phase := Moved), mem := Apply(c.todo[0].op, s.mem))
        case Moved => s.(client := Proc(c.todo[1..], Idle));
      assert ClientStep(s, s');
      assert Step(s, s');
    }
    if v.todo != [] && !(v.phase == Issued && !v.todo[0].Do?) {
      var s' := match v.phase
        case Idle => s.(server := v.(phase := Issued))
        case Issued => s.(server := v.(phase := Moved), mem := Apply(v.todo[0].op, s.mem))
        case Moved => s.(server := Proc(v.todo[1..], Idle));
      assert ServerStep(s, s');
      assert Step(s, s');
    }
    if c.todo != [] && v.todo != [] && Meets(c.todo[0], v.todo[0]) {
      var s' := State(c.(phase := Moved), v.(phase := Moved), Overflow(c.todo[0], v.todo[0], s.mem),
                      s.log + [Met(c.todo[0], v.todo[0], s.mem)]);
      assert DeliverStep(s, s');
      assert Step(s, s');
    }
  }

  lemma MeetingMeets(c: Comm)
    ensures Meets(ClientSide(c), ServerSide(c)) && !ClientSide(c).Do? && !ServerSide(c).Do?
  {
  }

  lemma StuckAt(p: Plan, m: Mem, s: State, i: nat, j: nat)
    requires PlanOk(p) && At(p, m, s, i, j) && Stuck(s)
    ensures |s.log| == |p.blocks|
    ensures s.client == Proc(p.crest, if p.crest == [] then Idle else Issued)
    ensures s.server == Proc(p.srest, if p.srest == [] then Idle else Issued)
    ensures s.mem == MemAfter(p.blocks, m, |p.blocks|)
  {
    var k := |s.log|;
    WaitingPeers(s);
    ClientHead(p, k, i);
    ServerHead(p, k, j);
    if k < |p.blocks| {
      MeetingMeets(p.blocks[k].comm);
      assert false;
    }
  }

  /**
   Every run that cannot go on has completed every block and stands exactly at the two rests:
   the session finishes if they are empty and otherwise both peers wait for ever, each in the
   first action of its rest.
   */
  lemma MaximalRunsEnd(p: Plan, m: Mem, states: seq<State>)
    requires PlanOk(p) && Maximal(Start(p, m), states)
    ensures AtEnd(p, m, states[|states| - 1])
    ensures Finished(states[|states| - 1]) <==> p.crest == [] && p.srest == []
  {
    var t := |states| - 1;
    RunKeepsInv(p, m, states, t);
    var i: nat, j: nat :| At(p, m, states[t], i, j);
    StuckAt(p, m, states[t], i, j);
    EveryStateSafe(p, m, states, t);
  }

  /** Such runs exist: any run can be carried on until it is stuck. */
  lemma {:induction false} RunsCanBeCompleted(p: Plan, m: Mem, states: seq<State>) returns (whole: seq<State>)
    requires PlanOk(p) && Run(Start(p, m), states)
    ensures states <= whole && Maximal(Start(p, m), whole)
    decreases 1 + 3 * (|ClientProgram(p)| + |ServerProgram(p)|) - |states|
  {
    RunsAreBounded(p, m, states);
    var last := states[|states| - 1];
    if Stuck(last) {
      whole := states;
    } else {
      var next :| Step(last, next);
      var longer := states + [next];
      forall t | 0 <= t < |longer| - 1
        ensures Step(longer[t], longer[t + 1])
      {
        if t < |states| - 1 {
          assert Step(states[t], states[t + 1]);
        }
      }
      RunsAreBounded(p, m, longer);
      whole := RunsCanBeCompleted(p, m, longer);
    }
  }

  /** A run that finishes takes three steps for every action of either program, less one for every meeting. */
  lemma FinishedRunLength(c: seq<Action>, v: seq<Action>, m: Mem, states: seq<State>)
    requires Run(Init(c, v, m), states) && Finished(states[|states| - 1])
    requires states[|states| - 1].client.phase == Idle && states[|states| - 1].server.phase == Idle
    ensures |states| - 1 + |states[|states| - 1].log| == 3 * (|c| + |v|)
  {
    RunLength(Init(c, v, m), states, |states| - 1);
  }

  // ---- which messages there are ----

  /** The actions of a program that need the other side. */
  function Meetings(acts: seq<Action>): seq<Action> {
    if acts == [] then [] else (if acts[0].Do? then [] else [acts[0]]) + Meetings(acts[1..])
  }

  lemma {:induction false} MeetingsAppend(a: seq<Action>, b: seq<Action>)
    ensures Meetings(a + b) == Meetings(a) + Meetings(b)
  {
    if a == [] {
      assert a + b == b;
    } else {
      assert (a + b)[1..] == a[1..] + b;
      MeetingsAppend(a[1..], b);
    }
  }

  lemma {:induction false} NoMeetings(ops: seq<Op>)
    ensures Meetings(Dos(ops)) == []
  {
    if ops != [] {
      assert Dos(ops)[1..] == Dos(ops[1..]);
      NoMeetings(ops[1..]);
    }
  }

  lemma OneMeeting(a: Action)
    requires !a.Do?
    ensures Meetings([a]) == [a]
  {
    assert [a][1..] == [];
  }

  lemma MeetingsOfBlock(ops: seq<Op>, a: Action, rest: seq<Action>)
    requires !a.Do?
    ensures Meetings(Dos(ops) + [a] + rest) == [a] + Meetings(rest)
  {
    NoMeetings(ops);
    OneMeeting(a);
    MeetingsAppend(Dos(ops), [a]);
    MeetingsAppend(Dos(ops) + [a], rest);
  }

  lemma {:induction false} MeetingsOfParts(bs: seq<Block>)
    ensures |Meetings(ClientPart(bs))| == |bs| == |Meetings(ServerPart(bs))|
    ensures forall u :: 0 <= u < |bs| ==> Meetings(ClientPart(bs))[u] == ClientSide(bs[u].comm)
    ensures forall u :: 0 <= u < |bs| ==> Meetings(ServerPart(bs))[u] == ServerSide(bs[u].comm)
  {
    if bs != [] {
      MeetingsOfBlock(bs[0].cops, ClientSide(bs[0].comm), ClientPart(bs[1..]));
      MeetingsOfBlock(bs[0].sops, ServerSide(bs[0].comm), ServerPart(bs[1..]));
      MeetingsOfParts(bs[1..]);
    }
  }

  /**
   A finished run's meetings are those of the two programs, all of them, in their order: the u-th
   of the client's with the u-th of the server's.
   */
  lemma FinishedRunPairs(p: Plan, m: Mem, states: seq<State>)
    requires PlanOk(p) && Maximal(Start(p, m), states) && Finished(states[|states| - 1])
    ensures var log, c, s := states[|states| - 1].log, Meetings(ClientProgram(p)), Meetings(ServerProgram(p));
            && |log| == |c| == |s|
            && forall u :: 0 <= u < |log| ==> Meets(c[u], s[u]) && log[u] == Met(c[u], s[u], log[u].mem)
  {
    MaximalRunsEnd(p, m, states);
    MeetingsOfParts(p.blocks);
    assert ClientProgram(p) == ClientPart(p.blocks) && ServerProgram(p) == ServerPart(p.blocks);
  }
}
