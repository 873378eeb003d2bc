/**
 Two RDMA peers as a step machine: a client and a server program counter, the client's local
 buffer, the server's registered region, and an untyped, in-order message queue.

 What is assumed of the verbs library, and nothing more: a send completes only once the peer has
 posted a receive that takes it, messages arrive in order and are not lost, and a one-sided read
 or write has happened when its wait returns. Until then the bytes an operation writes may hold
 anything (`Torn`).

 A session is described once, as a sequence of blocks that end in a meeting of the two peers; the
 two programs are its projections. The theorems say what every run of two such programs does.
 */
module RdmaMachine {
  import opened Sequences
  import opened Chunks

  // ---- programs ----

  /** Operations on the two buffers: the client's local one and the server's registered region. */
  datatype Op =
    | AllocLocal(init: seq<Byte>)
    | FillLocal(bytes: seq<Byte>)
    | ReadChunk(off: nat, len: nat)
    | WriteChunk(off: nat, len: nat)
    | AllocRegion(init: seq<Byte>)
    | FillRegion(bytes: seq<Byte>)

  /** What a send or receive was written for. The queue never looks at it. */
  datatype Tag = Ready(round: nat) | Chunk(round: nat, index: nat) | Finish(round: nat) | Done

  datatype Action =
    | Do(op: Op)
    | Send(tag: Tag, payload: seq<Byte>)
    | Recv(tag: Tag, cap: nat)
    | Connect
    | Accept

  /** Where a peer is in its current action: not started, started, or happened but not yet waited for. */
  datatype Phase = Idle | Issued | Moved

  datatype Proc = Proc(todo: seq<Action>, phase: Phase)

  datatype Mem = Mem(local: seq<Byte>, region: seq<Byte>, fault: bool)

  /** One meeting: the send, the receive that took it, and the buffers at that moment. */
  datatype Delivery = Delivery(send: Action, recv: Action, mem: Mem)

  datatype State = State(client: Proc, server: Proc, mem: Mem, log: seq<Delivery>)

  // ---- effects ----

  function Splice(target: seq<Byte>, off: nat, source: seq<Byte>, len: nat): seq<Byte>
    requires off + len <= |target| && off + len <= |source|
  {
    target[..off] + source[off..off + len] + target[off + len..]
  }

  function Apply(op: Op, m: Mem): (r: Mem) {
    match op
    case AllocLocal(d) => m.(local := d)
    case FillLocal(d) => if |d| == |m.local| then m.(local := d) else m.(fault := true)
    case ReadChunk(off, len) =>
      if off + len <= |m.local| && off + len <= |m.region|
      then m.(local := Splice(m.local, off, m.region, len)) else m.(fault := true)
    case WriteChunk(off, len) =>
      if off + len <= |m.local| && off + len <= |m.region|
      then m.(region := Splice(m.region, off, m.local, len)) else m.(fault := true)
    case AllocRegion(d) => m.(region := d)
    case FillRegion(d) => if |d| == |m.region| then m.(region := d) else m.(fault := true)
  }

  function Exec(ops: seq<Op>, m: Mem): (r: Mem) {
    if ops == [] then m else Exec(ops[1..], Apply(ops[0], m))
  }

  /** The client touches the server's region with reads and writes only; the server always touches it. */
  predicate ClientOp(op: Op) {
    op.AllocLocal? || op.FillLocal? || op.ReadChunk? || op.WriteChunk?
  }

  predicate LocalOp(op: Op) {
    op.AllocLocal? || op.FillLocal?
  }

  predicate ServerOp(op: Op) {
    op.AllocRegion? || op.FillRegion?
  }

  /** What `m` may have become while `op` is outstanding: anything `op` would still turn into the same result. */
  ghost predicate Torn(op: Op, m: Mem, m': Mem) {
    Apply(op, m') == Apply(op, m)
  }

  // ---- steps ----

  /** A step one peer takes alone: start its action, let a started buffer operation happen, return from the wait. */
  ghost predicate ProcStep(p: Proc, m: Mem, p': Proc, m': Mem) {
    && p.todo != []
    && var a := p.todo[0];
       match p.phase
       case Idle => p' == p.(phase := Issued) && (if a.Do? then Torn(a.op, m, m') else m' == m)
       case Issued => a.Do? && p' == p.(phase := Moved) && m' == Apply(a.op, m)
       case Moved => p' == Proc(p.todo[1..], Idle) && m' == m
  }

  /** A send takes whatever receive the peer has posted, whatever either was written for. */
  predicate Meets(c: Action, s: Action) {
    (c.Send? && s.Recv?) || (c.Recv? && s.Send?) || (c.Connect? && s.Accept?)
  }

  function Met(c: Action, s: Action, m: Mem): Delivery {
    if c.Recv? then Delivery(s, c, m) else Delivery(c, s, m)
  }

  /** A message longer than the receive that takes it is an error. */
  function Overflow(c: Action, s: Action, m: Mem): Mem {
    var d := Met(c, s, m);
    if d.send.Send? && d.recv.Recv? && |d.send.payload| > d.recv.cap then m.(fault := true) else m
  }

  ghost predicate ClientStep(s: State, s': State) {
    s'.server == s.server && s'.log == s.log && ProcStep(s.client, s.mem, s'.client, s'.mem)
  }

  ghost predicate ServerStep(s: State, s': State) {
    s'.client == s.client && s'.log == s.log && ProcStep(s.server, s.mem, s'.server, s'.mem)
  }

  ghost predicate DeliverStep(s: State, s': State) {
    && s.client.todo != [] && s.server.todo != []
    && s.client.phase == Issued && s.server.phase == Issued
    && Meets(s.client.todo[0], s.server.todo[0])
    && s' == State(s.client.(phase := Moved), s.server.(phase := Moved),
                   Overflow(s.client.todo[0], s.server.todo[0], s.mem),
                   s.log + [Met(s.client.todo[0], s.server.todo[0], s.mem)])
  }

  ghost predicate Step(s: State, s': State) {
    ClientStep(s, s') || ServerStep(s, s') || DeliverStep(s, s')
  }

  ghost predicate Stuck(s: State) {
    forall s' :: !Step(s, s')
  }

  predicate Finished(s: State) {
    s.client.todo == [] && s.server.todo == []
  }

  function Init(client: seq<Action>, server: seq<Action>, m: Mem): State {
    State(Proc(client, Idle), Proc(server, Idle), m, [])
  }

  ghost predicate Run(first: State, states: seq<State>) {
    && states != [] && states[0] == first
    && forall t :: 0 <= t < |states| - 1 ==> Step(states[t], states[t + 1])
  }

  /** A run that cannot be continued. */
  ghost predicate Maximal(first: State, states: seq<State>) {
    Run(first, states) && Stuck(states[|states| - 1])
  }

  // ---- what the steps leave open ----

  /** While a read is outstanding, the bytes it is to fill may hold anything, and all else is untouched. */
  lemma TornRead(off: nat, len: nat, m: Mem, m': Mem)
    requires off + len <= |m.local| && off + len <= |m.region|
    ensures Torn(ReadChunk(off, len), m, m') <==>
              && m'.region == m.region && m'.fault == m.fault && |m'.local| == |m.local|
              && forall i :: 0 <= i < |m.local| && !(off <= i < off + len) ==> m'.local[i] == m.local[i]
  {
    SpliceLeaves(m.local, m'.local, off, m.region, len);
  }

  /** The same of a write, in the region. */
  lemma TornWrite(off: nat, len: nat, m: Mem, m': Mem)
    requires off + len <= |m.local| && off + len <= |m.region|
    ensures Torn(WriteChunk(off, len), m, m') <==>
              && m'.local == m.local && m'.fault == m.fault && |m'.region| == |m.region|
              && forall i :: 0 <= i < |m.region| && !(off <= i < off + len) ==> m'.region[i] == m.region[i]
  {
    SpliceLeaves(m.region, m'.region, off, m.local, len);
  }

  /** While a refill is outstanding the whole region may hold anything. */
  lemma TornFill(bytes: seq<Byte>, m: Mem, m': Mem)
    requires |bytes| == |m.region|
    ensures Torn(FillRegion(bytes), m, m') <==> m'.local == m.local && m'.fault == m.fault && |m'.region| == |m.region|
  {
  }

  lemma SpliceLeaves(x: seq<Byte>, y: seq<Byte>, off: nat, source: seq<Byte>, len: nat)
    requires off + len <= |x| && off + len <= |source|
    ensures off + len <= |y| && Splice(x, off, source, len) == Splice(y, off, source, len) <==>
              |x| == |y| && forall i :: 0 <= i < |x| && !(off <= i < off + len) ==> y[i] == x[i]
  {
    if off + len <= |y| && Splice(x, off, source, len) == Splice(y, off, source, len) {
      var s := Splice(x, off, source, len);
      assert forall i :: 0 <= i < off ==> s[i] == x[i] && s[i] == y[i];
      assert forall i :: off + len <= i < |x| ==> s[i] == x[i] && s[i] == y[i];
    }
    if |x| == |y| && forall i :: 0 <= i < |x| && !(off <= i < off + len) ==> y[i] == x[i] {
      assert x[..off] == y[..off] && x[off + len..] == y[off + len..];
    }
  }

  /** A client can take a step by itself exactly if it has something to do and is not waiting for the other. */
  lemma ClientStepsWhen(s: State)
    ensures (exists s' :: ClientStep(s, s')) <==> s.client.todo != [] && (s.client.phase == Issued ==> s.client.todo[0].Do?)
  {
    var c := s.client;
    if c.todo != [] && (c.phase == Issued ==> c.todo[0].Do?) {
      var s' := match c.phase
        case Idle => s.(client := c.(phase := Issued))
        case Issued => s.(client := c.(phase := Moved), mem := Apply(c.todo[0].op, s.mem))
        case Moved => s.(client := Proc(c.todo[1..], Idle));
      assert ClientStep(s, s');
    }
  }

  lemma ServerStepsWhen(s: State)
    ensures (exists s' :: ServerStep(s, s')) <==> s.server.todo != [] && (s.server.phase == Issued ==> s.server.todo[0].Do?)
  {
    var v := s.server;
    if v.todo != [] && (v.phase == Issued ==> v.todo[0].Do?) {
      var s' := match v.phase
        case Idle => s.(server := v.(phase := Issued))
        case Issued => s.(server := v.(phase := Moved), mem := Apply(v.todo[0].op, s.mem))
        case Moved => s.(server := Proc(v.todo[1..], Idle));
      assert ServerStep(s, s');
    }
  }

  // ---- sessions ----

  datatype Comm = Message(toServer: bool, tag: Tag, payload: seq<Byte>, cap: nat) | Handshake

  /** What each peer does on its own, and then the meeting both go to. */
  datatype Block = Block(cops: seq<Op>, sops: seq<Op>, comm: Comm)

  /** Blocks both peers agree on, then what each still has to do: nothing, or actions that never meet. */
  datatype Plan = Plan(blocks: seq<Block>, crest: seq<Action>, srest: seq<Action>)

  function ClientSide(c: Comm): Action {
    match c
    case Message(up, l, p, cap) => if up then Send(l, p) else Recv(l, cap)
    case Handshake => Connect
  }

  predicate Upward(c: Comm) {
    c.Message? && c.toServer
  }

  function ServerSide(c: Comm): Action {
    match c
    case Message(up, l, p, cap) => if up then Recv(l, cap) else Send(l, p)
    case Handshake => Accept
  }

  function Dos(ops: seq<Op>): (r: seq<Action>)
    ensures |r| == |ops|
    ensures forall i :: 0 <= i < |ops| ==> r[i] == Do(ops[i])
  {
    if ops == [] then [] else [Do(ops[0])] + Dos(ops[1..])
  }

  lemma DosOfOne(op: Op)
    ensures Dos([op]) == [Do(op)]
  {
  }

  lemma {:induction false} DosAppend(a: seq<Op>, b: seq<Op>)
    ensures Dos(a + b) == Dos(a) + Dos(b)
  {
    if a == [] {
      assert a + b == b;
    } else {
      assert (a + b)[1..] == a[1..] + b;
      DosAppend(a[1..], b);
    }
  }

  /** The client's program for a sequence of blocks. */
  function ClientPart(bs: seq<Block>): seq<Action> {
    if bs == [] then [] else Dos(bs[0].cops) + [ClientSide(bs[0].comm)] + ClientPart(bs[1..])
  }

  function ServerPart(bs: seq<Block>): seq<Action> {
    if bs == [] then [] else Dos(bs[0].sops) + [ServerSide(bs[0].comm)] + ServerPart(bs[1..])
  }

  function ClientProgram(p: Plan): seq<Action> { ClientPart(p.blocks) + p.crest }

  function ServerProgram(p: Plan): seq<Action> { ServerPart(p.blocks) + p.srest }

  /** Between two meetings the region belongs to one side; and every message fits its receive. */
  predicate BlockOk(b: Block) {
    && (forall op :: op in b.cops ==> ClientOp(op))
    && (forall op :: op in b.sops ==> ServerOp(op))
    && (b.sops == [] || forall op :: op in b.cops ==> LocalOp(op))
    && (b.comm.Message? ==> |b.comm.payload| <= b.comm.cap)
  }

  predicate RestOk(c: seq<Action>, s: seq<Action>) {
    && (c != [] ==> !c[0].Do?)
    && (s != [] ==> !s[0].Do?)
    && !(c != [] && s != [] && Meets(c[0], s[0]))
  }

  predicate PlanOk(p: Plan) {
    (forall b :: b in p.blocks ==> BlockOk(b)) && RestOk(p.crest, p.srest)
  }

  function RunBlock(b: Block, m: Mem): Mem {
    Exec(b.cops, Exec(b.sops, m))
  }

  /** The buffers after the first k blocks, run one after the other. */
  function MemAfter(bs: seq<Block>, m: Mem, k: nat): Mem
    requires k <= |bs|
  {
    if k == 0 then m else MemAfter(bs[1..], RunBlock(bs[0], m), k - 1)
  }

  /** The meeting that ends block t. */
  function Entry(bs: seq<Block>, m: Mem, t: nat): Delivery
    requires t < |bs|
  {
    Met(ClientSide(bs[t].comm), ServerSide(bs[t].comm), MemAfter(bs, m, t + 1))
  }

  // ---- programs of longer plans ----

  function Prepend(bs: seq<Block>, p: Plan): Plan {
    p.(blocks := bs + p.blocks)
  }

  lemma {:induction false} PartsAppend(a: seq<Block>, b: seq<Block>)
    ensures ClientPart(a + b) == ClientPart(a) + ClientPart(b)
    ensures ServerPart(a + b) == ServerPart(a) + ServerPart(b)
  {
    if a == [] {
      assert a + b == b;
    } else {
      assert (a + b)[1..] == a[1..] + b;
      PartsAppend(a[1..], b);
    }
  }

  lemma ProgramsPrepend(bs: seq<Block>, p: Plan)
    ensures ClientProgram(Prepend(bs, p)) == ClientPart(bs) + ClientProgram(p)
    ensures ServerProgram(Prepend(bs, p)) == ServerPart(bs) + ServerProgram(p)
  {
    PartsAppend(bs, p.blocks);
    Assoc(ClientPart(bs), ClientPart(p.blocks), p.crest);
    Assoc(ServerPart(bs), ServerPart(p.blocks), p.srest);
  }

  lemma PartsOfOne(b: Block)
    ensures ClientPart([b]) == Dos(b.cops) + [ClientSide(b.comm)]
    ensures ServerPart([b]) == Dos(b.sops) + [ServerSide(b.comm)]
  {
    assert [b][1..] == [];
    assert ClientPart([b]) == Dos(b.cops) + [ClientSide(b.comm)] + [];
    assert ServerPart([b]) == Dos(b.sops) + [ServerSide(b.comm)] + [];
  }

  lemma PartsCons(b: Block, rest: seq<Block>)
    ensures ClientPart([b] + rest) == Dos(b.cops) + [ClientSide(b.comm)] + ClientPart(rest)
    ensures ServerPart([b] + rest) == Dos(b.sops) + [ServerSide(b.comm)] + ServerPart(rest)
  {
    PartsOfOne(b);
    PartsAppend([b], rest);
  }

  lemma PartsOfMeeting(c: Comm, rest: seq<Block>)
    ensures ClientPart([Block([], [], c)] + rest) == [ClientSide(c)] + ClientPart(rest)
    ensures ServerPart([Block([], [], c)] + rest) == [ServerSide(c)] + ServerPart(rest)
  {
    PartsCons(Block([], [], c), rest);
    assert Dos([]) + [ClientSide(c)] == [ClientSide(c)] && Dos([]) + [ServerSide(c)] == [ServerSide(c)];
  }

  /** A session opens: the server registers its buffer, and the two connect. */
  lemma PartsOfOpening(op: Op, rest: seq<Block>)
    ensures ClientPart([Block([], [op], Handshake)] + rest) == [Connect] + ClientPart(rest)
    ensures ServerPart([Block([], [op], Handshake)] + rest) == [Do(op), Accept] + ServerPart(rest)
  {
    PartsCons(Block([], [op], Handshake), rest);
    DosOfOne(op);
    assert Dos([]) + [Connect] == [Connect];
    assert [Do(op)] + [Accept] == [Do(op), Accept];
  }

  /** Two blocks in front: what each peer does, one action list after the other. */
  lemma PartsOfTwo(b1: Block, b2: Block, rest: seq<Block>, crest: seq<Action>, srest: seq<Action>)
    requires ClientPart(rest) == crest && ServerPart(rest) == srest
    ensures ClientPart([b1] + ([b2] + rest)) == Dos(b1.cops) + [ClientSide(b1.comm)] + Dos(b2.cops) + [ClientSide(b2.comm)] + crest
    ensures ServerPart([b1] + ([b2] + rest)) == Dos(b1.sops) + [ServerSide(b1.comm)] + Dos(b2.sops) + [ServerSide(b2.comm)] + srest
  {
    PartsCons(b1, [b2] + rest);
    PartsCons(b2, rest);
    Assoc4(Dos(b1.cops) + [ClientSide(b1.comm)], Dos(b2.cops), [ClientSide(b2.comm)], crest);
    Assoc4(Dos(b1.sops) + [ServerSide(b1.comm)], Dos(b2.sops), [ServerSide(b2.comm)], srest);
  }

  // ---- effects: locality and commuting ----

  /** An operation on the local buffer alone and one of the server's happen in either order. */
  lemma OpsCommute(c: Op, s: Op, m: Mem)
    requires LocalOp(c) && ServerOp(s)
    ensures Apply(c, Apply(s, m)) == Apply(s, Apply(c, m))
  {
  }

  lemma {:induction false} ExecCommutes(cops: seq<Op>, s: Op, m: Mem)
    requires (forall op :: op in cops ==> LocalOp(op)) && ServerOp(s)
    ensures Exec(cops, Apply(s, m)) == Apply(s, Exec(cops, m))
  {
    if cops != [] {
      OpsCommute(cops[0], s, m);
      ExecCommutes(cops[1..], s, Apply(cops[0], m));
    }
  }

  lemma ExecOne(op: Op, m: Mem)
    ensures Exec([op], m) == Apply(op, m)
  {
    assert [op][1..] == [];
  }

  lemma {:induction false} ExecAppend(a: seq<Op>, b: seq<Op>, m: Mem)
    ensures Exec(a + b, m) == Exec(b, Exec(a, m))
  {
    if a == [] {
      assert a + b == b;
    } else {
      assert (a + b)[1..] == a[1..] + b;
      ExecAppend(a[1..], b, Apply(a[0], m));
    }
  }

  lemma ExecTakeOne(ops: seq<Op>, i: nat, m: Mem)
    requires i < |ops|
    ensures Exec(ops[..i + 1], m) == Apply(ops[i], Exec(ops[..i], m))
  {
    assert ops[..i + 1] == ops[..i] + [ops[i]];
    ExecAppend(ops[..i], [ops[i]], m);
    ExecOne(ops[i], Exec(ops[..i], m));
  }

  /** The server's operations leave the local buffer alone. */
  lemma {:induction false} ServerKeepsLocal(sops: seq<Op>, m: Mem)
    requires forall op :: op in sops ==> ServerOp(op)
    ensures Exec(sops, m).local == m.local
  {
    if sops != [] {
      assert sops[0] in sops;
      ServerKeepsLocal(sops[1..], Apply(sops[0], m));
    }
  }

  /** Operations on the local buffer leave the region alone and depend on the local buffer only. */
  lemma {:induction false} LocalOpsAreLocal(cops: seq<Op>, m: Mem, m': Mem)
    requires forall op :: op in cops ==> LocalOp(op)
    requires m.local == m'.local
    ensures Exec(cops, m).region == m.region
    ensures Exec(cops, m).local == Exec(cops, m').local
  {
    if cops != [] {
      assert cops[0] in cops;
      LocalOpsAreLocal(cops[1..], Apply(cops[0], m), Apply(cops[0], m'));
    }
  }

  lemma {:induction false} FaultSticks(ops: seq<Op>, m: Mem)
    ensures m.fault ==> Exec(ops, m).fault
  {
    if ops != [] {
      FaultSticks(ops[1..], Apply(ops[0], m));
    }
  }

  lemma {:induction false} MemAfterNext(bs: seq<Block>, m: Mem, k: nat)
    requires k < |bs|
    ensures MemAfter(bs, m, k + 1) == RunBlock(bs[k], MemAfter(bs, m, k))
  {
    if k > 0 {
      MemAfterNext(bs[1..], RunBlock(bs[0], m), k - 1);
    }
  }

  lemma {:induction false} MemAfterAppend(a: seq<Block>, b: seq<Block>, m: Mem, k: nat)
    requires k <= |a| + |b|
    ensures MemAfter(a + b, m, k) == if k <= |a| then MemAfter(a, m, k) else MemAfter(b, MemAfter(a, m, |a|), k - |a|)
  {
    if a == [] {
      assert a + b == b;
    } else if k > 0 {
      assert (a + b)[1..] == a[1..] + b;
      MemAfterAppend(a[1..], b, RunBlock(a[0], m), k - 1);
    }
  }

  lemma {:induction false} NoFaultBefore(bs: seq<Block>, m: Mem, k: nat, k': nat)
    requires k <= k' <= |bs| && !MemAfter(bs, m, k').fault
    ensures !MemAfter(bs, m, k).fault
    decreases k' - k
  {
    if k < k' {
      NoFaultBefore(bs, m, k + 1, k');
      MemAfterNext(bs, m, k);
      var m1 := MemAfter(bs, m, k);
      FaultSticks(bs[k].sops, m1);
      FaultSticks(bs[k].cops, Exec(bs[k].sops, m1));
    }
  }

  // ---- the invariant ----

  /** What is left of the client's program once it has done i operations of block k. */
  function ClientRem(p: Plan, k: nat, i: nat): seq<Action>
    requires k <= |p.blocks|
    requires i <= |BlockAt(p, k).cops|
  {
    if k == |p.blocks| then p.crest
    else Dos(p.blocks[k].cops[i..]) + [ClientSide(p.blocks[k].comm)] + ClientPart(p.blocks[k + 1..]) + p.crest
  }

  function ServerRem(p: Plan, k: nat, j: nat): seq<Action>
    requires k <= |p.blocks|
    requires j <= |BlockAt(p, k).sops|
  {
    if k == |p.blocks| then p.srest
    else Dos(p.blocks[k].sops[j..]) + [ServerSide(p.blocks[k].comm)] + ServerPart(p.blocks[k + 1..]) + p.srest
  }

  /** Block k; past the last one, a block in which nobody does anything. */
  function BlockAt(p: Plan, k: nat): Block
    requires k <= |p.blocks|
  {
    if k == |p.blocks| then Block([], [], Handshake) else p.blocks[k]
  }

  /** A peer has done `done` of its block: either it is at `rem`, or it still waits for the action before. */
  ghost predicate Pos(p: Proc, rem: seq<Action>, done: seq<Op>, before: seq<Action>) {
    match p.phase
    case Idle => p.todo == rem
    case Issued => p.todo == rem && rem != []
    case Moved => p.todo == (if done == [] then before else [Do(done[|done| - 1])]) + rem && |p.todo| == 1 + |rem|
  }

  predicate Outstanding(p: Proc) {
    p.todo != [] && p.phase == Issued && p.todo[0].Do?
  }

  /** The buffers once the operations now outstanding have happened. */
  function Settled(c: Proc, s: Proc, m: Mem): Mem {
    var m1 := if Outstanding(s) then Apply(s.todo[0].op, m) else m;
    if Outstanding(c) then Apply(c.todo[0].op, m1) else m1
  }

  /** The buffers after i client and j server operations of block k, none outstanding. */
  function Base(p: Plan, m: Mem, k: nat, i: nat, j: nat): Mem
    requires k <= |p.blocks| && i <= |BlockAt(p, k).cops| && j <= |BlockAt(p, k).sops|
  {
    Exec(BlockAt(p, k).cops[..i], Exec(BlockAt(p, k).sops[..j], MemAfter(p.blocks, m, k)))
  }

  /** Where both programs stand: the client has done i and the server j operations of the block, the meetings before are logged. */
  ghost predicate StageAt(p: Plan, m: Mem, s: State, i: nat, j: nat) {
    var k := |s.log|;
    && k <= |p.blocks|
    && i <= |BlockAt(p, k).cops| && j <= |BlockAt(p, k).sops|
    && Pos(s.client, ClientRem(p, k, i), BlockAt(p, k).cops[..i],
           if k == 0 then [] else [ClientSide(p.blocks[k - 1].comm)])
    && Pos(s.server, ServerRem(p, k, j), BlockAt(p, k).sops[..j],
           if k == 0 then [] else [ServerSide(p.blocks[k - 1].comm)])
    && forall t :: 0 <= t < k ==> s.log[t] == Entry(p.blocks, m, t)
  }

  ghost predicate At(p: Plan, m: Mem, s: State, i: nat, j: nat) {
    && StageAt(p, m, s, i, j)
    && Settled(s.client, s.server, s.mem) == Settled(s.client, s.server, Base(p, m, |s.log|, i, j))
  }

  ghost predicate Inv(p: Plan, m: Mem, s: State) {
    exists i: nat, j: nat :: At(p, m, s, i, j)
  }

  function Start(p: Plan, m: Mem): State {
    Init(ClientProgram(p), ServerProgram(p), m)
  }

  lemma InvInit(p: Plan, m: Mem)
    ensures Inv(p, m, Start(p, m))
  {
    var s := Start(p, m);
    if p.blocks == [] {
      assert ClientProgram(p) == p.crest && ServerProgram(p) == p.srest;
    } else {
      var b := p.blocks[0];
      assert b.cops[0..] == b.cops && b.sops[0..] == b.sops;
    }
    assert At(p, m, s, 0, 0);
  }

  /** The head of what is left is the next operation of the block, or the meeting. */
  lemma ClientHead(p: Plan, k: nat, i: nat)
    requires PlanOk(p) && k <= |p.blocks| && i <= |BlockAt(p, k).cops|
    ensures var rem := ClientRem(p, k, i); var b := BlockAt(p, k);
            && (i < |b.cops| ==> rem != [] && rem[0] == Do(b.cops[i]) && rem[1..] == ClientRem(p, k, i + 1))
            && (i == |b.cops| && k < |p.blocks| ==> rem != [] && rem[0] == ClientSide(b.comm) && rem[1..] == ClientRem(p, k + 1, 0))
            && (k == |p.blocks| ==> rem == p.crest)
  {
    if k < |p.blocks| {
      var b := p.blocks[k];
      if i < |b.cops| {
        assert b.cops[i..][1..] == b.cops[i + 1..];
        assert Dos(b.cops[i..]) == [Do(b.cops[i])] + Dos(b.cops[i + 1..]);
      } else {
        assert b.cops[i..] == [];
        if k + 1 < |p.blocks| {
          assert p.blocks[k + 1..][1..] == p.blocks[k + 2..];
          assert p.blocks[k + 1].cops[0..] == p.blocks[k + 1].cops;
        }
      }
    }
  }

  lemma ServerHead(p: Plan, k: nat, j: nat)
    requires PlanOk(p) && k <= |p.blocks| && j <= |BlockAt(p, k).sops|
    ensures var rem := ServerRem(p, k, j); var b := BlockAt(p, k);
            && (j < |b.sops| ==> rem != [] && rem[0] == Do(b.sops[j]) && rem[1..] == ServerRem(p, k, j + 1))
            && (j == |b.sops| && k < |p.blocks| ==> rem != [] && rem[0] == ServerSide(b.comm) && rem[1..] == ServerRem(p, k + 1, 0))
            && (k == |p.blocks| ==> rem == p.srest)
  {
    if k < |p.blocks| {
      var b := p.blocks[k];
      if j < |b.sops| {
        assert b.sops[j..][1..] == b.sops[j + 1..];
        assert Dos(b.sops[j..]) == [Do(b.sops[j])] + Dos(b.sops[j + 1..]);
      } else {
        assert b.sops[j..] == [];
        if k + 1 < |p.blocks| {
          assert p.blocks[k + 1..][1..] == p.blocks[k + 2..];
          assert p.blocks[k + 1].sops[0..] == p.blocks[k + 1].sops;
        }
      }
    }
  }

  /** A buffer operation a peer is at is the next of its block; two of them at once do not touch the same buffer. */
  lemma OperationsAt(p: Plan, m: Mem, s: State, i: nat, j: nat)
    requires PlanOk(p) && StageAt(p, m, s, i, j)
    ensures AtOperation(s.client) ==> i < |BlockAt(p, |s.log|).cops| && s.client.todo[0].op == BlockAt(p, |s.log|).cops[i]
    ensures AtOperation(s.server) ==> j < |BlockAt(p, |s.log|).sops| && s.server.todo[0].op == BlockAt(p, |s.log|).sops[j]
    ensures Apart(s.client, s.server)
  {
    var k := |s.log|;
    ClientHead(p, k, i);
    ServerHead(p, k, j);
    if AtOperation(s.client) && AtOperation(s.server) {
      var b := BlockAt(p, k);
      assert b in p.blocks;
      assert b.cops[i] in b.cops && b.sops[j] in b.sops;
    }
  }

  predicate AtOperation(p: Proc) {
    p.phase != Moved && p.todo != [] && p.todo[0].Do?
  }

  predicate Apart(c: Proc, s: Proc) {
    AtOperation(c) && AtOperation(s) ==> LocalOp(c.todo[0].op) && ServerOp(s.todo[0].op)
  }

  // What becomes of two buffer states that settle alike when one peer takes a step.

  lemma ClientIssueSettles(c: Proc, s: Proc, x: Mem, y: Mem, c': Proc, x': Mem)
    requires c.phase == Idle && ProcStep(c, x, c', x') && Apart(c, s) && Settled(c, s, x) == Settled(c, s, y)
    ensures Settled(c', s, x') == Settled(c', s, y)
  {
    if c.todo[0].Do? && Outstanding(s) {
      OpsCommute(c.todo[0].op, s.todo[0].op, x);
      OpsCommute(c.todo[0].op, s.todo[0].op, x');
    }
  }

  lemma ClientMoveSettles(c: Proc, s: Proc, x: Mem, y: Mem, c': Proc, x': Mem)
    requires c.phase == Issued && ProcStep(c, x, c', x') && Apart(c, s) && Settled(c, s, x) == Settled(c, s, y)
    ensures Settled(c', s, x') == Settled(c', s, Apply(c.todo[0].op, y))
  {
    if Outstanding(s) {
      OpsCommute(c.todo[0].op, s.todo[0].op, x);
      OpsCommute(c.todo[0].op, s.todo[0].op, y);
    }
  }

  lemma ServerIssueSettles(c: Proc, s: Proc, x: Mem, y: Mem, s': Proc, x': Mem)
    requires s.phase == Idle && ProcStep(s, x, s', x') && Apart(c, s) && Settled(c, s, x) == Settled(c, s, y)
    ensures Settled(c, s', x') == Settled(c, s', y)
  {
    if s.todo[0].Do? && Outstanding(c) {
      OpsCommute(c.todo[0].op, s.todo[0].op, x);
      OpsCommute(c.todo[0].op, s.todo[0].op, y);
    }
  }

  lemma ServerMoveSettles(c: Proc, s: Proc, x: Mem, y: Mem, s': Proc, x': Mem)
    requires s.phase == Issued && ProcStep(s, x, s', x') && Settled(c, s, x) == Settled(c, s, y)
    ensures Settled(c, s', x') == Settled(c, s', Apply(s.todo[0].op, y))
  {
  }

  lemma ClientMovesOn(p: Plan, m: Mem, s: State, i: nat, j: nat, s': State)
    requires PlanOk(p) && StageAt(p, m, s, i, j) && ClientStep(s, s') && s.client.phase == Issued
    ensures i < |BlockAt(p, |s.log|).cops| && s.client.todo[0] == Do(BlockAt(p, |s.log|).cops[i])
    ensures StageAt(p, m, s', i + 1, j)
  {
    var k := |s.log|;
    var b := BlockAt(p, k);
    ClientHead(p, k, i);
    assert b.cops[..i + 1][i] == b.cops[i];
    assert s'.client.todo == [Do(b.cops[i])] + ClientRem(p, k, i + 1);
  }

  /** A client operation outstanding completes: one more of the block's operations is done. */
  lemma ClientMoves(p: Plan, m: Mem, s: State, i: nat, j: nat, s': State)
    requires PlanOk(p) && At(p, m, s, i, j) && ClientStep(s, s') && s.client.phase == Issued
    ensures At(p, m, s', i + 1, j)
  {
    var k := |s.log|;
    var b := BlockAt(p, k);
    OperationsAt(p, m, s, i, j);
    ClientMovesOn(p, m, s, i, j, s');
    ClientMoveSettles(s.client, s.server, s.mem, Base(p, m, k, i, j), s'.client, s'.mem);
    ExecTakeOne(b.cops, i, Exec(b.sops[..j], MemAfter(p.blocks, m, k)));
  }

  /** Issuing an operation changes at most what an overlapping one sees torn. */
  lemma ClientIssues(p: Plan, m: Mem, s: State, i: nat, j: nat, s': State)
    requires PlanOk(p) && At(p, m, s, i, j) && ClientStep(s, s') && s.client.phase == Idle
    ensures At(p, m, s', i, j)
  {
    OperationsAt(p, m, s, i, j);
    ClientIssueSettles(s.client, s.server, s.mem, Base(p, m, |s.log|, i, j), s'.client, s'.mem);
  }

  lemma ClientStepKeeps(p: Plan, m: Mem, s: State, i: nat, j: nat, s': State)
    requires PlanOk(p) && At(p, m, s, i, j) && ClientStep(s, s')
    ensures Inv(p, m, s')
  {
    match s.client.phase
    case Idle =>
      ClientIssues(p, m, s, i, j, s');
    case Issued =>
      ClientMoves(p, m, s, i, j, s');
    case Moved =>
      assert s'.client.todo == ClientRem(p, |s.log|, i);
      assert At(p, m, s', i, j);
  }

  /** One more server operation in the block's result, whatever the client has done of it. */
  lemma BaseServerNext(p: Plan, m: Mem, k: nat, i: nat, j: nat)
    requires PlanOk(p) && k < |p.blocks| && i <= |p.blocks[k].cops| && j < |p.blocks[k].sops|
    ensures Base(p, m, k, i, j + 1) == Apply(p.blocks[k].sops[j], Base(p, m, k, i, j))
  {
    var b := p.blocks[k];
    var m0 := MemAfter(p.blocks, m, k);
    ExecTakeOne(b.sops, j, m0);
    assert b in p.blocks && b.sops[j] in b.sops;
    ExecCommutes(b.cops[..i], b.sops[j], Exec(b.sops[..j], m0));
  }

  lemma ServerMovesOn(p: Plan, m: Mem, s: State, i: nat, j: nat, s': State)
    requires PlanOk(p) && StageAt(p, m, s, i, j) && ServerStep(s, s') && s.server.phase == Issued
    ensures |s.log| < |p.blocks| && j < |p.blocks[|s.log|].sops| && s.server.todo[0] == Do(p.blocks[|s.log|].sops[j])
    ensures StageAt(p, m, s', i, j + 1)
  {
    var k := |s.log|;
    var b := BlockAt(p, k);
    ServerHead(p, k, j);
    assert s'.server.todo == [Do(b.sops[j])] + ServerRem(p, k, j + 1);
    assert b.sops[..j + 1][j] == b.sops[j];
  }

  lemma ServerMoves(p: Plan, m: Mem, s: State, i: nat, j: nat, s': State)
    requires PlanOk(p) && At(p, m, s, i, j) && ServerStep(s, s') && s.server.phase == Issued
    ensures At(p, m, s', i, j + 1)
  {
    var k := |s.log|;
    ServerMovesOn(p, m, s, i, j, s');
    ServerMoveSettles(s.client, s.server, s.mem, Base(p, m, k, i, j), s'.server, s'.mem);
    BaseServerNext(p, m, k, i, j);
  }

  /** Issuing an operation changes at most what an overlapping one sees torn. */
  lemma ServerIssues(p: Plan, m: Mem, s: State, i: nat, j: nat, s': State)
    requires PlanOk(p) && At(p, m, s, i, j) && ServerStep(s, s') && s.server.phase == Idle
    ensures At(p, m, s', i, j)
  {
    OperationsAt(p, m, s, i, j);
    ServerIssueSettles(s.client, s.server, s.mem, Base(p, m, |s.log|, i, j), s'.server, s'.mem);
  }

  lemma ServerStepKeeps(p: Plan, m: Mem, s: State, i: nat, j: nat, s': State)
    requires PlanOk(p) && At(p, m, s, i, j) && ServerStep(s, s')
    ensures Inv(p, m, s')
  {
    match s.server.phase
    case Idle =>
      ServerIssues(p, m, s, i, j, s');
    case Issued =>
      ServerMoves(p, m, s, i, j, s');
    case Moved =>
      assert s'.server.todo == ServerRem(p, |s.log|, j);
      assert At(p, m, s', i, j);
  }

  /** A delivery happens only when both have done their whole block, with nothing outstanding. */
  lemma DeliverAt(p: Plan, m: Mem, s: State, i: nat, j: nat)
    requires PlanOk(p) && At(p, m, s, i, j)
    requires s.client.todo != [] && s.server.todo != [] && s.client.phase == Issued && s.server.phase == Issued
    requires Meets(s.client.todo[0], s.server.todo[0])
    ensures var k := |s.log|;
            && k < |p.blocks| && i == |p.blocks[k].cops| && j == |p.blocks[k].sops|
            && s.client.todo[0] == ClientSide(p.blocks[k].comm)
            && s.server.todo[0] == ServerSide(p.blocks[k].comm)
            && s.client.todo == [ClientSide(p.blocks[k].comm)] + ClientRem(p, k + 1, 0)
            && s.server.todo == [ServerSide(p.blocks[k].comm)] + ServerRem(p, k + 1, 0)
  {
    var k := |s.log|;
    ClientHead(p, k, i);
    ServerHead(p, k, j);
    assert s.client.todo == [s.client.todo[0]] + s.client.todo[1..];
    assert s.server.todo == [s.server.todo[0]] + s.server.todo[1..];
  }

  lemma DeliverStepKeeps(p: Plan, m: Mem, s: State, i: nat, j: nat, s': State)
    requires PlanOk(p) && At(p, m, s, i, j) && DeliverStep(s, s')
    ensures Inv(p, m, s')
  {
    var k := |s.log|;
    DeliverAt(p, m, s, i, j);
    var b := p.blocks[k];
    assert b in p.blocks;
    assert b.cops[..i] == b.cops && b.sops[..j] == b.sops;
    MemAfterNext(p.blocks, m, k);
    assert s.mem == MemAfter(p.blocks, m, k + 1);
    assert s'.mem == s.mem;
    assert s'.log[k] == Entry(p.blocks, m, k);
    var b' := BlockAt(p, k + 1);
    assert b'.cops[..0] == [] && b'.sops[..0] == [];
    assert Base(p, m, k + 1, 0, 0) == s'.mem;
    assert At(p, m, s', 0, 0);
  }

  lemma StepKeepsInv(p: Plan, m: Mem, s: State, s': State)
    requires PlanOk(p) && Inv(p, m, s) && Step(s, s')
    ensures Inv(p, m, s')
  {
    var i: nat, j: nat :| At(p, m, s, i, j);
    if ClientStep(s, s') {
      ClientStepKeeps(p, m, s, i, j, s');
    } else if ServerStep(s, s') {
      ServerStepKeeps(p, m, s, i, j, s');
    } else {
      DeliverStepKeeps(p, m, s, i, j, s');
    }
  }

  /** Every reachable state of a plan satisfies the invariant. */
  lemma {:induction false} RunKeepsInv(p: Plan, m: Mem, states: seq<State>, t: nat)
    requires PlanOk(p) && Run(Start(p, m), states) && t < |states|
    ensures Inv(p, m, states[t])
  {
    if t == 0 {
      InvInit(p, m);
    } else {
      RunKeepsInv(p, m, states, t - 1);
      assert Step(states[t - 1], states[t - 1 + 1]);
      StepKeepsInv(p, m, states[t - 1], states[t]);
    }
  }
}
