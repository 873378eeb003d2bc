/**
 The two-sided throughput session. The sender counts its messages from `n / b` and always sends a
 last one of `n % b` bytes; the receiver counts ceil(n / b) of its own. The session finishes
 exactly when no chunk size divides n.
 */
module RdmaTwoSided {
  import opened Sequences
  import opened Chunks
  import opened RdmaMachine
  import opened RdmaTheorems

  /** The server's sends from offset x of its loop on, one a span, the payload taken from its copy of the data. */
  function DataSends(data: seq<Byte>, r: nat, x: nat, b: nat): (acts: seq<Action>)
    requires 0 < b && x <= |data|
    ensures |acts| == |Spans(x, |data|, b)|
    decreases |data| - x
  {
    if |data| - x < b then [Send(Chunk(r, x), data[x..])]
    else [Send(Chunk(r, x), data[x..x + b])] + DataSends(data, r, x + b, b)
  }

  /** The client's receives, from index x of its loop on. */
  function DataRecvs(r: nat, x: nat, n: nat, b: nat): (acts: seq<Action>)
    requires 0 < b
    ensures |acts| == Receives(x, n, b)
    decreases if x < n then n - x else 0
  {
    if x < n then [Recv(Chunk(r, x), b)] + DataRecvs(r, x + b, n, b) else []
  }

  function Min(a: nat, b: nat): nat { if a < b then a else b }

  /** The messages both sides agree on. */
  function DataBlocks(data: seq<Byte>, r: nat, x: nat, b: nat): (bs: seq<Block>)
    requires 0 < b
    decreases if x < |data| then |data| - x else 0
  {
    if x < |data|
    then [Block([], [], Message(false, Chunk(r, x), data[x..Min(x + b, |data|)], b))] + DataBlocks(data, r, x + b, b)
    else []
  }

  /** The chunks themselves, in the order they are sent. */
  function Pieces(data: seq<Byte>, x: nat, b: nat): (pieces: seq<seq<Byte>>)
    requires 0 < b
    ensures |pieces| == Receives(x, |data|, b) && forall i :: 0 <= i < |pieces| ==> |pieces[i]| <= b
    decreases if x < |data| then |data| - x else 0
  {
    if x < |data| then [data[x..Min(x + b, |data|)]] + Pieces(data, x + b, b) else []
  }

  lemma PieceThenRest(data: seq<Byte>, x: nat, next: nat)
    requires x < |data| && x <= next
    ensures data[x..Min(next, |data|)] + (if next < |data| then data[next..] else []) == data[x..]
  {
  }

  lemma {:induction false} JoinPieces(data: seq<Byte>, x: nat, b: nat)
    requires 0 < b
    ensures Join(Pieces(data, x, b)) == if x < |data| then data[x..] else []
    decreases if x < |data| then |data| - x else 0
  {
    if x < |data| {
      JoinPieces(data, x + b, b);
      assert Pieces(data, x, b)[1..] == Pieces(data, x + b, b);
      PieceThenRest(data, x, x + b);
    }
  }

  lemma {:induction false} ReceiverMeets(data: seq<Byte>, r: nat, x: nat, b: nat)
    requires 0 < b
    ensures ClientPart(DataBlocks(data, r, x, b)) == DataRecvs(r, x, |data|, b)
    decreases if x < |data| then |data| - x else 0
  {
    if x < |data| {
      PartsOfMeeting(Message(false, Chunk(r, x), data[x..Min(x + b, |data|)], b), DataBlocks(data, r, x + b, b));
      ReceiverMeets(data, r, x + b, b);
    }
  }

  /** A zero-length send if b divides what is left. */
  function LeftOver(r: nat, n: nat, left: nat, b: nat): seq<Action>
    requires 0 < b
  {
    if left % b == 0 then [Send(Chunk(r, n), [])] else []
  }

  lemma LeftOverStep(r: nat, n: nat, left: nat, b: nat)
    requires 0 < b
    ensures left >= b ==> LeftOver(r, n, left, b) == LeftOver(r, n, left - b, b)
    ensures left < b ==> LeftOver(r, n, left, b) == if left == 0 then [Send(Chunk(r, n), [])] else []
  {
    if left >= b {
      DivModStep(left, b);
    } else {
      DivModUnique(left, b, 0, left);
    }
  }

  /** The sender meets the receiver's loop message by message; when b divides what is left, a zero-length send is left over. */
  lemma {:induction false} SenderMeets(data: seq<Byte>, r: nat, x: nat, b: nat)
    requires 0 < b && x <= |data|
    ensures DataSends(data, r, x, b) == ServerPart(DataBlocks(data, r, x, b)) + LeftOver(r, |data|, |data| - x, b)
    decreases |data| - x
  {
    var n := |data|;
    LeftOverStep(r, n, n - x, b);
    if n == x {
      assert data[x..] == [];
    } else if n - x < b {
      LastMeets(data, r, x, b);
      assert data[x..] == data[x..n];
    } else {
      SenderMeets(data, r, x + b, b);
      FullChunkMeets(data, r, x, b, LeftOver(r, n, n - (x + b), b));
    }
  }

  lemma FullChunkMeets(data: seq<Byte>, r: nat, x: nat, b: nat, behind: seq<Action>)
    requires 0 < b && x + b <= |data|
    requires DataSends(data, r, x + b, b) == ServerPart(DataBlocks(data, r, x + b, b)) + behind
    ensures DataSends(data, r, x, b) == ServerPart(DataBlocks(data, r, x, b)) + behind
  {
    StepMeets(data, r, x, b);
    Assoc([Send(Chunk(r, x), data[x..x + b])], ServerPart(DataBlocks(data, r, x + b, b)), behind);
  }

  lemma StepMeets(data: seq<Byte>, r: nat, x: nat, b: nat)
    requires 0 < b && x + b <= |data|
    ensures ServerPart(DataBlocks(data, r, x, b)) == [Send(Chunk(r, x), data[x..x + b])] + ServerPart(DataBlocks(data, r, x + b, b))
  {
    PartsOfMeeting(Message(false, Chunk(r, x), data[x..x + b], b), DataBlocks(data, r, x + b, b));
  }

  lemma LastMeets(data: seq<Byte>, r: nat, x: nat, b: nat)
    requires x < |data| < x + b
    ensures ServerPart(DataBlocks(data, r, x, b)) == [Send(Chunk(r, x), data[x..|data|])]
  {
    PartsOfMeeting(Message(false, Chunk(r, x), data[x..|data|], b), []);
    assert DataBlocks(data, r, x + b, b) == [];
  }

  function NoMore(): Plan { Plan([], [], []) }

  /**
   A two-sided session: every round sends the server's `data`, which is copied into the round by
   value. `token` is the byte the server registers so that the client can connect.
   */
  datatype TwoTp = TwoTp(sizes: seq<nat>, data: seq<Byte>, token: seq<Byte>, ctl: Byte) {
    predicate Valid() {
      forall r :: 0 <= r < |sizes| ==> 0 < sizes[r]
    }

    function ClientRound(r: nat): seq<Action>
      requires Valid() && r < |sizes|
    {
      [Send(Ready(r), [ctl])] + DataRecvs(r, 0, |data|, sizes[r]) + [Send(Finish(r), [ctl])]
    }

    function ClientFrom(r: nat): seq<Action>
      requires Valid() && r <= |sizes|
      decreases |sizes| - r
    {
      if r == |sizes| then [] else ClientRound(r) + ClientFrom(r + 1)
    }

    function ServerSends(r: nat): seq<Action>
      requires Valid() && r < |sizes|
    {
      DataSends(data, r, 0, sizes[r])
    }

    function ServerRound(r: nat): seq<Action>
      requires Valid() && r < |sizes|
    {
      [Recv(Ready(r), 1)] + ServerSends(r) + [Recv(Finish(r), 1)]
    }

    function ServerFrom(r: nat): seq<Action>
      requires Valid() && r <= |sizes|
      decreases |sizes| - r
    {
      if r == |sizes| then [] else ServerRound(r) + ServerFrom(r + 1)
    }

    function Client(): seq<Action>
      requires Valid()
    {
      [Connect] + ClientFrom(0)
    }

    function Server(): seq<Action>
      requires Valid()
    {
      [Do(AllocRegion(token)), Accept] + ServerFrom(0)
    }

    predicate Divides(r: nat)
      requires Valid() && r < |sizes|
    {
      |data| % sizes[r] == 0
    }

    /** No chunk size from round r on divides the data size. */
    predicate CleanFrom(r: nat)
      requires Valid()
    {
      forall q :: r <= q < |sizes| ==> !Divides(q)
    }

    /** What both sides agree on in any round, whether it can finish or not. */
    function Agreed(r: nat): seq<Block>
      requires Valid() && r < |sizes|
    {
      [Block([], [], Message(true, Ready(r), [ctl], 1))] + DataBlocks(data, r, 0, sizes[r])
    }

    function FinishBlock(r: nat): Block {
      Block([], [], Message(true, Finish(r), [ctl], 1))
    }

    /** The plan of rounds r on, with `after` to follow if the session gets that far. */
    function PlanFrom(r: nat, after: Plan): Plan
      requires Valid() && r <= |sizes|
      decreases |sizes| - r
    {
      if r == |sizes| then after
      else if Divides(r) then
        Plan(Agreed(r),
             [Send(Finish(r), [ctl])] + ClientFrom(r + 1) + ClientProgram(after),
             [Send(Chunk(r, |data|), [])] + [Recv(Finish(r), 1)] + ServerFrom(r + 1) + ServerProgram(after))
      else Prepend(Agreed(r) + [FinishBlock(r)], PlanFrom(r + 1, after))
    }

    function HeadBlock(): Block {
      Block([], [AllocRegion(token)], Handshake)
    }

    function SessionPlan(after: Plan): Plan
      requires Valid()
    {
      Prepend([HeadBlock()], PlanFrom(0, after))
    }

    lemma AgreedParts(r: nat)
      requires Valid() && r < |sizes|
      ensures ClientPart(Agreed(r)) + [Send(Finish(r), [ctl])] == ClientRound(r)
      ensures ServerPart(Agreed(r)) + LeftOver(r, |data|, |data|, sizes[r]) + [Recv(Finish(r), 1)] == ServerRound(r)
    {
      var ready := Message(true, Ready(r), [ctl], 1);
      var bs := DataBlocks(data, r, 0, sizes[r]);
      var z := LeftOver(r, |data|, |data|, sizes[r]);
      PartsOfMeeting(ready, bs);
      ReceiverMeets(data, r, 0, sizes[r]);
      SenderMeets(data, r, 0, sizes[r]);
      assert ServerSends(r) == ServerPart(bs) + z;
      Assoc([ServerSide(ready)], ServerPart(bs), z);
    }

    lemma ProjectsDividing(r: nat, after: Plan)
      requires Valid() && r < |sizes| && Divides(r)
      ensures ClientProgram(PlanFrom(r, after)) == ClientRound(r) + ClientFrom(r + 1) + ClientProgram(after)
      ensures ServerProgram(PlanFrom(r, after)) == ServerRound(r) + ServerFrom(r + 1) + ServerProgram(after)
    {
      AgreedParts(r);
      Assoc4(ClientPart(Agreed(r)), [Send(Finish(r), [ctl])], ClientFrom(r + 1), ClientProgram(after));
      Assoc5(ServerPart(Agreed(r)), [Send(Chunk(r, |data|), [])], [Recv(Finish(r), 1)], ServerFrom(r + 1), ServerProgram(after));
    }

    lemma FinishedParts(r: nat)
      requires Valid() && r < |sizes| && !Divides(r)
      ensures ClientPart(Agreed(r) + [FinishBlock(r)]) == ClientRound(r)
      ensures ServerPart(Agreed(r) + [FinishBlock(r)]) == ServerRound(r)
    {
      AgreedParts(r);
      PartsAppend(Agreed(r), [FinishBlock(r)]);
      PartsOfOne(FinishBlock(r));
      assert Dos([]) + [Send(Finish(r), [ctl])] == [Send(Finish(r), [ctl])];
      assert ServerPart(Agreed(r)) + [] == ServerPart(Agreed(r));
    }

    /** The two loops, as written, are the two sides of the plan. */
    lemma {:induction false} ProjectsFrom(r: nat, after: Plan)
      requires Valid() && r <= |sizes|
      ensures ClientProgram(PlanFrom(r, after)) == ClientFrom(r) + ClientProgram(after)
      ensures ServerProgram(PlanFrom(r, after)) == ServerFrom(r) + ServerProgram(after)
      decreases |sizes| - r
    {
      if r < |sizes| {
        if Divides(r) {
          ProjectsDividing(r, after);
        } else {
          ProjectsFrom(r + 1, after);
          FinishedParts(r);
          ProgramsPrepend(Agreed(r) + [FinishBlock(r)], PlanFrom(r + 1, after));
          Assoc(ClientRound(r), ClientFrom(r + 1), ClientProgram(after));
          Assoc(ServerRound(r), ServerFrom(r + 1), ServerProgram(after));
        }
      }
    }

    lemma Projects(after: Plan)
      requires Valid()
      ensures ClientProgram(SessionPlan(after)) == Client() + ClientProgram(after)
      ensures ServerProgram(SessionPlan(after)) == Server() + ServerProgram(after)
    {
      ProjectsFrom(0, after);
      ProgramsPrepend([HeadBlock()], PlanFrom(0, after));
      PartsOfOne(HeadBlock());
      DosOfOne(AllocRegion(token));
      assert ClientPart([HeadBlock()]) == [Connect];
      assert ServerPart([HeadBlock()]) == [Do(AllocRegion(token)), Accept];
      Assoc([Connect], ClientFrom(0), ClientProgram(after));
      Assoc([Do(AllocRegion(token)), Accept], ServerFrom(0), ServerProgram(after));
    }

    lemma AgreedOk(r: nat)
      requires Valid() && r < |sizes|
      ensures forall b :: b in Agreed(r) ==> BlockOk(b)
    {
      DataBlocksOk(data, r, 0, sizes[r]);
    }

    lemma {:induction false} OkFrom(r: nat, after: Plan)
      requires Valid() && r <= |sizes| && PlanOk(after)
      ensures PlanOk(PlanFrom(r, after))
      decreases |sizes| - r
    {
      if r < |sizes| {
        AgreedOk(r);
        if !Divides(r) {
          OkFrom(r + 1, after);
        }
      }
    }

    lemma Ok(after: Plan)
      requires Valid() && PlanOk(after)
      ensures PlanOk(SessionPlan(after))
    {
      OkFrom(0, after);
    }

    /** Where the plan ends: after everything if no size divides n, else in the first round whose size does. */
    lemma {:induction false} RestsFrom(r: nat, after: Plan) returns (q: nat)
      requires Valid() && r <= |sizes|
      ensures var p := PlanFrom(r, after);
              && r <= q <= |sizes|
              && (forall u :: r <= u < q ==> !Divides(u))
              && (q == |sizes| ==> p.crest == after.crest && p.srest == after.srest)
              && (q < |sizes| ==>
                    && Divides(q)
                    && p.crest != [] && p.crest[0] == Send(Finish(q), [ctl])
                    && p.srest != [] && p.srest[0] == Send(Chunk(q, |data|), []))
      decreases |sizes| - r
    {
      if r == |sizes| || Divides(r) {
        q := r;
      } else {
        q := RestsFrom(r + 1, after);
      }
    }

    /** What follows a session comes behind it, if the session gets to its end, and does not matter if it does not. */
    lemma {:induction false} PlanSplits(r: nat, after: Plan)
      requires Valid() && r <= |sizes|
      ensures var p, q := PlanFrom(r, after), PlanFrom(r, NoMore());
              && p.blocks == q.blocks + (if CleanFrom(r) then after.blocks else [])
              && (CleanFrom(r) ==> p.crest == after.crest && q.crest == [])
              && (!CleanFrom(r) ==> p.crest != [] && q.crest != [] && p.crest[0] == q.crest[0])
      decreases |sizes| - r
    {
      if r < |sizes| && !Divides(r) {
        PlanSplits(r + 1, after);
        assert CleanFrom(r) <==> CleanFrom(r + 1);
        var front := Agreed(r) + [FinishBlock(r)];
        Assoc(front, PlanFrom(r + 1, NoMore()).blocks, if CleanFrom(r) then after.blocks else []);
      }
    }

    /** After t blocks the client's next action is the end-of-round message of round q. */
    predicate FinishNext(p: Plan, t: nat, q: nat) {
      && t <= |p.blocks|
      && (t < |p.blocks| ==> p.blocks[t].comm.Message? && p.blocks[t].comm.tag == Finish(q))
      && (t == |p.blocks| ==> p.crest != [] && p.crest[0].Send? && p.crest[0].tag == Finish(q))
    }

    lemma AgreedTaken(r: nat, q: nat)
      requires Valid() && r < |sizes|
      ensures Taken(Agreed(r), q) == if q == r then data else []
      ensures forall i :: 0 <= i < |Agreed(r)| ==> Agreed(r)[i].comm.Message? && !Agreed(r)[i].comm.tag.Finish?
    {
      var ready := Block([], [], Message(true, Ready(r), [ctl], 1));
      DataBlocksTags(data, r, 0, sizes[r]);
      DataBlocksTaken(data, r, 0, sizes[r], q);
      TakenAppend([ready], DataBlocks(data, r, 0, sizes[r]), q);
      TakenOne(ready, q);
      assert data[0..] == data;
    }

    lemma NotWithinAgreed(r: nat, t: nat, q: nat)
      requires Valid() && r < |sizes| && FinishNext(PlanFrom(r, NoMore()), t, q)
      ensures |Agreed(r)| <= t
    {
      AgreedTaken(r, q);
    }

    lemma RightAfterAgreed(r: nat, t: nat, q: nat)
      requires Valid() && r < |sizes| && FinishNext(PlanFrom(r, NoMore()), t, q)
      requires Divides(r) || t == |Agreed(r)|
      ensures q == r && Taken(PlanFrom(r, NoMore()).blocks[..t], q) == data
    {
      NotWithinAgreed(r, t, q);
      assert PlanFrom(r, NoMore()).blocks[..t] == Agreed(r);
      AgreedTaken(r, q);
    }

    /** Once the client is about to report the end of a round, that round's chunks add up to the data. */
    lemma {:induction false} TakenFrom(r: nat, t: nat, q: nat)
      requires Valid() && r <= |sizes| && FinishNext(PlanFrom(r, NoMore()), t, q)
      ensures r <= q < |sizes| && Taken(PlanFrom(r, NoMore()).blocks[..t], q) == data
      decreases |sizes| - r
    {
      if r < |sizes| {
        NotWithinAgreed(r, t, q);
        if Divides(r) || t == |Agreed(r)| {
          RightAfterAgreed(r, t, q);
        } else {
          var t' := t - |Agreed(r)| - 1;
          FinishNextLater(r, t', q);
          TakenFrom(r + 1, t', q);
          TakenLater(r, t', q);
        }
      }
    }

    lemma FinishNextLater(r: nat, t': nat, q: nat)
      requires Valid() && r < |sizes| && !Divides(r)
      requires FinishNext(PlanFrom(r, NoMore()), |Agreed(r)| + 1 + t', q)
      ensures FinishNext(PlanFrom(r + 1, NoMore()), t', q)
    {
      var rest := PlanFrom(r + 1, NoMore()).blocks;
      var front := Agreed(r) + [FinishBlock(r)];
      assert PlanFrom(r, NoMore()).blocks == front + rest;
      assert t' < |rest| ==> (front + rest)[|front| + t'] == rest[t'];
    }

    lemma TakenLater(r: nat, t': nat, q: nat)
      requires Valid() && r < |sizes| && !Divides(r) && t' <= |PlanFrom(r + 1, NoMore()).blocks|
      requires q != r
      ensures Taken(PlanFrom(r, NoMore()).blocks[..|Agreed(r)| + 1 + t'], q) == Taken(PlanFrom(r + 1, NoMore()).blocks[..t'], q)
    {
      var rest := PlanFrom(r + 1, NoMore()).blocks;
      var front := Agreed(r) + [FinishBlock(r)];
      assert (front + rest)[..|front| + t'] == front + rest[..t'];
      assert Taken(front, q) == [] by {
        TakenAppend(Agreed(r), [FinishBlock(r)], q);
        TakenOne(FinishBlock(r), q);
        AgreedTaken(r, q);
      }
      TakenAppend(front, rest[..t'], q);
    }

    lemma ChunksAgreed(r: nat)
      requires Valid() && r < |sizes|
      ensures forall b :: b in Agreed(r) ==> ChunkOk(b)
    {
      DataBlocksTags(data, r, 0, sizes[r]);
    }

    /** Chunk x of round r carries the data from x on, and the receive it meets has room for a whole chunk. */
    lemma {:induction false} ChunksFrom(r: nat)
      requires Valid() && r <= |sizes|
      ensures forall b :: b in PlanFrom(r, NoMore()).blocks ==> ChunkOk(b)
      decreases |sizes| - r
    {
      if r < |sizes| {
        ChunksAgreed(r);
        if !Divides(r) {
          ChunksFrom(r + 1);
        }
      }
    }

    predicate ChunkOk(b: Block)
      requires Valid()
    {
      b.comm.Message? && b.comm.tag.Chunk? ==>
        var r, x := b.comm.tag.round, b.comm.tag.index;
        && r < |sizes| && x < |data| && !b.comm.toServer
        && b.comm.payload == data[x..Min(x + sizes[r], |data|)] && b.comm.cap == sizes[r]
    }
  }

  lemma {:induction false} DataBlocksOk(data: seq<Byte>, r: nat, x: nat, b: nat)
    requires 0 < b
    ensures forall bl :: bl in DataBlocks(data, r, x, b) ==> BlockOk(bl)
    decreases if x < |data| then |data| - x else 0
  {
    if x < |data| {
      DataBlocksOk(data, r, x + b, b);
    }
  }

  lemma {:induction false} DataBlocksTags(data: seq<Byte>, r: nat, x: nat, b: nat)
    requires 0 < b
    ensures forall bl :: bl in DataBlocks(data, r, x, b) ==>
              && bl.comm.Message? && bl.comm.tag.Chunk? && bl.comm.tag.round == r && !bl.comm.toServer
              && var y := bl.comm.tag.index; y < |data| && bl.comm.payload == data[y..Min(y + b, |data|)] && bl.comm.cap == b
    decreases if x < |data| then |data| - x else 0
  {
    if x < |data| {
      DataBlocksTags(data, r, x + b, b);
    }
  }

  // ---- the bytes a client takes in a round ----

  function ChunkBytes(a: Action, r: nat): seq<Byte> {
    if a.Send? && a.tag.Chunk? && a.tag.round == r then a.payload else []
  }

  /** The chunks of round r among the messages of some blocks, put together in order. */
  function Taken(bs: seq<Block>, r: nat): seq<Byte> {
    if bs == [] then [] else ChunkBytes(ServerSide(bs[0].comm), r) + Taken(bs[1..], r)
  }

  /** The chunks of round r a client has taken, put together in the order they came. */
  function Received(log: seq<Delivery>, r: nat): seq<Byte> {
    if log == [] then [] else Received(log[..|log| - 1], r) + ChunkBytes(log[|log| - 1].send, r)
  }

  lemma TakenOne(b: Block, r: nat)
    ensures Taken([b], r) == ChunkBytes(ServerSide(b.comm), r)
  {
    assert [b][1..] == [];
  }

  lemma {:induction false} TakenAppend(a: seq<Block>, b: seq<Block>, r: nat)
    ensures Taken(a + b, r) == Taken(a, r) + Taken(b, r)
  {
    if a == [] {
      assert a + b == b;
    } else {
      assert (a + b)[1..] == a[1..] + b;
      TakenAppend(a[1..], b, r);
    }
  }

  lemma {:induction false} DataBlocksTaken(data: seq<Byte>, r: nat, x: nat, b: nat, q: nat)
    requires 0 < b
    ensures Taken(DataBlocks(data, r, x, b), q) == if q == r && x < |data| then data[x..] else []
    decreases if x < |data| then |data| - x else 0
  {
    if x < |data| {
      var bs := DataBlocks(data, r, x, b);
      assert bs[1..] == DataBlocks(data, r, x + b, b);
      DataBlocksTaken(data, r, x + b, b, q);
      if x + b < |data| {
        assert data[x..] == data[x..x + b] + data[x + b..];
      }
    }
  }

  lemma TakenNext(blocks: seq<Block>, k: nat, r: nat)
    requires k < |blocks|
    ensures Taken(blocks[..k + 1], r) == Taken(blocks[..k], r) + ChunkBytes(ServerSide(blocks[k].comm), r)
  {
    assert blocks[..k + 1] == blocks[..k] + [blocks[k]];
    TakenAppend(blocks[..k], [blocks[k]], r);
    TakenOne(blocks[k], r);
  }

  /** No chunk goes up, so what the log holds of a round is what its blocks send down. */
  lemma {:induction false} ReceivedIsTaken(p: Plan, m: Mem, k: nat, r: nat)
    requires k <= |p.blocks|
    requires forall b :: b in p.blocks && b.comm.Message? && b.comm.tag.Chunk? ==> !b.comm.toServer
    ensures Received(Expected(p, m, k), r) == Taken(p.blocks[..k], r)
  {
    if k > 0 {
      ReceivedIsTaken(p, m, k - 1, r);
      assert Expected(p, m, k)[..k - 1] == Expected(p, m, k - 1);
      TakenNext(p.blocks, k - 1, r);
      assert p.blocks[k - 1] in p.blocks;
    }
  }

  // ---- the session ----

  /**
   Exact completion, for every data size and every list of positive chunk sizes: a run that cannot
   go on has finished every round if no size divides the data size; otherwise it stands in the
   first round whose size does, the server in its zero-length final send and the client in the
   message that reports the end of the round, with every earlier round finished.
   */
  lemma TwoSidedEndsExactly(e: TwoTp, m: Mem, states: seq<State>) returns (q: nat)
    requires e.Valid() && Maximal(Init(e.Client(), e.Server(), m), states)
    ensures var s := states[|states| - 1];
            && q <= |e.sizes|
            && (forall u :: 0 <= u < q ==> !e.Divides(u))
            && (q == |e.sizes| ==> Finished(s))
            && (q < |e.sizes| ==>
                  && e.Divides(q)
                  && s.client.phase == Issued && s.client.todo != [] && s.client.todo[0] == Send(Finish(q), [e.ctl])
                  && s.server.phase == Issued && s.server.todo != [] && s.server.todo[0] == Send(Chunk(q, |e.data|), []))
            && (Finished(s) <==> e.CleanFrom(0))
  {
    var p := e.SessionPlan(NoMore());
    e.Projects(NoMore());
    e.Ok(NoMore());
    assert ClientProgram(p) == e.Client() && ServerProgram(p) == e.Server();
    MaximalRunsEnd(p, m, states);
    q := e.RestsFrom(0, NoMore());
  }

  /** A chunk message carries its own stretch of the server's data into a receive posted for it, of the round's size. */
  predicate ChunkArrives(e: TwoTp, d: Delivery) {
    d.send.Send? && d.send.tag.Chunk? ==>
      var r, x := d.send.tag.round, d.send.tag.index;
      && r < |e.sizes| && x < |e.data|
      && d.send.payload == e.data[x..Min(x + e.sizes[r], |e.data|)]
      && d.recv == Recv(Chunk(r, x), e.sizes[r])
  }

  lemma ChunkDelivery(e: TwoTp, m: Mem, u: nat)
    requires e.Valid() && u < |e.SessionPlan(NoMore()).blocks|
    ensures ChunkArrives(e, Entry(e.SessionPlan(NoMore()).blocks, m, u))
  {
    var p := e.SessionPlan(NoMore());
    e.ChunksFrom(0);
    assert p.blocks[u] in p.blocks && e.ChunkOk(p.blocks[u]);
  }

  lemma ReceivedWhole(e: TwoTp, m: Mem, k: nat, r: nat)
    requires e.Valid() && 0 < k && e.FinishNext(e.PlanFrom(0, NoMore()), k - 1, r)
    ensures k <= |e.SessionPlan(NoMore()).blocks|
    ensures r < |e.sizes| && Received(Expected(e.SessionPlan(NoMore()), m, k), r) == e.data
  {
    var p := e.SessionPlan(NoMore());
    var p0 := e.PlanFrom(0, NoMore());
    e.ChunksFrom(0);
    e.TakenFrom(0, k - 1, r);
    ReceivedIsTaken(p, m, k, r);
    TakenBehindHead(e.HeadBlock(), p.blocks, p0.blocks, k, r);
  }

  /** A block that ends in no message adds no chunk. */
  lemma TakenBehindHead(head: Block, all: seq<Block>, blocks: seq<Block>, k: nat, r: nat)
    requires all == [head] + blocks && !head.comm.Message? && 0 < k <= |all|
    ensures Taken(all[..k], r) == Taken(blocks[..k - 1], r)
  {
    assert all[..k] == [head] + blocks[..k - 1];
    TakenAppend([head], blocks[..k - 1], r);
    TakenOne(head, r);
  }

  /**
   Data, in every reachable state of every session, finishing or not: each chunk message carries
   exactly its stretch of the server's data and fits the receive posted for it.
   */
  lemma TwoSidedChunks(e: TwoTp, m: Mem, states: seq<State>, t: nat)
    requires e.Valid() && Run(Init(e.Client(), e.Server(), m), states) && t < |states|
    ensures forall u :: 0 <= u < |states[t].log| ==> ChunkArrives(e, states[t].log[u])
  {
    SessionIsPlan(e, m);
    EveryStateSafe(e.SessionPlan(NoMore()), m, states, t);
    forall u | 0 <= u < |states[t].log|
      ensures ChunkArrives(e, states[t].log[u])
    {
      ChunkDelivery(e, m, u);
    }
  }

  lemma SessionIsPlan(e: TwoTp, m: Mem)
    requires e.Valid()
    ensures PlanOk(e.SessionPlan(NoMore()))
    ensures Start(e.SessionPlan(NoMore()), m) == Init(e.Client(), e.Server(), m)
  {
    e.Projects(NoMore());
    e.Ok(NoMore());
    assert e.Client() + [] == e.Client() && e.Server() + [] == e.Server();
  }

  /** A client about to send the end-of-round message of round r has taken, in that round, the server's whole data. */
  ghost predicate TwoSidedRoundHolds(e: TwoTp, client: Proc, log: seq<Delivery>)
    requires e.Valid()
  {
    forall r: nat, payload ::
      client.todo != [] && client.todo[0] == Send(Finish(r), payload) && client.phase != Moved
      ==> r < |e.sizes| && Received(log, r) == e.data
  }

  /**
   In every reachable state in which the client is about to report the end of a round, the chunks
   it took in that round, put together, are the server's whole data.
   */
  lemma TwoSidedDelivers(e: TwoTp, m: Mem, states: seq<State>, t: nat)
    requires e.Valid() && Run(Init(e.Client(), e.Server(), m), states) && t < |states|
    ensures TwoSidedRoundHolds(e, states[t].client, states[t].log)
  {
    var p := e.SessionPlan(NoMore());
    SessionIsPlan(e, m);
    EveryStateSafe(p, m, states, t);
    var c := states[t].client;
    if c.todo != [] && c.todo[0].Send? && c.todo[0].tag.Finish? && c.phase != Moved {
      NextMeeting(p, m, states, t);
      ReceivedWhole(e, m, |states[t].log|, c.todo[0].tag.round);
    }
  }
}
