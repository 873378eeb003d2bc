/**
 RdmaClient and RdmaServer: the loops as they are written. Every method is proved to issue exactly
 the actions of its program, in order (`trace`), and the one-sided loops to copy exactly the bytes
 they promise. The client's methods see the server's region as an array of their own: that nobody
 else touches it between the start and the end message of a round is what `ReadSessionSafe` and
 `WriteSessionSafe` prove of every run of these programs.
 */
module RdmaPeers {
  import opened Sequences
  import opened Chunks
  import opened RdmaMachine
  import opened RdmaOneSided
  import opened RdmaTwoSided

  /** The verbs library, with a record of what was issued and waited for. Tags exist only in the record. */
  class Verbs {
    ghost var trace: seq<Action>

    constructor ()
      ensures trace == []
    {
      trace := [];
    }

    /** The client's new local buffer, holding these bytes. */
    method AllocLocal(bytes: seq<Byte>) returns (buffer: array<Byte>)
      modifies this
      ensures fresh(buffer) && buffer[..] == bytes
      ensures trace == old(trace) + [Do(Op.AllocLocal(bytes))]
    {
      buffer := Copied(bytes);
      trace := trace + [Do(Op.AllocLocal(bytes))];
    }

    /** The server's new registered buffer. */
    method AllocRegion(bytes: seq<Byte>) returns (buffer: array<Byte>)
      modifies this
      ensures fresh(buffer) && buffer[..] == bytes
      ensures trace == old(trace) + [Do(Op.AllocRegion(bytes))]
    {
      buffer := Copied(bytes);
      trace := trace + [Do(Op.AllocRegion(bytes))];
    }

    /** `dev_random_data` into the client's local buffer. */
    method FillLocal(buffer: array<Byte>, bytes: seq<Byte>)
      requires |bytes| == buffer.Length
      modifies this, buffer
      ensures buffer[..] == bytes
      ensures trace == old(trace) + [Do(Op.FillLocal(bytes))]
    {
      Overwrite(buffer, bytes);
      trace := trace + [Do(Op.FillLocal(bytes))];
    }

    /** `dev_random_data` or memset into the server's registered buffer. */
    method FillRegion(buffer: array<Byte>, bytes: seq<Byte>)
      requires |bytes| == buffer.Length
      modifies this, buffer
      ensures buffer[..] == bytes
      ensures trace == old(trace) + [Do(Op.FillRegion(bytes))]
    {
      Overwrite(buffer, bytes);
      trace := trace + [Do(Op.FillRegion(bytes))];
    }

    /** `connectToRemoteHost` */
    method Connect()
      modifies this
      ensures trace == old(trace) + [Action.Connect]
    {
      trace := trace + [Action.Connect];
    }

    /** `acceptIncomingConnection` */
    method Accept()
      modifies this
      ensures trace == old(trace) + [Action.Accept]
    {
      trace := trace + [Action.Accept];
    }

    /** `send` and the wait for its completion. */
    method Send(ghost tag: Tag, payload: seq<Byte>)
      modifies this
      ensures trace == old(trace) + [Action.Send(tag, payload)]
    {
      trace := trace + [Action.Send(tag, payload)];
    }

    /** `postReceiveBuffer` and the spin until a message has arrived in the buffer. */
    method Receive(ghost tag: Tag, buffer: array<Byte>, arriving: seq<Byte>) returns (bytesWritten: nat)
      requires |arriving| <= buffer.Length
      modifies this, buffer
      ensures bytesWritten == |arriving| && buffer[..] == arriving + old(buffer[..])[|arriving|..]
      ensures trace == old(trace) + [Recv(tag, buffer.Length)]
    {
      forall i | 0 <= i < |arriving| {
        buffer[i] := arriving[i];
      }
      bytesWritten := |arriving|;
      trace := trace + [Action.Recv(tag, buffer.Length)];
    }

    /** One-sided `read` of `len` bytes at the same offset on both sides, completed. */
    method Read(local: array<Byte>, remote: array<Byte>, off: nat, len: nat)
      requires local != remote && off + len <= local.Length && off + len <= remote.Length
      modifies this, local
      ensures local[..] == Splice(old(local[..]), off, remote[..], len)
      ensures trace == old(trace) + [Do(ReadChunk(off, len))]
    {
      forall i | off <= i < off + len {
        local[i] := remote[i];
      }
      trace := trace + [Do(ReadChunk(off, len))];
    }

    /** One-sided `write`, completed. */
    method Write(local: array<Byte>, remote: array<Byte>, off: nat, len: nat)
      requires local != remote && off + len <= local.Length && off + len <= remote.Length
      modifies this, remote
      ensures remote[..] == Splice(old(remote[..]), off, local[..], len)
      ensures trace == old(trace) + [Do(WriteChunk(off, len))]
    {
      forall i | off <= i < off + len {
        remote[i] := local[i];
      }
      trace := trace + [Do(WriteChunk(off, len))];
    }
  }

  method Copied(bytes: seq<Byte>) returns (buffer: array<Byte>)
    ensures fresh(buffer) && buffer[..] == bytes
  {
    buffer := new Byte[|bytes|];
    Overwrite(buffer, bytes);
  }

  /** The buffer is overwritten in place. */
  method Overwrite(data: array<Byte>, bytes: seq<Byte>)
    requires |bytes| == data.Length
    modifies data
    ensures data[..] == bytes
  {
    forall i | 0 <= i < data.Length {
      data[i] := bytes[i];
    }
  }

  method SendControlMessage(verbs: Verbs, ghost tag: Tag, ctl: Byte)
    modifies verbs
    ensures verbs.trace == old(verbs.trace) + [Send(tag, [ctl])]
  {
    verbs.Send(tag, [ctl]);
  }

  method WaitForControlMessage(verbs: Verbs, ghost tag: Tag, ctl: Byte)
    modifies verbs
    ensures verbs.trace == old(verbs.trace) + [Recv(tag, 1)]
  {
    var buffer := new Byte[1];
    var bytes := verbs.Receive(tag, buffer, [ctl]);
  }

  // ---- a list of actions still to come ----

  /** What has been issued since `start` and what is still to come make up the program. */
  predicate Comes(start: seq<Action>, trace: seq<Action>, rest: seq<Action>, program: seq<Action>) {
    trace + rest == start + program
  }

  lemma Begins(trace: seq<Action>, program: seq<Action>)
    ensures Comes(trace, trace, program, program)
  {
  }

  lemma Came(start: seq<Action>, trace: seq<Action>, a: seq<Action>, rest: seq<Action>, program: seq<Action>)
    requires Comes(start, trace, a + rest, program)
    ensures Comes(start, trace + a, rest, program)
  {
    Assoc(trace, a, rest);
  }

  lemma AllCame(start: seq<Action>, trace: seq<Action>, program: seq<Action>)
    requires Comes(start, trace, [], program)
    ensures trace == start + program
  {
    assert trace + [] == trace;
  }

  // ---- chunk loops ----

  lemma ReadsStep(off: nat, n: nat, b: nat, next: nat)
    requires 0 < b && next == off + b <= n
    ensures Dos(Reads(Spans(off, n, b))) == [Do(ReadChunk(off, b))] + Dos(Reads(Spans(next, n, b)))
  {
    assert Spans(off, n, b)[1..] == Spans(next, n, b);
    assert Reads(Spans(off, n, b))[1..] == Reads(Spans(next, n, b));
  }

  lemma ReadsLast(off: nat, n: nat, b: nat)
    requires 0 < b && off <= n < off + b
    ensures Dos(Reads(Spans(off, n, b))) == [Do(ReadChunk(off, n - off))]
  {
    DosOfOne(ReadChunk(off, n - off));
  }

  lemma WritesStep(off: nat, n: nat, b: nat, next: nat)
    requires 0 < b && next == off + b <= n
    ensures Dos(Writes(Spans(off, n, b))) == [Do(WriteChunk(off, b))] + Dos(Writes(Spans(next, n, b)))
  {
    assert Spans(off, n, b)[1..] == Spans(next, n, b);
    assert Writes(Spans(off, n, b))[1..] == Writes(Spans(next, n, b));
  }

  lemma WritesLast(off: nat, n: nat, b: nat)
    requires 0 < b && off <= n < off + b
    ensures Dos(Writes(Spans(off, n, b))) == [Do(WriteChunk(off, n - off))]
  {
    DosOfOne(WriteChunk(off, n - off));
  }

  /** One more chunk copied: both buffers agree that far. */
  lemma CopiedOneMore(target: seq<Byte>, source: seq<Byte>, off: nat, len: nat, next: nat)
    requires |target| == |source| && next == off + len <= |source| && target[..off] == source[..off]
    ensures Splice(target, off, source, len)[..next] == source[..next]
    ensures next == |source| ==> Splice(target, off, source, len) == source
  {
    assert source[..off + len] == source[..off] + source[off..off + len];
  }

  /** The loop of `read_tp_test` and the read of the remainder behind it. */
  method ReadChunks(verbs: Verbs, b: SizeT, local: array<Byte>, remote: array<Byte>)
    requires 0 < b && local != remote && local.Length == remote.Length < TWO_64
    modifies verbs, local
    ensures local[..] == remote[..]
    ensures verbs.trace == old(verbs.trace) + Dos(Reads(Spans(0, local.Length, b)))
  {
    var n: SizeT := local.Length;
    var lastIndex: SizeT := n - n % b;
    var offset: SizeT := 0;
    ghost var program := Dos(Reads(Spans(0, n, b)));
    Begins(verbs.trace, program);
    while offset < lastIndex
      invariant AtChunk(n, b, offset)
      invariant local[..offset] == remote[..offset]
      invariant Comes(old(verbs.trace), verbs.trace, Dos(Reads(Spans(offset, n, b))), program)
      decreases lastIndex - offset
    {
      ghost var next := Add64(offset, b);
      ChunkGuard(n, b, offset, next);
      ReadsStep(offset, n, b, next);
      CopiedOneMore(local[..], remote[..], offset, b, next);
      Came(old(verbs.trace), verbs.trace, [Do(ReadChunk(offset, b))], Dos(Reads(Spans(next, n, b))), program);
      verbs.Read(local, remote, offset, b);
      offset := Add64(offset, b);
    }
    ChunkGuard(n, b, offset, Add64(offset, b));
    ReadsLast(offset, n, b);
    CopiedOneMore(local[..], remote[..], lastIndex, n % b, n);
    verbs.Read(local, remote, lastIndex, n % b);
  }

  /** The loop of `write_tp_test` and the write of the remainder behind it. */
  method WriteChunks(verbs: Verbs, b: SizeT, local: array<Byte>, remote: array<Byte>)
    requires 0 < b && local != remote && local.Length == remote.Length < TWO_64
    modifies verbs, remote
    ensures remote[..] == local[..]
    ensures verbs.trace == old(verbs.trace) + Dos(Writes(Spans(0, local.Length, b)))
  {
    var n: SizeT := local.Length;
    var lastIndex: SizeT := n - n % b;
    var offset: SizeT := 0;
    ghost var program := Dos(Writes(Spans(0, n, b)));
    Begins(verbs.trace, program);
    while offset < lastIndex
      invariant AtChunk(n, b, offset)
      invariant remote[..offset] == local[..offset]
      invariant Comes(old(verbs.trace), verbs.trace, Dos(Writes(Spans(offset, n, b))), program)
      decreases lastIndex - offset
    {
      ghost var next := Add64(offset, b);
      ChunkGuard(n, b, offset, next);
      WritesStep(offset, n, b, next);
      CopiedOneMore(remote[..], local[..], offset, b, next);
      Came(old(verbs.trace), verbs.trace, [Do(WriteChunk(offset, b))], Dos(Writes(Spans(next, n, b))), program);
      verbs.Write(local, remote, offset, b);
      offset := Add64(offset, b);
    }
    ChunkGuard(n, b, offset, Add64(offset, b));
    WritesLast(offset, n, b);
    CopiedOneMore(remote[..], local[..], lastIndex, n % b, n);
    verbs.Write(local, remote, lastIndex, n % b);
  }

  lemma SendsStep(data: seq<Byte>, r: nat, off: nat, b: nat)
    requires 0 < b && off <= |data|
    ensures b <= |data| - off ==>
              DataSends(data, r, off, b) == [Send(Chunk(r, off), data[off..off + b])] + DataSends(data, r, off + b, b)
    ensures |data| - off < b ==> DataSends(data, r, off, b) == [Send(Chunk(r, off), data[off..|data|])]
  {
    assert data[off..] == data[off..|data|];
  }

  /** The send loop of the server's `two_sided_tp_test` and its unconditional final send. */
  method SendChunks(verbs: Verbs, ghost r: nat, b: SizeT, buffer: array<Byte>)
    requires 0 < b && buffer.Length < TWO_64
    modifies verbs
    ensures verbs.trace == old(verbs.trace) + DataSends(buffer[..], r, 0, b)
  {
    var n: SizeT := buffer.Length;
    var lastIndex: SizeT := n - n % b;
    var offset: SizeT := 0;
    ghost var data, program := buffer[..], DataSends(buffer[..], r, 0, b);
    Begins(verbs.trace, program);
    while offset < lastIndex
      invariant AtChunk(n, b, offset)
      invariant Comes(old(verbs.trace), verbs.trace, DataSends(data, r, offset, b), program)
      decreases lastIndex - offset
    {
      ghost var next := Add64(offset, b);
      ChunkGuard(n, b, offset, next);
      SendsStep(data, r, offset, b);
      Came(old(verbs.trace), verbs.trace, [Send(Chunk(r, offset), data[offset..offset + b])], DataSends(data, r, next, b), program);
      verbs.Send(Chunk(r, offset), buffer[offset..offset + b]);
      offset := Add64(offset, b);
    }
    ChunkGuard(n, b, offset, Add64(offset, b));
    SendsStep(data, r, offset, b);
    verbs.Send(Chunk(r, lastIndex), buffer[lastIndex..lastIndex + n % b]);
  }

  /** While the receive loop goes on, one more chunk size still fits a size_t if ceil(n / b) of them do. */
  lemma IndexFits(n: nat, b: nat, j: nat)
    requires 0 < b && j * b < n && ((n + b - 1) / b) * b < TWO_64
    ensures j * b + b < TWO_64 && j * b + b == (j + 1) * b
  {
    var k := (n + b - 1) / b;
    assert n + b - 1 == k * b + (n + b - 1) % b;
    if k <= j {
      MulMono(k, j, b);
    } else {
      MulMono(j + 1, k, b);
    }
  }

  /**
   The receive loop of the client's `two_sided_tp_test`, with the messages that arrive: `taken`
   names what stands in the buffer when each receive is over. The index may pass n, so
   ceil(n / b) * b has to fit a size_t; `ReceiverLoopNeverEnds` shows what happens otherwise.
   */
  method ReceiveChunks(verbs: Verbs, ghost r: nat, n: SizeT, b: SizeT, arriving: seq<seq<Byte>>) returns (ghost taken: seq<seq<Byte>>)
    requires 0 < b && ((n + b - 1) / b) * b < TWO_64
    requires |arriving| == Receives(0, n, b) && forall i :: 0 <= i < |arriving| ==> |arriving[i]| <= b
    modifies verbs
    ensures taken == arriving
    ensures verbs.trace == old(verbs.trace) + DataRecvs(r, 0, n, b)
  {
    var buffer := new Byte[b];
    var x: SizeT, message := 0, 0;
    ghost var j: nat, program := 0, DataRecvs(r, 0, n, b);
    taken := [];
    Begins(verbs.trace, program);
    while x < n
      invariant x == j * b && message + Receives(x, n, b) == |arriving|
      invariant taken == arriving[..message]
      invariant Comes(old(verbs.trace), verbs.trace, DataRecvs(r, x, n, b), program)
      decreases if x < n then n - x else 0
    {
      IndexFits(n, b, j);
      Came(old(verbs.trace), verbs.trace, [Recv(Chunk(r, x), b)], DataRecvs(r, x + b, n, b), program);
      var written := verbs.Receive(Chunk(r, x), buffer, arriving[message]);
      taken := taken + [buffer[..written]];
      x, message := Add64(x, b), message + 1;
      j := j + 1;
    }
    AllCame(old(verbs.trace), verbs.trace, program);
  }
}
