/** The byte stream is as adversarial as it can be: any way of cutting a message into positive pieces is a run. */
module TcpCuts {
  import opened Chunks
  import opened TcpMachine

  function Total(ks: seq<nat>): nat {
    if ks == [] then 0 else ks[0] + Total(ks[1..])
  }

  function Sends(ks: seq<nat>): (run: seq<Move>)
    ensures |run| == |ks|
  {
    if ks == [] then [] else [Move(true, SendCall(ks[0]))] + Sends(ks[1..])
  }

  function Receives(ks: seq<nat>, room: nat): (run: seq<Move>)
    ensures |run| == |ks|
  {
    if ks == [] then [] else [Move(true, RecvCall(ks[0], room))] + Receives(ks[1..], room)
  }

  predicate Positive(ks: seq<nat>) {
    forall i :: 0 <= i < |ks| ==> 0 < ks[i]
  }

  /** With room in flight for the message, its sender may have any number of calls take it, of any sizes that add up to it. */
  lemma {:induction false} AnyCutIsSent(s: Net, cap: nat, ks: seq<nat>)
    requires s.client.todo != [] && s.client.todo[0].Put? && Positive(ks)
    requires Total(ks) <= |s.client.todo[0].left| && |s.up| + Total(ks) <= cap
    ensures Possible(s, cap, Sends(ks))
    ensures var s', left := After(s, cap, Sends(ks)), s.client.todo[0].left;
            && s'.up == s.up + left[..Total(ks)] && s'.down == s.down && s'.server == s.server
            && s'.client.todo == [Put(left[Total(ks)..])] + s.client.todo[1..]
    decreases |ks|
  {
    var left, rest := s.client.todo[0].left, s.client.todo[1..];
    if ks == [] {
      assert left[0..] == left && s.client.todo == [Put(left)] + rest;
    } else {
      var k := ks[0];
      var s1 := Next(s, cap, Move(true, SendCall(k)));
      assert s1.client.todo == [Put(left[k..])] + rest && s1.client.todo[1..] == rest;
      AnyCutIsSent(s1, cap, ks[1..]);
      assert Sends(ks)[1..] == Sends(ks[1..]);
      CutOff(s.up, left, k, Total(ks[1..]));
    }
  }

  lemma CutOff(out: seq<Byte>, left: seq<Byte>, k: nat, j: nat)
    requires k + j <= |left|
    ensures out + left[..k] + left[k..][..j] == out + left[..k + j]
    ensures left[k..][j..] == left[k + j..]
  {
    assert left[..k + j] == left[..k] + left[k..][..j];
  }

  /** And its receiver may be handed the bytes that are there in any such pieces. */
  lemma {:induction false} AnyCutIsReceived(s: Net, cap: nat, ks: seq<nat>)
    requires s.client.todo != [] && s.client.todo[0].Take? && Positive(ks)
    requires Total(ks) <= s.client.todo[0].missing && Total(ks) <= |s.down|
    ensures Possible(s, cap, Receives(ks, s.client.todo[0].room))
    ensures var s', t := After(s, cap, Receives(ks, s.client.todo[0].room)), s.client.todo[0];
            && s'.down == s.down[Total(ks)..] && s'.up == s.up && s'.server == s.server
            && s'.client.todo == [Take(t.missing - Total(ks), t.room)] + s.client.todo[1..]
            && s'.client.buf == s.client.buf + s.down[..Total(ks)]
    decreases |ks|
  {
    var t, rest := s.client.todo[0], s.client.todo[1..];
    if ks == [] {
      assert s.client.todo == [t] + rest && s.down[0..] == s.down && s.client.buf + [] == s.client.buf;
    } else {
      var k := ks[0];
      var s1 := Next(s, cap, Move(true, RecvCall(k, t.room)));
      assert s1.client.todo == [Take(t.missing - k, t.room)] + rest && s1.client.todo[1..] == rest;
      AnyCutIsReceived(s1, cap, ks[1..]);
      assert Receives(ks, t.room)[1..] == Receives(ks[1..], t.room);
      CutOff(s.client.buf, s.down, k, Total(ks[1..]));
    }
  }
}
