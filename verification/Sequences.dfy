/** Facts about concatenation, stated once because large proofs should not rediscover them. */
module Sequences {

  lemma Assoc<T>(a: seq<T>, b: seq<T>, c: seq<T>)
    ensures a + (b + c) == a + b + c
  {
  }

  lemma Assoc4<T>(a: seq<T>, b: seq<T>, c: seq<T>, d: seq<T>)
    ensures a + (b + c + d) == a + b + c + d
  {
  }

  lemma Assoc5<T>(a: seq<T>, b: seq<T>, c: seq<T>, d: seq<T>, e: seq<T>)
    ensures a + (b + c + d + e) == a + b + c + d + e
  {
  }

  lemma TailOfSum<T>(a: seq<T>, b: seq<T>)
    requires a != []
    ensures (a + b)[0] == a[0] && (a + b)[1..] == a[1..] + b
  {
  }

  lemma TakeOneMore<T>(all: seq<T>, r: nat)
    requires r < |all|
    ensures all[..r + 1] == all[..r] + [all[r]]
  {
  }

  // ---- parts put one behind the other ----

  function Concat<T>(parts: seq<seq<T>>): seq<T> {
    if parts == [] then [] else parts[0] + Concat(parts[1..])
  }

  /** How many elements the first r parts have. */
  function Before<T>(parts: seq<seq<T>>, r: nat): nat
    requires r <= |parts|
  {
    if r == 0 then 0 else |parts[0]| + Before(parts[1..], r - 1)
  }

  lemma {:induction false} BeforeNext<T>(parts: seq<seq<T>>, r: nat)
    requires r < |parts|
    ensures Before(parts, r + 1) == Before(parts, r) + |parts[r]|
  {
    if r > 0 {
      BeforeNext(parts[1..], r - 1);
    }
  }

  lemma {:induction false} ConcatLength<T>(parts: seq<seq<T>>)
    ensures |Concat(parts)| == Before(parts, |parts|)
  {
    if parts != [] {
      ConcatLength(parts[1..]);
    }
  }

  lemma {:induction false} ConcatAt<T>(parts: seq<seq<T>>, r: nat, i: nat)
    requires r < |parts| && i < |parts[r]|
    ensures Before(parts, r) + i < |Concat(parts)| && Concat(parts)[Before(parts, r) + i] == parts[r][i]
  {
    if r > 0 {
      ConcatAt(parts[1..], r - 1, i);
    }
  }

  /** Element `at` of the sequence is x. */
  predicate Stands<T(==)>(s: seq<T>, at: nat, x: T) {
    at < |s| && s[at] == x
  }

  /** The part lies in the sequence from `at` on. */
  predicate Contains<T(==)>(s: seq<T>, at: nat, part: seq<T>) {
    at + |part| <= |s| && forall j :: 0 <= j < |part| ==> s[at + j] == part[j]
  }

  /** Where part r lies in a whole with something in front of its parts and behind them. */
  lemma Placed<T>(head: seq<T>, parts: seq<seq<T>>, tail: seq<T>, whole: seq<T>, r: nat)
    requires whole == head + Concat(parts) + tail && r < |parts|
    ensures Contains(whole, |head| + Before(parts, r), parts[r])
  {
    ConcatLength(parts);
    BeforeWithin(parts, r + 1);
    BeforeNext(parts, r);
    forall j | 0 <= j < |parts[r]|
      ensures whole[|head| + Before(parts, r) + j] == parts[r][j]
    {
      ConcatAt(parts, r, j);
    }
  }

  lemma {:induction false} BeforeWithin<T>(parts: seq<seq<T>>, r: nat)
    requires r <= |parts|
    ensures Before(parts, r) <= Before(parts, |parts|)
  {
    if r > 0 {
      BeforeWithin(parts[1..], r - 1);
    }
  }

  lemma PlacedAround<T>(head: seq<T>, parts: seq<seq<T>>, tail: seq<T>, whole: seq<T>)
    requires whole == head + Concat(parts) + tail
    ensures |whole| == |head| + Before(parts, |parts|) + |tail|
    ensures forall i :: 0 <= i < |head| ==> whole[i] == head[i]
    ensures tail != [] ==> whole[|whole| - 1] == tail[|tail| - 1]
  {
    ConcatLength(parts);
  }
}
