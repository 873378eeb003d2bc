/** Where the rounds of a program lie in it, and what stands where in a round, whatever the actions are. */
module Positions {
  import opened Sequences

  predicate Positive(sizes: seq<nat>) {
    forall r :: 0 <= r < |sizes| ==> 0 < sizes[r]
  }

  /** Actions of the first r rounds, if a round takes one for each whole chunk and `more` besides. */
  function Turns(n: nat, sizes: seq<nat>, more: nat, r: nat): nat
    requires Positive(sizes) && r <= |sizes|
  {
    if r == 0 then 0 else Turns(n, sizes, more, r - 1) + n / sizes[r - 1] + more
  }

  /** The same if a begun chunk counts as a whole one. */
  function TurnsUp(n: nat, sizes: seq<nat>, more: nat, r: nat): nat
    requires Positive(sizes) && r <= |sizes|
  {
    if r == 0 then 0 else TurnsUp(n, sizes, more, r - 1) + (n + sizes[r - 1] - 1) / sizes[r - 1] + more
  }

  /** Parts of the lengths counted by `Turns` begin where it says. */
  lemma {:induction false} BeforeIsTurns<T>(parts: seq<seq<T>>, n: nat, sizes: seq<nat>, more: nat, r: nat)
    requires Positive(sizes) && r <= |sizes| == |parts|
    requires forall q :: 0 <= q < |parts| ==> |parts[q]| == n / sizes[q] + more
    ensures Before(parts, r) == Turns(n, sizes, more, r)
  {
    if r > 0 {
      BeforeIsTurns(parts, n, sizes, more, r - 1);
      BeforeNext(parts, r - 1);
    }
  }

  lemma {:induction false} BeforeIsTurnsUp<T>(parts: seq<seq<T>>, n: nat, sizes: seq<nat>, more: nat, r: nat)
    requires Positive(sizes) && r <= |sizes| == |parts|
    requires forall q :: 0 <= q < |parts| ==> |parts[q]| == (n + sizes[q] - 1) / sizes[q] + more
    ensures Before(parts, r) == TurnsUp(n, sizes, more, r)
  {
    if r > 0 {
      BeforeIsTurnsUp(parts, n, sizes, more, r - 1);
      BeforeNext(parts, r - 1);
    }
  }

  /** Parts of one length. */
  lemma {:induction false} BeforeIsProduct<T>(parts: seq<seq<T>>, len: nat, r: nat)
    requires r <= |parts| && forall q :: 0 <= q < |parts| ==> |parts[q]| == len
    ensures Before(parts, r) == r * len
  {
    if r > 0 {
      BeforeIsProduct(parts, len, r - 1);
      BeforeNext(parts, r - 1);
    }
  }

  lemma StandsEach<T>(s: seq<T>, at: nat, part: seq<T>)
    requires Contains(s, at, part) && |part| == 3
    ensures Stands(s, at, part[0]) && Stands(s, at + 1, part[1]) && Stands(s, at + 2, part[2])
  {
  }

  /** Where the actions of a turn stand: two, m more, and two. */
  lemma TurnTwoTwo<T>(s: seq<T>, at: nat, turn: seq<T>, m: nat, i: nat, a: T, b: T, x: T, y: T, z: T)
    requires Contains(s, at, turn) && |turn| == m + 4
    requires turn[0] == a && turn[1] == b && (i < m ==> turn[2 + i] == x) && turn[2 + m] == y && turn[3 + m] == z
    ensures Stands(s, at, a) && Stands(s, at + 1, b) && (i < m ==> Stands(s, at + 2 + i, x))
    ensures Stands(s, at + 2 + m, y) && Stands(s, at + 3 + m, z)
  {
    assert i < m ==> s[at + (2 + i)] == x;
    assert s[at + (2 + m)] == y && s[at + (3 + m)] == z;
  }

  /** One, m more, and three. */
  lemma TurnOneThree<T>(s: seq<T>, at: nat, turn: seq<T>, m: nat, i: nat, a: T, x: T, y: T, z: T, w: T)
    requires Contains(s, at, turn) && |turn| == m + 4
    requires turn[0] == a && (i < m ==> turn[1 + i] == x) && turn[1 + m] == y && turn[2 + m] == z && turn[3 + m] == w
    ensures Stands(s, at, a) && (i < m ==> Stands(s, at + 1 + i, x))
    ensures Stands(s, at + 1 + m, y) && Stands(s, at + 2 + m, z) && Stands(s, at + 3 + m, w)
  {
    assert i < m ==> s[at + (1 + i)] == x;
    assert s[at + (1 + m)] == y && s[at + (2 + m)] == z && s[at + (3 + m)] == w;
  }

  /** One, m more, and two. */
  lemma TurnOneTwo<T>(s: seq<T>, at: nat, turn: seq<T>, m: nat, i: nat, a: T, x: T, y: T, z: T)
    requires Contains(s, at, turn) && |turn| == m + 3
    requires turn[0] == a && (i < m ==> turn[1 + i] == x) && turn[1 + m] == y && turn[2 + m] == z
    ensures Stands(s, at, a) && (i < m ==> Stands(s, at + 1 + i, x))
    ensures Stands(s, at + 1 + m, y) && Stands(s, at + 2 + m, z)
  {
    assert i < m ==> s[at + (1 + i)] == x;
    assert s[at + (1 + m)] == y && s[at + (2 + m)] == z;
  }

  /** One, k more, and one. */
  lemma TurnOneOne<T>(s: seq<T>, at: nat, turn: seq<T>, k: nat, i: nat, a: T, x: T, z: T)
    requires Contains(s, at, turn) && |turn| == k + 2
    requires turn[0] == a && (i < k ==> turn[1 + i] == x) && turn[1 + k] == z
    ensures Stands(s, at, a) && (i < k ==> Stands(s, at + 1 + i, x)) && Stands(s, at + 1 + k, z)
  {
    assert i < k ==> s[at + (1 + i)] == x;
    assert s[at + (1 + k)] == z;
  }

  /** A round of b-byte chunks of n bytes: m whole ones, the i-th of them at x, and `rest` bytes at `last`. */
  predicate ChunksOf(n: nat, b: nat, m: nat, last: nat, rest: nat, i: nat, x: nat) {
    0 < b && m == n / b && rest == n % b && last == n - n % b && x == i * b
  }

  /** m and one more. */
  lemma TurnOne<T>(s: seq<T>, at: nat, turn: seq<T>, m: nat, i: nat, x: T, y: T)
    requires Contains(s, at, turn) && |turn| == m + 1 && (i < m ==> turn[i] == x) && turn[m] == y
    ensures (i < m ==> Stands(s, at + i, x)) && Stands(s, at + m, y)
  {
  }

  /** m and two more. */
  lemma TurnTwo<T>(s: seq<T>, at: nat, turn: seq<T>, m: nat, i: nat, x: T, y: T, z: T)
    requires Contains(s, at, turn) && |turn| == m + 2 && (i < m ==> turn[i] == x) && turn[m] == y && turn[m + 1] == z
    ensures (i < m ==> Stands(s, at + i, x)) && Stands(s, at + m, y) && Stands(s, at + m + 1, z)
  {
    assert s[at + (m + 1)] == z;
  }
}
