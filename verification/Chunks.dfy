/**
 Splitting n bytes into b-byte chunks, as every throughput loop of the benchmark does it:
 full chunks at offsets 0, b, 2b, ... below `n - n % b`, then one remainder of `n % b`
 bytes, which is issued even when it is empty.
 */
module Chunks {
  import opened Sequences

  newtype Byte = x: int | 0 <= x < 256

  /** A stretch of a buffer: `len` bytes starting at `off`. */
  datatype Span = Span(off: nat, len: nat)

  /** The stretches a sender issues from `off` on: full chunks while b bytes are left, then the rest. */
  function Spans(off: nat, n: nat, b: nat): (spans: seq<Span>)
    requires 0 < b && off <= n
    decreases n - off
  {
    if n - off < b then [Span(off, n - off)]
    else [Span(off, b)] + Spans(off + b, n, b)
  }

  /** The messages of one throughput round from offset `off` of the sender's loop on. */
  function SplitFrom(data: seq<Byte>, off: nat, b: nat): (msgs: seq<seq<Byte>>)
    requires 0 < b && off <= |data|
    decreases |data| - off
  {
    if |data| - off < b then [data[off..]] else [data[off..off + b]] + SplitFrom(data, off + b, b)
  }

  function Split(data: seq<Byte>, b: nat): (msgs: seq<seq<Byte>>)
    requires 0 < b
  {
    SplitFrom(data, 0, b)
  }

  function Join(msgs: seq<seq<Byte>>): (data: seq<Byte>) {
    if msgs == [] then [] else msgs[0] + Join(msgs[1..])
  }

  /** No span reaches outside the buffer. */
  lemma {:induction false} SpansInBounds(off: nat, n: nat, b: nat)
    requires 0 < b && off <= n
    ensures forall s :: s in Spans(off, n, b) ==> off <= s.off && s.off + s.len <= n
    decreases n - off
  {
    if n - off >= b {
      SpansInBounds(off + b, n, b);
    }
  }

  /** The spans tile [off, n): each starts where the one before ends, the first at `off`, the last ends at n. */
  lemma {:induction false} SpansTile(off: nat, n: nat, b: nat)
    requires 0 < b && off <= n
    ensures var s := Spans(off, n, b);
            && s != [] && s[0].off == off
            && s[|s| - 1].off + s[|s| - 1].len == n
            && forall i :: 0 <= i < |s| - 1 ==> s[i].len == b && s[i + 1].off == s[i].off + s[i].len
    decreases n - off
  {
    if n - off >= b {
      SpansTile(off + b, n, b);
      var t := Spans(off + b, n, b);
      var s := [Span(off, b)] + t;
      assert Spans(off, n, b) == s;
      forall i | 0 <= i < |s| - 1
        ensures s[i].len == b && s[i + 1].off == s[i].off + s[i].len
      {
        assert s[i + 1] == t[i];
        if i > 0 {
          assert s[i] == t[i - 1] && t[i] == t[i - 1 + 1];
        }
      }
    }
  }

  /** Dividing one chunk off: the quotient drops by one and the remainder stays. */
  lemma DivModStep(n: nat, b: nat)
    requires 0 < b <= n
    ensures n / b == (n - b) / b + 1
    ensures n % b == (n - b) % b
  {
    var q, r := (n - b) / b, (n - b) % b;
    assert n == (q + 1) * b + r;
    DivModUnique(n, b, q + 1, r);
  }

  lemma DivModUnique(n: nat, b: nat, q: nat, r: nat)
    requires 0 < b && r < b && n == q * b + r
    ensures n / b == q && n % b == r
  {
    var q', r' := n / b, n % b;
    assert n == q' * b + r';
    assert (q' + 1) * b == q' * b + b && (q + 1) * b == q * b + b;
    if q' < q {
      MulMono(q' + 1, q, b);
    } else if q < q' {
      MulMono(q + 1, q', b);
    }
  }

  lemma MulMono(x: nat, y: nat, b: nat)
    requires x <= y
    ensures x * b <= y * b
  {
    assert (y - x) * b >= 0;
    assert y * b == x * b + (y - x) * b;
  }

  /** The recursion against the source's arithmetic: n / b full chunks at i * b and a remainder at n - n % b. */
  lemma {:induction false} SpansClosedForm(off: nat, n: nat, b: nat)
    requires 0 < b && off <= n
    ensures var m := (n - off) / b;
            && |Spans(off, n, b)| == m + 1
            && (forall i :: 0 <= i < m ==> Spans(off, n, b)[i] == Span(off + i * b, b))
            && Spans(off, n, b)[m] == Span(n - (n - off) % b, (n - off) % b)
    decreases n - off
  {
    var m := (n - off) / b;
    if n - off < b {
      DivModUnique(n - off, b, 0, n - off);
    } else {
      DivModStep(n - off, b);
      assert n - off - b == n - (off + b);
      SpansClosedForm(off + b, n, b);
      var t := Spans(off + b, n, b);
      forall i | 0 <= i < m
        ensures ([Span(off, b)] + t)[i] == Span(off + i * b, b)
      {
        if i > 0 {
          assert t[i - 1] == Span(off + b + (i - 1) * b, b);
          assert b + (i - 1) * b == i * b;
        }
      }
    }
  }

  /** The messages are the bytes under the spans, one message a span. */
  lemma {:induction false} SplitFollowsSpans(data: seq<Byte>, off: nat, b: nat)
    requires 0 < b && off <= |data|
    ensures var spans, msgs := Spans(off, |data|, b), SplitFrom(data, off, b);
            && |msgs| == |spans|
            && forall i :: 0 <= i < |msgs| ==>
                 spans[i].off + spans[i].len <= |data| && msgs[i] == data[spans[i].off..spans[i].off + spans[i].len]
    decreases |data| - off
  {
    if |data| - off < b {
      assert data[off..] == data[off..|data|];
    } else {
      SplitFollowsSpans(data, off + b, b);
    }
  }

  /** Message i of a round is data[i*b .. (i+1)*b]; the last one is the n % b bytes from n - n % b. */
  lemma SplitClosedForm(data: seq<Byte>, b: nat)
    requires 0 < b
    ensures var n := |data|; var m := n / b;
            && |Split(data, b)| == m + 1
            && (forall i :: 0 <= i < m ==> 0 <= i * b <= i * b + b <= n && Split(data, b)[i] == data[i * b..i * b + b])
            && Split(data, b)[m] == data[n - n % b..]
  {
    SpansClosedForm(0, |data|, b);
    SplitFollowsSpans(data, 0, b);
    var spans := Spans(0, |data|, b);
    forall i | 0 <= i < |data| / b
      ensures 0 <= i * b <= i * b + b <= |data| && Split(data, b)[i] == data[i * b..i * b + b]
    {
      assert spans[i] == Span(i * b, b);
    }
  }

  /** Joining the pieces from `off` on gives back the data from `off` on. */
  lemma {:induction false} JoinSplitFrom(data: seq<Byte>, off: nat, b: nat)
    requires 0 < b && off <= |data|
    ensures Join(SplitFrom(data, off, b)) == data[off..]
    decreases |data| - off
  {
    if |data| - off < b {
      assert Join([data[off..]]) == data[off..] + Join([]);
    } else {
      JoinSplitFrom(data, off + b, b);
      assert data[off..] == data[off..off + b] + data[off + b..];
    }
  }

  /** Split and join are inverse for every length and every chunk size. */
  lemma SplitJoin(data: seq<Byte>, b: nat)
    requires 0 < b
    ensures Join(Split(data, b)) == data
  {
    JoinSplitFrom(data, 0, b);
    assert data[0..] == data;
  }

  lemma {:induction false} JoinAppend(a: seq<seq<Byte>>, c: seq<seq<Byte>>)
    ensures Join(a + c) == Join(a) + Join(c)
  {
    if a == [] {
      assert a + c == c;
    } else {
      JoinAppend(a[1..], c);
      assert (a + c)[1..] == a[1..] + c;
      Assoc(a[0], Join(a[1..]), Join(c));
    }
  }

  // ---- how many messages each side of a two-sided round counts on ----

  /** Iterations of `for (x = 0; x < n; x += b)`, from x on. */
  function Receives(x: nat, n: nat, b: nat): (k: nat)
    requires 0 < b
    decreases if x < n then n - x else 0
  {
    if x < n then 1 + Receives(x + b, n, b) else 0
  }

  /** The sender issues n / b + 1 messages, the receiver takes ceil(n / b): the counts differ, by exactly one, just when b divides n. */
  lemma {:induction false} MessageCounts(off: nat, n: nat, b: nat)
    requires 0 < b && off <= n
    ensures |Spans(off, n, b)| == (n - off) / b + 1
    ensures Receives(off, n, b) == (n - off + b - 1) / b
    ensures |Spans(off, n, b)| == Receives(off, n, b) + if (n - off) % b == 0 then 1 else 0
    decreases n - off
  {
    var left := n - off;
    SpansClosedForm(off, n, b);
    if left == 0 {
      DivModUnique(0, b, 0, 0);
      DivModUnique(b - 1, b, 0, b - 1);
    } else if left < b {
      DivModUnique(left, b, 0, left);
      DivModUnique(left + b - 1, b, 1, left - 1);
      assert Receives(off + b, n, b) == 0;
    } else {
      DivModStep(left, b);
      DivModStep(left + b - 1, b);
      assert left - b == n - (off + b);
      assert left + b - 1 - b == n - (off + b) + b - 1;
      MessageCounts(off + b, n, b);
    }
  }

  // ---- 64-bit offsets and int counts ----

  const TWO_64: int := 0x1_0000_0000_0000_0000
  const TWO_31: int := 0x8000_0000

  /** `size_t` */
  type SizeT = x: int | 0 <= x < 0x1_0000_0000_0000_0000

  /** `+=` on a size_t */
  function Add64(x: SizeT, y: SizeT): (z: SizeT) {
    (x + y) % TWO_64
  }

  /** The value an int takes when a 64-bit count is stored in it. */
  function ToInt(k: nat): (i: int) {
    var low := k % (2 * TWO_31);
    if low < TWO_31 then low else low - 2 * TWO_31
  }

  /** `bytes += count` where the count of a 64-bit call was stored in an int first. */
  function AddCount(x: SizeT, k: nat): (z: SizeT) {
    (x + ToInt(k)) % TWO_64
  }

  /** The accumulator takes its unbounded value exactly when the count (a ssize_t) is below 2^31. */
  lemma AddCountExact(x: SizeT, k: nat)
    requires x + k < TWO_64 && 2 * k < TWO_64
    ensures AddCount(x, k) == x + k <==> k < TWO_31
  {
    var i := ToInt(k);
    if k < TWO_31 {
      assert i == k;
    } else {
      var q, low := k / (2 * TWO_31), k % (2 * TWO_31);
      assert k == q * (2 * TWO_31) + low;
      assert -TWO_31 <= i < TWO_31 && i < k;
      if 0 <= x + i {
        assert AddCount(x, k) == x + i;
      } else {
        assert AddCount(x, k) == x + i + TWO_64;
      }
    }
  }

  /** The index of the wrapping loop `for (size_t x = 0; x < n; x += b)` after j iterations. */
  function WrappedIndex(j: nat, b: SizeT): (x: SizeT) {
    if j == 0 then 0 else Add64(WrappedIndex(j - 1, b), b)
  }

  /** Before the sum of steps leaves 64 bits the index is that sum, and on leaving it drops by 2^64. */
  lemma {:induction false} WrappedIndexIs(j: nat, b: SizeT)
    requires j == 0 || (j - 1) * b < TWO_64
    ensures WrappedIndex(j, b) == if j * b < TWO_64 then j * b else j * b - TWO_64
  {
    if j > 0 {
      StepBack(j, b);
      WrappedIndexIs(j - 1, b);
      Add64Is(WrappedIndex(j - 1, b), b);
    }
  }

  lemma Add64Is(x: SizeT, y: SizeT)
    ensures Add64(x, y) == if x + y < TWO_64 then x + y else x + y - TWO_64
  {
  }

  lemma StepBack(j: nat, b: nat)
    requires j > 0
    ensures j * b == (j - 1) * b + b && (j > 1 ==> (j - 2) * b <= (j - 1) * b)
  {
    if j > 1 {
      MulMono(j - 2, j - 1, b);
    }
  }

  /**
   The only loop whose index can wrap is the receiver's `x < n; x += b`. It first leaves the
   loop after ceil(n / b) rounds, as over the integers, exactly when ceil(n / b) * b still fits
   in 64 bits; otherwise it is still inside after that many.
   */
  lemma ReceiverLoopWraps(n: SizeT, b: SizeT)
    requires 0 < b
    ensures var k := (n + b - 1) / b;
            && (forall j :: 0 <= j < k ==> WrappedIndex(j, b) < n)
            && (WrappedIndex(k, b) >= n <==> k * b < TWO_64)
            && (n + b <= TWO_64 ==> k * b < TWO_64)
  {
    var k := (n + b - 1) / b;
    var r := (n + b - 1) % b;
    assert n + b - 1 == k * b + r;
    assert n <= k * b <= n + b - 1;
    forall j | 0 <= j < k
      ensures j * b < n && WrappedIndex(j, b) < n
    {
      MulMono(j + 1, k, b);
      assert (j + 1) * b == j * b + b;
      if j > 0 {
        assert (j - 1) * b + b == j * b;
      }
      WrappedIndexIs(j, b);
    }
    if k > 0 {
      assert (k - 1) * b < n;
    }
    WrappedIndexIs(k, b);
  }

  /** The smallest case of a loop that wraps: the largest size_t and the first declared chunk size. */
  lemma ReceiverLoopWrapsAt(k: nat)
    requires k == (TWO_64 - 1 + 1024 - 1) / 1024
    ensures k * 1024 == TWO_64 && WrappedIndex(k, 1024) == 0
  {
    WrappedIndexIs(k, 1024);
  }

  /** There the index comes back to 0 and the loop never ends. */
  lemma {:induction false} ReceiverLoopNeverEnds(j: nat)
    ensures WrappedIndex(j, 1024) < TWO_64 - 1 && WrappedIndex(j, 1024) % 1024 == 0
  {
    if j > 0 {
      ReceiverLoopNeverEnds(j - 1);
      Add64Is(WrappedIndex(j - 1, 1024), 1024);
    }
  }

  /** Where a chunk loop can stand: at most at its last index, with whole chunks behind and before it. */
  predicate AtChunk(n: nat, b: nat, offset: nat) {
    0 < b && offset <= n - n % b && (n - offset) % b == n % b
  }

  /** The guard `offset < n - n % b` of every chunk loop: it holds exactly while a whole chunk is left, and the sum stays in range. */
  lemma ChunkGuard(n: SizeT, b: SizeT, offset: SizeT, next: SizeT)
    requires AtChunk(n, b, offset) && next == Add64(offset, b)
    ensures offset < n - n % b <==> b <= n - offset
    ensures offset < n - n % b ==> next == offset + b && AtChunk(n, b, next)
    ensures offset == n - n % b ==> n - offset == n % b
  {
    var left := n - offset;
    var q, r := left / b, left % b;
    assert left == q * b + r && r == n % b;
    if q == 0 {
      assert left == r;
    } else {
      MulMono(1, q, b);
      assert left >= b + r;
      DivModStep(left, b);
      assert left - b == n - (offset + b);
    }
  }
}
