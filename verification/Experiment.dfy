/** What both sides of a run are configured with: the metric, and the declared chunk sizes. */
module Experiment {

  datatype Metric = Throughput | Latency | All

  const BUFFER_SIZES: seq<nat> := [0x400, 0x800, 0x1000, 0x2000, 0x4000, 0x8000, 0x1_0000, 0x2_0000, 0x4_0000,
                                   0x8_0000, 0x10_0000, 0x20_0000, 0x40_0000, 0x80_0000, 0x100_0000, 0x200_0000]

  /** The buffers a TCP latency client cycles through. */
  const NUM_BUFFERS: nat := 40

  const LATENCY_BUFFER_SIZES: seq<nat> := [0x8, 0x10, 0x20, 0x40, 0x80, 0x100, 0x200, 0x400, 0x800, 0x1000, 0x2000, 0x4000, 0x8000,
                                           0x1_0000, 0x2_0000, 0x4_0000, 0x8_0000]

  /** Bytes of the server's region in the latency sessions. */
  const MAX_BUFFER_SIZE: nat := 0x200_0000

  function Shifted(base: nat, k: nat): nat { if k == 0 then base else 2 * Shifted(base, k - 1) }

  /** Every list doubles from one entry to the next. */
  predicate Doubles(sizes: seq<nat>) {
    forall k :: 1 <= k < |sizes| ==> sizes[k] == 2 * sizes[k - 1]
  }

  lemma {:induction false} DoublesFrom(sizes: seq<nat>, k: nat)
    requires Doubles(sizes) && k < |sizes|
    ensures sizes[k] == Shifted(sizes[0], k)
  {
    if k > 0 {
      DoublesFrom(sizes, k - 1);
    }
  }

  lemma BufferSizesDouble(s: seq<nat>)
    requires s == BUFFER_SIZES
    ensures |s| == 16 && s[0] == 1024 && Doubles(s)
  {
    assert s[1] == 2 * s[0] && s[2] == 2 * s[1] && s[3] == 2 * s[2] && s[4] == 2 * s[3] && s[5] == 2 * s[4];
    assert s[6] == 2 * s[5] && s[7] == 2 * s[6] && s[8] == 2 * s[7] && s[9] == 2 * s[8] && s[10] == 2 * s[9];
    assert s[11] == 2 * s[10] && s[12] == 2 * s[11] && s[13] == 2 * s[12] && s[14] == 2 * s[13] && s[15] == 2 * s[14];
  }

  lemma LatencySizesDouble(s: seq<nat>)
    requires s == LATENCY_BUFFER_SIZES
    ensures |s| == 17 && s[0] == 8 && Doubles(s)
  {
    assert s[1] == 2 * s[0] && s[2] == 2 * s[1] && s[3] == 2 * s[2] && s[4] == 2 * s[3] && s[5] == 2 * s[4];
    assert s[6] == 2 * s[5] && s[7] == 2 * s[6] && s[8] == 2 * s[7] && s[9] == 2 * s[8] && s[10] == 2 * s[9];
    assert s[11] == 2 * s[10] && s[12] == 2 * s[11] && s[13] == 2 * s[12] && s[14] == 2 * s[13] && s[15] == 2 * s[14];
    assert s[16] == 2 * s[15];
  }

  lemma {:induction false} ShiftedGrows(base: nat, j: nat, k: nat)
    requires j <= k
    ensures Shifted(base, j) <= Shifted(base, k)
  {
    if j < k {
      ShiftedGrows(base, j, k - 1);
    }
  }

  /** The declared chunk sizes are 1024 << k for k < 16, the latency sizes 8 << k for k < 17. */
  lemma DeclaredSizes(s: seq<nat>, l: seq<nat>, k: nat)
    requires s == BUFFER_SIZES && l == LATENCY_BUFFER_SIZES
    ensures |s| == 16 && |l| == 17
    ensures (k < 16 ==> s[k] == Shifted(1024, k)) && (k < 17 ==> l[k] == Shifted(8, k))
  {
    BufferSizesDouble(s);
    LatencySizesDouble(l);
    if k < 16 {
      DoublesFrom(s, k);
    }
    if k < 17 {
      DoublesFrom(l, k);
    }
  }

  /** Every declared latency size is positive and within the region the latency sessions register. */
  lemma DeclaredLatencySizesFit(l: seq<nat>, k: nat)
    requires l == LATENCY_BUFFER_SIZES && k < |l|
    ensures 0 < l[k] <= MAX_BUFFER_SIZE
  {
    LatencySizesDouble(l);
    DoublesFrom(l, k);
    DoublesFrom(l, 16);
    ShiftedGrows(8, k, 16);
    ShiftedGrows(8, 0, k);
    assert l[16] == 0x8_0000;
  }
}
