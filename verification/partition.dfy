/** The chunk partitioner: how `processChunks` cuts `N` records into at most
    `W` contiguous, non-empty chunks of `ceil(N / W)` records each. */
module Partition {

  /** The half-open index range `[start, end)` handed to one worker. */
  datatype Chunk = Chunk(start: nat, end: nat)

  function Min(x: int, y: int): int
  {
    if x <= y then x else y
  }

  /** The chunk size `(N + W - 1) / W`. On these non-negative operands Go's
      truncating division and Dafny's division agree. `processChunks` only
      computes it once `N` is known to be non-zero. */
  function ChunkSize(n: nat, w: nat): nat
    requires n >= 1 && w >= 1
  {
    (n + w - 1) / w
  }

  /** The chunk size is the ceiling of `n / w`: the least size with which
      `w` chunks reach index `n`, and never zero. */
  lemma ChunkSizeIsCeiling(n: nat, w: nat)
    requires n >= 1 && w >= 1
    ensures ChunkSize(n, w) >= 1
    ensures w * ChunkSize(n, w) >= n
    ensures w * (ChunkSize(n, w) - 1) < n
  {
    var q := (n + w - 1) / w;
    var r := (n + w - 1) % w;
    assert n + w - 1 == w * q + r && 0 <= r < w;
    assert w * (q - 1) == w * q - w;
  }

  /** The dispatch loop from iteration `i` on, where `start` is the
      running offset `i * size`: chunk `i` is `[start, start + size)`
      clipped to `n`, and the loop stops after `w` iterations or as soon as
      a chunk would start at or past `n`. */
  function ChunksFrom(i: nat, start: nat, w: nat, size: nat, n: nat): seq<Chunk>
    decreases w - i
  {
    if i >= w then []
    else if start >= n then []
    else [Chunk(start, Min(start + size, n))] + ChunksFrom(i + 1, start + size, w, size, n)
  }

  /** Every chunk `processChunks` dispatches for `n` records and `w` workers, in
      dispatch order. No chunk at all for an empty input. */
  function Plan(n: nat, w: nat): seq<Chunk>
    requires w >= 1
  {
    if n == 0 then [] else ChunksFrom(0, 0, w, ChunkSize(n, w), n)
  }

  /** `plan` cuts `[lo, hi)` into non-empty ranges, each starting where the
      previous one ended, the first at `lo` and the last ending at `hi`. */
  predicate IsPartition(plan: seq<Chunk>, lo: nat, hi: nat)
  {
    && (|plan| == 0 ==> lo == hi)
    && (|plan| > 0 ==> plan[0].start == lo && plan[|plan| - 1].end == hi)
    && (forall k :: 0 <= k < |plan| ==> plan[k].start < plan[k].end)
    && (forall k :: 1 <= k < |plan| ==> plan[k - 1].end == plan[k].start)
  }

  /** Index `x` lies in chunk `c`. */
  predicate Covers(c: Chunk, x: int)
  {
    c.start <= x < c.end
  }

  /** Index `x` lies in some chunk of `plan`. */
  predicate CoveredBy(plan: seq<Chunk>, x: int)
  {
    exists k :: 0 <= k < |plan| && Covers(plan[k], x)
  }

  /** Every chunk lies inside `[0, n)`: the slices taken are in bounds. */
  predicate InBounds(plan: seq<Chunk>, n: nat)
  {
    forall k :: 0 <= k < |plan| ==> plan[k].start <= plan[k].end <= n
  }

  /** A partition of `[lo, hi)` with a first chunk is that chunk followed by
      a partition of the rest. */
  lemma PartitionTail(plan: seq<Chunk>, lo: nat, hi: nat)
    requires IsPartition(plan, lo, hi) && |plan| > 0
    ensures IsPartition(plan[1..], plan[0].end, hi)
  {
    var rest := plan[1..];
    forall k | 1 <= k < |rest|
      ensures rest[k - 1].end == rest[k].start
    {
      assert rest[k - 1] == plan[k] && rest[k] == plan[k + 1];
    }
  }

  /** Putting a non-empty chunk in front of a partition of the rest. */
  lemma PartitionCons(c: Chunk, rest: seq<Chunk>, hi: nat)
    requires c.start < c.end
    requires IsPartition(rest, c.end, hi)
    ensures IsPartition([c] + rest, c.start, hi)
  {
    var plan := [c] + rest;
    forall k | 1 <= k < |plan|
      ensures plan[k - 1].end == plan[k].start
    {
      if k >= 2 {
        assert plan[k - 1] == rest[k - 2] && plan[k] == rest[k - 1];
      }
    }
  }

  /** Chunks of a partition of `[lo, hi)` lie inside it, and there are no
      more of them than indices to cover. */
  lemma {:induction false} PartitionBounds(plan: seq<Chunk>, lo: nat, hi: nat)
    requires IsPartition(plan, lo, hi)
    ensures lo <= hi
    ensures |plan| <= hi - lo
    ensures forall k :: 0 <= k < |plan| ==> lo <= plan[k].start < plan[k].end <= hi
    decreases |plan|
  {
    if |plan| > 0 {
      PartitionTail(plan, lo, hi);
      PartitionBounds(plan[1..], plan[0].end, hi);
      forall k | 1 <= k < |plan|
        ensures lo <= plan[k].start < plan[k].end <= hi
      {
        assert plan[k] == plan[1..][k - 1];
      }
    }
  }

  /** A partition covers every index of `[lo, hi)`, and in exactly one chunk:
      an index in `[lo, hi)` lies in some chunk, an index in a chunk lies in
      `[lo, hi)`, and two different chunks never share an index. */
  lemma {:induction false} PartitionExactlyOnce(plan: seq<Chunk>, lo: nat, hi: nat)
    requires IsPartition(plan, lo, hi)
    ensures forall x :: lo <= x < hi <==> CoveredBy(plan, x)
    ensures forall j, k :: 0 <= j < k < |plan| ==> plan[j].end <= plan[k].start
    decreases |plan|
  {
    PartitionBounds(plan, lo, hi);
    if |plan| > 0 {
      var rest := plan[1..];
      PartitionTail(plan, lo, hi);
      PartitionExactlyOnce(rest, plan[0].end, hi);
      PartitionBounds(rest, plan[0].end, hi);
      forall x | lo <= x < hi
        ensures CoveredBy(plan, x)
      {
        if x < plan[0].end {
          assert Covers(plan[0], x);
        } else {
          assert CoveredBy(rest, x);
          var k :| 0 <= k < |rest| && Covers(rest[k], x);
          assert plan[k + 1] == rest[k];
        }
      }
      forall x | CoveredBy(plan, x)
        ensures lo <= x < hi
      {
        var k :| 0 <= k < |plan| && Covers(plan[k], x);
      }
      forall j, k | 0 <= j < k < |plan|
        ensures plan[j].end <= plan[k].start
      {
        assert plan[k] == rest[k - 1];
        if j > 0 {
          assert plan[j] == rest[j - 1];
        }
      }
    }
  }

  /** The loop from iteration `i` on covers `[min(i * size, n), n)` exactly,
      dispatches at most `w - i` chunks, and chunk `k` of it is the one the
      Go loop builds in iteration `i + k`. */
  lemma {:induction false} ChunksFromShape(i: nat, start: nat, w: nat, size: nat, n: nat)
    requires size >= 1 && w * size >= n && i <= w && start == i * size
    ensures IsPartition(ChunksFrom(i, start, w, size, n), Min(start, n), n)
    ensures |ChunksFrom(i, start, w, size, n)| <= w - i
    ensures forall k :: 0 <= k < |ChunksFrom(i, start, w, size, n)| ==>
              ChunksFrom(i, start, w, size, n)[k] == Chunk((i + k) * size, Min((i + k + 1) * size, n))
    decreases w - i
  {
    var cs := ChunksFrom(i, start, w, size, n);
    if i == w {
      assert start >= n;
    } else if start >= n {
    } else {
      var c := Chunk(start, Min(start + size, n));
      var rest := ChunksFrom(i + 1, start + size, w, size, n);
      assert cs == [c] + rest;
      assert (i + 1) * size == start + size;
      ChunksFromShape(i + 1, start + size, w, size, n);
      PartitionCons(c, rest, n);
      forall k | 0 <= k < |cs|
        ensures cs[k] == Chunk((i + k) * size, Min((i + k + 1) * size, n))
      {
        if k > 0 {
          assert cs[k] == rest[k - 1];
          assert i + 1 + (k - 1) == i + k;
        }
      }
    }
  }

  /** The dispatched chunks partition `[0, n)`, with no chunk empty. */
  lemma {:induction false} PlanIsPartition(n: nat, w: nat)
    requires w >= 1
    ensures IsPartition(Plan(n, w), 0, n)
  {
    if n > 0 {
      ChunkSizeIsCeiling(n, w);
      ChunksFromShape(0, 0, w, ChunkSize(n, w), n);
    }
  }

  /** Every dispatched chunk `[start, end)` has `0 <= start < end <= n`, so
      no worker gets an empty chunk and no slice is out of bounds. */
  lemma {:induction false} PlanChunkBounds(n: nat, w: nat)
    requires w >= 1
    ensures InBounds(Plan(n, w), n)
    ensures forall k :: 0 <= k < |Plan(n, w)| ==> Plan(n, w)[k].start < Plan(n, w)[k].end
  {
    PlanIsPartition(n, w);
    PartitionBounds(Plan(n, w), 0, n);
  }

  /** Each index of `[0, n)` belongs to exactly one dispatched chunk. */
  lemma {:induction false} PlanCoversOnce(n: nat, w: nat)
    requires w >= 1
    ensures forall x :: 0 <= x < n <==> CoveredBy(Plan(n, w), x)
    ensures forall j, k :: 0 <= j < k < |Plan(n, w)| ==> Plan(n, w)[j].end <= Plan(n, w)[k].start
  {
    PlanIsPartition(n, w);
    PartitionExactlyOnce(Plan(n, w), 0, n);
  }

  /** For a non-empty input, chunk `k` is `[k * size, min((k + 1) * size, n))`
      with `size = ceil(n / w)`. */
  lemma {:induction false} PlanChunkAt(n: nat, w: nat)
    requires n >= 1 && w >= 1
    ensures forall k :: 0 <= k < |Plan(n, w)| ==>
              Plan(n, w)[k] == Chunk(k * ChunkSize(n, w), Min((k + 1) * ChunkSize(n, w), n))
  {
    ChunkSizeIsCeiling(n, w);
    ChunksFromShape(0, 0, w, ChunkSize(n, w), n);
  }

  /** How many chunks are dispatched: none for an empty input, and otherwise
      the least `m` with `m * size >= n` -- never more than `w`, and fewer
      whenever the early stop fires before the `w`-th iteration. */
  lemma {:induction false} PlanCount(n: nat, w: nat)
    requires w >= 1
    ensures |Plan(n, w)| <= w
    ensures |Plan(n, w)| == 0 <==> n == 0
    ensures n >= 1 ==> |Plan(n, w)| * ChunkSize(n, w) >= n
    ensures n >= 1 ==> (|Plan(n, w)| - 1) * ChunkSize(n, w) < n
  {
    PlanIsPartition(n, w);
    if n >= 1 {
      var size := ChunkSize(n, w);
      var plan := Plan(n, w);
      var m := |plan|;
      ChunkSizeIsCeiling(n, w);
      ChunksFromShape(0, 0, w, size, n);
      assert plan[m - 1] == Chunk((m - 1) * size, Min(m * size, n));
      assert Min(m * size, n) == n;
    }
  }

  /** Five records over four workers: chunks of two, and the loop stops
      after three chunks because the fourth would start at index 6. */
  lemma FewerChunksThanWorkers()
    ensures Plan(5, 4) == [Chunk(0, 2), Chunk(2, 4), Chunk(4, 5)]
    ensures |Plan(5, 4)| < 4
  {
    assert ChunkSize(5, 4) == 2;
  }
}
