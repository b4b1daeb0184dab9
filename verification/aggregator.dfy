/** The fan-out/fan-in aggregator: one worker per dispatched chunk, partial
    sums collected on a channel, drained in whatever order they arrive and
    added into the total. The goroutines, the wait group and the buffered
    channel are replaced by a sequential dispatch loop that records each
    partial sum, and a drain loop that takes the recorded sums out of a
    multiset in an order of its own choosing. */
module Aggregator {
  import opened Records
  import opened Partition

  /** Sum of a sequence of partial sums, in the order given. */
  function SumInts(xs: seq<int>): int
  {
    if |xs| == 0 then 0 else SumInts(xs[..|xs| - 1]) + xs[|xs| - 1]
  }

  lemma {:induction false} SumIntsAppend(xs: seq<int>, ys: seq<int>)
    ensures SumInts(xs + ys) == SumInts(xs) + SumInts(ys)
    decreases |ys|
  {
    if |ys| == 0 {
      assert xs + ys == xs;
    } else {
      assert (xs + ys)[..|xs + ys| - 1] == xs + ys[..|ys| - 1];
      SumIntsAppend(xs, ys[..|ys| - 1]);
    }
  }

  /** Draining order does not matter: any rearrangement of the partial sums
      adds up to the same total. */
  lemma {:induction false} SumIntsPermutation(xs: seq<int>, ys: seq<int>)
    requires multiset(xs) == multiset(ys)
    ensures SumInts(xs) == SumInts(ys)
    decreases |xs|
  {
    if |xs| > 0 {
      var x := xs[0];
      assert x in multiset(ys);
      var j :| 0 <= j < |ys| && ys[j] == x;
      var ys' := ys[..j] + ys[j + 1..];
      assert ys == ys[..j] + [x] + ys[j + 1..];
      assert xs == [x] + xs[1..];
      calc {
        multiset(xs[1..]) + multiset{x};
        multiset(xs);
        multiset(ys);
        multiset(ys[..j] + [x] + ys[j + 1..]);
        multiset(ys[..j]) + multiset{x} + multiset(ys[j + 1..]);
        multiset(ys') + multiset{x};
      }
      assert multiset(xs[1..]) == multiset(ys') by {
        assert multiset(xs[1..]) == multiset(xs[1..]) + multiset{x} - multiset{x};
        assert multiset(ys') == multiset(ys') + multiset{x} - multiset{x};
      }
      SumIntsPermutation(xs[1..], ys');
      SumIntsAppend([x], xs[1..]);
      SumIntsAppend(ys[..j] + [x], ys[j + 1..]);
      SumIntsAppend(ys[..j], [x]);
      SumIntsAppend(ys[..j], ys[j + 1..]);
      assert SumInts([x]) == x by {
        assert [x][..0] == [];
      }
    } else {
      assert |ys| == |multiset(ys)| == 0;
    }
  }

  /** The partial sum each chunk of `plan` yields, in dispatch order. */
  function ChunkSums(data: seq<Data>, plan: seq<Chunk>): seq<int>
    requires InBounds(plan, |data|)
  {
    seq(|plan|, k requires 0 <= k < |plan| => Sum(data[plan[k].start..plan[k].end]))
  }

  /** Dispatching one more chunk appends its partial sum. */
  lemma ChunkSumsSnoc(data: seq<Data>, plan: seq<Chunk>, c: Chunk)
    requires InBounds(plan, |data|) && c.start <= c.end <= |data|
    ensures InBounds(plan + [c], |data|)
    ensures ChunkSums(data, plan + [c]) == ChunkSums(data, plan) + [Sum(data[c.start..c.end])]
  {
    var plan' := plan + [c];
    assert forall k :: 0 <= k < |plan| ==> plan'[k] == plan[k];
  }

  /** The partial sums of a partition of `[lo, hi)` add up to the sum of
      the records in `[lo, hi)`. */
  lemma {:induction false} PartitionSum(data: seq<Data>, plan: seq<Chunk>, lo: nat, hi: nat)
    requires IsPartition(plan, lo, hi) && lo <= hi <= |data|
    ensures InBounds(plan, |data|)
    ensures SumInts(ChunkSums(data, plan)) == Sum(data[lo..hi])
    decreases |plan|
  {
    PartitionBounds(plan, lo, hi);
    if |plan| == 0 {
      assert data[lo..hi] == [];
    } else {
      var c := plan[0];
      PartitionTail(plan, lo, hi);
      PartitionSum(data, plan[1..], c.end, hi);
      assert ChunkSums(data, plan) == [Sum(data[c.start..c.end])] + ChunkSums(data, plan[1..]);
      SumIntsAppend([Sum(data[c.start..c.end])], ChunkSums(data, plan[1..]));
      assert SumInts([Sum(data[c.start..c.end])]) == Sum(data[c.start..c.end]) by {
        assert [Sum(data[c.start..c.end])][..0] == [];
      }
      SumSplit(data, lo, c.end, hi);
    }
  }

  /** Whatever the worker count, the partial sums of the dispatched chunks
      add up to the plain sum over all records; in particular one worker and
      any larger number of workers agree. */
  lemma {:induction false} TotalIndependentOfWorkers(data: seq<Data>, w1: nat, w2: nat)
    requires w1 >= 1 && w2 >= 1
    ensures InBounds(Plan(|data|, w1), |data|) && InBounds(Plan(|data|, w2), |data|)
    ensures SumInts(ChunkSums(data, Plan(|data|, w1))) == Sum(data)
    ensures SumInts(ChunkSums(data, Plan(|data|, w1))) == SumInts(ChunkSums(data, Plan(|data|, w2)))
  {
    PlanIsPartition(|data|, w1);
    PlanIsPartition(|data|, w2);
    PartitionSum(data, Plan(|data|, w1), 0, |data|);
    PartitionSum(data, Plan(|data|, w2), 0, |data|);
    assert data[0..|data|] == data;
  }

  /** One worker: the sum of `a + b` over its chunk. */
  method Worker(chunk: seq<Data>) returns (sum: int)
    ensures sum == Sum(chunk)
  {
    sum := 0;
    var k := 0;
    while k < |chunk|
      invariant 0 <= k <= |chunk|
      invariant sum == Sum(chunk[..k])
    {
      assert chunk[..k + 1][..k] == chunk[..k];
      sum := sum + chunk[k].a + chunk[k].b;
      k := k + 1;
    }
    assert chunk[..k] == chunk;
  }

  /** Fan-out: the dispatch loop. Iteration `i` hands the chunk
      `[i * chunkSize, min((i + 1) * chunkSize, n))` to a worker, and the
      loop stops early once a chunk would start at or past the end. Returns
      the dispatched chunks and, for each, the partial sum its worker put on
      the channel. */
  method Dispatch(data: seq<Data>, numWorkers: nat) returns (dispatched: seq<Chunk>, sent: seq<int>)
    requires numWorkers >= 1 && |data| >= 1
    ensures dispatched == Plan(|data|, numWorkers)
    ensures InBounds(dispatched, |data|)
    ensures sent == ChunkSums(data, dispatched)
  {
    var n := |data|;
    var chunkSize := ChunkSize(n, numWorkers);
    sent := [];
    dispatched := [];
    var i := 0;
    while i < numWorkers
      invariant 0 <= i <= numWorkers
      invariant dispatched + ChunksFrom(i, i * chunkSize, numWorkers, chunkSize, n) == Plan(n, numWorkers)
      invariant InBounds(dispatched, n)
      invariant sent == ChunkSums(data, dispatched)
    {
      var start := i * chunkSize;
      var end := start + chunkSize;
      if start >= n {
        break;
      }
      if end > n {
        end := n;
      }
      var partial := Worker(data[start..end]);
      assert (i + 1) * chunkSize == start + chunkSize;
      assert ChunksFrom(i, start, numWorkers, chunkSize, n)
          == [Chunk(start, end)] + ChunksFrom(i + 1, start + chunkSize, numWorkers, chunkSize, n);
      assert dispatched + [Chunk(start, end)] + ChunksFrom(i + 1, (i + 1) * chunkSize, numWorkers, chunkSize, n)
          == dispatched + ChunksFrom(i, start, numWorkers, chunkSize, n);
      ChunkSumsSnoc(data, dispatched, Chunk(start, end));
      dispatched := dispatched + [Chunk(start, end)];
      sent := sent + [partial];
      i := i + 1;
    }
  }

  /** Fan-in: the partial sums leave the channel in no particular order --
      each step takes any one still pending -- and are added into the total.
      The drained order is a rearrangement of what was sent, and the total is
      the sum of what was sent whatever that order was. */
  method Drain(sent: seq<int>) returns (total: int, drained: seq<int>)
    ensures multiset(drained) == multiset(sent)
    ensures total == SumInts(sent)
  {
    var pending := multiset(sent);
    total := 0;
    drained := [];
    while pending != multiset{}
      invariant multiset(drained) + pending == multiset(sent)
      invariant total == SumInts(drained)
      decreases |pending|
    {
      assert exists y :: y in pending by {
        if forall y :: y !in pending {
          assert false;
        }
      }
      var x :| x in pending;
      assert (drained + [x])[..|drained|] == drained;
      total := total + x;
      drained := drained + [x];
      pending := pending - multiset{x};
    }
    SumIntsPermutation(drained, sent);
  }

  /** The coordinator `processChunks`. An empty input returns 0 without
      dispatching anything; otherwise it dispatches, waits for every worker,
      drains the channel and returns the total. The chunks it dispatched and
      the partial sums in the order it drained them are ghost results, for
      the contract only. */
  method ProcessChunks(data: seq<Data>, numWorkers: nat)
    returns (total: int, ghost dispatched: seq<Chunk>, ghost drained: seq<int>)
    requires numWorkers >= 1
    ensures |data| == 0 ==> total == 0 && dispatched == [] && drained == []
    ensures dispatched == Plan(|data|, numWorkers)
    ensures InBounds(dispatched, |data|)
    ensures multiset(drained) == multiset(ChunkSums(data, dispatched))
    ensures total == Sum(data)
  {
    if |data| == 0 {
      return 0, [], [];
    }
    var chunks, sent := Dispatch(data, numWorkers);
    var order;
    total, order := Drain(sent);
    dispatched, drained := chunks, order;
    TotalIndependentOfWorkers(data, numWorkers, numWorkers);
  }

  /** Three records over two workers: chunks `[0, 2)` and `[2, 3)`, partial
      sums 10 and 11, total 21. */
  lemma ThreeRecordsTwoWorkers()
    ensures Plan(3, 2) == [Chunk(0, 2), Chunk(2, 3)]
    ensures ChunkSums([Data(1, 2), Data(3, 4), Data(5, 6)], Plan(3, 2)) == [10, 11]
    ensures Sum([Data(1, 2), Data(3, 4), Data(5, 6)]) == 21
  {
    var data := [Data(1, 2), Data(3, 4), Data(5, 6)];
    assert ChunkSize(3, 2) == 2;
    assert data[0..2] == [Data(1, 2), Data(3, 4)];
    assert data[2..3] == [Data(5, 6)];
    assert Sum([Data(1, 2)]) == 3 by { assert [Data(1, 2)][..0] == []; }
    assert Sum(data[0..2]) == 10 by { assert data[0..2][..1] == [Data(1, 2)]; }
    assert Sum(data[2..3]) == 11 by { assert data[2..3][..0] == []; }
    assert Sum(data) == 21 by { assert data[..2] == data[0..2]; }
  }
}
