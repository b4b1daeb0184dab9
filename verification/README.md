# Parallel chunk aggregator — Dafny model

This project models the core of a small Go program. The program loads a list of
records, each with two integer fields `a` and `b`. It then computes the sum of
`a + b` over all records, spreading the work across `W` concurrent workers.

The core is `processChunks`, with its per-chunk `worker`:

- **Chunk size.** For `N` records the chunk size is `(N + W - 1) / W`, that is `ceil(N / W)`.
- **Dispatch loop.** Iteration `i` (for `i < W`) hands the range `[i * size, min((i + 1) * size, N))` to a worker. The loop stops early once a range would start at or past `N`.
- **Workers.** Each worker sends the sum of `a + b` over its range to a channel.
- **Fan-in.** The coordinator waits for every worker. It then drains the channel in whatever order the partial sums arrived and adds them up. An empty input returns 0 at once.

Modules:

- `Records` (`records.dfy`): the `Data` record, the reference sum `Sum`, and the rule that a sum splits over concatenation.
- `Partition` (`partition.dfy`): the chunk size and `ChunksFrom`/`Plan`, the dispatch loop as a pure function. Also the predicate `IsPartition`, an independent description of "cuts `[lo, hi)` into contiguous non-empty ranges", and the lemmas that connect the two.
- `Aggregator` (`aggregator.dfy`): the `Worker` loop, the dispatch loop `Dispatch`, the fan-in `Drain`, and the coordinator `ProcessChunks`.

Concurrency is abstracted as follows:

- The goroutines become a sequential dispatch loop that records each worker's partial sum in dispatch order.
- The buffered channel becomes a multiset of pending partial sums. `Drain` takes them out one at a time with an arbitrary (`:|`) choice, so any arrival order is a possible run of the model.
- The model proves that the total does not depend on that order.

Go's `/` truncates toward zero. Dafny's `/` is Euclidean. The two agree here because both operands of the chunk-size division are non-negative.

## Model

| member | source | states |
|---|---|---|
| Partition.ChunkSizeIsCeiling | main.go:47 | the chunk size is the ceiling of `N / W`: at least 1, `W * size >= N`, and `W * (size - 1) < N`, so `W` chunks of that size always reach index `N` |
| Partition.PlanIsPartition | main.go:51-62 | the dispatched chunks cut `[0, N)` into non-empty ranges: the first starts at 0, each starts where the previous ended, and the last ends at `N` |
| Partition.PlanChunkBounds | main.go:52-59 | every dispatched chunk `[start, end)` has `0 <= start < end <= N`: no worker gets an empty chunk and no slice is out of bounds |
| Partition.PlanCoversOnce | main.go:51-62 | an index lies in some dispatched chunk exactly when it is in `[0, N)`, and earlier chunks end before later ones begin, so each index is summed exactly once |
| Partition.PlanChunkAt | main.go:51-59 | for a non-empty input, chunk `k` is `[k * size, min((k + 1) * size, N))` |
| Partition.PlanCount | main.go:42-56 | at most `W` chunks are dispatched; none exactly when `N = 0`; otherwise the count `m` is the least with `m * size >= N` |
| Partition.FewerChunksThanWorkers | main.go:51-56 | with 5 records and 4 workers the early stop fires: chunks `[0,2)`, `[2,4)`, `[4,5)`, three rather than four |
| Partition.ChunksFromShape | main.go:51-62 | the loop run from iteration `i` covers `[min(i * size, N), N)` as a partition, dispatches at most `W - i` chunks, and its `k`-th chunk is the one iteration `i + k` builds |
| Partition.PartitionExactlyOnce | main.go:51-62 | any contiguous cut of `[lo, hi)` covers each index of `[lo, hi)` and no other, with chunks pairwise disjoint |
| Records.SumAppend | main.go:18-24 | the sum of `a + b` over a concatenation is the sum over each part |
| Aggregator.Worker | main.go:18-25 | the worker's result equals the reference sum of `a + b` over its chunk |
| Aggregator.Dispatch | main.go:47-62 | the dispatch loop, early `break` included, hands out exactly the chunks of `Plan(N, W)`, all in bounds, and sends one partial sum per chunk, that chunk's sum |
| Aggregator.SumIntsPermutation | main.go:64-70 | any rearrangement of the partial sums has the same total |
| Aggregator.Drain | main.go:64-70 | draining the channel in an arbitrary order yields a rearrangement of what was sent, and the total is the sum of what was sent |
| Aggregator.PartitionSum | main.go:51-70 | the partial sums of any contiguous cut of `[lo, hi)` add up to the sum over `[lo, hi)` |
| Aggregator.TotalIndependentOfWorkers | main.go:41-73 | for every `W >= 1` the partial sums of the dispatched chunks add up to the plain sum over all records; so `W = 1` agrees with any larger `W` |
| Aggregator.ProcessChunks | main.go:41-73 | returns the sum of `a + b` over all records; an empty input gives 0 with no chunk dispatched; its ghost results show that the chunks are `Plan(N, W)` and that the drained partial sums are a rearrangement of the per-chunk sums |
| Aggregator.ThreeRecordsTwoWorkers | main.go:41-73 | records `(1,2)`, `(3,4)`, `(5,6)` over two workers give chunks `[0,2)` and `[2,3)`, partial sums 10 and 11, total 21 |

## Left out

- `readFile` (main.go:27-39): reads a file and decodes JSON through library code that is not part of this model. The core receives the records as a sequence.
- `main` (main.go:75-97): argument-count check, `strconv.Atoi` parsing, `log.Fatalf` exits, timing and printing are I/O. Its one effect on the core, that the worker count is at least 1 (main.go:82), is the `requires numWorkers >= 1` of `Dispatch` and `ProcessChunks`.
- Goroutines, the `sync.WaitGroup` barrier and the buffered channel (main.go:48-49, main.go:60-65) are not modelled as concurrency. They become a sequential dispatch loop followed by an arbitrary-order drain. Scheduling, and the rule that the channel is closed only after the last worker is done, are not modelled.
- Go's fixed-width `int` can wrap around on overflow. The model uses unbounded integers, and the source does not detect overflow either.
- Slices share storage with the input in Go. The model passes sub-sequences, which has the same effect because nothing writes to the records.
- A worker count below 1 never reaches `processChunks`, because `main` rejects it first (main.go:82). An empty input returns 0 for any `W` (main.go:43-45). With `W = 0` and at least one record, the Go code divides by zero at main.go:47. The model does not cover `W = 0`: `Dispatch` and `ProcessChunks` require `numWorkers >= 1`.
- The result channel is allocated with a buffer of `W` slots (main.go:48). That allocation is not modelled, and neither is its failure. A huge `W` that `main` accepts would make it fail: on a 64-bit runtime, `make` panics once `W` is above about 2^45, and smaller huge counts run out of memory. For such `W`, `ProcessChunks` and `TotalIndependentOfWorkers` still promise `Sum(data)`. The buffer size matters in one more way. `PlanCount`'s bound `|Plan(N, W)| <= W` means every worker's send fits in the buffer before the coordinator waits at `wg.Wait()` (main.go:64). Without that bound the barrier would deadlock. `Drain`'s premise that every partial sum has been sent rests on this bound.
