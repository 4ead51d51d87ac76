# BigBFT benchmark engine — a verified sequential model

This project models the sequential bookkeeping of BigBFT's benchmark driver
(`benchmark.go`):

- the key generator `Benchmark.next`: the order, uniform, conflict, normal,
  zipfan and exponential modes, the counter they share, and the fatal default;
- the submission loops of `Load` and `Run`: the (key, sequence number) pairs the
  orchestrator sends, the `globalCouner` sequence counter and the WaitGroup
  counter;
- the per-key outcome logic of `worker`: the write or no-write choice, `err`
  carried across iterations, and the `math.MaxInt64` end marker;
- the latency collector `collect`;
- the moving-mean step of `Run`;
- the default configuration `DefaultBConfig`.

Goroutines and channels are replaced by explicit sequences. `Run` and `Load`
return the pairs they send. `Worker` takes the keys, the sequence numbers and
one `Iteration` record per key. That record holds the value of
`rand.Float64()`, whether `db.Write` fails, and the two clock readings.
`Collect` is given the latencies the workers emitted. Every random draw is a
parameter. The meaning of a `next()` draw depends on the mode: the result of
`rand.Intn(K)`, of `rand.Intn(100)`, the truncated normal draw before folding,
or the Zipf or exponential sample.

Go's run-time failures are values of `Failure`, returned through `Result` or
`Option`:

- `log.Fatalf` on an unknown distribution name;
- the division-by-zero panic of `% K` with `K == 0`;
- the panic of `rand.Intn` with a non-positive bound;
- a normal-mode fold that never exits when `K <= 0`, except with `K == 0`
  and a draw of 0, which passes through as key 0;
- `WaitGroup.Done` taking the counter below zero.

Go's truncating `%` and `int(float64)` conversion are written out as `GoRem`
and `Trunc`.

Modules, one per file: `GoRuntime` (go_runtime.dfy), `BenchConfig`
(config.dfy), `KeyGen` (keygen.dfy), `Submissions` (submissions.dfy),
`Workers` (worker.dfy), and `Bench` (benchmark.dfy, the `Benchmark` class).

Behaviour of the source worth noting:

- The Zipf branch is selected by the spelling `"zipfan"`. `"zipfian"` is
  fatal (`ZipfianSpellingIsUnknown`).
- `Load` never increments the sequence counter: every pair it sends carries
  the initial value -1 (`Load`).
- A failed write never calls `wait.Done`, because `collect` only runs for
  emitted latencies. After a counted run, the WaitGroup counter is left at
  the number of logged errors, so `wait.Wait()` returns only when no write
  failed (`CountedRunOneWorker`).
- The sequence-number channel is unbuffered and is received from only by a
  writing iteration, so with W < 1 a run blocks at the first key that is not
  written and never finishes (`CountedRunOneWorker` requires every iteration
  to write).
- Conflict mode's hot key is the literal 0, which lies outside
  `[Min, Min+K)` whenever `Min > 0` (`NextKeyBounds`).
- `err` is declared outside `worker`'s loop. A no-write iteration that follows
  a failed write is therefore treated as failed (`StickyError`).
- The normal fold's repeated addition and subtraction of K is a modular
  reduction onto `[0, K]`, with K kept rather than mapped to 0
  (`FoldRefReduces`).

## Model

| member | source | states |
|---|---|---|
| GoRuntime.GoRem | benchmark.go:209 | Go's `%`: the result has the dividend's sign and magnitude below the divisor's, and differs from the dividend by a multiple of the divisor; for a non-negative dividend it is the Euclidean remainder |
| GoRuntime.Trunc | benchmark.go:141 | `int(x)` of a float truncates toward zero: floor for non-negative x, ceiling for negative x |
| BenchConfig.ParseDistribution | benchmark.go:207-239 | each of the six case labels is recognised exactly when the name equals it, case-sensitively; every other name falls to the default branch |
| BenchConfig.ZipfianSpellingIsUnknown | benchmark.go:232-239 | `"zipfian"` and `"Zipfan"` are not recognised and take the fatal default branch |
| BenchConfig.DefaultBConfig | benchmark.go:49-70 | a timed run with T = 60 and N = 0 over 1000 keys, one client, write ratio 1, uniform keys, no throttle, no moving mean, Conflicts = 100 (so every conflict-mode draw would hit key 0) |
| KeyGen.NextKey | benchmark.go:205-247 | next() fails exactly for an unknown name (fatal), order with K == 0, uniform with K <= 0, conflict with a draw >= Conflicts and K == 0, and normal with K <= 0 unless K == 0 and the draw is 0 |
| KeyGen.OrderStep | benchmark.go:208-210 | K == 0 panics (division by zero) and only then; otherwise the key is Min plus the new counter |
| KeyGen.OrderStepCycles | benchmark.go:208-210 | from -1 or a position of the cycle the counter lands in [0, \|K\|); for K > 0 it advances by one and wraps to 0 after K-1 |
| KeyGen.FoldRef | benchmark.go:224-230 | the fold yields a key exactly when K > 0, or when K == 0 and the draw is 0; otherwise the loops never exit |
| KeyGen.FoldRefReduces | benchmark.go:224-230 | for K > 0 the folded key is in [0, K] and congruent to the draw modulo K; it is below K for a negative draw and above 0 for a positive one; a draw already in [0, K] is unchanged |
| KeyGen.RaiseNonNegative | benchmark.go:225-227 | the first loop of the normal fold: a negative draw comes out as its remainder modulo K in [0, K); any other draw is left alone |
| KeyGen.LowerToAtMostK | benchmark.go:228-230 | the second loop: a positive key comes out in [1, K], one more than (key-1) mod K; a key already in [0, K] is left alone |
| KeyGen.FoldNormal | benchmark.go:225-230 | the two loops of the normal branch terminate for K > 0 and compute FoldRef |
| KeyGen.NextKeyKeepsCounter | benchmark.go:205-240 | next() keeps the counter at -1 or in [0, \|K\|); only order and conflict modes move it |
| KeyGen.ConflictStep | benchmark.go:215-221 | a draw below Conflicts yields key 0 with the counter unchanged; any other draw is exactly the order step |
| KeyGen.NextKeyBounds | benchmark.go:207-230 | for K > 0: order keys are in [Min, Min+K); uniform keys too when the draw is in [0, K); conflict keys are 0 or in [Min, Min+K); normal keys are in [0, K] |
| KeyGen.UnknownNameIsFatal | benchmark.go:238-239 | an unrecognised name stops the process with log.Fatalf, whatever the state |
| Submissions.Generate | benchmark.go:166-184 | the submission loop sends at most one pair per draw, and one for every draw exactly when no next() fails; the sequence counter ends advanced by the number of pairs sent |
| Submissions.GenerateAccSplit | benchmark.go:166-184 | the loop form of the specification, carrying the pairs already sent, ends with exactly Generate's result behind those pairs |
| Submissions.GenerateUnfold | benchmark.go:179-184 | one submission step: a failing next() stops the run with nothing sent; otherwise the pair (key, counter+1) goes out ahead of the rest |
| Submissions.SequenceNumbersGapFree | benchmark.go:179-184 | the i-th pair sent carries counter+1+i, the counter ends at the last number sent, and every draw is submitted unless next() fails |
| Submissions.OrderKeysCycle | benchmark.go:208-210 | in order mode the i-th key is Min + (c+1+i) mod K: from c = -1 that is Min, Min+1, ..., Min+K-1, Min, ... |
| Submissions.ConflictAllHot | benchmark.go:215-221 | with Conflicts >= 100 and draws of rand.Intn(100), every key is 0 and the counter never moves |
| Submissions.GeneratedKeysInRange | benchmark.go:207-230 | over a whole run with K > 0, order, uniform, conflict and normal modes never fail, and every key obeys its mode's bounds |
| Submissions.RunNeverFails | benchmark.go:179-184 | in a mode whose next() cannot fail, the loop submits one pair per draw and reports no failure |
| Submissions.CountedRunNumbersFromZero | benchmark.go:179-184 | from a fresh benchmark, in every mode whose next() cannot fail (order and conflict with K != 0, uniform and normal with K > 0, zipfan, exponential), a counted run sends exactly one pair per iteration, numbered 0, 1, ..., N-1 |
| Workers.WorkerSpec | benchmark.go:255-276 | every key yields one operation, plus either one emitted latency or one logged error; at most one sequence number is taken per key |
| Workers.StepTrace | benchmark.go:256-275 | one iteration records one operation, emits a latency or logs an error, and writes at most one pair |
| Workers.WorkerSpecExtend | benchmark.go:255-276 | the specification of i+1 iterations is that of i iterations followed by iteration i |
| Workers.WorkerIteration | benchmark.go:256-275 | one loop body: write when u < W and reassign err from the write; otherwise leave err alone; end at e and emit e-s when err is nil; otherwise end at MaxInt64 and log |
| Workers.Worker | benchmark.go:249-277 | the loop over the received keys computes WorkerSpec, with err starting at nil |
| Workers.NoFailedWrites | benchmark.go:269-271 | when no write fails, every operation ends at its e and the latencies e-s are emitted in order, with no error logged |
| Workers.WritesPairKeysWithSeqNums | benchmark.go:257-260 | when every iteration writes, the i-th write carries the i-th key with the i-th sequence number received |
| Workers.OutcomeFollowsOwnWrite | benchmark.go:268-275 | when every iteration writes, each operation ends at MaxInt64 exactly when its own write failed, and at e otherwise |
| Workers.AllWritesFailEmitNothing | benchmark.go:269-275 | when every write fails, no latency is emitted and one error is logged per key |
| Workers.StickyError | benchmark.go:252-275 | after a failed write, no-write iterations are failures too: MaxInt64, nothing emitted, nothing written |
| Workers.WorkerSpecPrefix | benchmark.go:252-276 | the operations recorded over the first i keys are the first i operations recorded over all of them |
| Workers.DropLastKeepsOps | benchmark.go:252-276 | processing one more key leaves the operations already recorded unchanged |
| Workers.LatestWriteStep | benchmark.go:252-262 | a write sets err to its own outcome; an iteration without a write leaves err as it was, nil before the first iteration |
| Workers.ErrAfterIteration | benchmark.go:252-262 | from err == nil, err is non-nil after iteration i exactly when the latest write at or before i failed |
| Workers.OutcomeOfIteration | benchmark.go:255-275 | from err == nil, operation i starts at s and ends at MaxInt64 with nothing emitted and one error logged exactly when the latest write at or before i failed; otherwise it ends at e and e-s is emitted after the earlier latencies |
| Workers.ErrorsIffFailedWrite | benchmark.go:257-275 | starting from err == nil, an error is logged exactly when some write made fails, and err is non-nil at the end only after an error was logged |
| Bench.MovedMean | benchmark.go:141 | `Mu = float64(int(Mu+1) % K)` panics exactly when K == 0 |
| Bench.MovedMeanCycles | benchmark.go:141 | the new mean is whole and, once Mu > -1, in [0, \|K\|); a whole mean in [0, K-1) advances by one and K-1 wraps to 0 |
| Bench.Benchmark.constructor | benchmark.go:86-100 | both counters start at -1, the configuration is the one given, and nothing is collected or pending |
| Bench.Benchmark.Next | benchmark.go:205-247 | next() returns NextKey's key and counter, or its failure with the counter unchanged, keeping the counter in its cycle |
| Bench.Benchmark.Load | benchmark.go:102-124 | forces W = 1 and Throttle = 0, sends exactly max(K, 0) pairs (Min+i, the unchanged sequence counter, -1 on a fresh Benchmark) in increasing key order, and adds one to the WaitGroup per pair |
| Bench.Benchmark.Submit | benchmark.go:180-183 | one loop body of Run: WaitGroup Add, next(), increment of the sequence counter, then the pair is sent |
| Bench.Benchmark.Run | benchmark.go:137-186 | the latency sequence is reset; the pairs sent, the final counters and any failure are those of Generate; the WaitGroup grows by one per iteration |
| Bench.Benchmark.MoveMean | benchmark.go:141 | the move closure sets Mu to MovedMean or panics, changes nothing else, and keeps the class invariant |
| Bench.Benchmark.Collect | benchmark.go:278-282 | each sample is appended at the end of latency and releases one WaitGroup unit; a Done below zero panics after the append; the class invariant is kept |
| Bench.OrderScenario | benchmark.go:179-184 | K = 10, Min = 0, order mode, N = 10, W = 1, no failure: keys 0..9 go out with sequence numbers 0..9, the worker writes exactly those pairs, and 10 latencies are emitted |
| Bench.CountedRunOneWorker | benchmark.go:137-186 | a counted run of a fresh Benchmark with Concurrency = 1, its single worker and the collector, in which every iteration writes (otherwise the source's Run never finishes): Run sends pairs numbered 0..N-1, the worker processes them, the collector receives exactly the emitted latencies, and the WaitGroup is left at the number of logged errors, which is zero exactly when no write failed |
| Bench.OrderRunOneWorker | benchmark.go:137-186 | the order scenario through the Benchmark object with Concurrency = 1: pairs (i, i) for i < 10 are sent and written, ten latencies are collected, and the WaitGroup ends at zero |

## Left out

- Goroutines, channels and their buffering, `sync.WaitGroup` blocking, the
  timer of the timed run, and `Schedule`. Their point is concurrency.
- Bench.Benchmark.Run: in the timed run the number of iterations is the
  number of draws given, because the timer decides it.
- Bench.Benchmark.Run: in the counted run, the final `wait.Wait()` is not
  modelled as blocking; `CountedRunOneWorker` states when it would return.
- Workers.Worker: modelled as a function of the write ratio W and the start
  time, the two fields of the Benchmark it reads, rather than as a method
  of the class. It models one worker receiving its own subsequence of the
  keys; how keys are split among `Concurrency` workers is interleaving and
  is not modelled.
- A worker that does not write does not receive from the sequence-number
  channel, which is unbuffered. Run's send for that key never completes, so
  whenever W < 1 the run hangs at the first non-writing iteration and never
  reaches `wait.Wait()`. The model hands each worker the numbers in order,
  one per write, and does not model the block.
- Concurrency other than 1: with Concurrency == 0 no worker is started and
  the keys channel is unbuffered, so the first send of `Load` or `Run`
  blocks forever; with Concurrency < 0 `make` panics before any key is
  sent. `Load` and `Run` do not model either case, and
  `CountedRunOneWorker` and `OrderRunOneWorker` require Concurrency = 1.
- Bench.CountedRunOneWorker: requires every iteration to write (u < W),
  because with a non-writing iteration the source's run never finishes and
  there is no final state to state.
- Random sources (`rand.Intn`, `rand.NormFloat64`, `rand.ExpFloat64`,
  `rand.Float64`, `rand.Zipf`) are parameters. Floating-point arithmetic is
  modelled as exact reals. The normal draw's `NormFloat64()*Sigma+Mu` and
  the exponential `ExpFloat64()/Lambda` are not modelled: only their integer
  results are.
- A nil Zipf generator is not modelled. `rand.NewZipf` returns nil for
  invalid parameters, after which `zipf.Uint64()` panics.
- 64-bit integer overflow is not modelled: `counter+1`, the sequence counter
  increment, `key += K` in the fold, and `int(...)` conversions of
  out-of-range floats. Integers are unbounded.
- KeyGen.FoldRef: with K < 0 both loops of the fold misbehave on 64-bit
  integers. For a negative draw the first loop (`key += K`) drives the key
  down until it wraps around after about 2^63/|K| iterations. For a draw
  of 0 or more the first loop is skipped, and the second loop (`key -= K`)
  drives the key up until it wraps and exits with a key near MinInt64. On
  unbounded integers both diverge, and the model reports `Diverges`.
- The rate limiter `Limiter` that next() waits on when Throttle > 0 is
  not part of this model. It does not change the key.
- Calls to the data store (`Init`, `Write`, `Stop`) are not modelled,
  except for the outcome of `Write`, which is an input of each iteration.
- Payloads (`GenerateRandVal`, `op.input`, `op.output`) are not modelled.
- The `operation` record's history is not modelled; the model keeps only
  its start and end.
- Statistics (`Statistic`, `WriteFile`), throughput, logging and the
  linearizability flag are not modelled.
- The global `config.Benchmark` is the constructor's parameter.
- The field `globalCouner` is named `globalCounter` here.
