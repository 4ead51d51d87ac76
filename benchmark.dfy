/** The Benchmark object: its generator state, sequence counter, latency
    sequence and completion counter, and the sequential bookkeeping of its
    operations. Goroutines and channels are replaced by explicit sequences: the
    orchestrator's methods return what they send, the worker takes what it
    receives, and the collector is given the latencies the workers emitted. */
module Bench {
  import opened GoRuntime
  import opened BenchConfig
  import opened KeyGen
  import opened Submissions
  import opened Workers

  /** The moving-mean step scheduled by Run when Move is set:
      `Mu = float64(int(Mu+1) % K)`, with Go's truncating conversion and remainder. */
  function MovedMean(mu: real, k: int): (r: Result<real>)
    ensures k == 0 <==> r == Err(DivideByZero)
  {
    if k == 0 then Err(DivideByZero)
    else Ok(GoRem(Trunc(mu + 1.0), k) as real)
  }

  /** The new mean is a whole number, in [0, |K|) once Mu > -1; a whole mean
      inside the key space advances by one, wrapping from K-1 to 0. */
  lemma MovedMeanCycles(mu: real, k: int)
    requires k != 0
    ensures var r := MovedMean(mu, k);
            && r.Ok? && r.value == r.value.Floor as real
            && (mu > -1.0 ==> 0.0 <= r.value < Abs(k) as real)
            && (k > 0 && mu == mu.Floor as real && 0.0 <= mu < (k - 1) as real ==> r.value == mu + 1.0)
            && (k > 0 && mu == (k - 1) as real ==> r.value == 0.0)
  {
    var n := Trunc(mu + 1.0);
    if k > 0 && mu == mu.Floor as real && 0.0 <= mu < (k - 1) as real {
      assert n == mu.Floor + 1;
      DivModUnique(n, k, 0, n);
    }
    if k > 0 && mu == (k - 1) as real {
      assert n == k;
      DivModUnique(k, k, 1, 0);
    }
  }

  /** Project the keys and the sequence numbers out of a list of submissions. */
  function Keys(sent: seq<Submission>): (ks: seq<int>)
    ensures |ks| == |sent| && forall i :: 0 <= i < |sent| ==> ks[i] == sent[i].key
  {
    seq(|sent|, i requires 0 <= i < |sent| => sent[i].key)
  }

  function SeqNums(sent: seq<Submission>): (ns: seq<int>)
    ensures |ns| == |sent| && forall i :: 0 <= i < |sent| ==> ns[i] == sent[i].seqNum
  {
    seq(|sent|, i requires 0 <= i < |sent| => sent[i].seqNum)
  }

  class Benchmark {
    var config: Bconfig
    /** State of the order and conflict generators. */
    var counter: int
    /** The last sequence number handed out (`globalCouner` in the source). */
    var globalCounter: int
    /** Latencies collected so far, in nanoseconds. */
    var latency: seq<int>
    /** The counter of the WaitGroup `wait`. */
    var pending: nat
    /** The clock reading at the start of the measured phase. */
    var startTime: int

    ghost predicate Valid()
      reads this
    {
      CounterInCycle(counter, config.K)
    }

    /** NewBenchmark: both counters start at -1 and nothing is collected. */
    constructor (cfg: Bconfig)
      ensures Valid()
      ensures config == cfg && counter == -1 && globalCounter == -1
      ensures latency == [] && pending == 0
    {
      config := cfg;
      counter := -1;
      globalCounter := -1;
      latency := [];
      pending := 0;
      startTime := 0;
    }

    /** next(): the key for the next submission, given the random draw of the
        call; only the order and conflict modes update the counter. */
    method Next(draw: int) returns (r: Result<int>)
      requires Valid()
      modifies this`counter
      ensures Valid()
      ensures var s := NextKey(config, old(counter), draw);
              if s.Ok? then r == Ok(s.value.key) && counter == s.value.counter
              else r == Err(s.failure) && counter == old(counter)
    {
      match ParseDistribution(config.Distribution)
      case None =>
        r := Err(UnknownDistribution(config.Distribution));
      case Some(Order) =>
        if config.K == 0 {
          return Err(DivideByZero);
        }
        counter := GoRem(counter + 1, config.K);
        r := Ok(counter + config.Min);
      case Some(Uniform) =>
        if config.K <= 0 {
          return Err(IntnNonPositive);
        }
        r := Ok(draw + config.Min);
      case Some(Conflict) =>
        if draw < config.Conflicts {
          r := Ok(0);
        } else {
          if config.K == 0 {
            return Err(DivideByZero);
          }
          counter := GoRem(counter + 1, config.K);
          r := Ok(counter + config.Min);
        }
      case Some(Normal) =>
        r := FoldNormal(draw, config.K);
      case Some(Zipfan) =>
        r := Ok(draw);
      case Some(Exponential) =>
        r := Ok(draw);
    }

    /** Load: forces W = 1 and Throttle = 0, then submits every key of
        [Min, Min+K) once, in increasing order, each with the sequence counter
        as it stands (Load never increments it). */
    method Load(now: int) returns (sent: seq<Submission>)
      requires Valid()
      modifies this
      ensures Valid()
      ensures config == old(config).(W := 1.0, Throttle := 0)
      ensures |sent| == Max(config.K, 0)
      ensures forall i :: 0 <= i < |sent| ==> sent[i] == Submission(config.Min + i, old(globalCounter))
      ensures counter == old(counter) && globalCounter == old(globalCounter) && latency == old(latency)
      ensures pending == old(pending) + |sent| && startTime == now
    {
      config := config.(W := 1.0, Throttle := 0);
      startTime := now;
      sent := [];
      var i := config.Min;
      while i < config.Min + config.K
        invariant config.Min <= i && (config.K >= 0 ==> i <= config.Min + config.K)
        invariant config.K < 0 ==> i == config.Min
        invariant |sent| == i - config.Min
        invariant forall j :: 0 <= j < |sent| ==> sent[j] == Submission(config.Min + j, globalCounter)
        invariant config == old(config).(W := 1.0, Throttle := 0) && Valid()
        invariant counter == old(counter) && globalCounter == old(globalCounter) && latency == old(latency)
        invariant pending == old(pending) + |sent| && startTime == now
      {
        pending := pending + 1;
        sent := sent + [Submission(i, globalCounter)];
        i := i + 1;
      }
    }

    /** One iteration of Run's submission loop: `wait.Add(1)`, next(), then the
        sequence counter is incremented and the pair (key, counter) is sent. */
    method Submit(draw: int) returns (r: Result<Submission>)
      requires Valid()
      modifies this`counter, this`globalCounter, this`pending
      ensures Valid() && pending == old(pending) + 1
      ensures var s := NextKey(config, old(counter), draw);
              if s.Ok? then
                r == Ok(Submission(s.value.key, old(globalCounter) + 1))
                && counter == s.value.counter && globalCounter == old(globalCounter) + 1
              else
                r == Err(s.failure) && counter == old(counter) && globalCounter == old(globalCounter)
    {
      pending := pending + 1;
      var key := Next(draw);
      if key.Err? {
        return Err(key.failure);
      }
      globalCounter := globalCounter + 1;
      r := Ok(Submission(key.value, globalCounter));
    }

    /** Run's submission loop. In the counted run (T <= 0) it iterates N times,
        one draw per iteration; in the timed run the timer decides how many
        iterations happen, which is the number of draws given. The latency
        sequence is reset first. */
    method Run(now: int, draws: seq<int>) returns (sent: seq<Submission>, failure: Option<Failure>)
      requires Valid()
      requires config.T <= 0 ==> |draws| == Max(config.N, 0)
      modifies this`latency, this`startTime, this`counter, this`globalCounter, this`pending
      ensures Valid()
      ensures var g := Generate(old(config), old(counter), old(globalCounter), draws);
              sent == g.sent && failure == g.failure && counter == g.counter && globalCounter == g.seqNum
      ensures latency == [] && startTime == now
      ensures pending == old(pending) + |sent| + (if failure.Some? then 1 else 0)
    {
      latency := [];
      startTime := now;
      sent := [];
      failure := None;
      ghost var g := GenerateAcc(config, counter, globalCounter, draws, []);
      GenerateAccSplit(config, counter, globalCounter, draws, []);
      var i := 0;
      assert draws[i..] == draws;
      while i < |draws|
        invariant 0 <= i <= |draws|
        invariant Valid() && latency == [] && startTime == now
        invariant pending == old(pending) + |sent|
        invariant g == GenerateAcc(config, counter, globalCounter, draws[i..], sent)
      {
        var sub := Submit(draws[i]);
        if sub.Err? {
          failure := Some(sub.failure);
          return;
        }
        assert draws[i..][1..] == draws[i + 1..];
        sent := sent + [sub.value];
        i := i + 1;
      }
    }

    /** The moving-mean closure, run periodically while Move is set. */
    method MoveMean() returns (failure: Option<Failure>)
      requires Valid()
      modifies this`config
      ensures Valid()
      ensures var m := MovedMean(old(config.Mu), old(config.K));
              if m.Ok? then failure == None && config == old(config).(Mu := m.value)
              else failure == Some(m.failure) && config == old(config)
    {
      if config.K == 0 {
        return Some(DivideByZero);
      }
      config := config.(Mu := GoRem(Trunc(config.Mu + 1.0), config.K) as real);
      failure := None;
    }

    /** collect: appends each latency to the end of `latency` and marks one
        unit of `wait` done; Done below zero panics after the append. */
    method Collect(samples: seq<int>) returns (failure: Option<Failure>)
      requires Valid()
      modifies this`latency, this`pending
      ensures Valid()
      ensures |samples| <= old(pending) ==>
                failure == None && latency == old(latency) + samples && pending == old(pending) - |samples|
      ensures |samples| > old(pending) ==>
                failure == Some(NegativeWaitGroup) && pending == 0
                && latency == old(latency) + samples[..old(pending) + 1]
    {
      failure := None;
      var i := 0;
      while i < |samples|
        invariant 0 <= i <= |samples| && i <= old(pending)
        invariant latency == old(latency) + samples[..i] && pending == old(pending) - i
      {
        latency := latency + [samples[i]];
        if pending == 0 {
          assert samples[..i + 1] == samples[..old(pending) + 1];
          return Some(NegativeWaitGroup);
        }
        pending := pending - 1;
        assert samples[..i + 1] == samples[..i] + [samples[i]];
        i := i + 1;
      }
      assert samples[..i] == samples;
    }
  }

  /** The concrete scenario K = 10, Min = 0, order keys, ten counted
      submissions from a fresh benchmark, one worker with W = 1 and no failing
      write: keys 0..9 go out with sequence numbers 0..9, the worker writes
      exactly those pairs, and ten latencies are emitted. */
  lemma OrderScenario(cfg: Bconfig, draws: seq<int>, startTime: int, its: seq<Iteration>)
    requires cfg.Distribution == "order" && cfg.K == 10 && cfg.Min == 0 && cfg.N == 10 && cfg.W == 1.0
    requires |draws| == 10 && |its| == 10
    requires forall i :: 0 <= i < 10 ==> 0.0 <= its[i].u < 1.0 && !its[i].writeFails
    ensures var g := Generate(cfg, -1, -1, draws);
            && g.failure == None && |g.sent| == 10
            && (forall i :: 0 <= i < 10 ==> g.sent[i] == Submission(i, i))
            && var t := WorkerSpec(cfg.W, startTime, false, Keys(g.sent), SeqNums(g.sent), its);
               t.writes == g.sent && |t.emitted| == 10 && t.errorsLogged == 0
  {
    var g := Generate(cfg, -1, -1, draws);
    OrderKeysCycle(cfg, -1, -1, draws);
    SequenceNumbersGapFree(cfg, -1, -1, draws);
    forall i | 0 <= i < 10 ensures g.sent[i] == Submission(i, i) {
      DivModUnique(i, 10, 0, i);
    }
    WritesPairKeysWithSeqNums(cfg.W, startTime, false, Keys(g.sent), SeqNums(g.sent), its);
    NoFailedWrites(cfg.W, startTime, Keys(g.sent), SeqNums(g.sent), its);
  }

  /** A counted run (T <= 0) of a fresh benchmark with Concurrency = 1, so a
      single worker takes every key, with the goroutines' effects taken in
      the order they combine: Run hands out
      the submissions, the worker processes them with the sequence numbers
      they carry, and the collector receives the latencies it emitted. Run
      finishes only when every iteration writes: the sequence-number channel
      is unbuffered and only a writing iteration receives from it, so Run's
      send for the first non-writing key never completes. Every Add is
      matched by a Done except those of logged errors, so the WaitGroup is
      back at zero, and wait.Wait() returns, exactly when no write failed. */
  method CountedRunOneWorker(cfg: Bconfig, now: int, draws: seq<int>, its: seq<Iteration>)
    returns (b: Benchmark, sent: seq<Submission>, t: Trace)
    requires cfg.T <= 0 && cfg.Concurrency == 1 && |draws| == Max(cfg.N, 0) && NextNeverFails(cfg) && |its| == |draws|
    requires forall i :: 0 <= i < |its| ==> its[i].u < cfg.W
    ensures fresh(b) && b.config == cfg && b.startTime == now
    ensures sent == Generate(cfg, -1, -1, draws).sent && |sent| == |draws|
    ensures forall i :: 0 <= i < |sent| ==> sent[i].seqNum == i
    ensures t == WorkerSpec(cfg.W, now, false, Keys(sent), SeqNums(sent), its)
    ensures b.latency == t.emitted && b.pending == t.errorsLogged
    ensures b.pending == 0 <==> forall i :: 0 <= i < |its| ==> !its[i].writeFails
  {
    b := new Benchmark(cfg);
    var failure;
    sent, failure := b.Run(now, draws);
    CountedRunNumbersFromZero(cfg, draws);
    assert failure == None;
    t := Worker(b.config.W, b.startTime, Keys(sent), SeqNums(sent), its);
    ErrorsIffFailedWrite(cfg.W, now, Keys(sent), SeqNums(sent), its);
    var collected := b.Collect(t.emitted);
    assert collected == None;
  }

  /** The order scenario run through the benchmark object with a single
      worker (Concurrency = 1): ten latencies are collected, the WaitGroup
      ends at zero, and the worker writes exactly the pairs (i, i) that Run
      sent. */
  method OrderRunOneWorker(cfg: Bconfig, now: int, draws: seq<int>, its: seq<Iteration>)
    returns (b: Benchmark, sent: seq<Submission>, t: Trace)
    requires cfg.Distribution == "order" && cfg.K == 10 && cfg.Min == 0 && cfg.N == 10 && cfg.W == 1.0
    requires cfg.T <= 0 && cfg.Concurrency == 1 && |draws| == 10 && |its| == 10
    requires forall i :: 0 <= i < 10 ==> 0.0 <= its[i].u < 1.0 && !its[i].writeFails
    ensures fresh(b) && |sent| == 10 && forall i :: 0 <= i < 10 ==> sent[i] == Submission(i, i)
    ensures t.writes == sent && |b.latency| == 10 && b.pending == 0
  {
    b, sent, t := CountedRunOneWorker(cfg, now, draws, its);
    OrderScenario(cfg, draws, now, its);
  }
}
