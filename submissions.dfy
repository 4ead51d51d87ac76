/** What the orchestrator hands to the workers: keys on the `keys` channel and,
    for each key, the sequence number it sends on the `globalCouner` channel
    right after. A submission is such a pair in the order of sending. */
module Submissions {
  import opened GoRuntime
  import opened BenchConfig
  import opened KeyGen

  datatype Submission = Submission(key: int, seqNum: int)

  /** The submissions of a Run loop and the generator state it ends in; when
      next() fails the process stops and `failure` says why. */
  datatype Generated = Generated(sent: seq<Submission>, counter: int, seqNum: int, failure: Option<Failure>)

  /** Specification of Run's submission loop: one iteration per draw, each
      calling next(), incrementing the sequence counter and sending the pair. */
  function Generate(cfg: Bconfig, counter: int, seqNum: int, draws: seq<int>): (g: Generated)
    // one pair per draw until next() fails; the sequence counter ends at the last number sent
    ensures |g.sent| <= |draws| && (g.failure == None <==> |g.sent| == |draws|)
    ensures g.seqNum == seqNum + |g.sent|
    decreases |draws|
  {
    if draws == [] then Generated([], counter, seqNum, None)
    else
      match NextKey(cfg, counter, draws[0])
      case Err(f) => Generated([], counter, seqNum, Some(f))
      case Ok(step) =>
        var rest := Generate(cfg, step.counter, seqNum + 1, draws[1..]);
        rest.(sent := [Submission(step.key, seqNum + 1)] + rest.sent)
  }

  /** Generate with the pairs already sent as an accumulator: the form in
      which Run's loop carries the specification from one iteration to the next. */
  ghost function GenerateAcc(cfg: Bconfig, counter: int, seqNum: int, draws: seq<int>,
                             acc: seq<Submission>): Generated
    decreases |draws|
  {
    if draws == [] then Generated(acc, counter, seqNum, None)
    else
      match NextKey(cfg, counter, draws[0])
      case Err(f) => Generated(acc, counter, seqNum, Some(f))
      case Ok(step) => GenerateAcc(cfg, step.counter, seqNum + 1, draws[1..], acc + [Submission(step.key, seqNum + 1)])
  }

  /** The accumulator form is Generate with the accumulated pairs in front. */
  lemma {:induction false} GenerateAccSplit(cfg: Bconfig, counter: int, seqNum: int, draws: seq<int>,
                                            acc: seq<Submission>)
    ensures var g := Generate(cfg, counter, seqNum, draws);
            GenerateAcc(cfg, counter, seqNum, draws, acc) == g.(sent := acc + g.sent)
    decreases |draws|
  {
    if draws != [] {
      match NextKey(cfg, counter, draws[0])
      case Err(f) =>
      case Ok(step) =>
        var acc' := acc + [Submission(step.key, seqNum + 1)];
        GenerateAccSplit(cfg, step.counter, seqNum + 1, draws[1..], acc');
        var rest := Generate(cfg, step.counter, seqNum + 1, draws[1..]);
        assert acc' + rest.sent == acc + ([Submission(step.key, seqNum + 1)] + rest.sent);
    }
  }

  /** One step of Generate: the outcome of next() on the first draw decides
      between stopping and sending a pair ahead of the rest of the run. */
  lemma GenerateUnfold(cfg: Bconfig, counter: int, seqNum: int, draws: seq<int>)
    requires draws != []
    ensures var g := Generate(cfg, counter, seqNum, draws);
            var s := NextKey(cfg, counter, draws[0]);
            && (s.Err? ==> g == Generated([], counter, seqNum, Some(s.failure)))
            && (s.Ok? ==> var rest := Generate(cfg, s.value.counter, seqNum + 1, draws[1..]);
                          g == rest.(sent := [Submission(s.value.key, seqNum + 1)] + rest.sent))
  {
  }

  /** Sequence numbers: the i-th submission carries seqNum + 1 + i, so they are
      strictly increasing, without gaps and one per key; the counter ends at
      the last number sent, and every draw is submitted unless next() fails. */
  lemma {:induction false} SequenceNumbersGapFree(cfg: Bconfig, counter: int, seqNum: int, draws: seq<int>)
    ensures var g := Generate(cfg, counter, seqNum, draws);
            && |g.sent| <= |draws|
            && (g.failure == None <==> |g.sent| == |draws|)
            && g.seqNum == seqNum + |g.sent|
            && forall i :: 0 <= i < |g.sent| ==> g.sent[i].seqNum == seqNum + 1 + i
    decreases |draws|
  {
    if draws != [] {
      match NextKey(cfg, counter, draws[0])
      case Err(_) =>
      case Ok(step) =>
        SequenceNumbersGapFree(cfg, step.counter, seqNum + 1, draws[1..]);
    }
  }

  /** Order mode cycles: from a counter c in its cycle, the i-th key is
      Min + (c + 1 + i) % K; from the initial c == -1 that is Min, Min+1, ...,
      Min+K-1, Min, ... */
  lemma {:induction false} OrderKeysCycle(cfg: Bconfig, counter: int, seqNum: int, draws: seq<int>)
    requires ParseDistribution(cfg.Distribution) == Some(Order)
    requires cfg.K > 0 && -1 <= counter < cfg.K
    ensures var g := Generate(cfg, counter, seqNum, draws);
            && g.failure == None && |g.sent| == |draws|
            && forall i :: 0 <= i < |draws| ==> g.sent[i].key == cfg.Min + (counter + 1 + i) % cfg.K
    decreases |draws|
  {
    if draws != [] {
      var c1 := (counter + 1) % cfg.K;
      OrderKeysCycle(cfg, c1, seqNum + 1, draws[1..]);
      OrderKeysFirstStep(cfg, counter, seqNum, draws);
    }
  }

  /** The inductive step of OrderKeysCycle: if the run after the first order
      step cycles from its counter, the whole run cycles from the one before. */
  lemma OrderKeysFirstStep(cfg: Bconfig, counter: int, seqNum: int, draws: seq<int>)
    requires ParseDistribution(cfg.Distribution) == Some(Order)
    requires cfg.K > 0 && -1 <= counter < cfg.K && draws != []
    requires var c1 := (counter + 1) % cfg.K;
             var rest := Generate(cfg, c1, seqNum + 1, draws[1..]);
             && rest.failure == None && |rest.sent| == |draws| - 1
             && forall i :: 0 <= i < |draws| - 1 ==> rest.sent[i].key == cfg.Min + (c1 + 1 + i) % cfg.K
    ensures var g := Generate(cfg, counter, seqNum, draws);
            && g.failure == None && |g.sent| == |draws|
            && forall i :: 0 <= i < |draws| ==> g.sent[i].key == cfg.Min + (counter + 1 + i) % cfg.K
  {
    var c1 := (counter + 1) % cfg.K;
    assert NextKey(cfg, counter, draws[0]) == Ok(Step(cfg.Min + c1, c1));
    GenerateUnfold(cfg, counter, seqNum, draws);
    var rest := Generate(cfg, c1, seqNum + 1, draws[1..]);
    var g := Generate(cfg, counter, seqNum, draws);
    assert g.sent == [Submission(cfg.Min + c1, seqNum + 1)] + rest.sent;
    forall i | 1 <= i < |draws|
      ensures g.sent[i].key == cfg.Min + (counter + 1 + i) % cfg.K
    {
      assert g.sent[i] == rest.sent[i - 1];
      assert c1 + 1 + (i - 1) == (counter + 1) % cfg.K + i;
      ModOfSum(counter + 1, i, cfg.K);
    }
  }

  /** With Conflicts >= 100 every draw of rand.Intn(100) hits the hot key: all
      keys are 0 and the counter never moves. */
  lemma {:induction false} ConflictAllHot(cfg: Bconfig, counter: int, seqNum: int, draws: seq<int>)
    requires ParseDistribution(cfg.Distribution) == Some(Conflict) && cfg.Conflicts >= 100
    requires forall i :: 0 <= i < |draws| ==> 0 <= draws[i] < 100
    ensures var g := Generate(cfg, counter, seqNum, draws);
            && g.failure == None && |g.sent| == |draws| && g.counter == counter
            && forall i :: 0 <= i < |g.sent| ==> g.sent[i].key == 0
    decreases |draws|
  {
    if draws != [] {
      assert NextKey(cfg, counter, draws[0]) == Ok(Step(0, counter));
      ConflictAllHot(cfg, counter, seqNum + 1, draws[1..]);
    }
  }

  /** Over a whole run, with a non-empty key space: order keys stay in
      [Min, Min+K), uniform keys too when each draw comes from rand.Intn(K),
      conflict keys there or at 0, normal keys in [0, K]; no key is refused. */
  lemma {:induction false} GeneratedKeysInRange(cfg: Bconfig, counter: int, seqNum: int, draws: seq<int>)
    requires cfg.K > 0 && CounterInCycle(counter, cfg.K)
    requires ParseDistribution(cfg.Distribution) == Some(Uniform) ==>
               forall i :: 0 <= i < |draws| ==> 0 <= draws[i] < cfg.K
    ensures var g := Generate(cfg, counter, seqNum, draws);
            var d := ParseDistribution(cfg.Distribution);
            && (d in {Some(Order), Some(Uniform), Some(Conflict), Some(Normal)} ==> g.failure == None)
            && CounterInCycle(g.counter, cfg.K)
            && forall i :: 0 <= i < |g.sent| ==>
                 && (d in {Some(Order), Some(Uniform)} ==> cfg.Min <= g.sent[i].key < cfg.Min + cfg.K)
                 && (d == Some(Conflict) ==> g.sent[i].key == 0 || cfg.Min <= g.sent[i].key < cfg.Min + cfg.K)
                 && (d == Some(Normal) ==> 0 <= g.sent[i].key <= cfg.K)
    decreases |draws|
  {
    if draws != [] {
      NextKeyBounds(cfg, counter, draws[0]);
      NextKeyKeepsCounter(cfg, counter, draws[0]);
      match NextKey(cfg, counter, draws[0])
      case Err(_) =>
      case Ok(step) =>
        GeneratedKeysInRange(cfg, step.counter, seqNum + 1, draws[1..]);
    }
  }

  /** A run in a configuration whose next() cannot fail submits every draw. */
  lemma {:induction false} RunNeverFails(cfg: Bconfig, counter: int, seqNum: int, draws: seq<int>)
    requires NextNeverFails(cfg)
    ensures var g := Generate(cfg, counter, seqNum, draws);
            g.failure == None && |g.sent| == |draws|
    decreases |draws|
  {
    if draws != [] {
      var step := NextKey(cfg, counter, draws[0]);
      assert step.Ok?;
      RunNeverFails(cfg, step.value.counter, seqNum + 1, draws[1..]);
    }
  }

  /** A counted run from a fresh benchmark (counter and sequence counter at -1),
      in any configuration whose next() cannot fail, sends exactly one pair per
      draw, numbered 0, 1, ..., |draws| - 1. */
  lemma CountedRunNumbersFromZero(cfg: Bconfig, draws: seq<int>)
    requires NextNeverFails(cfg)
    ensures var g := Generate(cfg, -1, -1, draws);
            && g.failure == None && |g.sent| == |draws| && g.seqNum == |draws| - 1
            && forall i :: 0 <= i < |g.sent| ==> g.sent[i].seqNum == i
  {
    RunNeverFails(cfg, -1, -1, draws);
    SequenceNumbersGapFree(cfg, -1, -1, draws);
  }
}
