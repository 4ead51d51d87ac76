/** Key generation: the specification of Benchmark.next() as a function of the
    configuration, the generator's counter and the random draw of the call. The
    draw stands for whatever the mode takes from the random source:
      uniform      the result of rand.Intn(K)
      conflict     the result of rand.Intn(100)
      normal       int(rand.NormFloat64()*Sigma + Mu), before folding
      zipfan       int(zipf.Uint64())
      exponential  int(rand.ExpFloat64() / Lambda)
    and is ignored in order mode. */
module KeyGen {
  import opened GoRuntime
  import opened BenchConfig

  /** What one call of next() produces: the key and the new value of the counter. */
  datatype Step = Step(key: int, counter: int)

  /** The counter bookkeeping shared by the order and conflict modes:
      `counter = (counter + 1) % K; key = counter + Min`. */
  function OrderStep(counter: int, k: int, min: int): (r: Result<Step>)
    ensures k == 0 <==> r == Err(DivideByZero)
    ensures r.Ok? ==> r.value.key == min + r.value.counter
  {
    if k == 0 then Err(DivideByZero)
    else
      var c := GoRem(counter + 1, k);
      Ok(Step(c + min, c))
  }

  /** From -1 or any earlier position of the cycle the counter lands in
      [0, |K|); for K > 0 it advances by one and wraps to 0 after K - 1. */
  lemma OrderStepCycles(counter: int, k: int, min: int)
    requires k != 0 && counter >= -1
    ensures var r := OrderStep(counter, k, min);
            && r.Ok? && 0 <= r.value.counter < Abs(k)
            && (k > 0 && counter < k - 1 ==> r.value.counter == counter + 1)
            && (k > 0 && counter == k - 1 ==> r.value.counter == 0)
  {
    if k > 0 && counter < k - 1 {
      DivModUnique(counter + 1, k, 0, counter + 1);
    }
    if k > 0 && counter == k - 1 {
      DivModUnique(k, k, 1, 0);
    }
  }

  /** Reference definition of the normal-mode fold, in closed form: the draw
      reduced into [0, K], where a negative draw lands in [0, K) and a positive
      one in [1, K]. With K <= 0 the fold's loops never exit, except that a
      draw of 0 with K == 0 passes through both loop guards untouched. */
  function FoldRef(d: int, k: int): (r: Result<int>)
    ensures r.Ok? <==> k > 0 || (k == 0 && d == 0)
  {
    if k <= 0 then (if k == 0 && d == 0 then Ok(0) else Err(Diverges))
    else if d < 0 then Ok(d % k)
    else if d == 0 then Ok(0)
    else Ok((d - 1) % k + 1)
  }

  /** For K > 0 the fold lands in [0, K] on a key congruent to the draw modulo
      K: below K for a negative draw, above 0 for a positive one, and a draw
      already in [0, K] is kept. */
  lemma FoldRefReduces(d: int, k: int)
    requires k > 0
    ensures var r := FoldRef(d, k);
            && r.Ok? && 0 <= r.value <= k && (d - r.value) % k == 0
            && (d < 0 ==> r.value < k)
            && (d > 0 ==> r.value > 0)
            && (0 <= d <= k ==> r.value == d)
  {
    if d < 0 {
      var q, m := d / k, d % k;
      assert d == q * k + m;
      MultipleModZero(q, k);
    } else if d > 0 {
      var q, m := (d - 1) / k, (d - 1) % k;
      assert d - 1 == q * k + m;
      MultipleModZero(q, k);
      if d <= k {
        DivModUnique(d - 1, k, 0, d - 1);
      }
    }
  }

  /** The first loop of the normal fold: add K while the key is negative. The
      key that comes out differs from the draw by a multiple of K. */
  method RaiseNonNegative(draw: int, k: int) returns (key: int)
    requires k > 0
    ensures draw < 0 ==> 0 <= key < k && key == draw % k
    ensures draw >= 0 ==> key == draw
  {
    key := draw;
    ghost var q := 0;
    while key < 0
      invariant draw == q * k + key && q <= 0
      invariant draw < 0 ==> key < k
      invariant draw >= 0 ==> key == draw
      decreases -key
    {
      key := key + k;
      q := q - 1;
    }
    if draw < 0 {
      DivModUnique(draw, k, q, key);
    }
  }

  /** The second loop of the normal fold: subtract K while the key exceeds K.
      A positive key comes out in [1, K], congruent to it modulo K. */
  method LowerToAtMostK(first: int, k: int) returns (key: int)
    requires k > 0 && first >= 0
    ensures first > 0 ==> 1 <= key <= k && key - 1 == (first - 1) % k
    ensures first <= k ==> key == first
  {
    key := first;
    ghost var j := 0;
    while key > k
      invariant first == j * k + key && j >= 0
      invariant first >= 1 ==> key >= 1
      invariant first <= k ==> key == first
      decreases key
    {
      key := key - k;
      j := j + 1;
    }
    if first > 0 {
      DivModUnique(first - 1, k, j, key - 1);
    }
  }

  /** The fold of next()'s normal branch, with its two loops: add K while the
      key is negative, then subtract K while it exceeds K. */
  method FoldNormal(draw: int, k: int) returns (r: Result<int>)
    ensures r == FoldRef(draw, k)
  {
    if k <= 0 {
      // on unbounded integers neither loop can reach its exit from any other draw
      if k == 0 && draw == 0 {
        return Ok(0);
      }
      return Err(Diverges);
    }
    var key := RaiseNonNegative(draw, k);
    key := LowerToAtMostK(key, k);
    r := Ok(key);
  }

  /** Specification of next(): the key of one call and the counter afterwards,
      or the failure that stops the process. The rate limiter that next() waits
      on afterwards does not change the key. */
  function NextKey(cfg: Bconfig, counter: int, draw: int): (r: Result<Step>)
    // next() stops the process exactly in these cases
    ensures var d := ParseDistribution(cfg.Distribution);
            r.Err? <==> || d == None
                        || (d == Some(Order) && cfg.K == 0)
                        || (d == Some(Uniform) && cfg.K <= 0)
                        || (d == Some(Conflict) && draw >= cfg.Conflicts && cfg.K == 0)
                        || (d == Some(Normal) && cfg.K <= 0 && !(cfg.K == 0 && draw == 0))
  {
    match ParseDistribution(cfg.Distribution)
    case None => Err(UnknownDistribution(cfg.Distribution))
    case Some(Order) => OrderStep(counter, cfg.K, cfg.Min)
    case Some(Uniform) =>
      if cfg.K <= 0 then Err(IntnNonPositive) else Ok(Step(draw + cfg.Min, counter))
    case Some(Conflict) =>
      if draw < cfg.Conflicts then Ok(Step(0, counter)) else OrderStep(counter, cfg.K, cfg.Min)
    case Some(Normal) =>
      (match FoldRef(draw, cfg.K)
       case Ok(key) => Ok(Step(key, counter))
       case Err(f) => Err(f))
    case Some(Zipfan) => Ok(Step(draw, counter))
    case Some(Exponential) => Ok(Step(draw, counter))
  }
  /** The configurations under which next() succeeds whatever the counter and
      the draw: a known mode whose `% K` cannot divide by zero and whose
      rand.Intn(K) and fold cannot fail. */
  ghost predicate NextNeverFails(cfg: Bconfig)
  {
    match ParseDistribution(cfg.Distribution)
    case None => false
    case Some(Order) => cfg.K != 0
    case Some(Conflict) => cfg.K != 0
    case Some(Uniform) => cfg.K > 0
    case Some(Normal) => cfg.K > 0
    case Some(Zipfan) => true
    case Some(Exponential) => true
  }

  /** The invariant on the generator's counter: -1 before the first order step,
      a position of the cycle afterwards. */
  ghost predicate CounterInCycle(counter: int, k: int)
  {
    counter == -1 || 0 <= counter < Abs(k)
  }

  /** next() keeps the counter in its cycle, and only the order and conflict
      modes move it. */
  lemma NextKeyKeepsCounter(cfg: Bconfig, counter: int, draw: int)
    requires CounterInCycle(counter, cfg.K)
    ensures NextKey(cfg, counter, draw).Ok? ==> CounterInCycle(NextKey(cfg, counter, draw).value.counter, cfg.K)
    ensures ParseDistribution(cfg.Distribution) !in {Some(Order), Some(Conflict)} ==>
              (NextKey(cfg, counter, draw).Ok? ==> NextKey(cfg, counter, draw).value.counter == counter)
  {
    if cfg.K != 0 {
      OrderStepCycles(counter, cfg.K, cfg.Min);
    }
  }

  /** The conflict mode: a draw below Conflicts yields the hot key 0 and leaves
      the counter alone; any other draw takes exactly the order step. */
  lemma ConflictStep(cfg: Bconfig, counter: int, draw: int)
    requires ParseDistribution(cfg.Distribution) == Some(Conflict)
    ensures draw < cfg.Conflicts ==> NextKey(cfg, counter, draw) == Ok(Step(0, counter))
    ensures draw >= cfg.Conflicts ==> NextKey(cfg, counter, draw) == OrderStep(counter, cfg.K, cfg.Min)
  {
  }

  /** Bounds of the generated key by mode, for a non-empty key space and a
      counter in its cycle: order keys and uniform keys (from a draw of
      rand.Intn(K)) lie in [Min, Min+K), conflict keys there or at the hot key 0,
      normal keys in [0, K]. */
  lemma NextKeyBounds(cfg: Bconfig, counter: int, draw: int)
    requires cfg.K > 0 && CounterInCycle(counter, cfg.K)
    ensures var d := ParseDistribution(cfg.Distribution);
            var r := NextKey(cfg, counter, draw);
            && (d == Some(Order) ==> r.Ok? && cfg.Min <= r.value.key < cfg.Min + cfg.K)
            && (d == Some(Uniform) && 0 <= draw < cfg.K ==> r.Ok? && cfg.Min <= r.value.key < cfg.Min + cfg.K)
            && (d == Some(Conflict) ==> r.Ok? && (r.value.key == 0 || cfg.Min <= r.value.key < cfg.Min + cfg.K))
            && (d == Some(Normal) ==> r.Ok? && 0 <= r.value.key <= cfg.K)
  {
    OrderStepCycles(counter, cfg.K, cfg.Min);
    FoldRefReduces(draw, cfg.K);
  }

  /** An unrecognised distribution name stops the process, whatever the state. */
  lemma UnknownNameIsFatal(cfg: Bconfig, counter: int, draw: int)
    requires ParseDistribution(cfg.Distribution) == None
    ensures NextKey(cfg, counter, draw) == Err(UnknownDistribution(cfg.Distribution))
  {
  }
}
