/** The per-key outcome logic of Benchmark.worker, as a specification over one
    worker's sequence of keys. The environment of each iteration is explicit:
    the value of rand.Float64(), whether db.Write returns an error, and the two
    readings of the clock (nanoseconds). Times are exact integers. */
module Workers {
  import opened GoRuntime
  import opened Submissions

  /** The environment of one loop iteration of worker. */
  datatype Iteration = Iteration(u: real, writeFails: bool, s: int, e: int)

  /** The start and end of an operation, relative to the benchmark's start time;
      an end of MaxInt64 marks an operation that did not complete. */
  datatype Operation = Operation(start: int, end: int)

  /** What a worker does over its keys: the operations it records, the latencies
      it sends to the collector, the (key, sequence number) pairs it passes to
      db.Write, how many errors it logs, and whether `err` is non-nil at the end. */
  datatype Trace = Trace(ops: seq<Operation>, emitted: seq<int>, writes: seq<Submission>,
                         errorsLogged: nat, failed: bool)

  /** The trace of `prefix` followed by the trace of `rest`. */
  function Then(prefix: Trace, rest: Trace): (t: Trace)
    ensures |t.ops| == |prefix.ops| + |rest.ops| && t.failed == rest.failed
  {
    Trace(prefix.ops + rest.ops, prefix.emitted + rest.emitted, prefix.writes + rest.writes,
          prefix.errorsLogged + rest.errorsLogged, rest.failed)
  }

  /** Specification of worker's loop over `keys`, starting from a given value
      of `err` (`failed`), as the trace of all iterations but the last followed
      by the last one. */
  function WorkerSpec(w: real, startTime: int, failed: bool, keys: seq<int>, seqNums: seq<int>,
                      its: seq<Iteration>): (t: Trace)
    requires |its| == |keys| && |seqNums| >= |keys|
    // every key yields one operation, and either one latency or one logged error
    ensures |t.ops| == |keys| && |t.emitted| + t.errorsLogged == |keys|
    // at most one sequence number is taken per key
    ensures |t.writes| <= |keys|
    decreases |keys|
  {
    if keys == [] then Trace([], [], [], 0, failed)
    else
      var n := |keys| - 1;
      var p := WorkerSpec(w, startTime, failed, keys[..n], seqNums, its[..n]);
      Then(p, StepTrace(w, startTime, p.failed, keys[n], seqNums[|p.writes|], its[n]))
  }

  /** One iteration, with `err` at `failed` on entry: write when u < W, with
      the next sequence number `seqNum`, and reassign `err` to the write's
      result; `err` is left alone otherwise. With err == nil the operation ends
      at e and the latency e - s is emitted; otherwise its end is MaxInt64 and
      the error is logged. */
  function StepTrace(w: real, startTime: int, failed: bool, key: int, seqNum: int, it: Iteration): (t: Trace)
    ensures |t.ops| == 1 && |t.emitted| + t.errorsLogged == 1 && |t.writes| <= 1
  {
    var writes := it.u < w;
    var err := if writes then it.writeFails else failed;
    var op := Operation(it.s - startTime, if err then MaxInt64 else it.e - startTime);
    Trace([op], if err then [] else [it.e - it.s],
          if writes then [Submission(key, seqNum)] else [],
          if err then 1 else 0, err)
  }

  /** The specification of the first i + 1 iterations is that of the first i
      followed by iteration i. */
  lemma WorkerSpecExtend(w: real, startTime: int, failed: bool, keys: seq<int>, seqNums: seq<int>,
                         its: seq<Iteration>, i: nat)
    requires |its| == |keys| && |seqNums| >= |keys| && i < |keys|
    ensures var p := WorkerSpec(w, startTime, failed, keys[..i], seqNums, its[..i]);
            WorkerSpec(w, startTime, failed, keys[..i + 1], seqNums, its[..i + 1])
            == Then(p, StepTrace(w, startTime, p.failed, keys[i], seqNums[|p.writes|], its[i]))
  {
    assert keys[..i + 1][..i] == keys[..i] && its[..i + 1][..i] == its[..i];
  }

  /** One iteration of worker's loop, with `err` at `failed` on entry: returns
      the recorded operation, the latency sent to the collector (if any), the
      pair written (if any) and the new value of `err`. */
  method WorkerIteration(w: real, startTime: int, failed: bool, key: int, seqNum: int, it: Iteration)
    returns (step: Trace)
    ensures step == StepTrace(w, startTime, failed, key, seqNum, it)
  {
    var err := failed;
    var writes: seq<Submission> := [];
    if it.u < w {
      writes := [Submission(key, seqNum)];
      err := it.writeFails;
    }
    var op := Operation(it.s - startTime, 0);
    if !err {
      op := op.(end := it.e - startTime);
      step := Trace([op], [it.e - it.s], writes, 0, err);
    } else {
      op := op.(end := MaxInt64);
      step := Trace([op], [], writes, 1, err);
    }
  }

  /** worker: processes its keys, receiving a sequence number for each write.
      Of the benchmark it reads only the write ratio W and the start time. */
  method Worker(w: real, startTime: int, keys: seq<int>, seqNums: seq<int>, its: seq<Iteration>) returns (t: Trace)
    requires |its| == |keys| && |seqNums| >= |keys|
    ensures t == WorkerSpec(w, startTime, false, keys, seqNums, its)
  {
    t := Trace([], [], [], 0, false);
    var i := 0;
    while i < |keys|
      invariant 0 <= i <= |keys|
      invariant t == WorkerSpec(w, startTime, false, keys[..i], seqNums, its[..i])
    {
      var step := WorkerIteration(w, startTime, t.failed, keys[i], seqNums[|t.writes|], its[i]);
      var next := Trace(t.ops + step.ops, t.emitted + step.emitted, t.writes + step.writes,
                        t.errorsLogged + step.errorsLogged, step.failed);
      assert next == WorkerSpec(w, startTime, false, keys[..i + 1], seqNums, its[..i + 1]) by {
        WorkerSpecExtend(w, startTime, false, keys, seqNums, its, i);
      }
      t := next;
      i := i + 1;
    }
    assert keys[..i] == keys && its[..i] == its;
  }

  /** When no write fails, a worker that starts with err == nil completes every
      operation: each ends at its e and emits its latency e - s, in order. */
  lemma {:induction false} NoFailedWrites(w: real, startTime: int, keys: seq<int>, seqNums: seq<int>,
                                          its: seq<Iteration>)
    requires |its| == |keys| && |seqNums| >= |keys|
    requires forall i :: 0 <= i < |its| ==> !its[i].writeFails
    ensures var t := WorkerSpec(w, startTime, false, keys, seqNums, its);
            && t.errorsLogged == 0 && !t.failed && |t.emitted| == |keys|
            && forall i :: 0 <= i < |keys| ==>
                 t.ops[i] == Operation(its[i].s - startTime, its[i].e - startTime)
                 && t.emitted[i] == its[i].e - its[i].s
    decreases |keys|
  {
    if keys != [] {
      var n := |keys| - 1;
      NoFailedWrites(w, startTime, keys[..n], seqNums, its[..n]);
      var p := WorkerSpec(w, startTime, false, keys[..n], seqNums, its[..n]);
      var t := WorkerSpec(w, startTime, false, keys, seqNums, its);
      forall i | 0 <= i < n
        ensures t.ops[i] == Operation(its[i].s - startTime, its[i].e - startTime)
        ensures t.emitted[i] == its[i].e - its[i].s
      {
        assert t.ops[i] == p.ops[i] && t.emitted[i] == p.emitted[i] && its[..n][i] == its[i];
      }
    }
  }

  /** When every iteration writes (u < W), the i-th write carries the i-th key
      and the i-th sequence number. */
  lemma {:induction false} WritesPairKeysWithSeqNums(w: real, startTime: int, failed: bool, keys: seq<int>,
                                                     seqNums: seq<int>, its: seq<Iteration>)
    requires |its| == |keys| && |seqNums| >= |keys|
    requires forall i :: 0 <= i < |its| ==> its[i].u < w
    ensures var t := WorkerSpec(w, startTime, failed, keys, seqNums, its);
            && |t.writes| == |keys|
            && forall i :: 0 <= i < |keys| ==> t.writes[i] == Submission(keys[i], seqNums[i])
    decreases |keys|
  {
    if keys != [] {
      var n := |keys| - 1;
      WritesPairKeysWithSeqNums(w, startTime, failed, keys[..n], seqNums, its[..n]);
      var p := WorkerSpec(w, startTime, failed, keys[..n], seqNums, its[..n]);
      var step := StepTrace(w, startTime, p.failed, keys[n], seqNums[n], its[n]);
      assert step.writes == [Submission(keys[n], seqNums[n])];
      var t := WorkerSpec(w, startTime, failed, keys, seqNums, its);
      assert t.writes == p.writes + step.writes;
      forall i | 0 <= i < |keys|
        ensures t.writes[i] == Submission(keys[i], seqNums[i])
      {
        if i < n {
          assert t.writes[i] == p.writes[i] && keys[..n][i] == keys[i];
        }
      }
    }
  }

  /** When every iteration writes, each operation's outcome is that of its own
      write: it ends at e when the write succeeds and at MaxInt64 when it fails. */
  lemma {:induction false} OutcomeFollowsOwnWrite(w: real, startTime: int, failed: bool, keys: seq<int>,
                                                  seqNums: seq<int>, its: seq<Iteration>)
    requires |its| == |keys| && |seqNums| >= |keys|
    requires forall i :: 0 <= i < |its| ==> its[i].u < w
    ensures var t := WorkerSpec(w, startTime, failed, keys, seqNums, its);
            forall i :: 0 <= i < |keys| ==>
              t.ops[i].end == if its[i].writeFails then MaxInt64 else its[i].e - startTime
    decreases |keys|
  {
    if keys != [] {
      var n := |keys| - 1;
      OutcomeFollowsOwnWrite(w, startTime, failed, keys[..n], seqNums, its[..n]);
      var p := WorkerSpec(w, startTime, failed, keys[..n], seqNums, its[..n]);
      var step := StepTrace(w, startTime, p.failed, keys[n], seqNums[|p.writes|], its[n]);
      var t := WorkerSpec(w, startTime, failed, keys, seqNums, its);
      assert t.ops == p.ops + step.ops;
      forall i | 0 <= i < n
        ensures t.ops[i].end == if its[i].writeFails then MaxInt64 else its[i].e - startTime
      {
        assert its[..n][i] == its[i];
        assert t.ops[i] == p.ops[i];
      }
    }
  }

  /** A worker whose writes all fail emits no latency. */
  lemma {:induction false} AllWritesFailEmitNothing(w: real, startTime: int, failed: bool, keys: seq<int>,
                                                    seqNums: seq<int>, its: seq<Iteration>)
    requires |its| == |keys| && |seqNums| >= |keys|
    requires forall i :: 0 <= i < |its| ==> its[i].u < w && its[i].writeFails
    ensures var t := WorkerSpec(w, startTime, failed, keys, seqNums, its);
            t.emitted == [] && t.errorsLogged == |keys|
    decreases |keys|
  {
    if keys != [] {
      var n := |keys| - 1;
      AllWritesFailEmitNothing(w, startTime, failed, keys[..n], seqNums, its[..n]);
    }
  }

  /** `err` persists: after a failed write, iterations that do not write are
      failures as well, recording MaxInt64 and emitting nothing. */
  lemma {:induction false} StickyError(w: real, startTime: int, keys: seq<int>, seqNums: seq<int>,
                                       its: seq<Iteration>)
    requires |its| == |keys| && |seqNums| >= |keys|
    requires forall i :: 0 <= i < |its| ==> its[i].u >= w
    ensures var t := WorkerSpec(w, startTime, true, keys, seqNums, its);
            && t.emitted == [] && t.writes == [] && t.errorsLogged == |keys| && t.failed
            && forall i :: 0 <= i < |keys| ==> t.ops[i].end == MaxInt64
    decreases |keys|
  {
    if keys != [] {
      var n := |keys| - 1;
      StickyError(w, startTime, keys[..n], seqNums, its[..n]);
      var p := WorkerSpec(w, startTime, true, keys[..n], seqNums, its[..n]);
      var t := WorkerSpec(w, startTime, true, keys, seqNums, its);
      forall i | 0 <= i < n ensures t.ops[i].end == MaxInt64 {
        assert t.ops[i] == p.ops[i];
      }
    }
  }

  /** The most recent write at or before iteration i failed: this is when
      `err` is non-nil after iteration i of a worker that started with nil. */
  ghost predicate LatestWriteFails(w: real, its: seq<Iteration>, i: int)
    requires 0 <= i < |its|
  {
    exists j :: 0 <= j <= i && its[j].u < w && its[j].writeFails
                && forall k :: j < k <= i ==> its[k].u >= w
  }

  /** The operations recorded over a worker's first i keys are the first i
      operations recorded over all of them. */
  lemma {:induction false} WorkerSpecPrefix(w: real, startTime: int, failed: bool, keys: seq<int>,
                                            seqNums: seq<int>, its: seq<Iteration>, i: nat)
    requires |its| == |keys| && |seqNums| >= |keys| && i <= |keys|
    ensures WorkerSpec(w, startTime, failed, keys, seqNums, its).ops[..i]
            == WorkerSpec(w, startTime, failed, keys[..i], seqNums, its[..i]).ops
    decreases |keys|
  {
    if i == |keys| {
      assert keys[..i] == keys && its[..i] == its;
    } else {
      var n := |keys| - 1;
      WorkerSpecPrefix(w, startTime, failed, keys[..n], seqNums, its[..n], i);
      assert keys[..n][..i] == keys[..i] && its[..n][..i] == its[..i];
      DropLastKeepsOps(w, startTime, failed, keys, seqNums, its, i);
    }
  }

  /** Dropping the last key leaves the operations recorded before it alone. */
  lemma DropLastKeepsOps(w: real, startTime: int, failed: bool, keys: seq<int>,
                         seqNums: seq<int>, its: seq<Iteration>, i: nat)
    requires |its| == |keys| && |seqNums| >= |keys| && i < |keys|
    ensures WorkerSpec(w, startTime, failed, keys, seqNums, its).ops[..i]
            == WorkerSpec(w, startTime, failed, keys[..|keys| - 1], seqNums, its[..|keys| - 1]).ops[..i]
  {
    var n := |keys| - 1;
    var pn := WorkerSpec(w, startTime, failed, keys[..n], seqNums, its[..n]);
    var step := StepTrace(w, startTime, pn.failed, keys[n], seqNums[|pn.writes|], its[n]);
    assert WorkerSpec(w, startTime, failed, keys, seqNums, its) == Then(pn, step);
    assert (pn.ops + step.ops)[..i] == pn.ops[..i];
  }

  /** How LatestWriteFails moves from one iteration to the next: a write
      decides it by its own outcome, and an iteration without a write keeps
      the previous value (false before the first iteration). */
  lemma LatestWriteStep(w: real, its: seq<Iteration>, i: nat)
    requires i < |its|
    ensures its[i].u < w ==> (LatestWriteFails(w, its, i) <==> its[i].writeFails)
    ensures its[i].u >= w && i == 0 ==> !LatestWriteFails(w, its, i)
    ensures its[i].u >= w && i > 0 ==> (LatestWriteFails(w, its, i) <==> LatestWriteFails(w, its, i - 1))
  {
    if its[i].u < w {
      if its[i].writeFails {
        assert LatestWriteFails(w, its, i);
      }
    } else if i > 0 {
      if LatestWriteFails(w, its, i - 1) {
        var j :| 0 <= j <= i - 1 && its[j].u < w && its[j].writeFails
                 && forall k :: j < k <= i - 1 ==> its[k].u >= w;
        assert forall k :: j < k <= i ==> its[k].u >= w;
      }
      if LatestWriteFails(w, its, i) {
        var j :| 0 <= j <= i && its[j].u < w && its[j].writeFails
                 && forall k :: j < k <= i ==> its[k].u >= w;
        assert j < i;
      }
    }
  }

  /** From err == nil, `err` is non-nil after iteration i exactly when the most
      recent write at or before i failed: a later successful write clears it,
      and iterations that do not write leave it as it was. */
  lemma {:induction false} ErrAfterIteration(w: real, startTime: int, keys: seq<int>, seqNums: seq<int>,
                                             its: seq<Iteration>, i: nat)
    requires |its| == |keys| && |seqNums| >= |keys| && i < |keys|
    ensures WorkerSpec(w, startTime, false, keys[..i + 1], seqNums, its[..i + 1]).failed
            <==> LatestWriteFails(w, its, i)
    decreases i
  {
    WorkerSpecExtend(w, startTime, false, keys, seqNums, its, i);
    LatestWriteStep(w, its, i);
    var p := WorkerSpec(w, startTime, false, keys[..i], seqNums, its[..i]);
    if i == 0 {
      assert keys[..0] == [] && its[..0] == [];
      assert !p.failed;
    } else {
      ErrAfterIteration(w, startTime, keys, seqNums, its, i - 1);
    }
  }

  /** The outcome of iteration i of a worker that starts with err == nil: when
      the most recent write at or before i failed, the operation ends at
      MaxInt64, nothing is emitted and one more error is logged; otherwise it
      ends at e and the latency e - s is emitted after those of earlier
      iterations. */
  lemma OutcomeOfIteration(w: real, startTime: int, keys: seq<int>, seqNums: seq<int>,
                           its: seq<Iteration>, i: nat)
    requires |its| == |keys| && |seqNums| >= |keys| && i < |keys|
    ensures var t := WorkerSpec(w, startTime, false, keys, seqNums, its);
            var before := WorkerSpec(w, startTime, false, keys[..i], seqNums, its[..i]);
            var after := WorkerSpec(w, startTime, false, keys[..i + 1], seqNums, its[..i + 1]);
            && t.ops[i].start == its[i].s - startTime
            && (LatestWriteFails(w, its, i) ==>
                  t.ops[i].end == MaxInt64 && after.emitted == before.emitted
                  && after.errorsLogged == before.errorsLogged + 1)
            && (!LatestWriteFails(w, its, i) ==>
                  t.ops[i].end == its[i].e - startTime && after.emitted == before.emitted + [its[i].e - its[i].s]
                  && after.errorsLogged == before.errorsLogged)
  {
    WorkerSpecExtend(w, startTime, false, keys, seqNums, its, i);
    ErrAfterIteration(w, startTime, keys, seqNums, its, i);
    WorkerSpecPrefix(w, startTime, false, keys, seqNums, its, i + 1);
    var t := WorkerSpec(w, startTime, false, keys, seqNums, its);
    var after := WorkerSpec(w, startTime, false, keys[..i + 1], seqNums, its[..i + 1]);
    assert t.ops[i] == t.ops[..i + 1][i] == after.ops[i];
  }

  /** Starting from err == nil, a worker logs an error exactly when one of the
      writes it makes fails, and ends with err != nil only after logging. */
  lemma {:induction false} ErrorsIffFailedWrite(w: real, startTime: int, keys: seq<int>, seqNums: seq<int>,
                                                its: seq<Iteration>)
    requires |its| == |keys| && |seqNums| >= |keys|
    ensures var t := WorkerSpec(w, startTime, false, keys, seqNums, its);
            && (t.errorsLogged > 0 <==> exists i :: 0 <= i < |its| && its[i].u < w && its[i].writeFails)
            && (t.failed ==> t.errorsLogged > 0)
    decreases |keys|
  {
    if keys != [] {
      var n := |keys| - 1;
      var p := WorkerSpec(w, startTime, false, keys[..n], seqNums, its[..n]);
      assert (p.errorsLogged > 0 <==> exists i :: 0 <= i < n && its[i].u < w && its[i].writeFails)
             && (p.failed ==> p.errorsLogged > 0) by {
        ErrorsIffFailedWrite(w, startTime, keys[..n], seqNums, its[..n]);
        if exists i :: 0 <= i < n && its[..n][i].u < w && its[..n][i].writeFails {
          var i :| 0 <= i < n && its[..n][i].u < w && its[..n][i].writeFails;
          assert its[i] == its[..n][i];
        }
        if exists i :: 0 <= i < n && its[i].u < w && its[i].writeFails {
          var i :| 0 <= i < n && its[i].u < w && its[i].writeFails;
          assert its[..n][i] == its[i];
        }
      }
      assert WorkerSpec(w, startTime, false, keys, seqNums, its)
             == Then(p, StepTrace(w, startTime, p.failed, keys[n], seqNums[|p.writes|], its[n]));
    }
  }
}
