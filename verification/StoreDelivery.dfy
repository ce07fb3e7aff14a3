// What the store pipeline delivers: the serial output, finalised once, or nothing.
module StoreDelivery {
  import opened Engine
  import opened Lines
  import opened StoreMachine
  import opened StoreInvariant

  function FullOutput(job: Job): Bytes {
    Output(job.steps, |job.steps|)
  }

  function FullRows(job: Job): nat {
    RowTotal(job.steps, |job.steps|)
  }

  /** Every step finished with every row of its cursor encoded. */
  predicate AllOk(job: Job, s: State)
    requires Shaped(job, s)
  {
    forall i | 0 <= i < |s.steps| ::
      s.steps[i].phase.Finished? && s.steps[i].result == Ok(|job.steps[i].lines|)
      && AllEncodable(job.steps[i].lines)
  }

  /** A finished step without error handed over all its rows once its channel is empty. */
  lemma OkStepDrained(spec: Work, st: Step)
    requires StepInv(spec, st) && st.result.Ok? && st.queue == []
    ensures st.drained == |spec.lines| == st.result.count && AllEncodable(spec.lines)
    ensures DrainedBytes(spec, st.drained) == Concat(spec.lines)
  {
    assert spec.lines[..|spec.lines|] == spec.lines;
  }

  lemma {:induction false} GatherAll(specs: seq<Work>, steps: seq<Step>, k: nat)
    requires k <= |specs| && StepsInv(specs, steps)
    requires forall i | 0 <= i < k :: steps[i].result.Ok? && steps[i].queue == []
    ensures Gather(specs, steps, k) == Output(specs, k)
    ensures GatherRows(steps, k) == RowTotal(specs, k)
  {
    if k > 0 {
      GatherAll(specs, steps, k - 1);
      assert StepAt(specs, steps, k - 1);
      OkStepDrained(specs[k - 1], steps[k - 1]);
    }
  }

  lemma FinishedWithoutError(job: Job, s: State)
    requires Inv(job, s) && AllFinished(s) && s.first.None?
    ensures AllOk(job, s)
  {
    forall i | 0 <= i < |s.steps|
      ensures s.steps[i].phase.Finished? && s.steps[i].result == Ok(|job.steps[i].lines|)
              && AllEncodable(job.steps[i].lines)
    {
      assert StepAt(job.steps, s.steps, i) && RecordAt(s.steps, s.first, s.rowCounts, i);
      assert job.steps[i].lines[..|job.steps[i].lines|] == job.steps[i].lines;
    }
  }

  /** With the writer done and no step error, what was written is the serial output. */
  lemma SuccessIsSerialOutput(job: Job, s: State)
    requires Inv(job, s) && AllFinished(s) && s.first.None? && WriterSucceeded(s.writer)
    ensures s.writer.written == FullOutput(job) && s.writer.rows == FullRows(job)
    ensures s.writer.outcome.value == Success(job.digest(FullOutput(job)), FullRows(job), |FullOutput(job)|)
    ensures !job.OverLimit(|FullOutput(job)|)
  {
    FinishedWithoutError(job, s);
    GatherAll(job.steps, s.steps, |s.steps|);
  }

  function LineCounts(steps: seq<Work>): (r: seq<nat>)
    ensures |r| == |steps|
  {
    seq(|steps|, i requires 0 <= i < |steps| => |steps[i].lines|)
  }

  lemma CountsAreRowCounts(job: Job, s: State)
    requires Inv(job, s) && AllFinished(s) && s.first.None?
    ensures s.rowCounts == LineCounts(job.steps)
  {
    FinishedWithoutError(job, s);
    forall i | 0 <= i < |s.rowCounts|
      ensures s.rowCounts[i] == |job.steps[i].lines|
    {
      assert RecordAt(s.steps, s.first, s.rowCounts, i);
    }
  }

  /** The reference a run must return for what the sink's Close reported. */
  function ExpectedResult(job: Job, sink: SinkReference): RunResult {
    if !sink.protectionValid then Aborted(EngineError(Validation, ProtectionInvalid))
    else Delivered(Delivery(
                     if sink.integrity.Some? then sink.integrity.value else job.digest(FullOutput(job)),
                     FullRows(job),
                     if sink.sizeBytes == 0 then |FullOutput(job)| else sink.sizeBytes,
                     SumRowCounts(job.steps, LineCounts(job.steps))))
  }

  predicate IsClose(a: Action) {
    a.CloseSink? || a.FailClose?
  }

  /**
   * Whenever a run calls the sink's Close, every step has finished without error, the bytes
   * written are those of a serial run within the limit, and the result returned describes
   * exactly these bytes: independent of schedule and of how the rows were batched.
   */
  lemma CloseMeansWholeOutput(job: Job, states: seq<State>, actions: seq<Action>, k: nat)
    requires Run(job, states, actions) && k < |actions| && IsClose(actions[k])
    ensures Shaped(job, states[k]) && AllOk(job, states[k]) && states[k].first.None?
    ensures states[k].writer.written == states[k].writer.hashed == FullOutput(job)
    ensures job.maxBytes > 0 ==> |FullOutput(job)| <= job.maxBytes
    ensures actions[k].CloseSink? ==> states[k + 1].main == Returned(ExpectedResult(job, actions[k].reference))
  {
    var s := states[k];
    RunKeepsInv(job, states, actions, k);
    assert s.main.Finalising?;
    FinishedWithoutError(job, s);
    SuccessIsSerialOutput(job, s);
    CountsAreRowCounts(job, s);
  }

  lemma {:induction false} CloseCallsCounted(job: Job, states: seq<State>, actions: seq<Action>, j: nat, k: nat)
    requires Run(job, states, actions) && j < k < |states| && IsClose(actions[j])
    ensures states[k].closeCalls >= 1
  {
    if k > j + 1 {
      CloseCallsCounted(job, states, actions, j, k - 1);
    }
  }

  /** Close is called at most once in a run. */
  lemma CloseOnlyOnce(job: Job, states: seq<State>, actions: seq<Action>, j: nat, k: nat)
    requires Run(job, states, actions) && j < k < |actions| && IsClose(actions[j])
    ensures !IsClose(actions[k])
  {
    CloseCallsCounted(job, states, actions, j, k);
    RunKeepsInv(job, states, actions, k);
  }

  /** A failed write, a tripped limit, or a step that records its failure. */
  predicate IsFailure(s: State, a: Action) {
    a.FailWrite? || a.TripLimit? || (a.Record? && a.who < |s.steps| && s.steps[a.who].result.Failed?)
  }

  predicate Marked(s: State) {
    WriterFailed(s.writer) || s.first.Some?
  }

  lemma FailureMarks(job: Job, s: State, a: Action)
    requires Shaped(job, s) && Enabled(job, s, a)
    ensures IsFailure(s, a) || Marked(s) ==> Marked(Apply(job, s, a))
  {
  }

  lemma {:induction false} FailureStays(job: Job, states: seq<State>, actions: seq<Action>, j: nat, k: nat)
    requires Run(job, states, actions) && j < k < |states| && IsFailure(states[j], actions[j])
    ensures Marked(states[k])
  {
    if k > j + 1 {
      FailureStays(job, states, actions, j, k - 1);
    }
    FailureMarks(job, states[k - 1], actions[k - 1]);
  }

  /** Close is never called after a failed step, a failed write or a tripped limit. */
  lemma NoCloseAfterFailure(job: Job, states: seq<State>, actions: seq<Action>, j: nat, k: nat)
    requires Run(job, states, actions) && j < k < |actions| && IsFailure(states[j], actions[j])
    ensures !IsClose(actions[k])
  {
    FailureStays(job, states, actions, j, k);
    RunKeepsInv(job, states, actions, k);
  }

  ghost predicate ClosedAs(job: Job, actions: seq<Action>, r: RunResult, k: nat) {
    exists j :: 0 <= j < k <= |actions| && actions[j].CloseSink? && r == ExpectedResult(job, actions[j].reference)
  }

  /** A result is delivered only through a Close that the sink accepted. */
  lemma {:induction false} DeliveredThroughClose(job: Job, states: seq<State>, actions: seq<Action>, k: nat)
    requires Run(job, states, actions) && k < |states|
    requires states[k].main.Returned? && states[k].main.result.Delivered?
    ensures ClosedAs(job, actions, states[k].main.result, k)
  {
    if actions[k - 1].CloseSink? {
      CloseMeansWholeOutput(job, states, actions, k - 1);
    } else {
      DeliveredThroughClose(job, states, actions, k - 1);
    }
  }

  // ----- the size limit -----

  lemma {:induction false} PrefixNoLonger(lines: seq<Line>, n: nat)
    requires n <= |lines|
    ensures |Concat(lines[..n])| <= |Concat(lines)|
  {
    ConcatSplit(lines, 0, n, |lines|);
    assert lines[0..n] == lines[..n] && lines[0..|lines|] == lines;
  }

  lemma {:induction false} GatherNoLonger(specs: seq<Work>, steps: seq<Step>, k: nat)
    requires k <= |specs| == |steps|
    ensures |Gather(specs, steps, k)| <= |Output(specs, k)|
  {
    if k > 0 {
      GatherNoLonger(specs, steps, k - 1);
      if steps[k - 1].drained <= |specs[k - 1].lines| {
        PrefixNoLonger(specs[k - 1].lines, steps[k - 1].drained);
      }
    }
  }

  lemma {:induction false} OutputMonotone(specs: seq<Work>, j: nat, k: nat)
    requires j <= k <= |specs|
    ensures Output(specs, j) <= Output(specs, k)
  {
    if j < k {
      OutputMonotone(specs, j, k - 1);
    }
  }

  /** A size-limit failure is never spurious: the whole output really is over the limit. */
  lemma LimitErrorIsReal(job: Job, states: seq<State>, actions: seq<Action>, k: nat)
    requires Run(job, states, actions) && k < |states|
    requires states[k].writer.outcome == Some(WriteFailed(EngineError(LimitExceeded, ResultTooLarge)))
    ensures 0 < job.maxBytes < |FullOutput(job)|
  {
    var s := states[k];
    RunKeepsInv(job, states, actions, k);
    var r := Reach(s.writer.ordinal, |s.steps|);
    GatherNoLonger(job.steps, s.steps, r);
    OutputMonotone(job.steps, r, |job.steps|);
  }
}
