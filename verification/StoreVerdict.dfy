// Which failure a run reports, and that the verdict does not depend on the schedule.
module StoreVerdict {
  import opened Engine
  import opened Lines
  import opened StoreMachine
  import opened StoreInvariant
  import opened StoreDelivery

  // ----- the reported failure is the root cause -----

  /** Connectors and the connection store report a context error only once the context they were given ended. */
  predicate HonestLocal(run: Context, what: LocalAction) {
    match what
    case FailResolve(e) => IsContextError(e) ==> run.Done?
    case FailTest(f) => HonestFailure(run, f)
    case FailQuery(f) => HonestFailure(run, f)
    case FailCursor(f) => HonestFailure(run, f)
    case _ => true
  }

  predicate Honest(s: State, a: Action) {
    a.StepDoes? ==> HonestLocal(s.run, a.what)
  }

  predicate CancelledOnlyLate(run: Context, st: Step) {
    st.result.Failed? && IsContextError(st.result.err) ==> run.Done?
  }

  /** Context errors appear only after the context ended, and are recorded first only if the pool did not cause them. */
  predicate HonestInv(s: State) {
    && (forall i | 0 <= i < |s.steps| :: CancelledOnlyLate(s.run, s.steps[i]))
    && (s.first.Some? && IsContextError(s.first.value) ==> s.write.Done?)
  }

  lemma ActionKeepsHonest(job: Job, s: State, a: Action)
    requires Shaped(job, s) && ContextInv(s.host, s.write, s.run, s.first.Some?, WriterFailed(s.writer))
    requires Enabled(job, s, a) && Honest(s, a) && HonestInv(s)
    ensures HonestInv(Apply(job, s, a))
  {
  }

  ghost predicate HonestRun(job: Job, states: seq<State>, actions: seq<Action>) {
    Run(job, states, actions) && forall k | 0 <= k < |actions| :: Honest(states[k], actions[k])
  }

  lemma {:induction false} HonestRunKeeps(job: Job, states: seq<State>, actions: seq<Action>, k: nat)
    requires HonestRun(job, states, actions) && k < |states|
    ensures HonestInv(states[k])
  {
    if k > 0 {
      HonestRunKeeps(job, states, actions, k - 1);
      RunKeepsInv(job, states, actions, k - 1);
      ActionKeepsHonest(job, states[k - 1], actions[k - 1]);
    }
  }

  /**
   * While the host context lives, a failed run reports the writer's error if the writer
   * failed, else the first recorded step error, else the sink's refusal to close; never a
   * cancellation the pool caused itself.
   */
  lemma RootCauseReported(job: Job, states: seq<State>, actions: seq<Action>, k: nat, e: EngineError)
    requires HonestRun(job, states, actions) && k < |states|
    requires states[k].main == Returned(Aborted(e)) && states[k].host.Live?
    ensures !IsContextError(e)
    ensures WriterFailed(states[k].writer) ==> e == states[k].writer.outcome.value.err
    ensures !WriterFailed(states[k].writer) && states[k].first.Some? ==>
              exists j: nat :: FirstFrom(states, actions, Some(e), j, k)
    ensures !WriterFailed(states[k].writer) && states[k].first.None? ==> states[k].closeCalls == 1
  {
    RunKeepsInv(job, states, actions, k);
    HonestRunKeeps(job, states, actions, k);
    FirstIsEarliest(job, states, actions, k);
  }

  predicate FailingRecord(s: State, a: Action) {
    a.Record? && a.who < |s.steps| && s.steps[a.who].result.Failed?
  }

  /** The earliest failing record before position k, if any, is at j. */
  ghost predicate EarliestRecord(states: seq<State>, actions: seq<Action>, j: nat, k: nat) {
    && j < k <= |actions| && |states| == |actions| + 1
    && FailingRecord(states[j], actions[j])
    && forall m | 0 <= m < j :: !FailingRecord(states[m], actions[m])
  }

  /** `first` holds the error recorded at position j. */
  ghost predicate FirstFrom(states: seq<State>, actions: seq<Action>, first: Option<EngineError>, j: nat, k: nat) {
    && EarliestRecord(states, actions, j, k)
    && first == Some(states[j].steps[actions[j].who].result.err)
  }

  /** `first` is the error of the step that recorded its failure earliest, and None if none did. */
  lemma {:induction false} FirstIsEarliest(job: Job, states: seq<State>, actions: seq<Action>, k: nat)
    requires Run(job, states, actions) && k < |states|
    ensures states[k].first.None? ==> forall m | 0 <= m < k :: !FailingRecord(states[m], actions[m])
    ensures states[k].first.Some? ==> exists j: nat :: FirstFrom(states, actions, states[k].first, j, k)
  {
    if k > 0 {
      FirstIsEarliest(job, states, actions, k - 1);
      var s, a := states[k - 1], actions[k - 1];
      if s.first.Some? {
        var j: nat :| FirstFrom(states, actions, s.first, j, k - 1);
        assert FirstFrom(states, actions, states[k].first, j, k);
      } else if FailingRecord(s, a) {
        assert FirstFrom(states, actions, states[k].first, k - 1, k);
      }
    }
  }

  // ----- without outside failures the verdict is fixed by the plan -----

  predicate BenignLocal(what: LocalAction) {
    !what.FailResolve? && !what.FailTest? && !what.PanicInTest? && !what.FailQuery? && !what.FailCursor? && !what.Panic?
  }

  /** Nothing outside the engine fails: no connector, sink or host event. */
  predicate Benign(a: Action) {
    match a
    case StepDoes(_, what) => BenignLocal(what)
    case FailWrite => false
    case FailClose => false
    case CloseSink(sink) => sink.protectionValid
    case EndHost(_) => false
    case _ => true
  }

  predicate LimitTripped(w: Writer) {
    w.outcome == Some(WriteFailed(LIMIT_ERROR))
  }

  predicate BenignInv(s: State) {
    && (s.run.Done? ==> LimitTripped(s.writer))
    && (WriterFailed(s.writer) ==> LimitTripped(s.writer))
    && (forall i | 0 <= i < |s.steps| :: s.steps[i].result.Failed? ==> s.run.Done?)
    && (s.main.Returned? && s.main.result.Aborted? ==> LimitTripped(s.writer))
  }

  lemma LocalKeepsBenign(spec: Work, gateOpen: bool, run: Context, st: Step, what: LocalAction)
    requires LocalEnabled(spec, gateOpen, run, st, what) && BenignLocal(what) && AllEncodable(spec.lines)
    requires st.result.Failed? ==> run.Done?
    ensures LocalApply(spec, gateOpen, run, st, what).result.Failed? ==> run.Done?
  {
  }

  lemma ActionKeepsBenign(job: Job, s: State, a: Action)
    requires Inv(job, s) && Enabled(job, s, a) && Benign(a) && BenignInv(s)
    requires forall i | 0 <= i < |job.steps| :: AllEncodable(job.steps[i].lines)
    ensures BenignInv(Apply(job, s, a))
  {
    if a.StepDoes? {
      LocalKeepsBenign(job.steps[a.step], GateOpen(job, s, a.step), s.run, s.steps[a.step], a.what);
    }
  }

  lemma {:induction false} BenignRunKeeps(job: Job, states: seq<State>, actions: seq<Action>, k: nat)
    requires Run(job, states, actions) && k < |states|
    requires forall j | 0 <= j < |actions| :: Benign(actions[j])
    requires forall i | 0 <= i < |job.steps| :: AllEncodable(job.steps[i].lines)
    ensures BenignInv(states[k])
  {
    if k > 0 {
      BenignRunKeeps(job, states, actions, k - 1);
      RunKeepsInv(job, states, actions, k - 1);
      ActionKeepsBenign(job, states[k - 1], actions[k - 1]);
    }
  }

  /**
   * Without outside failures every schedule gives the same verdict: the size-limit error
   * exactly when the full output is over the limit, and otherwise a delivered result.
   */
  lemma VerdictIndependentOfSchedule(job: Job, states: seq<State>, actions: seq<Action>, k: nat)
    requires Run(job, states, actions) && k < |states| && Terminal(states[k])
    requires forall j | 0 <= j < |actions| :: Benign(actions[j])
    requires forall i | 0 <= i < |job.steps| :: AllEncodable(job.steps[i].lines)
    ensures if 0 < job.maxBytes < |FullOutput(job)|
            then states[k].main.result == Aborted(EngineError(LimitExceeded, ResultTooLarge))
            else states[k].main.result.Delivered?
  {
    var s := states[k];
    BenignRunKeeps(job, states, actions, k);
    RunKeepsInv(job, states, actions, k);
    if s.main.result.Aborted? {
      LimitErrorIsReal(job, states, actions, k);
    } else {
      SuccessIsSerialOutput(job, s);
    }
  }
}
