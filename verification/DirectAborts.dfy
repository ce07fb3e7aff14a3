// Which error an aborted direct run returns: each one is that of an event which happened, and a host
// that ends before the result is assembled always aborts the run.
module DirectAborts {
  import opened Engine
  import opened DirectMachine
  import opened DirectInvariant
  import opened DirectProofs

  // ----- the errors of events -----

  predicate StepCauses(run: Context, what: LocalAction, e: EngineError) {
    match what
    case FailResolve(err) => e == err
    case FailTest(f) => ConnectorCauses(run, f, ConnectFailed, e)
    case FailQuery(f) => ConnectorCauses(run, f, QueryFailed, e)
    case FailCursor(f) => ConnectorCauses(run, f, QueryFailed, e)
    case PanicInTest => e == EngineError(Internal, StepPanicked)
    case Panic => e == EngineError(Internal, StepPanicked)
    case StopAtGuard => run.Done? && Ended(run.cause, e)
    case StopBeforeQuery => run.Done? && Ended(run.cause, e)
    case StopOnCancel => run.Done? && Ended(run.cause, e)
    case _ => false
  }

  /** A step's rows that cannot be marshalled, or sizes that exceed the limit with this step. */
  predicate SizeCauses(job: Job, s: State, i: nat, e: EngineError) {
    && i < |job.tasks| && job.maxBytes > 0
    && match job.tasks[i].size
       case None => e == EngineError(Internal, SerializeFailed)
       case Some(size) => s.running + size > job.maxBytes && e == EngineError(LimitExceeded, ResultTooLarge)
  }

  /** A payload that cannot be marshalled or exceeds the limit. */
  predicate PayloadCauses(job: Job, s: State, e: EngineError) {
    match Assembled(job, s.results)
    case None => e == EngineError(Internal, SerializeFailed)
    case Some(d) => 0 < job.maxBytes < |d.payload| && e == EngineError(LimitExceeded, ResultTooLarge)
  }

  /** The event fails the run with this error. */
  predicate Causes(job: Job, s: State, a: Action, e: EngineError) {
    match a
    case StepDoes(_, what) => StepCauses(s.run, what, e)
    case Measure(i) => SizeCauses(job, s, i, e)
    case Assemble => PayloadCauses(job, s, e)
    case EndHost(why) => Ended(why, e)
    case _ => false
  }

  ghost predicate Caused(job: Job, states: seq<State>, actions: seq<Action>, e: EngineError, k: nat) {
    exists j: nat :: j < k <= |actions| && j < |states| && Causes(job, states[j], actions[j], e)
  }

  // ----- every error is that of an event -----

  lemma LocalCauses(run: Context, st: Step, what: LocalAction)
    requires LocalEnabled(run, st, what)
    ensures var t := LocalApply(run, st, what);
            t.result.Failed? ==> t.result == st.result || StepCauses(run, what, t.result.err)
  {
  }

  predicate HeldBySteps(steps: seq<Step>, known: iset<EngineError>) {
    forall i | 0 <= i < |steps| :: steps[i].result.Failed? ==> steps[i].result.err in known
  }

  /** Every error a state holds is known. */
  predicate AllKnown(s: State, known: iset<EngineError>) {
    && HeldBySteps(s.steps, known)
    && (s.first.Some? ==> s.first.value in known)
    && (s.host.Done? ==> CauseError(s.host.cause) in known)
    && (s.main.Returned? && s.main.result.Aborted? ==> s.main.result.err in known)
  }

  lemma MeasureKeepsKnown(job: Job, s: State, i: nat, known: iset<EngineError>)
    requires Shaped(job, s) && i < |s.steps| && AllKnown(s, known)
    requires forall e | SizeCauses(job, s, i, e) :: e in known
    ensures AllKnown(ApplyMeasure(job, s, i), known)
  {
    var t := ApplyMeasure(job, s, i).steps[i];
    assert t.result.Failed? ==> SizeCauses(job, s, i, t.result.err);
  }

  lemma ActionKeepsKnown(job: Job, s: State, a: Action, known: iset<EngineError>)
    requires Shaped(job, s) && Enabled(job, s, a) && AllKnown(s, known)
    requires forall e | Causes(job, s, a, e) :: e in known
    ensures AllKnown(Apply(job, s, a), known)
  {
    match a
    case StepDoes(i, what) => LocalCauses(s.run, s.steps[i], what);
    case Measure(i) =>
      assert forall e | SizeCauses(job, s, i, e) :: Causes(job, s, a, e);
      MeasureKeepsKnown(job, s, i, known);
    case Assemble =>
      var r := AssembleResult(job, s);
      assert s.host.Live? && r.Aborted? ==> Causes(job, s, a, r.err);
    case EndHost(why) => assert Causes(job, s, a, CauseError(why));
    case _ =>
  }

  ghost function CausedBefore(job: Job, states: seq<State>, actions: seq<Action>, k: nat): iset<EngineError> {
    iset e | Caused(job, states, actions, e, k)
  }

  lemma CausesGrow(job: Job, states: seq<State>, actions: seq<Action>, k: nat)
    requires k < |actions| < |states|
    ensures CausedBefore(job, states, actions, k) <= CausedBefore(job, states, actions, k + 1)
    ensures forall e | Causes(job, states[k], actions[k], e) :: e in CausedBefore(job, states, actions, k + 1)
  {
  }

  lemma KnownGrows(s: State, known: iset<EngineError>, more: iset<EngineError>)
    requires AllKnown(s, known) && known <= more
    ensures AllKnown(s, more)
  {
  }

  lemma {:induction false} RunCauses(job: Job, states: seq<State>, actions: seq<Action>, k: nat)
    requires Run(job, states, actions) && k < |states|
    ensures AllKnown(states[k], CausedBefore(job, states, actions, k))
  {
    if k > 0 {
      RunCauses(job, states, actions, k - 1);
      var before, after := CausedBefore(job, states, actions, k - 1), CausedBefore(job, states, actions, k);
      CausesGrow(job, states, actions, k - 1);
      KnownGrows(states[k - 1], before, after);
      ActionKeepsKnown(job, states[k - 1], actions[k - 1], after);
    }
  }

  /** Whatever error a run returns is the one of something that happened in it. */
  lemma AbortHasCause(job: Job, states: seq<State>, actions: seq<Action>, k: nat, e: EngineError)
    requires Run(job, states, actions) && k < |states| && states[k].main == Returned(Aborted(e))
    ensures Caused(job, states, actions, e, k)
  {
    RunCauses(job, states, actions, k);
  }

  // ----- the host's end -----

  ghost predicate HostEndedBefore(actions: seq<Action>, why: Cause, k: nat) {
    exists j: nat :: j < k <= |actions| && actions[j] == EndHost(why)
  }

  lemma HostEndStep(actions: seq<Action>, why: Cause, k: nat)
    requires 0 < k <= |actions|
    ensures HostEndedBefore(actions, why, k) <==>
            HostEndedBefore(actions, why, k - 1) || actions[k - 1] == EndHost(why)
  {
  }

  lemma HostStep(job: Job, s: State, a: Action)
    requires Shaped(job, s) && Enabled(job, s, a)
    ensures Apply(job, s, a).host == if a.EndHost? then Done(a.why) else s.host
    ensures a.EndHost? ==> s.host.Live?
  {
  }

  /** The host context is what the host made of it. */
  lemma {:induction false} HostFollowsEvents(job: Job, states: seq<State>, actions: seq<Action>, why: Cause, k: nat)
    requires Run(job, states, actions) && k < |states|
    ensures states[k].host == Done(why) <==> HostEndedBefore(actions, why, k)
    decreases k
  {
    if k > 0 {
      HostFollowsEvents(job, states, actions, CancelCause, k - 1);
      HostFollowsEvents(job, states, actions, DeadlineCause, k - 1);
      HostStep(job, states[k - 1], actions[k - 1]);
      HostEndStep(actions, why, k);
    }
  }

  /** Once the host has ended with no step failed, the run cannot return anything but that end. */
  predicate EndPending(s: State, why: Cause) {
    && s.host == Done(why)
    && (s.main.Returned? ==> s.main.result.Aborted? && (s.first.None? ==> s.main.result.err == CauseError(why)))
  }

  lemma ActionKeepsEnd(job: Job, s: State, a: Action, why: Cause)
    requires Shaped(job, s) && MainInv(job, s) && Enabled(job, s, a)
    requires (!s.main.Returned? && a == EndHost(why)) || EndPending(s, why)
    ensures EndPending(Apply(job, s, a), why)
  {
    HostStep(job, s, a);
    if a.Join? {
      assert JoinError(s).Some? && s.first.None? ==> JoinError(s).value == CauseError(why);
    }
    assert s.main.Returned? ==> AllFinished(s) && Apply(job, s, a).first == s.first;
  }

  /** The assembled result is delivered exactly when it can be marshalled, fits, and the host had not ended. */
  lemma DeliversExactly(job: Job, states: seq<State>, actions: seq<Action>, c: nat)
    requires Run(job, states, actions) && c < |actions| && actions[c].Assemble?
    ensures states[c + 1].main.Returned?
    ensures states[c + 1].main.result.Delivered? <==>
            && (forall why :: !HostEndedBefore(actions, why, c))
            && (forall e :: !PayloadCauses(job, states[c], e))
  {
    var s := states[c];
    forall why
      ensures s.host == Done(why) <==> HostEndedBefore(actions, why, c)
    {
      HostFollowsEvents(job, states, actions, why, c);
    }
    assert s.host.Done? ==> HostEndedBefore(actions, s.host.cause, c);
    var r := AssembleResult(job, s);
    assert s.host.Live? && r.Aborted? ==> PayloadCauses(job, s, r.err);
  }

  /**
   * A host that ends before the caller returns aborts the run: whatever the steps did, nothing is
   * delivered, and if no step failed the error is the category of what ended it.
   */
  lemma {:induction false} HostEndAborts(job: Job, states: seq<State>, actions: seq<Action>, j: nat, k: nat)
    requires Run(job, states, actions) && j < k < |states| && actions[j].EndHost? && !states[j].main.Returned?
    ensures states[k].main.Returned? ==> states[k].main.result.Aborted?
    ensures states[k].main.Returned? && states[k].first.None? ==>
              states[k].main.result.err == match actions[j].why
                                           case CancelCause => EngineError(Canceled, ExecutionCanceled)
                                           case DeadlineCause => EngineError(Timeout, DeadlineExceeded)
  {
    EndStays(job, states, actions, j, k);
  }

  lemma {:induction false} EndStays(job: Job, states: seq<State>, actions: seq<Action>, j: nat, k: nat)
    requires Run(job, states, actions) && j < k < |states| && actions[j].EndHost? && !states[j].main.Returned?
    ensures EndPending(states[k], actions[j].why)
  {
    if k > j + 1 {
      EndStays(job, states, actions, j, k - 1);
    }
    RunKeepsInv(job, states, actions, k - 1);
    ActionKeepsEnd(job, states[k - 1], actions[k - 1], actions[j].why);
  }

  // ----- after a cancel -----

  lemma RunStep(job: Job, s: State, a: Action)
    requires Shaped(job, s) && Enabled(job, s, a) && s.run.Done?
    ensures Apply(job, s, a).run == s.run
  {
  }

  /** A step that has no connector, and will not get one. */
  predicate Unbuilt(st: Step) {
    st.built == 0 && (st.phase.Parked? || st.phase.Entered? || st.result.Failed?) && !Working(st.phase)
  }

  /** A step that has not sent its query, and will not. */
  predicate Unqueried(st: Step) {
    st.result.Failed? || st.phase.Parked? || st.phase.Entered? || st.phase.Resolving? || st.phase.Testing?
    || st.phase.Connected?
  }

  /** A step that has not read all its rows, or has failed. */
  predicate Unfinished(st: Step) {
    st.result.Failed? || st.result.Unset?
  }

  lemma LocalAfterCancel(limited: bool, run: Context, st: Step, what: LocalAction)
    requires StepInv(limited, st) && LocalEnabled(run, st, what) && run.Done?
    ensures Unbuilt(st) ==> Unbuilt(LocalApply(run, st, what))
    ensures Unqueried(st) ==> Unqueried(LocalApply(run, st, what))
    ensures Unfinished(st) ==> Unfinished(LocalApply(run, st, what))
  {
  }

  lemma ActionAfterCancel(job: Job, s: State, a: Action, i: nat)
    requires Inv(job, s) && Enabled(job, s, a) && s.run.Done? && i < |s.steps|
    ensures i < |Apply(job, s, a).steps|
    ensures Unbuilt(s.steps[i]) ==> Unbuilt(Apply(job, s, a).steps[i])
    ensures Unqueried(s.steps[i]) ==> Unqueried(Apply(job, s, a).steps[i])
    ensures Unfinished(s.steps[i]) ==> Unfinished(Apply(job, s, a).steps[i])
  {
    assert StepAt(job, s.steps, i);
    if a.StepDoes? && a.step == i {
      LocalAfterCancel(job.maxBytes > 0, s.run, s.steps[i], a.what);
    }
  }

  /**
   * Once the run has ended, a step that had not passed its guard never builds a connector, one that had
   * not sent its query never does, and one that had not read all its rows never succeeds.
   */
  lemma AfterCancel(job: Job, states: seq<State>, actions: seq<Action>, j: nat, k: nat, i: nat)
    requires Run(job, states, actions) && j <= k < |states| && states[j].run.Done? && i < |states[j].steps|
    ensures states[k].run == states[j].run && i < |states[k].steps|
    ensures states[j].steps[i].phase.Parked? || states[j].steps[i].phase.Entered? ==> states[k].steps[i].built == 0
    ensures states[j].steps[i].phase.Connected? ==>
              !states[k].steps[i].phase.Querying? && !states[k].steps[i].phase.Draining?
    ensures states[j].steps[i].result.Unset? ==> !states[k].steps[i].result.Ok?
  {
    StaysCancelled(job, states, actions, j, k, i);
    RunKeepsInv(job, states, actions, j);
    RunKeepsInv(job, states, actions, k);
    assert StepAt(job, states[j].steps, i) && StepAt(job, states[k].steps, i);
  }

  lemma {:induction false} StaysCancelled(job: Job, states: seq<State>, actions: seq<Action>, j: nat, k: nat, i: nat)
    requires Run(job, states, actions) && j <= k < |states| && states[j].run.Done? && i < |states[j].steps|
    ensures states[k].run == states[j].run && i < |states[k].steps|
    ensures Unbuilt(states[j].steps[i]) ==> Unbuilt(states[k].steps[i])
    ensures Unqueried(states[j].steps[i]) ==> Unqueried(states[k].steps[i])
    ensures Unfinished(states[j].steps[i]) ==> Unfinished(states[k].steps[i])
  {
    if j < k {
      StaysCancelled(job, states, actions, j, k - 1, i);
      RunKeepsInv(job, states, actions, k - 1);
      RunStep(job, states[k - 1], actions[k - 1]);
      ActionAfterCancel(job, states[k - 1], actions[k - 1], i);
    }
  }
}
