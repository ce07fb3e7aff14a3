// Which error an aborted store run returns: each one is that of an event which happened, and a host
// that ends before the outcome is collected always aborts the run.
module StoreAborts {
  import opened Engine
  import opened Lines
  import opened StoreMachine
  import opened StoreInvariant
  import opened StoreDelivery

  // ----- the errors of events -----

  predicate StepCauses(run: Context, what: LocalAction, e: EngineError) {
    match what
    case FailResolve(err) => e == err
    case FailTest(f) => ConnectorCauses(run, f, ConnectFailed, e)
    case FailQuery(f) => ConnectorCauses(run, f, QueryFailed, e)
    case FailCursor(f) => ConnectorCauses(run, f, QueryFailed, e)
    case PanicInTest => e == EngineError(Internal, StepPanicked)
    case Panic => e == EngineError(Internal, StepPanicked)
    case FailMarshal => e == EngineError(Internal, SerializeFailed)
    case StopAtGuard => run.Done? && Ended(run.cause, e)
    case StopOnCancel => run.Done? && Ended(run.cause, e)
    case CancelSend => run.Done? && Ended(run.cause, e)
    case _ => false
  }

  /** The event fails the run with this error. */
  predicate Causes(s: State, a: Action, e: EngineError) {
    match a
    case StepDoes(_, what) => StepCauses(s.run, what, e)
    case TripLimit => e == EngineError(LimitExceeded, ResultTooLarge)
    case FailWrite => e == EngineError(Unavailable, PersistFailed)
    case FailClose => e == EngineError(Unavailable, PersistFailed)
    case CloseSink(sink) => !sink.protectionValid && e == EngineError(Validation, ProtectionInvalid)
    case EndHost(why) => Ended(why, e)
    case _ => false
  }

  ghost predicate Caused(states: seq<State>, actions: seq<Action>, e: EngineError, k: nat) {
    exists j: nat :: j < k <= |actions| && j < |states| && Causes(states[j], actions[j], e)
  }

  // ----- every error is that of an event -----

  lemma LocalCauses(spec: Work, gateOpen: bool, run: Context, st: Step, what: LocalAction)
    requires LocalEnabled(spec, gateOpen, run, st, what)
    ensures var t := LocalApply(spec, gateOpen, run, st, what);
            t.result.Failed? ==> t.result == st.result || StepCauses(run, what, t.result.err)
  {
  }

  predicate HeldBySteps(steps: seq<Step>, known: iset<EngineError>) {
    forall i | 0 <= i < |steps| :: steps[i].result.Failed? ==> steps[i].result.err in known
  }

  predicate HeldByCaller(main: Main, writer: Writer, known: iset<EngineError>) {
    && (main.Awaiting? && main.runErr.Some? && !WriterFailed(writer) ==> main.runErr.value in known)
    && (main.Returned? && main.result.Aborted? ==> main.result.err in known)
  }

  /** The write context ends with the host or because the writer failed. */
  predicate EndsWithHost(s: State) {
    s.write.Done? ==> s.write == s.host || WriterFailed(s.writer)
  }

  /** Every error a state holds is known. */
  predicate AllKnown(s: State, known: iset<EngineError>) {
    && HeldBySteps(s.steps, known)
    && (s.first.Some? ==> s.first.value in known)
    && (WriterFailed(s.writer) ==> s.writer.outcome.value.err in known)
    && (s.host.Done? ==> CauseError(s.host.cause) in known)
    && EndsWithHost(s)
    && HeldByCaller(s.main, s.writer, known)
  }

  lemma StepKeepsKnown(job: Job, s: State, i: nat, what: LocalAction, known: iset<EngineError>)
    requires Shaped(job, s) && Enabled(job, s, StepDoes(i, what)) && AllKnown(s, known)
    requires forall e | Causes(s, StepDoes(i, what), e) :: e in known
    ensures AllKnown(Apply(job, s, StepDoes(i, what)), known)
  {
    LocalCauses(job.steps[i], GateOpen(job, s, i), s.run, s.steps[i], what);
  }

  lemma ActionKeepsKnown(job: Job, s: State, a: Action, known: iset<EngineError>)
    requires Shaped(job, s) && Enabled(job, s, a) && AllKnown(s, known)
    requires forall e | Causes(s, a, e) :: e in known
    ensures AllKnown(Apply(job, s, a), known)
  {
    if a.StepDoes? {
      StepKeepsKnown(job, s, a.step, a.what, known);
    } else if a.EndHost? {
      assert Causes(s, a, CauseError(a.why));
    } else {
      assert a.TripLimit? ==> Causes(s, a, LIMIT_ERROR);
      assert a.FailWrite? || a.FailClose? ==> Causes(s, a, PERSIST_ERROR);
      assert a.CloseSink? && !a.reference.protectionValid ==>
          Causes(s, a, EngineError(Validation, ProtectionInvalid));
    }
  }

  ghost function CausedBefore(states: seq<State>, actions: seq<Action>, k: nat): iset<EngineError> {
    iset e | Caused(states, actions, e, k)
  }

  lemma CausesGrow(states: seq<State>, actions: seq<Action>, k: nat)
    requires k < |actions| < |states|
    ensures CausedBefore(states, actions, k) <= CausedBefore(states, actions, k + 1)
    ensures forall e | Causes(states[k], actions[k], e) :: e in CausedBefore(states, actions, k + 1)
  {
  }

  lemma KnownGrows(s: State, known: iset<EngineError>, more: iset<EngineError>)
    requires AllKnown(s, known) && known <= more
    ensures AllKnown(s, more)
  {
  }

  lemma {:induction false} RunCauses(job: Job, states: seq<State>, actions: seq<Action>, k: nat)
    requires Run(job, states, actions) && k < |states|
    ensures AllKnown(states[k], CausedBefore(states, actions, k))
  {
    if k > 0 {
      RunCauses(job, states, actions, k - 1);
      var before, after := CausedBefore(states, actions, k - 1), CausedBefore(states, actions, k);
      CausesGrow(states, actions, k - 1);
      KnownGrows(states[k - 1], before, after);
      ActionKeepsKnown(job, states[k - 1], actions[k - 1], after);
    }
  }

  /** Whatever error a run returns is the one of something that happened in it. */
  lemma AbortHasCause(job: Job, states: seq<State>, actions: seq<Action>, k: nat, e: EngineError)
    requires Run(job, states, actions) && k < |states| && states[k].main == Returned(Aborted(e))
    ensures Caused(states, actions, e, k)
  {
    RunCauses(job, states, actions, k);
  }

  // ----- the host's end -----

  ghost predicate HostEndedBefore(actions: seq<Action>, why: Cause, k: nat) {
    exists j: nat :: j < k <= |actions| && actions[j] == EndHost(why)
  }

  lemma HostEndStep(actions: seq<Action>, why: Cause, k: nat)
    requires 0 < k <= |actions|
    ensures HostEndedBefore(actions, why, k) <==>
            HostEndedBefore(actions, why, k - 1) || actions[k - 1] == EndHost(why)
  {
  }

  lemma HostStep(job: Job, s: State, a: Action)
    requires Shaped(job, s) && Enabled(job, s, a)
    ensures Apply(job, s, a).host == if a.EndHost? then Done(a.why) else s.host
    ensures a.EndHost? ==> s.host.Live?
  {
  }

  /** The host context is what the host made of it. */
  lemma {:induction false} HostFollowsEvents(job: Job, states: seq<State>, actions: seq<Action>, why: Cause, k: nat)
    requires Run(job, states, actions) && k < |states|
    ensures states[k].host == Done(why) <==> HostEndedBefore(actions, why, k)
    decreases k
  {
    if k > 0 {
      HostFollowsEvents(job, states, actions, CancelCause, k - 1);
      HostFollowsEvents(job, states, actions, DeadlineCause, k - 1);
      HostStep(job, states[k - 1], actions[k - 1]);
      HostEndStep(actions, why, k);
    }
  }

  /** Without a failure of the run itself, the error the pool returned is that of the host's end. */
  predicate PoolErrorIsHosts(s: State) {
    s.main.Awaiting? && s.main.runErr.Some? && s.first.None? && !WriterFailed(s.writer) ==>
      s.host.Done? && s.main.runErr.value == CauseError(s.host.cause)
  }

  lemma ActionKeepsPoolError(job: Job, s: State, a: Action)
    requires Shaped(job, s) && Enabled(job, s, a) && MainInv(s) && EndsWithHost(s) && PoolErrorIsHosts(s)
    ensures PoolErrorIsHosts(Apply(job, s, a))
  {
    var t := Apply(job, s, a);
    if a.Join? {
      assert t.main == Awaiting(JoinError(s));
    } else {
      assert t.main.Awaiting? ==> t.main == s.main;
      assert s.main.Awaiting? && s.first.Some? ==> t.first.Some?;
    }
  }

  lemma CallerOfRun(job: Job, states: seq<State>, actions: seq<Action>, k: nat)
    requires Run(job, states, actions) && k < |states|
    ensures MainInv(states[k]) && EndsWithHost(states[k])
  {
    RunKeepsInv(job, states, actions, k);
    RunCauses(job, states, actions, k);
  }

  lemma {:induction false} RunKeepsPoolError(job: Job, states: seq<State>, actions: seq<Action>, k: nat)
    requires Run(job, states, actions) && k < |states|
    ensures PoolErrorIsHosts(states[k])
  {
    if k > 0 {
      RunKeepsPoolError(job, states, actions, k - 1);
      CallerOfRun(job, states, actions, k - 1);
      ActionKeepsPoolError(job, states[k - 1], actions[k - 1]);
    }
  }

  lemma {:induction false} ReturnedStays(job: Job, states: seq<State>, actions: seq<Action>, j: nat, k: nat)
    requires Run(job, states, actions) && j <= k < |states| && states[j].main.Returned?
    ensures states[k].main == states[j].main
    ensures k < |actions| ==> !IsClose(actions[k])
  {
    if j < k {
      ReturnedStays(job, states, actions, j, k - 1);
    }
  }

  /** The sink is finalised exactly when writer and steps succeeded and the host had not ended before. */
  lemma FinalisesExactly(job: Job, states: seq<State>, actions: seq<Action>, c: nat)
    requires Run(job, states, actions) && c < |actions| && actions[c].Collect?
    ensures states[c + 1].main.Finalising? <==>
            && WriterSucceeded(states[c].writer) && states[c].first.None?
            && forall why :: !HostEndedBefore(actions, why, c)
    ensures !states[c + 1].main.Finalising? ==> states[c + 1].main.Returned? && states[c + 1].main.result.Aborted?
  {
    var s := states[c];
    RunKeepsInv(job, states, actions, c);
    RunKeepsPoolError(job, states, actions, c);
    forall why
      ensures s.host == Done(why) <==> HostEndedBefore(actions, why, c)
    {
      HostFollowsEvents(job, states, actions, why, c);
    }
    assert s.host.Done? ==> HostEndedBefore(actions, s.host.cause, c);
  }

  /**
   * A host that ends before the outcome is collected aborts the run for good: the sink is not closed
   * afterwards, and if nothing else failed the error is the category of what ended it.
   */
  lemma HostEndAborts(job: Job, states: seq<State>, actions: seq<Action>, j: nat, c: nat, k: nat)
    requires Run(job, states, actions) && j < c < k < |states| && actions[j].EndHost? && actions[c].Collect?
    ensures states[k].main.Returned? && states[k].main.result.Aborted?
    ensures k < |actions| ==> !IsClose(actions[k])
    ensures WriterSucceeded(states[c].writer) && states[c].first.None? ==>
              states[k].main.result.err == match actions[j].why
                                           case CancelCause => EngineError(Canceled, ExecutionCanceled)
                                           case DeadlineCause => EngineError(Timeout, DeadlineExceeded)
  {
    var s := states[c];
    assert HostEndedBefore(actions, actions[j].why, c);
    HostFollowsEvents(job, states, actions, actions[j].why, c);
    FinalisesExactly(job, states, actions, c);
    ReturnedStays(job, states, actions, c + 1, k);
    RunKeepsPoolError(job, states, actions, c);
  }

  // ----- after a cancel -----

  lemma RunStep(job: Job, s: State, a: Action)
    requires Shaped(job, s) && Enabled(job, s, a) && s.run.Done?
    ensures Apply(job, s, a).run == s.run
  {
  }

  /** A step that has no connector, and will not get one. */
  predicate Unbuilt(st: Step) {
    st.built == 0 && (st.phase.Waiting? || st.phase.Entered? || st.result.Failed?) && !Working(st.phase)
  }

  /** A step that is still before its last check of the context, or has failed. */
  predicate Unfinished(st: Step) {
    st.result.Failed? || (st.result.Unset? && st.phase != Sending(true))
  }

  lemma LocalAfterCancel(spec: Work, gateOpen: bool, run: Context, st: Step, what: LocalAction)
    requires CountsInv(st) && LocalEnabled(spec, gateOpen, run, st, what) && run.Done?
    ensures Unbuilt(st) ==> Unbuilt(LocalApply(spec, gateOpen, run, st, what))
    ensures Unfinished(st) ==> Unfinished(LocalApply(spec, gateOpen, run, st, what))
  {
  }

  lemma ActionAfterCancel(job: Job, s: State, a: Action, i: nat)
    requires Inv(job, s) && Enabled(job, s, a) && s.run.Done? && i < |s.steps|
    ensures i < |Apply(job, s, a).steps|
    ensures Unbuilt(s.steps[i]) ==> Unbuilt(Apply(job, s, a).steps[i])
    ensures Unfinished(s.steps[i]) ==> Unfinished(Apply(job, s, a).steps[i])
  {
    assert StepAt(job.steps, s.steps, i);
    if a.StepDoes? && a.step == i {
      LocalAfterCancel(job.steps[i], GateOpen(job, s, i), s.run, s.steps[i], a.what);
    }
  }

  /**
   * Once the run has ended, a step that had not passed its guard never builds a connector, and one that
   * had not passed its last check never succeeds.
   */
  lemma AfterCancel(job: Job, states: seq<State>, actions: seq<Action>, j: nat, k: nat, i: nat)
    requires Run(job, states, actions) && j <= k < |states| && states[j].run.Done? && i < |states[j].steps|
    ensures states[k].run == states[j].run && i < |states[k].steps|
    ensures states[j].steps[i].phase.Waiting? || states[j].steps[i].phase.Entered? ==> states[k].steps[i].built == 0
    ensures states[j].steps[i].result.Unset? && states[j].steps[i].phase != Sending(true) ==>
              !states[k].steps[i].result.Ok?
  {
    StaysCancelled(job, states, actions, j, k, i);
    RunKeepsInv(job, states, actions, j);
    assert StepAt(job.steps, states[j].steps, i);
  }

  lemma {:induction false} StaysCancelled(job: Job, states: seq<State>, actions: seq<Action>, j: nat, k: nat, i: nat)
    requires Run(job, states, actions) && j <= k < |states| && states[j].run.Done? && i < |states[j].steps|
    ensures states[k].run == states[j].run && i < |states[k].steps|
    ensures Unbuilt(states[j].steps[i]) ==> Unbuilt(states[k].steps[i])
    ensures Unfinished(states[j].steps[i]) ==> Unfinished(states[k].steps[i])
  {
    if j < k {
      StaysCancelled(job, states, actions, j, k - 1, i);
      RunKeepsInv(job, states, actions, k - 1);
      RunStep(job, states[k - 1], actions[k - 1]);
      ActionAfterCancel(job, states[k - 1], actions[k - 1], i);
    }
  }
}
