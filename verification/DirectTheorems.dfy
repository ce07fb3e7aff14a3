// The main results about the direct pool, for every run under every schedule.
module DirectTheorems {
  import opened Engine
  import opened Sets
  import opened ByConfig
  import opened DirectMachine
  import opened DirectInvariant
  import opened DirectProofs

  // ----- deadlock freedom and termination -----

  predicate BenignLocal(what: LocalAction) {
    !what.FailResolve? && !what.FailTest? && !what.PanicInTest? && !what.FailQuery? && !what.FailCursor? && !what.Panic?
  }

  /** Nothing outside the engine fails: no connector and no host event. */
  predicate Benign(a: Action) {
    !a.EndHost? && (a.StepDoes? ==> BenignLocal(a.what))
  }

  lemma BusyStepMoves(run: Context, st: Step) returns (what: LocalAction)
    requires !st.phase.Parked? && !st.phase.Sizing? && !st.phase.Recording? && !st.phase.Finished?
    ensures LocalEnabled(run, st, what) && BenignLocal(what)
  {
    match st.phase
    case Entered => what := if run.Live? then PassGuard else StopAtGuard;
    case Resolving => what := Build;
    case Testing => what := PassTest;
    case Connected => what := if run.Live? then IssueQuery else StopBeforeQuery;
    case Querying => what := OpenCursor;
    case Draining => what := if run.Live? then EndRows else StopOnCancel;
    case Closing => what := CloseConnector;
    case Releasing(_) => what := Release;
  }

  lemma BusyActs(job: Job, s: State, i: nat) returns (a: Action)
    requires Shaped(job, s) && i < |s.steps| && !s.steps[i].phase.Parked? && !s.steps[i].phase.Finished?
    ensures Benign(a) && Enabled(job, s, a)
  {
    if s.steps[i].phase.Sizing? {
      a := Measure(i);
    } else if s.steps[i].phase.Recording? {
      a := Record(i);
    } else {
      var what := BusyStepMoves(s.run, s.steps[i]);
      a := StepDoes(i, what);
    }
  }

  lemma SomeoneActs(job: Job, s: State) returns (a: Action)
    requires Inv(job, s) && !Terminal(s)
    ensures Benign(a) && Enabled(job, s, a)
  {
    if i :| 0 <= i < |s.steps| && !s.steps[i].phase.Finished? {
      if !s.steps[i].phase.Parked? {
        a := BusyActs(job, s, i);
      } else if |Slots(s.steps)| < job.Window() {
        a := Acquire(i);
      } else {
        // The semaphore is full, so some goroutine holds a slot and can move.
        var j :| j in Slots(s.steps);
        assert StepAt(job, s.steps, j);
        a := BusyActs(job, s, j);
      }
    } else {
      a := if s.main.Joining? then Join else Assemble;
    }
  }

  /** Every state a run can reach is terminal or can move by itself. */
  lemma NoDeadlock(job: Job, states: seq<State>, actions: seq<Action>, k: nat)
    requires Run(job, states, actions) && k < |states| && !Terminal(states[k])
    ensures Shaped(job, states[k]) && exists a: Action :: !a.EndHost? && Enabled(job, states[k], a)
  {
    RunKeepsInv(job, states, actions, k);
    var a := SomeoneActs(job, states[k]);
    assert !a.EndHost? && Enabled(job, states[k], a);
  }

  function Rank(p: Phase): nat {
    match p
    case Parked => 13
    case Entered => 12
    case Resolving => 11
    case Testing => 10
    case Connected => 9
    case Querying => 8
    case Draining => 7
    case Closing => 6
    case Sizing => 5
    case Releasing(recorded) => if recorded then 1 else 4
    case Recording => 3
    case Finished => 0
  }

  function Ranks(steps: seq<Step>, k: nat): nat
    requires k <= |steps|
  {
    if k == 0 then 0 else Ranks(steps, k - 1) + Rank(steps[k - 1].phase)
  }

  function Potential(s: State): nat {
    Ranks(s.steps, |s.steps|)
    + (match s.main case Joining => 2 case Assembling => 1 case Returned(_) => 0)
    + if s.host.Live? then 1 else 0
  }

  lemma {:induction false} RanksUpdate(steps: seq<Step>, i: nat, t: Step, k: nat)
    requires i < |steps| && k <= |steps|
    ensures Ranks(steps[i := t], k) == Ranks(steps, k) + if i < k then Rank(t.phase) - Rank(steps[i].phase) else 0
  {
    if k > 0 {
      RanksUpdate(steps, i, t, k - 1);
    }
  }

  lemma LeavingDecreases(st: Step)
    requires st.phase.Entered? || st.phase.Resolving? || st.phase.Testing? || st.phase.Closing?
    ensures Rank(AfterClose(st)) < Rank(st.phase)
  {
  }

  lemma LocalDecreases(run: Context, st: Step, a: LocalAction)
    requires LocalEnabled(run, st, a)
    ensures Rank(LocalApply(run, st, a).phase) < Rank(st.phase)
  {
    var t := LocalApply(run, st, a);
    if st.phase.Entered? || st.phase.Resolving? || st.phase.Testing? || st.phase.Closing? {
      LeavingDecreases(st.(result := t.result, panicked := t.panicked));
    }
  }

  lemma ActionDecreases(job: Job, s: State, a: Action)
    requires Shaped(job, s) && Enabled(job, s, a)
    ensures Potential(Apply(job, s, a)) < Potential(s)
  {
    var s' := Apply(job, s, a);
    match a
    case StepDoes(i, what) =>
      LocalDecreases(s.run, s.steps[i], what);
      RanksUpdate(s.steps, i, s'.steps[i], |s.steps|);
    case Acquire(i) => RanksUpdate(s.steps, i, s'.steps[i], |s.steps|);
    case Measure(i) =>
      assert s'.steps == s.steps[i := s'.steps[i]];
      RanksUpdate(s.steps, i, s'.steps[i], |s.steps|);
    case Record(i) =>
      assert s'.steps == s.steps[i := s'.steps[i]];
      RanksUpdate(s.steps, i, s'.steps[i], |s.steps|);
    case _ =>
  }

  lemma {:induction false} InitialRanks(job: Job, k: nat)
    requires k <= |job.tasks|
    ensures Ranks(Init(job).steps, k) == 13 * k
  {
    if k > 0 {
      InitialRanks(job, k - 1);
    }
  }

  lemma {:induction false} RunSpendsPotential(job: Job, states: seq<State>, actions: seq<Action>, k: nat)
    requires Run(job, states, actions) && k < |states|
    ensures k + Potential(states[k]) <= Potential(Init(job))
  {
    if k > 0 {
      RunSpendsPotential(job, states, actions, k - 1);
      ActionDecreases(job, states[k - 1], actions[k - 1]);
    }
  }

  /** Every run is at most this long; with NoDeadlock it therefore ends. */
  lemma RunsAreBounded(job: Job, states: seq<State>, actions: seq<Action>)
    requires Run(job, states, actions)
    ensures |actions| <= 13 * |job.tasks| + 3
  {
    RunSpendsPotential(job, states, actions, |actions|);
    InitialRanks(job, |job.tasks|);
  }

  lemma ExtendRun(job: Job, states: seq<State>, actions: seq<Action>, a: Action)
    requires Run(job, states, actions) && Shaped(job, states[|actions|]) && Enabled(job, states[|actions|], a)
    ensures Run(job, states + [Apply(job, states[|actions|], a)], actions + [a])
  {
    var longer, more := states + [Apply(job, states[|actions|], a)], actions + [a];
    forall k | 0 <= k < |more|
      ensures Shaped(job, longer[k]) && Enabled(job, longer[k], more[k])
              && longer[k + 1] == Apply(job, longer[k], more[k])
    {
      assert k < |actions| ==> longer[k] == states[k] && longer[k + 1] == states[k + 1] && more[k] == actions[k];
    }
  }

  /** Any run can be carried on without outside failures until the caller returns. */
  lemma {:induction false} EveryRunCompletes(job: Job, states: seq<State>, actions: seq<Action>)
    returns (states': seq<State>, actions': seq<Action>)
    requires Run(job, states, actions)
    ensures Run(job, states', actions') && Terminal(states'[|actions'|])
    ensures states <= states' && actions <= actions'
    ensures forall k | |actions| <= k < |actions'| :: Benign(actions'[k])
    decreases 13 * |job.tasks| + 3 - |actions|
  {
    var s := states[|actions|];
    RunKeepsInv(job, states, actions, |actions|);
    if Terminal(s) {
      states', actions' := states, actions;
    } else {
      var a := SomeoneActs(job, s);
      ExtendRun(job, states, actions, a);
      var longer, more := states + [Apply(job, s, a)], actions + [a];
      RunsAreBounded(job, longer, more);
      states', actions' := EveryRunCompletes(job, longer, more);
    }
  }

  /** Every job has a completed run in which nothing outside the engine fails. */
  lemma BenignRunExists(job: Job) returns (states: seq<State>, actions: seq<Action>)
    ensures Run(job, states, actions) && Terminal(states[|actions|])
    ensures forall k | 0 <= k < |actions| :: Benign(actions[k])
  {
    states, actions := EveryRunCompletes(job, [Init(job)], []);
  }

  // ----- connectors -----

  function OpenConnectors(s: State): set<nat> {
    set i: nat | i < |s.steps| && ConnectorOpen(s.steps[i].phase)
  }

  /** At most W connectors are open in any reachable state, cancelled ones included. */
  lemma ConnectorsWithinWindow(job: Job, states: seq<State>, actions: seq<Action>, k: nat)
    requires Run(job, states, actions) && k < |states|
    ensures |OpenConnectors(states[k])| <= job.Window()
  {
    var s := states[k];
    RunKeepsInv(job, states, actions, k);
    forall i | i in OpenConnectors(s)
      ensures i in Slots(s.steps)
    {
      assert StepAt(job, s.steps, i);
    }
    SubsetSize(OpenConnectors(s), Slots(s.steps));
  }

  /** When the caller returns, every step ran once, no slot is held, and each built connector
      was closed exactly once unless a panic inside TestConnection lost it. */
  lemma EndedExactlyOnce(job: Job, states: seq<State>, actions: seq<Action>, k: nat)
    requires Run(job, states, actions) && k < |states| && Terminal(states[k])
    ensures Slots(states[k].steps) == {}
    ensures forall i | 0 <= i < |states[k].steps| ::
              var st := states[k].steps[i];
              st.calls == 1 && (st.closed == st.built <= 1 <==> !PanickedInTest(actions, i, k))
  {
    var s := states[k];
    RunKeepsInv(job, states, actions, k);
    forall i | 0 <= i < |s.steps|
      ensures var st := s.steps[i];
              !st.slot && st.calls == 1 && (st.closed == st.built <= 1 <==> !PanickedInTest(actions, i, k))
    {
      assert StepAt(job, s.steps, i);
      LostOnlyByTestPanic(job, states, actions, k, i);
    }
  }

  lemma AbandonedBy(job: Job, s: State, a: Action, i: nat)
    requires Shaped(job, s) && Enabled(job, s, a) && i < |s.steps|
    ensures i < |Apply(job, s, a).steps|
    ensures Apply(job, s, a).steps[i].abandoned <==> s.steps[i].abandoned || a == StepDoes(i, PanicInTest)
  {
  }

  ghost predicate PanickedInTest(actions: seq<Action>, i: nat, k: nat) {
    exists j :: 0 <= j < k <= |actions| && actions[j] == StepDoes(i, PanicInTest)
  }

  lemma PanicStep(actions: seq<Action>, i: nat, k: nat)
    requires 0 < k <= |actions|
    ensures PanickedInTest(actions, i, k) <==>
            PanickedInTest(actions, i, k - 1) || actions[k - 1] == StepDoes(i, PanicInTest)
  {
  }

  /** A connector of the pool is lost exactly by a panic inside TestConnection. */
  lemma {:induction false} LostOnlyByTestPanic(job: Job, states: seq<State>, actions: seq<Action>, k: nat, i: nat)
    requires Run(job, states, actions) && k < |states| && i < |job.tasks|
    ensures i < |states[k].steps|
    ensures states[k].steps[i].abandoned <==> PanickedInTest(actions, i, k)
  {
    if k > 0 {
      LostOnlyByTestPanic(job, states, actions, k - 1, i);
      AbandonedBy(job, states[k - 1], actions[k - 1], i);
      PanicStep(actions, i, k);
    }
  }

  // ----- no partial result -----

  function AllSlots(tasks: seq<Task>): (r: seq<Slot>)
    ensures |r| == |tasks|
  {
    seq(|tasks|, i requires 0 <= i < |tasks| => SlotOf(tasks[i]))
  }

  /** The delivery a run owes: every step's rows, merged in plan order. */
  function Owed(job: Job): Option<Delivery> {
    Assembled(job, AllSlots(job.tasks))
  }

  /** When all steps have finished without error, every one succeeded and filled its slot. */
  lemma SlotsFilled(job: Job, s: State)
    requires Inv(job, s) && AllFinished(s) && s.first.None?
    ensures s.results == AllSlots(job.tasks)
    ensures forall i | 0 <= i < |s.steps| :: s.steps[i].result == Ok
  {
    forall i | 0 <= i < |s.steps|
      ensures s.steps[i].result == Ok && s.results[i] == SlotOf(job.tasks[i])
    {
      assert StepAt(job, s.steps, i) && RecordAt(s.steps, s.first, i) && SlotAt(job, s.steps, s.results, i);
    }
  }

  lemma {:induction false} AllSized(tasks: seq<Task>, steps: seq<Step>, k: nat)
    requires k <= |tasks| == |steps| && forall i | 0 <= i < |steps| :: steps[i].sized
    ensures SizedSum(tasks, steps, k) == TotalSize(tasks, k)
  {
    if k > 0 {
      AllSized(tasks, steps, k - 1);
    }
  }

  /** When all steps succeeded, their sizes together were within the limit. */
  lemma SucceededWithinLimit(job: Job, s: State)
    requires Inv(job, s) && AllFinished(s) && s.first.None?
    ensures !job.OverLimit(TotalSize(job.tasks, |job.tasks|))
  {
    SlotsFilled(job, s);
    if job.maxBytes > 0 {
      forall i | 0 <= i < |s.steps|
        ensures s.steps[i].sized && !CrossedAt(s.steps, i)
      {
        assert StepAt(job, s.steps, i);
      }
      AllSized(job.tasks, s.steps, |s.steps|);
    }
  }

  /**
   * A delivery is returned only when every step succeeded; it is then the merge of all steps'
   * rows with their counts, within the limit, whatever the order in which the steps ran.
   */
  lemma DeliveredIsWhole(job: Job, states: seq<State>, actions: seq<Action>, k: nat, d: Delivery)
    requires Run(job, states, actions) && k < |states| && states[k].main == Returned(Delivered(d))
    ensures Owed(job) == Some(d) && !job.OverLimit(|d.payload|)
    ensures !job.OverLimit(TotalSize(job.tasks, |job.tasks|))
    ensures forall i | 0 <= i < |states[k].steps| :: states[k].steps[i].result == Ok
  {
    RunKeepsInv(job, states, actions, k);
    SlotsFilled(job, states[k]);
    SucceededWithinLimit(job, states[k]);
  }

  // ----- the early size abort -----

  predicate AllMarshalable(job: Job) {
    forall i | 0 <= i < |job.tasks| :: job.tasks[i].size.Some?
  }

  /** The compact step sizes together never exceed the indented payload. */
  predicate SizesSound(job: Job) {
    Owed(job).Some? ==> TotalSize(job.tasks, |job.tasks|) <= |Owed(job).value.payload| && AllMarshalable(job)
  }

  lemma {:induction false} SizedWithinTotal(tasks: seq<Task>, steps: seq<Step>, k: nat)
    requires k <= |tasks| == |steps|
    ensures SizedSum(tasks, steps, k) <= TotalSize(tasks, k)
  {
    if k > 0 {
      SizedWithinTotal(tasks, steps, k - 1);
    }
  }

  lemma RunningWithinTotal(job: Job, s: State)
    requires SizeInv(job, s.steps, s.running)
    ensures s.running <= TotalSize(job.tasks, |job.tasks|)
  {
    SizedWithinTotal(job.tasks, s.steps, |s.steps|);
  }

  /** In any run at all, a step aborted by the early check proves the payload over the limit. */
  lemma EarlyAbortIsSound(job: Job, states: seq<State>, actions: seq<Action>, k: nat, i: nat)
    requires Run(job, states, actions) && k < |states| && SizesSound(job) && Owed(job).Some?
    requires i < |states[k].steps| && states[k].steps[i].sized && states[k].steps[i].result.Failed?
    ensures job.OverLimit(|Owed(job).value.payload|)
  {
    RunKeepsInv(job, states, actions, k);
    assert LimitAt(job, states[k].steps, states[k].running, i);
    RunningWithinTotal(job, states[k]);
  }

  /** Steps fail by the early size check, or by the cancellation that followed it. */
  predicate BenignStep(run: Context, st: Step) {
    st.result.Failed? ==> (st.sized && st.result.err == LIMIT_ERROR) || run.Done?
  }

  predicate BenignInv(job: Job, s: State) {
    && (s.run.Done? ==> s.first.Some?)
    && (s.first.Some? ==> s.first.value == LIMIT_ERROR && job.OverLimit(s.running))
    && (forall i | 0 <= i < |s.steps| :: BenignStep(s.run, s.steps[i]))
    && s.host.Live?
  }

  lemma LocalKeepsBenign(run: Context, st: Step, what: LocalAction)
    requires LocalEnabled(run, st, what) && BenignLocal(what) && BenignStep(run, st)
    requires st.phase.Closing? || st.phase.Releasing? || !st.sized
    ensures BenignStep(run, LocalApply(run, st, what))
  {
  }

  lemma ActionKeepsBenign(job: Job, s: State, a: Action)
    requires Inv(job, s) && Enabled(job, s, a) && Benign(a) && BenignInv(job, s)
    requires AllMarshalable(job)
    ensures BenignInv(job, Apply(job, s, a))
  {
    match a
    case StepDoes(i, what) =>
      assert StepAt(job, s.steps, i);
      LocalKeepsBenign(s.run, s.steps[i], what);
    case Record(i) => assert LimitAt(job, s.steps, s.running, i);
    case _ =>
  }

  lemma {:induction false} BenignRunKeeps(job: Job, states: seq<State>, actions: seq<Action>, k: nat)
    requires Run(job, states, actions) && k < |states|
    requires forall j | 0 <= j < |actions| :: Benign(actions[j])
    requires AllMarshalable(job)
    ensures BenignInv(job, states[k])
  {
    if k > 0 {
      BenignRunKeeps(job, states, actions, k - 1);
      RunKeepsInv(job, states, actions, k - 1);
      ActionKeepsBenign(job, states[k - 1], actions[k - 1]);
    }
  }

  /** Over the limit by the sum of the compact step sizes or by the payload. */
  predicate TooLarge(job: Job)
    requires Owed(job).Some?
  {
    job.OverLimit(TotalSize(job.tasks, |job.tasks|)) || job.OverLimit(|Owed(job).value.payload|)
  }

  /**
   * Without outside failures the verdict of every schedule is fixed by the plan: the size-limit
   * error exactly when one of the two size checks is exceeded, and otherwise the owed delivery.
   */
  lemma VerdictOfBothChecks(job: Job, states: seq<State>, actions: seq<Action>, k: nat)
    requires Run(job, states, actions) && k < |states| && Terminal(states[k])
    requires Owed(job).Some? && AllMarshalable(job)
    requires forall j | 0 <= j < |actions| :: Benign(actions[j])
    ensures states[k].main.result == if TooLarge(job) then Aborted(LIMIT_ERROR) else Delivered(Owed(job).value)
  {
    var s := states[k];
    BenignRunKeeps(job, states, actions, k);
    RunKeepsInv(job, states, actions, k);
    RunningWithinTotal(job, s);
    if s.first.None? {
      SlotsFilled(job, s);
      SucceededWithinLimit(job, s);
    }
  }

  /**
   * With sound sizes the early check never decides alone: the run fails with the size-limit error
   * exactly when the payload exceeds the limit, and otherwise returns the owed delivery.
   */
  lemma VerdictIndependentOfSchedule(job: Job, states: seq<State>, actions: seq<Action>, k: nat)
    requires Run(job, states, actions) && k < |states| && Terminal(states[k])
    requires SizesSound(job) && Owed(job).Some?
    requires forall j | 0 <= j < |actions| :: Benign(actions[j])
    ensures states[k].main.result ==
              if job.OverLimit(|Owed(job).value.payload|) then Aborted(LIMIT_ERROR) else Delivered(Owed(job).value)
  {
    VerdictOfBothChecks(job, states, actions, k);
  }

  // ----- root cause -----

  predicate HonestLocal(run: Context, what: LocalAction) {
    match what
    case FailResolve(e) => IsContextError(e) ==> run.Done?
    case FailTest(f) => HonestFailure(run, f)
    case FailQuery(f) => HonestFailure(run, f)
    case FailCursor(f) => HonestFailure(run, f)
    case _ => true
  }

  predicate CancelledOnlyLate(run: Context, st: Step) {
    st.result.Failed? && IsContextError(st.result.err) ==> run.Done?
  }

  predicate HonestInv(s: State) {
    && (forall i | 0 <= i < |s.steps| :: CancelledOnlyLate(s.run, s.steps[i]))
    && (s.first.Some? && IsContextError(s.first.value) ==> s.host.Done?)
  }

  lemma LocalKeepsHonest(run: Context, st: Step, what: LocalAction)
    requires LocalEnabled(run, st, what) && HonestLocal(run, what) && CancelledOnlyLate(run, st)
    ensures CancelledOnlyLate(run, LocalApply(run, st, what))
  {
  }

  lemma ActionKeepsHonest(job: Job, s: State, a: Action)
    requires Shaped(job, s) && ContextInv(s.host, s.run, s.first.Some?)
    requires Enabled(job, s, a) && (a.StepDoes? ==> HonestLocal(s.run, a.what)) && HonestInv(s)
    ensures HonestInv(Apply(job, s, a))
  {
    if a.StepDoes? {
      LocalKeepsHonest(s.run, s.steps[a.step], a.what);
    }
  }

  ghost predicate HonestRun(job: Job, states: seq<State>, actions: seq<Action>) {
    && Run(job, states, actions)
    && forall k | 0 <= k < |actions| :: actions[k].StepDoes? ==> HonestLocal(states[k].run, actions[k].what)
  }

  lemma {:induction false} HonestRunKeeps(job: Job, states: seq<State>, actions: seq<Action>, k: nat)
    requires HonestRun(job, states, actions) && k < |states|
    ensures HonestInv(states[k])
  {
    if k > 0 {
      HonestRunKeeps(job, states, actions, k - 1);
      RunKeepsInv(job, states, actions, k - 1);
      ActionKeepsHonest(job, states[k - 1], actions[k - 1]);
    }
  }

  /** While the host context lives, the reported error is the first one recorded, or the final
      serialisation or size check; never a cancellation the pool caused itself. */
  lemma RootCauseReported(job: Job, states: seq<State>, actions: seq<Action>, k: nat, e: EngineError)
    requires HonestRun(job, states, actions) && k < |states|
    requires states[k].main == Returned(Aborted(e)) && states[k].host.Live?
    ensures !IsContextError(e)
    ensures states[k].first.Some? ==> exists j: nat :: FirstFrom(states, actions, Some(e), j, k)
    ensures states[k].first.None? ==> e == SERIALIZE_ERROR || e == LIMIT_ERROR
  {
    RunKeepsInv(job, states, actions, k);
    HonestRunKeeps(job, states, actions, k);
    FirstIsEarliest(job, states, actions, k);
  }

  predicate FailingRecord(s: State, a: Action) {
    a.Record? && a.who < |s.steps| && s.steps[a.who].result.Failed?
  }

  /** The error recorded at position j, before k, is the first failure recorded and is `first`. */
  ghost predicate FirstFrom(states: seq<State>, actions: seq<Action>, first: Option<EngineError>, j: nat, k: nat) {
    && j < k <= |actions| && |states| == |actions| + 1
    && FailingRecord(states[j], actions[j])
    && (forall m | 0 <= m < j :: !FailingRecord(states[m], actions[m]))
    && first == Some(states[j].steps[actions[j].who].result.err)
  }

  /** The pool remembers the error of the step that recorded its failure earliest, and none if none did. */
  lemma {:induction false} FirstIsEarliest(job: Job, states: seq<State>, actions: seq<Action>, k: nat)
    requires Run(job, states, actions) && k < |states|
    ensures states[k].first.None? ==> forall m | 0 <= m < k :: !FailingRecord(states[m], actions[m])
    ensures states[k].first.Some? ==> exists j: nat :: FirstFrom(states, actions, states[k].first, j, k)
  {
    if k > 0 {
      FirstIsEarliest(job, states, actions, k - 1);
      var s, a := states[k - 1], actions[k - 1];
      if s.first.Some? {
        var j: nat :| FirstFrom(states, actions, s.first, j, k - 1);
        assert FirstFrom(states, actions, states[k].first, j, k);
      } else if FailingRecord(s, a) {
        assert FirstFrom(states, actions, states[k].first, k - 1, k);
      }
    }
  }
}
