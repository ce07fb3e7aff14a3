// The direct delivery path as a state machine: one goroutine per plan step, a semaphore of
// capacity W, a shared running size with an early abort, one result slot per step, and the
// caller that joins, merges the slots, serialises and applies the authoritative size check.
module DirectMachine {
  import opened Engine
  import opened Lines
  import opened Rows
  import opened ByConfig

  /** What a step drains, and the compact size of its rows or None when they cannot be marshalled. */
  datatype Task = Task(config: string, rows: Tables, count: nat, size: Option<nat>)

  /** `marshal` is the indented serialisation of merged rows; nothing in the pool depends on what it writes. */
  datatype Job = Job(tasks: seq<Task>, maxConcurrency: int, maxBytes: int,
                     marshal: map<string, Tables> -> Option<Bytes>)
  {
    function Window(): (w: nat)
      ensures w >= 1
    {
      EffectiveConcurrency(maxConcurrency)
    }

    predicate OverLimit(size: int) {
      maxBytes > 0 && size > maxBytes
    }
  }

  /** Releasing(false) is a panicking goroutine, which gives its slot back before it records. */
  datatype Phase =
    | Parked | Entered | Resolving | Testing | Connected | Querying | Draining
    | Closing | Sizing | Recording | Releasing(recorded: bool) | Finished

  datatype StepResult = Unset | Drained | Ok | Failed(err: EngineError)

  /** `sized` marks that the step's size is part of the running sum. */
  datatype Step = Step(
    phase: Phase, result: StepResult, slot: bool, panicked: bool, sized: bool,
    calls: nat, built: nat, closed: nat, abandoned: bool)

  const INIT_STEP := Step(Parked, Unset, false, false, false, 0, 0, 0, false)

  datatype LocalAction =
    | SkipSlot
    | PassGuard | StopAtGuard
    | FailResolve(err: EngineError) | Build
    | FailTest(testFailure: ConnectorFailure) | PanicInTest | PassTest
    | IssueQuery | StopBeforeQuery
    | FailQuery(queryFailure: ConnectorFailure) | OpenCursor
    | FailCursor(cursorFailure: ConnectorFailure) | StopOnCancel | EndRows
    | Panic
    | CloseConnector | Release

  predicate ConnectorOpen(p: Phase) {
    p.Testing? || p.Connected? || p.Querying? || p.Draining? || p.Closing?
  }

  predicate Working(p: Phase) {
    p.Resolving? || ConnectorOpen(p)
  }

  predicate LocalEnabled(run: Context, st: Step, a: LocalAction) {
    match a
    case SkipSlot => st.phase.Parked? && run.Done?
    case PassGuard => st.phase.Entered? && run.Live?
    case StopAtGuard => st.phase.Entered? && run.Done?
    case FailResolve(_) => st.phase.Resolving?
    case Build => st.phase.Resolving?
    case FailTest(_) => st.phase.Testing?
    case PanicInTest => st.phase.Testing?
    case PassTest => st.phase.Testing?
    case IssueQuery => st.phase.Connected? && run.Live?
    case StopBeforeQuery => st.phase.Connected? && run.Done?
    case FailQuery(_) => st.phase.Querying?
    case OpenCursor => st.phase.Querying?
    case FailCursor(_) => st.phase.Draining?
    case StopOnCancel => st.phase.Draining? && run.Done?
    case EndRows => st.phase.Draining? && run.Live?
    case Panic => st.phase.Resolving? || st.phase.Querying? || st.phase.Draining?
    case CloseConnector => st.phase.Closing?
    case Release => st.phase.Releasing?
  }

  /** Where a step goes once its connector is gone. */
  function AfterClose(st: Step): Phase {
    if st.panicked && st.slot then Releasing(false)
    else if st.result.Failed? then Recording
    else Sizing
  }

  function Unwind(st: Step, r: StepResult): Step {
    st.(phase := Closing, result := r)
  }

  function Leave(st: Step, e: EngineError): Step {
    var t := st.(result := Failed(e));
    t.(phase := AfterClose(t))
  }

  function LocalApply(run: Context, st: Step, a: LocalAction): Step
    requires LocalEnabled(run, st, a)
  {
    match a
    case SkipSlot => st.(phase := Entered, calls := st.calls + 1)
    case PassGuard => st.(phase := Resolving)
    case StopAtGuard => Leave(st, CauseError(run.cause))
    case FailResolve(e) => Leave(st, e)
    case Build => st.(phase := Testing, built := st.built + 1)
    case FailTest(f) => Leave(st.(closed := st.closed + 1), SafeConnectorError(run, f, ConnectFailed))
    case PanicInTest => Leave(st.(abandoned := true, panicked := true), PANIC_ERROR)
    case PassTest => st.(phase := Connected)
    case IssueQuery => st.(phase := Querying)
    case StopBeforeQuery => Unwind(st, Failed(CauseError(run.cause)))
    case FailQuery(f) => Unwind(st, Failed(SafeConnectorError(run, f, QueryFailed)))
    case OpenCursor => st.(phase := Draining)
    case FailCursor(f) => Unwind(st, Failed(SafeConnectorError(run, f, QueryFailed)))
    case StopOnCancel => Unwind(st, Failed(CauseError(run.cause)))
    case EndRows => Unwind(st, Drained)
    case Panic =>
      if st.phase.Resolving? then Leave(st.(panicked := true), PANIC_ERROR)
      else Unwind(st.(panicked := true), Failed(PANIC_ERROR))
    case CloseConnector => st.(phase := AfterClose(st), closed := st.closed + 1)
    case Release => st.(phase := if st.phase.recorded then Finished else Recording, slot := false)
  }

  /** A step's entry in the result slice, the zero value until the step succeeds. */
  datatype Slot = Slot(config: string, rows: Tables, count: nat)

  const EMPTY_SLOT := Slot("", map[], 0)

  function SlotOf(t: Task): Slot {
    Slot(t.config, t.rows, t.count)
  }

  datatype Delivery = Delivery(payload: Bytes, rowCount: nat, rowCounts: map<string, nat>)

  datatype RunResult = Delivered(outcome: Delivery) | Aborted(err: EngineError)

  datatype Main = Joining | Assembling | Returned(result: RunResult)

  datatype State = State(
    host: Context, run: Context, steps: seq<Step>, first: Option<EngineError>, running: nat,
    results: seq<Slot>, main: Main)

  datatype Action =
    | StepDoes(step: nat, what: LocalAction)
    | Acquire(taker: nat) | Measure(sizer: nat) | Record(who: nat)
    | Join | Assemble
    | EndHost(why: Cause)

  function Init(job: Job): State {
    State(Live, Live, seq(|job.tasks|, i => INIT_STEP), None, 0, seq(|job.tasks|, i => EMPTY_SLOT), Joining)
  }

  predicate Shaped(job: Job, s: State) {
    |s.steps| == |job.tasks| == |s.results|
  }

  /** The goroutines that hold a semaphore slot. */
  function Slots(steps: seq<Step>): set<nat> {
    set i: nat | i < |steps| && steps[i].slot
  }

  predicate AllFinished(s: State) {
    forall i | 0 <= i < |s.steps| :: s.steps[i].phase.Finished?
  }

  predicate Enabled(job: Job, s: State, a: Action)
    requires Shaped(job, s)
  {
    match a
    case StepDoes(i, what) => i < |s.steps| && LocalEnabled(s.run, s.steps[i], what)
    case Acquire(i) => i < |s.steps| && s.steps[i].phase.Parked? && |Slots(s.steps)| < job.Window()
    case Measure(i) => i < |s.steps| && s.steps[i].phase.Sizing?
    case Record(i) => i < |s.steps| && s.steps[i].phase.Recording?
    case Join => s.main.Joining? && AllFinished(s)
    case Assemble => s.main.Assembling?
    case EndHost(_) => s.host.Live?
  }

  /** The early size check of one completed step, done under the size mutex; a step that passes fills its slot. */
  function ApplyMeasure(job: Job, s: State, i: nat): State
    requires Shaped(job, s) && i < |s.steps|
  {
    var st := s.steps[i].(phase := Recording);
    var filled := s.results[i := SlotOf(job.tasks[i])];
    if job.maxBytes <= 0 then s.(steps := s.steps[i := st.(result := Ok)], results := filled)
    else if job.tasks[i].size.None? then s.(steps := s.steps[i := st.(result := Failed(SERIALIZE_ERROR))])
    else
      var running := s.running + job.tasks[i].size.value;
      if running > job.maxBytes
      then s.(running := running, steps := s.steps[i := st.(result := Failed(LIMIT_ERROR), sized := true)])
      else s.(running := running, steps := s.steps[i := st.(result := Ok, sized := true)], results := filled)
  }

  function AfterRecord(st: Step): Step {
    st.(phase := if st.slot then Releasing(true) else Finished)
  }

  function ApplyRecord(s: State, i: nat): State
    requires i < |s.steps|
  {
    var st := s.steps[i];
    var t := s.(steps := s.steps[i := AfterRecord(st)]);
    if st.result.Failed? && s.first.None?
    then t.(first := Some(st.result.err), run := s.run.End(CancelCause))
    else t
  }

  /** forEachStep's verdict: the first recorded error, else the host context's own end. */
  function JoinError(s: State): Option<EngineError> {
    if |s.steps| == 0 then None
    else if s.first.Some? then s.first
    else ContextError(s.host)
  }

  function Configs(results: seq<Slot>): (r: seq<string>)
    ensures |r| == |results|
  {
    seq(|results|, i requires 0 <= i < |results| => results[i].config)
  }

  function AllRows(results: seq<Slot>): (r: seq<Tables>)
    ensures |r| == |results|
  {
    seq(|results|, i requires 0 <= i < |results| => results[i].rows)
  }

  function Counts(results: seq<Slot>): (r: seq<nat>)
    ensures |r| == |results|
  {
    seq(|results|, i requires 0 <= i < |results| => results[i].count)
  }

  /** The slots merged by config name and serialised, or None when the rows cannot be marshalled. */
  function Assembled(job: Job, results: seq<Slot>): Option<Delivery> {
    match job.marshal(Merge(Configs(results), AllRows(results)))
    case None => None
    case Some(payload) =>
      Some(Delivery(payload, Total(Counts(results)), Merge(Configs(results), Counts(results))))
  }

  /** The checks after the merge, in order: context, serialisation, authoritative size. */
  function AssembleResult(job: Job, s: State): RunResult {
    if s.host.Done? then Aborted(CauseError(s.host.cause))
    else
      match Assembled(job, s.results)
      case None => Aborted(SERIALIZE_ERROR)
      case Some(outcome) => if job.OverLimit(|outcome.payload|) then Aborted(LIMIT_ERROR) else Delivered(outcome)
  }

  function Apply(job: Job, s: State, a: Action): State
    requires Shaped(job, s) && Enabled(job, s, a)
  {
    match a
    case StepDoes(i, what) => s.(steps := s.steps[i := LocalApply(s.run, s.steps[i], what)])
    case Acquire(i) =>
      s.(steps := s.steps[i := s.steps[i].(phase := Entered, slot := true, calls := s.steps[i].calls + 1)])
    case Measure(i) => ApplyMeasure(job, s, i)
    case Record(i) => ApplyRecord(s, i)
    case Join => s.(main := if JoinError(s).Some? then Returned(Aborted(JoinError(s).value)) else Assembling)
    case Assemble => s.(main := Returned(AssembleResult(job, s)))
    case EndHost(why) => s.(host := s.host.End(why), run := s.run.End(why))
  }

  predicate Terminal(s: State) {
    s.main.Returned?
  }
}
