// The store delivery path as a state machine: one goroutine per plan step gated by an
// ordinal window, one writer draining the per-step channels in order, and the caller that
// joins both and finalises the sink.  Every action is one atomic step of one goroutine.
module StoreMachine {
  import opened Engine
  import opened Lines
  import opened ByConfig

  const BATCH_ROWS := 256

  /** `digest` stands for hex(SHA-256); nothing below depends on how it is computed. */
  datatype Job = Job(steps: seq<Work>, maxConcurrency: int, maxBytes: int, digest: Bytes -> string)
  {
    function Window(): (w: nat)
      ensures w >= 1
    {
      EffectiveConcurrency(maxConcurrency)
    }

    predicate OverLimit(size: int) {
      maxBytes > 0 && size > maxBytes
    }
  }

  datatype Batch = Batch(bytes: Bytes, rows: nat)

  /** Where a step goroutine stands; the last five are its deferred actions in running order. */
  datatype Phase =
    | Waiting | Entered | Resolving | Testing | Querying | Streaming | Sending(last: bool)
    | ClosingConnector | ClosingChannel | Recording | Signalling | Finished

  datatype StepResult = Unset | Ok(count: nat) | Failed(err: EngineError)

  /**
   * One step goroutine with its handoff channel.  `read`, `buf` and `pending` are the loop
   * variables of streamStep; `queue` is the capacity-one channel.  `drained` counts the rows
   * the writer has received from it, `calls`, `channelCloses`, `doneCloses`, `built` and
   * `closed` count the events the design promises to happen once, and `abandoned` marks a
   * connector lost to a panic inside TestConnection.
   */
  datatype Step = Step(
    phase: Phase, result: StepResult,
    read: nat, buf: Bytes, pending: nat,
    queue: seq<Batch>, drained: nat,
    calls: nat, channelCloses: nat, doneCloses: nat,
    built: nat, closed: nat, abandoned: bool)

  datatype LocalAction =
    | OpenGate | PassGateOnCancel
    | PassGuard | StopAtGuard
    | FailResolve(err: EngineError) | Build
    | FailTest(testFailure: ConnectorFailure) | PanicInTest | PassTest
    | FailQuery(queryFailure: ConnectorFailure) | OpenCursor
    | NextRow | FailMarshal | FailCursor(cursorFailure: ConnectorFailure) | StopOnCancel | EndStream
    | Send | CancelSend
    | Panic
    | CloseConnector | CloseChannel | Signal

  const INIT_STEP := Step(Waiting, Unset, 0, "", 0, [], 0, 0, 0, 0, 0, 0, false)

  predicate ConnectorOpen(p: Phase) {
    p.Testing? || p.Querying? || p.Streaming? || p.Sending? || p.ClosingConnector?
  }

  /** Past the cancel guard and not yet torn down. */
  predicate Working(p: Phase) {
    p.Resolving? || ConnectorOpen(p)
  }

  predicate ChannelClosed(p: Phase) {
    p.Recording? || p.Signalling? || p.Finished?
  }

  predicate Recorded(p: Phase) {
    p.Signalling? || p.Finished?
  }

  /** What a step goroutine may do next, given its gate and the shared run context. */
  predicate LocalEnabled(spec: Work, gateOpen: bool, run: Context, st: Step, a: LocalAction) {
    match a
    case OpenGate => st.phase.Waiting? && gateOpen
    case PassGateOnCancel => st.phase.Waiting? && run.Done?
    case PassGuard => st.phase.Entered? && run.Live?
    case StopAtGuard => st.phase.Entered? && run.Done?
    case FailResolve(_) => st.phase.Resolving?
    case Build => st.phase.Resolving?
    case FailTest(_) => st.phase.Testing?
    case PanicInTest => st.phase.Testing?
    case PassTest => st.phase.Testing?
    case FailQuery(_) => st.phase.Querying?
    case OpenCursor => st.phase.Querying?
    case NextRow => st.phase.Streaming? && st.read < |spec.lines| && spec.lines[st.read].Some?
    case FailMarshal => st.phase.Streaming? && st.read < |spec.lines| && spec.lines[st.read].None?
    case FailCursor(_) => st.phase.Streaming?
    case StopOnCancel => st.phase.Streaming? && run.Done?
    case EndStream => st.phase.Streaming? && st.read >= |spec.lines| && run.Live?
    case Send => st.phase.Sending? && st.queue == []
    case CancelSend => st.phase.Sending? && run.Done?
    case Panic => st.phase.Resolving? || st.phase.Querying? || st.phase.Streaming?
    case CloseConnector => st.phase.ClosingConnector?
    case CloseChannel => st.phase.ClosingChannel?
    case Signal => st.phase.Signalling?
  }

  /** Leave through the deferred connector close. */
  function Unwind(st: Step, r: StepResult): Step {
    st.(phase := ClosingConnector, result := r)
  }

  /** Leave before a connector is owned. */
  function Leave(st: Step, e: EngineError): Step {
    st.(phase := ClosingChannel, result := Failed(e))
  }

  function LocalApply(spec: Work, gateOpen: bool, run: Context, st: Step, a: LocalAction): Step
    requires LocalEnabled(spec, gateOpen, run, st, a)
  {
    match a
    case OpenGate => st.(phase := Entered, calls := st.calls + 1)
    case PassGateOnCancel => st.(phase := Entered, calls := st.calls + 1)
    case PassGuard => st.(phase := Resolving)
    case StopAtGuard => Leave(st, CauseError(run.cause))
    case FailResolve(e) => Leave(st, e)
    case Build => st.(phase := Testing, built := st.built + 1)
    case FailTest(f) =>
      Leave(st.(closed := st.closed + 1), SafeConnectorError(run, f, ConnectFailed))
    case PanicInTest => Leave(st.(abandoned := true), PANIC_ERROR)
    case PassTest => st.(phase := Querying)
    case FailQuery(f) => Unwind(st, Failed(SafeConnectorError(run, f, QueryFailed)))
    case OpenCursor => st.(phase := Streaming)
    case NextRow =>
      var line := spec.lines[st.read].value;
      var full := st.pending + 1 >= BATCH_ROWS;
      st.(read := st.read + 1, buf := st.buf + line, pending := st.pending + 1,
          phase := if full then Sending(false) else Streaming)
    case FailMarshal => Unwind(st, Failed(SERIALIZE_ERROR))
    case FailCursor(f) => Unwind(st, Failed(SafeConnectorError(run, f, QueryFailed)))
    case StopOnCancel => Unwind(st, Failed(CauseError(run.cause)))
    case EndStream => if st.pending > 0 then st.(phase := Sending(true)) else Unwind(st, Ok(st.read))
    case Send =>
      var sent := st.(queue := [Batch(st.buf, st.pending)], buf := "", pending := 0);
      if st.phase.last then Unwind(sent, Ok(st.read)) else sent.(phase := Streaming)
    case CancelSend => Unwind(st, Failed(CauseError(run.cause)))
    case Panic => if st.phase.Resolving? then Leave(st, PANIC_ERROR) else Unwind(st, Failed(PANIC_ERROR))
    case CloseConnector => st.(phase := ClosingChannel, closed := st.closed + 1)
    case CloseChannel => st.(phase := Recording, channelCloses := st.channelCloses + 1)
    case Signal => st.(phase := Finished, doneCloses := st.doneCloses + 1)
  }

  datatype Outcome = Success(digest: string, rows: nat, size: nat) | WriteFailed(err: EngineError)

  /** The writer goroutine: `hand` is the batch it received and has not written yet. */
  datatype Writer = Writer(
    ordinal: nat, hand: Option<Batch>, size: nat, rows: nat,
    written: Bytes, hashed: Bytes, reports: nat, outcome: Option<Outcome>)

  /** What the sink's Close hands back. */
  datatype SinkReference = SinkReference(integrity: Option<string>, sizeBytes: int, protectionValid: bool)

  datatype Delivery = Delivery(digest: string, rowCount: nat, size: int, rowCounts: map<string, nat>)

  datatype RunResult = Delivered(reference: Delivery) | Aborted(err: EngineError)

  /** Finalising carries the totals the writer reported. */
  datatype Main =
    | Joining
    | Awaiting(runErr: Option<EngineError>)
    | Finalising(digest: string, rows: nat, size: nat)
    | Returned(result: RunResult)

  /** `host`, `write` and `run` are the caller's context and the two derived from it in turn. */
  datatype State = State(
    host: Context, write: Context, run: Context,
    steps: seq<Step>, first: Option<EngineError>, rowCounts: seq<nat>,
    writer: Writer, main: Main, closeCalls: nat)

  datatype Action =
    | StepDoes(step: nat, what: LocalAction)
    | Record(who: nat)
    | Receive | Advance | TripLimit | WriteBatch | FailWrite | Report
    | Join | Collect | CloseSink(reference: SinkReference) | FailClose
    | EndHost(why: Cause)

  function Init(job: Job): State {
    State(Live, Live, Live,
          seq(|job.steps|, i => INIT_STEP), None, seq(|job.steps|, i => 0),
          Writer(0, None, 0, 0, "", "", 0, None), Joining, 0)
  }

  predicate Shaped(job: Job, s: State) {
    |s.steps| == |job.steps| == |s.rowCounts|
  }

  /** Step i waits for the done channel of step i - W; the first W steps have no gate. */
  predicate GateOpen(job: Job, s: State, i: nat)
    requires Shaped(job, s) && i < |s.steps|
  {
    i < job.Window() || s.steps[i - job.Window()].phase.Finished?
  }

  predicate AllFinished(s: State) {
    forall i | 0 <= i < |s.steps| :: s.steps[i].phase.Finished?
  }

  predicate WriterIdle(s: State) {
    s.writer.outcome.None? && s.writer.hand.None?
  }

  predicate WriterHolds(s: State) {
    s.writer.outcome.None? && s.writer.hand.Some?
  }

  predicate Enabled(job: Job, s: State, a: Action)
    requires Shaped(job, s)
  {
    match a
    case StepDoes(i, what) =>
      i < |s.steps| && LocalEnabled(job.steps[i], GateOpen(job, s, i), s.run, s.steps[i], what)
      && (what.PassGateOnCancel? ==> i >= job.Window())
    case Record(i) => i < |s.steps| && s.steps[i].phase.Recording?
    case Receive => WriterIdle(s) && s.writer.ordinal < |s.steps| && s.steps[s.writer.ordinal].queue != []
    case Advance =>
      WriterIdle(s) && s.writer.ordinal < |s.steps|
      && s.steps[s.writer.ordinal].queue == [] && s.steps[s.writer.ordinal].channelCloses > 0
    case TripLimit => WriterHolds(s) && job.OverLimit(s.writer.size)
    case WriteBatch => WriterHolds(s) && !job.OverLimit(s.writer.size)
    case FailWrite => WriterHolds(s) && !job.OverLimit(s.writer.size)
    case Report => WriterIdle(s) && s.writer.ordinal >= |s.steps|
    case Join => s.main.Joining? && AllFinished(s)
    case Collect => s.main.Awaiting? && s.writer.outcome.Some?
    case CloseSink(_) => s.main.Finalising?
    case FailClose => s.main.Finalising?
    case EndHost(_) => s.host.Live?
  }

  /** cancelWrite() ends the write context and the run context derived from it. */
  function CancelWrite(s: State): State {
    s.(write := s.write.End(CancelCause), run := s.run.End(CancelCause))
  }

  function WriterStops(s: State, o: Outcome): State {
    s.(writer := s.writer.(outcome := Some(o), reports := s.writer.reports + 1))
  }

  function ApplyRecord(s: State, i: nat): State
    requires i < |s.steps| == |s.rowCounts|
  {
    var st := s.steps[i];
    var t := s.(steps := s.steps[i := st.(phase := Signalling)]);
    match st.result
    case Ok(count) => t.(rowCounts := s.rowCounts[i := count])
    case Failed(e) => if s.first.Some? then t else t.(first := Some(e), run := s.run.End(CancelCause))
    case Unset => t
  }

  /** streamSteps' verdict: the first recorded error, else the write context's own end. */
  function JoinError(s: State): Option<EngineError> {
    if |s.steps| == 0 then None
    else if s.first.Some? then s.first
    else ContextError(s.write)
  }

  /** The failure streamPlanToSink surfaces: writer, then pool, then host context. */
  function CollectError(s: State): Option<EngineError>
    requires s.main.Awaiting? && s.writer.outcome.Some?
  {
    match s.writer.outcome.value
    case WriteFailed(e) => Some(e)
    case Success(_, _, _) => if s.main.runErr.Some? then s.main.runErr else ContextError(s.host)
  }

  function ApplyCollect(s: State): Main
    requires s.main.Awaiting? && s.writer.outcome.Some?
  {
    var e := CollectError(s);
    if e.Some? then Returned(Aborted(e.value))
    else
      var o := s.writer.outcome.value;
      Finalising(o.digest, o.rows, o.size)
  }

  function Configs(steps: seq<Work>): (r: seq<string>)
    ensures |r| == |steps|
  {
    seq(|steps|, i requires 0 <= i < |steps| => steps[i].config)
  }

  /** sumRowCounts: the per-step counts under their config names. */
  function SumRowCounts(steps: seq<Work>, counts: seq<nat>): map<string, nat>
    requires |steps| == |counts|
  {
    Merge(Configs(steps), counts)
  }

  /** buildStoreReference after a successful Close. */
  function StoreReference(job: Job, s: State, sink: SinkReference): RunResult
    requires Shaped(job, s) && s.main.Finalising?
  {
    if !sink.protectionValid then Aborted(EngineError(Validation, ProtectionInvalid))
    else Delivered(Delivery(
                     if sink.integrity.Some? then sink.integrity.value else s.main.digest,
                     s.main.rows,
                     if sink.sizeBytes == 0 then s.main.size else sink.sizeBytes,
                     SumRowCounts(job.steps, s.rowCounts)))
  }

  function ApplyWriter(job: Job, s: State, a: Action): State
    requires Shaped(job, s) && Enabled(job, s, a)
    requires a.Receive? || a.Advance? || a.TripLimit? || a.WriteBatch? || a.FailWrite? || a.Report?
  {
    var w := s.writer;
    match a
    case Receive =>
      var st := s.steps[w.ordinal];
      var b := st.queue[0];
      s.(steps := s.steps[w.ordinal := st.(queue := st.queue[1..], drained := st.drained + b.rows)],
         writer := w.(hand := Some(b), size := w.size + |b.bytes|))
    case Advance => s.(writer := w.(ordinal := w.ordinal + 1))
    case TripLimit => WriterStops(CancelWrite(s), WriteFailed(LIMIT_ERROR))
    case FailWrite => WriterStops(CancelWrite(s), WriteFailed(PERSIST_ERROR))
    case WriteBatch =>
      var b := w.hand.value;
      s.(writer := w.(hand := None, written := w.written + b.bytes, hashed := w.hashed + b.bytes,
                      rows := w.rows + b.rows))
    case Report => WriterStops(s, Success(job.digest(w.hashed), w.rows, w.size))
  }

  function Apply(job: Job, s: State, a: Action): State
    requires Shaped(job, s) && Enabled(job, s, a)
  {
    match a
    case StepDoes(i, what) =>
      s.(steps := s.steps[i := LocalApply(job.steps[i], GateOpen(job, s, i), s.run, s.steps[i], what)])
    case Record(i) => ApplyRecord(s, i)
    case Join => s.(main := Awaiting(JoinError(s)))
    case Collect => s.(main := ApplyCollect(s))
    case CloseSink(sink) => s.(main := Returned(StoreReference(job, s, sink)), closeCalls := s.closeCalls + 1)
    case FailClose => s.(main := Returned(Aborted(PERSIST_ERROR)), closeCalls := s.closeCalls + 1)
    case EndHost(why) => s.(host := s.host.End(why), write := s.write.End(why), run := s.run.End(why))
    case _ => ApplyWriter(job, s, a)
  }

  /** Nothing is left to run: the caller has its answer and so do all goroutines. */
  predicate Terminal(s: State) {
    s.main.Returned?
  }
}
