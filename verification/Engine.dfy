// Values shared by the extraction models: safe engine errors, context states
// and the mapping of connector failures to engine errors.
module Engine {

  datatype Option<+T> = None | Some(value: T)

  /** The error categories the modelled code constructs or inspects. */
  datatype Category =
    | Validation | NotFound | LimitExceeded | Unavailable | Connect
    | Timeout | Canceled | Internal

  /** The fixed messages of the modelled failures; HostReason stands for a host's own text. */
  datatype Reason =
    | ExecutionCanceled | DeadlineExceeded
    | ResultTooLarge | SerializeFailed | PersistFailed | StepPanicked
    | ConnectFailed | QueryFailed | ProtectionInvalid
    | HostReason(text: string)

  datatype EngineError = EngineError(category: Category, reason: Reason)

  /** Why a context ended: an explicit cancel or an elapsed deadline. */
  datatype Cause = CancelCause | DeadlineCause

  /** A context never leaves Done and keeps the cause that ended it first. */
  datatype Context = Live | Done(cause: Cause)
  {
    /** cancel(): only the first cancellation is remembered. */
    function End(why: Cause): Context {
      if Live? then Done(why) else this
    }
  }

  function CauseError(why: Cause): EngineError {
    match why
    case CancelCause => EngineError(Canceled, ExecutionCanceled)
    case DeadlineCause => EngineError(Timeout, DeadlineExceeded)
  }

  /** contextError(ctx.Err()). */
  function ContextError(ctx: Context): Option<EngineError> {
    match ctx
    case Live => None
    case Done(why) => Some(CauseError(why))
  }

  /** The raw error a connector hands back: a context error or anything else. */
  datatype ConnectorFailure = OwnContext(cause: Cause) | Opaque

  function SafeConnectorError(ctx: Context, failure: ConnectorFailure, fallback: Reason): EngineError {
    match failure
    case OwnContext(why) => CauseError(why)
    case Opaque => if ctx.Done? then CauseError(ctx.cause) else EngineError(Unavailable, fallback)
  }

  /** What the caller is told about an ended context. */
  predicate Ended(why: Cause, e: EngineError) {
    match why
    case CancelCause => e == EngineError(Canceled, ExecutionCanceled)
    case DeadlineCause => e == EngineError(Timeout, DeadlineExceeded)
  }

  /** A connector's own context error, the end of the run, or else the failure it is named for. */
  predicate ConnectorCauses(run: Context, f: ConnectorFailure, named: Reason, e: EngineError) {
    || (f.OwnContext? && Ended(f.cause, e))
    || (f.Opaque? && run.Done? && Ended(run.cause, e))
    || (f.Opaque? && run.Live? && e == EngineError(Unavailable, named))
  }

  /** Categories that only a context ending can legitimately produce. */
  predicate IsContextError(e: EngineError) {
    e.category == Canceled || e.category == Timeout
  }

  /** A connector is honest when it reports a context error only after that context ended. */
  predicate HonestFailure(ctx: Context, failure: ConnectorFailure) {
    failure.OwnContext? ==> ctx.Done?
  }

  const LIMIT_ERROR := EngineError(LimitExceeded, ResultTooLarge)
  const SERIALIZE_ERROR := EngineError(Internal, SerializeFailed)
  const PERSIST_ERROR := EngineError(Unavailable, PersistFailed)
  const PANIC_ERROR := EngineError(Internal, StepPanicked)

  /** effectiveConcurrency: a non-positive setting still runs one worker. */
  function EffectiveConcurrency(maxConcurrency: int): (w: nat)
    ensures w >= 1 && w >= maxConcurrency
    ensures w > maxConcurrency ==> w == 1
  {
    if maxConcurrency > 0 then maxConcurrency else 1
  }
}
