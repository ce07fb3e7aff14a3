// The invariant of the direct pool, goroutine by goroutine and for the whole state.
module DirectInvariant {
  import opened Engine
  import opened DirectMachine

  // ----- one step goroutine -----

  predicate Unopened(p: Phase) {
    p.Parked? || p.Entered? || p.Resolving?
  }

  predicate Unsettled(p: Phase) {
    Unopened(p) || p.Testing? || p.Connected? || p.Querying? || p.Draining?
  }

  predicate Recorded(p: Phase) {
    (p.Releasing? && p.recorded) || p.Finished?
  }

  predicate StepInv(limited: bool, st: Step) {
    && st.calls == (if st.phase.Parked? then 0 else 1)
    && st.built <= 1
    && st.built == st.closed + (if ConnectorOpen(st.phase) then 1 else 0) + (if st.abandoned then 1 else 0)
    && (Unopened(st.phase) ==> st.built == 0)
    && (st.abandoned ==> st.panicked)
    && (st.panicked ==> st.result == Failed(PANIC_ERROR))
    && (st.result.Unset? <==> Unsettled(st.phase))
    && (st.result.Drained? ==> st.phase.Closing? || st.phase.Sizing?)
    && (st.phase.Sizing? ==> st.result.Drained?)
    && (st.phase.Closing? ==> st.result.Drained? || st.result.Failed?)
    // Only a goroutine holding a slot gets past the cancel guard.
    && (Working(st.phase) || st.phase.Releasing? ==> st.slot)
    && (st.slot ==> !st.phase.Parked? && !st.phase.Finished?)
    && (st.sized ==> st.result == Ok || st.result == Failed(LIMIT_ERROR))
    && (st.result.Ok? && limited ==> st.sized)
  }

  /** What the other goroutines can rely on when one goroutine moves from st to t. */
  predicate LocalMove(st: Step, t: Step) {
    && !st.phase.Finished?
    && t.sized == st.sized
    && (t.slot ==> st.slot)
    && (Recorded(t.phase) || Recorded(st.phase) ==> Recorded(st.phase) && Recorded(t.phase) && t.result == st.result)
    && (t.sized ==> t.result == st.result)
    && (t.result.Ok? ==> st.result.Ok?)
  }

  // ----- the shared state -----

  predicate StepAt(job: Job, steps: seq<Step>, i: nat)
    requires i < |steps|
  {
    StepInv(job.maxBytes > 0, steps[i])
  }

  predicate StepsInv(job: Job, steps: seq<Step>) {
    forall i | 0 <= i < |steps| :: StepAt(job, steps, i)
  }

  predicate ContextInv(host: Context, run: Context, stepFailed: bool) {
    && (host.Done? ==> run.Done?)
    && (stepFailed ==> run.Done?)
    && (run.Done? ==> host.Done? || stepFailed)
  }

  /** A step that entered without a slot did so because the run was cancelled. */
  predicate EntryAt(run: Context, steps: seq<Step>, i: nat)
    requires i < |steps|
  {
    steps[i].phase.Entered? && run.Live? ==> steps[i].slot
  }

  predicate EntryInv(run: Context, steps: seq<Step>) {
    forall i | 0 <= i < |steps| :: EntryAt(run, steps, i)
  }

  predicate RecordAt(steps: seq<Step>, first: Option<EngineError>, i: nat)
    requires i < |steps|
  {
    Recorded(steps[i].phase) && steps[i].result.Failed? ==> first.Some?
  }

  predicate RecordedAs(steps: seq<Step>, e: EngineError, i: nat)
    requires i < |steps|
  {
    Recorded(steps[i].phase) && steps[i].result == Failed(e)
  }

  predicate RecordInv(steps: seq<Step>, first: Option<EngineError>) {
    && (forall i | 0 <= i < |steps| :: RecordAt(steps, first, i))
    && (first.Some? ==> exists i :: 0 <= i < |steps| && RecordedAs(steps, first.value, i))
  }

  function SizeOf(t: Task): nat {
    if t.size.Some? then t.size.value else 0
  }

  function SizedSum(tasks: seq<Task>, steps: seq<Step>, k: nat): nat
    requires k <= |tasks| == |steps|
  {
    if k == 0 then 0
    else SizedSum(tasks, steps, k - 1) + if steps[k - 1].sized then SizeOf(tasks[k - 1]) else 0
  }

  function TotalSize(tasks: seq<Task>, k: nat): nat
    requires k <= |tasks|
  {
    if k == 0 then 0 else TotalSize(tasks, k - 1) + SizeOf(tasks[k - 1])
  }

  predicate LimitAt(job: Job, steps: seq<Step>, running: nat, i: nat)
    requires i < |steps|
  {
    steps[i].sized && steps[i].result.Failed? ==> job.OverLimit(running)
  }

  /** The running size is the sum of the sizes counted so far; a counted step failed only over the limit. */
  predicate SizeInv(job: Job, steps: seq<Step>, running: nat) {
    && |steps| == |job.tasks|
    && running == SizedSum(job.tasks, steps, |steps|)
    && (forall i | 0 <= i < |steps| :: LimitAt(job, steps, running, i))
  }

  /** Once over the limit, the step whose size crossed it has failed. */
  predicate CrossedAt(steps: seq<Step>, i: nat)
    requires i < |steps|
  {
    steps[i].sized && steps[i].result.Failed?
  }

  ghost predicate CrossInv(job: Job, steps: seq<Step>, running: nat) {
    job.OverLimit(running) ==> exists i :: 0 <= i < |steps| && CrossedAt(steps, i)
  }

  predicate SlotAt(job: Job, steps: seq<Step>, results: seq<Slot>, i: nat)
    requires i < |steps| == |results| == |job.tasks|
  {
    steps[i].result.Ok? ==> results[i] == SlotOf(job.tasks[i])
  }

  /** A step that succeeded has its rows in its own slot. */
  predicate SlotsInv(job: Job, steps: seq<Step>, results: seq<Slot>) {
    && |steps| == |results| == |job.tasks|
    && (forall i | 0 <= i < |steps| :: SlotAt(job, steps, results, i))
  }

  predicate MainInv(job: Job, s: State) {
    && (!s.main.Joining? ==> AllFinished(s))
    && match s.main
       case Joining => true
       case Assembling => s.first.None?
       case Returned(Delivered(d)) =>
         s.first.None? && Assembled(job, s.results) == Some(d) && !job.OverLimit(|d.payload|)
       case Returned(Aborted(e)) =>
         && (s.first.Some? ==> e == s.first.value)
         && (s.first.None? ==>
               || (s.host.Done? && IsContextError(e))
               || (e == SERIALIZE_ERROR && Assembled(job, s.results).None?)
               || (e == LIMIT_ERROR && Assembled(job, s.results).Some?
                   && job.OverLimit(|Assembled(job, s.results).value.payload|)))
  }

  ghost predicate Inv(job: Job, s: State) {
    && Shaped(job, s)
    && StepsInv(job, s.steps)
    && ContextInv(s.host, s.run, s.first.Some?)
    && EntryInv(s.run, s.steps)
    && RecordInv(s.steps, s.first)
    && SizeInv(job, s.steps, s.running)
    && CrossInv(job, s.steps, s.running)
    && SlotsInv(job, s.steps, s.results)
    && |Slots(s.steps)| <= job.Window()
    && MainInv(job, s)
  }
}
