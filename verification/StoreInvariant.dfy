// What every reachable state of the store pipeline keeps, and runs of the machine.
module StoreInvariant {
  import opened Engine
  import opened Lines
  import opened StoreMachine

  // ----- one step goroutine -----

  predicate Unopened(p: Phase) {
    p.Waiting? || p.Entered? || p.Resolving?
  }

  /** The cursor is not open yet. */
  predicate Unread(p: Phase) {
    Unopened(p) || p.Testing? || p.Querying?
  }

  predicate Unsettled(p: Phase) {
    Unread(p) || p.Streaming? || p.Sending?
  }

  /** Each counted event has happened exactly as often as the phase says. */
  predicate CountsInv(st: Step) {
    && st.calls == (if st.phase.Waiting? then 0 else 1)
    && st.channelCloses == (if ChannelClosed(st.phase) then 1 else 0)
    && st.doneCloses == (if st.phase.Finished? then 1 else 0)
    && st.built <= 1
    && st.built == st.closed + (if ConnectorOpen(st.phase) then 1 else 0) + (if st.abandoned then 1 else 0)
    && (Unopened(st.phase) ==> st.built == 0)
    && (st.abandoned ==> st.result == Failed(PANIC_ERROR))
    && (st.result.Unset? <==> Unsettled(st.phase))
  }

  function QueuedRows(queue: seq<Batch>): nat {
    if queue == [] then 0 else queue[0].rows
  }

  /** The channel holds at most one batch: the lines right after those the writer has. */
  predicate QueueInv(lines: seq<Line>, drained: nat, queue: seq<Batch>) {
    && |queue| <= 1
    && drained + QueuedRows(queue) <= |lines|
    && (queue != [] ==>
          && 0 < queue[0].rows <= BATCH_ROWS && (queue[0].rows < BATCH_ROWS ==> drained + queue[0].rows == |lines|)
          && queue[0].bytes == Concat(lines[drained..drained + queue[0].rows]))
  }

  /** The encoder holds the last `pending` lines read. */
  predicate BufferInv(lines: seq<Line>, read: nat, pending: nat, buf: Bytes) {
    && pending <= read <= |lines|
    && buf == Concat(lines[read - pending..read])
    && AllEncodable(lines[..read])
  }

  predicate ProgressInv(lines: seq<Line>, st: Step) {
    && st.read <= |lines|
    && st.pending <= BATCH_ROWS
    && st.drained + QueuedRows(st.queue) <= st.read
    && (Unread(st.phase) ==> st.read == 0)
    && (st.phase.Streaming? ==> st.pending < BATCH_ROWS)
    && (st.phase.Sending? ==> st.pending > 0 && if st.phase.last then st.read == |lines| else st.pending == BATCH_ROWS)
    && (st.result.Ok? ==> st.result.count == st.read == |lines| && st.pending == 0)
    // Rows are conserved: those read are with the writer, in the channel or in the encoder.
    && (!st.result.Failed? ==> st.drained + QueuedRows(st.queue) + st.pending == st.read)
  }

  predicate StepInv(spec: Work, st: Step) {
    && CountsInv(st)
    && QueueInv(spec.lines, st.drained, st.queue)
    && (!st.result.Failed? ==> BufferInv(spec.lines, st.read, st.pending, st.buf))
    && ProgressInv(spec.lines, st)
  }

  lemma LocalKeepsCounts(spec: Work, gateOpen: bool, run: Context, st: Step, a: LocalAction)
    requires CountsInv(st) && LocalEnabled(spec, gateOpen, run, st, a)
    ensures CountsInv(LocalApply(spec, gateOpen, run, st, a))
  {
  }

  lemma OneMoreEncodable(lines: seq<Line>, k: nat)
    requires k < |lines| && AllEncodable(lines[..k]) && lines[k].Some?
    ensures AllEncodable(lines[..k + 1])
  {
    assert lines[..k + 1] == lines[..k] + [lines[k]];
  }

  lemma OneMoreRow(lines: seq<Line>, read: nat, pending: nat, buf: Bytes)
    requires BufferInv(lines, read, pending, buf) && read < |lines| && lines[read].Some?
    ensures BufferInv(lines, read + 1, pending + 1, buf + lines[read].value)
  {
    OneMoreEncodable(lines, read);
    ConcatOneMore(lines, read - pending, read);
    assert (read + 1) - (pending + 1) == read - pending;
  }

  lemma NextRowKeepsStep(spec: Work, gateOpen: bool, run: Context, st: Step)
    requires StepInv(spec, st) && LocalEnabled(spec, gateOpen, run, st, NextRow)
    ensures StepInv(spec, LocalApply(spec, gateOpen, run, st, NextRow))
  {
    LocalKeepsCounts(spec, gateOpen, run, st, NextRow);
    OneMoreRow(spec.lines, st.read, st.pending, st.buf);
  }

  lemma FlushBuffer(lines: seq<Line>, read: nat, pending: nat, buf: Bytes)
    requires BufferInv(lines, read, pending, buf) && 0 < pending <= BATCH_ROWS
    requires pending == BATCH_ROWS || read == |lines|
    ensures QueueInv(lines, read - pending, [Batch(buf, pending)])
    ensures BufferInv(lines, read, 0, "")
  {
    assert lines[read..read] == [];
  }

  lemma SendKeepsStep(spec: Work, gateOpen: bool, run: Context, st: Step)
    requires StepInv(spec, st) && LocalEnabled(spec, gateOpen, run, st, Send)
    ensures StepInv(spec, LocalApply(spec, gateOpen, run, st, Send))
  {
    FlushBuffer(spec.lines, st.read, st.pending, st.buf);
    assert st.read - st.pending == st.drained;
  }

  lemma OtherKeepsStep(spec: Work, gateOpen: bool, run: Context, st: Step, a: LocalAction)
    requires StepInv(spec, st) && LocalEnabled(spec, gateOpen, run, st, a) && !a.NextRow? && !a.Send?
    ensures StepInv(spec, LocalApply(spec, gateOpen, run, st, a))
  {
    LocalKeepsCounts(spec, gateOpen, run, st, a);
    OtherKeepsRows(spec, gateOpen, run, st, a);
    OtherKeepsProgress(spec, gateOpen, run, st, a);
  }

  lemma OtherKeepsRows(spec: Work, gateOpen: bool, run: Context, st: Step, a: LocalAction)
    requires LocalEnabled(spec, gateOpen, run, st, a) && !a.NextRow? && !a.Send?
    ensures var t := LocalApply(spec, gateOpen, run, st, a);
            && t.drained == st.drained && t.queue == st.queue && t.read == st.read && t.pending == st.pending
            && t.buf == st.buf
  {
  }

  lemma OtherKeepsProgress(spec: Work, gateOpen: bool, run: Context, st: Step, a: LocalAction)
    requires CountsInv(st) && ProgressInv(spec.lines, st)
    requires LocalEnabled(spec, gateOpen, run, st, a) && !a.NextRow? && !a.Send?
    ensures ProgressInv(spec.lines, LocalApply(spec, gateOpen, run, st, a))
    ensures !LocalApply(spec, gateOpen, run, st, a).result.Failed? ==> !st.result.Failed?
  {
  }

  lemma LocalKeepsStep(spec: Work, gateOpen: bool, run: Context, st: Step, a: LocalAction)
    requires StepInv(spec, st) && LocalEnabled(spec, gateOpen, run, st, a)
    ensures StepInv(spec, LocalApply(spec, gateOpen, run, st, a))
  {
    match a
    case NextRow => NextRowKeepsStep(spec, gateOpen, run, st);
    case Send => SendKeepsStep(spec, gateOpen, run, st);
    case _ => OtherKeepsStep(spec, gateOpen, run, st, a);
  }

  /** What the other goroutines can rely on when one goroutine moves from st to t. */
  predicate LocalMove(gateOpen: bool, run: Context, st: Step, t: Step) {
    && t.drained == st.drained
    && !st.phase.Finished?
    && (ChannelClosed(st.phase) ==> ChannelClosed(t.phase) && t.queue == st.queue)
    && (Recorded(st.phase) || Recorded(t.phase) ==> Recorded(st.phase) && Recorded(t.phase) && t.result == st.result)
    && (st.phase.Waiting? && !t.phase.Waiting? ==> gateOpen || run.Done?)
    && (Working(t.phase) ==> Working(st.phase) || (!st.phase.Waiting? && run.Live?))
    && (t.phase.Waiting? ==> st.phase.Waiting?)
  }

  lemma LocalFrame(spec: Work, gateOpen: bool, run: Context, st: Step, a: LocalAction)
    requires LocalEnabled(spec, gateOpen, run, st, a)
    ensures LocalMove(gateOpen, run, st, LocalApply(spec, gateOpen, run, st, a))
  {
  }

  // ----- the shared state -----

  predicate StepAt(specs: seq<Work>, steps: seq<Step>, i: nat)
    requires i < |steps| == |specs|
  {
    StepInv(specs[i], steps[i])
  }

  predicate StepsInv(specs: seq<Work>, steps: seq<Step>) {
    && |specs| == |steps|
    && forall i | 0 <= i < |steps| :: StepAt(specs, steps, i)
  }

  predicate WriterFailed(w: Writer) {
    w.outcome.Some? && w.outcome.value.WriteFailed?
  }

  predicate WriterSucceeded(w: Writer) {
    w.outcome.Some? && w.outcome.value.Success?
  }

  /** Contexts end from parent to child, and only for one of three reasons. */
  predicate ContextInv(host: Context, write: Context, run: Context, stepFailed: bool, writerFailed: bool) {
    && (host.Done? ==> write.Done?)
    && (write.Done? ==> run.Done?)
    && (stepFailed ==> run.Done?)
    && (run.Done? ==> write.Done? || stepFailed)
    && (write.Done? ==> host.Done? || writerFailed)
    && (writerFailed ==> write.Done?)
  }

  predicate RecordAt(steps: seq<Step>, first: Option<EngineError>, rowCounts: seq<nat>, i: nat)
    requires i < |steps| == |rowCounts|
  {
    Recorded(steps[i].phase) ==>
      && (steps[i].result.Failed? ==> first.Some?)
      && (steps[i].result.Ok? ==> rowCounts[i] == steps[i].result.count)
  }

  predicate RecordedAs(steps: seq<Step>, e: EngineError, i: nat)
    requires i < |steps|
  {
    Recorded(steps[i].phase) && steps[i].result == Failed(e)
  }

  /** `first` is the error of a recorded step, set as soon as any step records one. */
  predicate RecordInv(steps: seq<Step>, first: Option<EngineError>, rowCounts: seq<nat>) {
    && |steps| == |rowCounts|
    && (forall i | 0 <= i < |steps| :: RecordAt(steps, first, rowCounts, i))
    && (first.Some? ==> exists i :: 0 <= i < |steps| && RecordedAs(steps, first.value, i))
  }

  /** Everything before step j in its residue class modulo the window has finished. */
  ghost predicate Chain(steps: seq<Step>, w: nat, j: nat)
    requires w >= 1 && j < |steps|
    decreases j
  {
    j < w || (steps[j - w].phase.Finished? && Chain(steps, w, j - w))
  }

  predicate Admitted(run: Context, p: Phase) {
    (run.Live? && !p.Waiting?) || Working(p)
  }

  ghost predicate WindowAt(w: nat, steps: seq<Step>, run: Context, j: nat)
    requires w >= 1 && j < |steps|
  {
    Admitted(run, steps[j].phase) ==> Chain(steps, w, j)
  }

  /** A step past its gate in a live run, or past its cancel guard in any run, has a finished chain. */
  ghost predicate WindowInv(w: nat, steps: seq<Step>, run: Context)
    requires w >= 1
  {
    forall j | 0 <= j < |steps| :: WindowAt(w, steps, run, j)
  }

  lemma {:induction false} ChainMonotone(a: seq<Step>, b: seq<Step>, w: nat, j: nat)
    requires w >= 1 && j < |a| == |b|
    requires forall i | 0 <= i < |a| :: a[i].phase.Finished? ==> b[i].phase.Finished?
    requires Chain(a, w, j)
    ensures Chain(b, w, j)
    decreases j
  {
    if j >= w {
      ChainMonotone(a, b, w, j - w);
    }
  }

  // ----- what the writer has taken -----

  function DrainedBytes(spec: Work, drained: nat): Bytes {
    Concat(if drained <= |spec.lines| then spec.lines[..drained] else spec.lines)
  }

  /** The drained rows of the first k steps, in step order. */
  function Gather(specs: seq<Work>, steps: seq<Step>, k: nat): Bytes
    requires k <= |specs| == |steps|
  {
    if k == 0 then "" else Gather(specs, steps, k - 1) + DrainedBytes(specs[k - 1], steps[k - 1].drained)
  }

  function GatherRows(steps: seq<Step>, k: nat): nat
    requires k <= |steps|
  {
    if k == 0 then 0 else GatherRows(steps, k - 1) + steps[k - 1].drained
  }

  lemma {:induction false} GatherFrame(specs: seq<Work>, a: seq<Step>, b: seq<Step>, k: nat)
    requires k <= |specs| == |a| == |b|
    requires forall i | 0 <= i < k :: a[i].drained == b[i].drained
    ensures Gather(specs, a, k) == Gather(specs, b, k)
    ensures GatherRows(a, k) == GatherRows(b, k)
  {
    if k > 0 {
      GatherFrame(specs, a, b, k - 1);
    }
  }

  /** Everything the writer has received: written, or still in its hand. */
  function Taken(w: Writer): Bytes {
    if w.hand.Some? then w.written + w.hand.value.bytes else w.written
  }

  function HandRows(hand: Option<Batch>): nat {
    if hand.Some? then hand.value.rows else 0
  }

  function Reach(ordinal: nat, n: nat): (k: nat)
    ensures k <= n
  {
    if ordinal < n then ordinal + 1 else n
  }

  predicate ChannelsInv(steps: seq<Step>, ordinal: nat) {
    && ordinal <= |steps|
    && (forall k | 0 <= k < ordinal :: ChannelClosed(steps[k].phase) && steps[k].queue == [])
    && (forall k | ordinal < k < |steps| :: steps[k].drained == 0)
  }

  /** Written plus in hand is exactly what was drained, in step order and within the limit. */
  predicate TakenInv(job: Job, steps: seq<Step>, w: Writer) {
    && |job.steps| == |steps|
    && w.hashed == w.written
    && Taken(w) == Gather(job.steps, steps, Reach(w.ordinal, |steps|))
    && w.rows + HandRows(w.hand) == GatherRows(steps, Reach(w.ordinal, |steps|))
    && w.size == |Taken(w)|
    && !job.OverLimit(|w.written|)
    && HandRows(w.hand) <= BATCH_ROWS
  }

  predicate OutcomeInv(job: Job, w: Writer) {
    && w.reports == (if w.outcome.Some? then 1 else 0)
    && (w.outcome.Some? ==>
          match w.outcome.value
          case Success(digest, rows, size) =>
            && w.ordinal == |job.steps| && w.hand.None?
            && digest == job.digest(w.written) && rows == w.rows && size == w.size
          case WriteFailed(e) =>
            e == if job.OverLimit(w.size) then LIMIT_ERROR else PERSIST_ERROR)
  }

  // ----- the caller -----

  /** Where an aborted run's error came from. */
  predicate AbortInv(s: State, e: EngineError) {
    && s.writer.outcome.Some?
    && (WriterFailed(s.writer) ==> s.closeCalls == 0 && e == s.writer.outcome.value.err)
    && (WriterSucceeded(s.writer) && s.first.Some? ==> s.closeCalls == 0 && e == s.first.value)
    && (WriterSucceeded(s.writer) && s.first.None? && s.closeCalls == 0 ==> s.host.Done? && IsContextError(e))
    && (s.closeCalls == 1 ==> e == PERSIST_ERROR || e == EngineError(Validation, ProtectionInvalid))
  }

  predicate DeliveryInv(s: State, reference: Delivery) {
    && s.closeCalls == 1 && WriterSucceeded(s.writer) && s.first.None?
    && reference.rowCount == s.writer.rows
  }

  predicate MainInv(s: State) {
    && (!s.main.Joining? ==> AllFinished(s))
    && s.closeCalls <= 1
    && (s.closeCalls == 1 ==> s.main.Returned? && WriterSucceeded(s.writer) && s.first.None?)
    && match s.main
       case Joining => true
       case Awaiting(runErr) =>
         && (s.first.Some? ==> runErr == s.first)
         && (s.first.None? && runErr.Some? ==> s.write.Done? && IsContextError(runErr.value))
       case Finalising(digest, rows, size) => s.writer.outcome == Some(Success(digest, rows, size)) && s.first.None?
       case Returned(Delivered(reference)) => DeliveryInv(s, reference)
       case Returned(Aborted(e)) => AbortInv(s, e)
  }

  ghost predicate Inv(job: Job, s: State) {
    && Shaped(job, s)
    && StepsInv(job.steps, s.steps)
    && ContextInv(s.host, s.write, s.run, s.first.Some?, WriterFailed(s.writer))
    && RecordInv(s.steps, s.first, s.rowCounts)
    && WindowInv(job.Window(), s.steps, s.run)
    && ChannelsInv(s.steps, s.writer.ordinal)
    && TakenInv(job, s.steps, s.writer)
    && OutcomeInv(job, s.writer)
    && MainInv(s)
  }

  // ----- the initial state -----

  lemma NothingDrained(spec: Work)
    ensures DrainedBytes(spec, 0) == ""
  {
    assert spec.lines[..0] == [];
  }

  lemma InitStep(spec: Work)
    ensures StepInv(spec, INIT_STEP)
  {
    assert spec.lines[0..0] == [];
  }

  lemma InitInv(job: Job)
    ensures Inv(job, Init(job))
  {
    var s := Init(job);
    forall i | 0 <= i < |s.steps|
      ensures StepAt(job.steps, s.steps, i)
    {
      InitStep(job.steps[i]);
    }
    if |s.steps| > 0 {
      NothingDrained(job.steps[0]);
      assert Gather(job.steps, s.steps, 1) == Gather(job.steps, s.steps, 0) + "";
    }
  }

  // ----- preservation, one kind of action at a time -----

  lemma MoveKeepsRecord(steps: seq<Step>, first: Option<EngineError>, rowCounts: seq<nat>, i: nat, t: Step)
    requires RecordInv(steps, first, rowCounts) && i < |steps|
    requires Recorded(steps[i].phase) || Recorded(t.phase) ==>
               Recorded(steps[i].phase) && Recorded(t.phase) && t.result == steps[i].result
    ensures RecordInv(steps[i := t], first, rowCounts)
  {
    var after := steps[i := t];
    forall k | 0 <= k < |after|
      ensures RecordAt(after, first, rowCounts, k)
    {
      assert RecordAt(steps, first, rowCounts, k);
    }
    if first.Some? {
      var k :| 0 <= k < |steps| && RecordedAs(steps, first.value, k);
      assert RecordedAs(after, first.value, k);
    }
  }

  /** The window property survives any change that keeps finished steps finished and admits no new step. */
  lemma WindowFrame(w: nat, a: seq<Step>, run: Context, b: seq<Step>, run': Context)
    requires w >= 1 && WindowInv(w, a, run) && |a| == |b|
    requires forall i | 0 <= i < |a| :: a[i].phase.Finished? ==> b[i].phase.Finished?
    requires forall j | 0 <= j < |a| :: Admitted(run', b[j].phase) ==> Admitted(run, a[j].phase)
    ensures WindowInv(w, b, run')
  {
    forall j | 0 <= j < |b|
      ensures WindowAt(w, b, run', j)
    {
      if Admitted(run', b[j].phase) {
        assert WindowAt(w, a, run, j);
        ChainMonotone(a, b, w, j);
      }
    }
  }

  lemma MoveKeepsWindow(w: nat, steps: seq<Step>, run: Context, i: nat, t: Step)
    requires w >= 1 && i < |steps| && WindowInv(w, steps, run)
    requires LocalMove(i < w || steps[i - w].phase.Finished?, run, steps[i], t)
    ensures WindowInv(w, steps[i := t], run)
  {
    var after := steps[i := t];
    if steps[i].phase.Waiting? && !t.phase.Waiting? && run.Live? {
      // The gate opened in a live run: the predecessor finished and its own chain is complete.
      assert Chain(steps, w, i) by {
        if i >= w {
          assert WindowAt(w, steps, run, i - w);
        }
      }
      forall j | 0 <= j < |after|
        ensures WindowAt(w, after, run, j)
      {
        if Admitted(run, after[j].phase) {
          assert WindowAt(w, steps, run, j);
          ChainMonotone(steps, after, w, j);
        }
      }
    } else {
      WindowFrame(w, steps, run, after, run);
    }
  }

  lemma MoveKeepsSteps(specs: seq<Work>, steps: seq<Step>, i: nat, t: Step)
    requires StepsInv(specs, steps) && i < |steps| && StepInv(specs[i], t)
    ensures StepsInv(specs, steps[i := t])
  {
    var after := steps[i := t];
    forall k | 0 <= k < |after|
      ensures StepAt(specs, after, k)
    {
      assert StepAt(specs, steps, k);
    }
  }

  lemma MoveKeepsChannels(steps: seq<Step>, ordinal: nat, i: nat, t: Step)
    requires ChannelsInv(steps, ordinal) && i < |steps| && (t.drained == steps[i].drained || i == ordinal)
    requires ChannelClosed(steps[i].phase) ==> ChannelClosed(t.phase)
    requires ChannelClosed(steps[i].phase) && steps[i].queue == [] ==> t.queue == []
    ensures ChannelsInv(steps[i := t], ordinal)
  {
  }

  lemma MoveKeepsTaken(job: Job, steps: seq<Step>, w: Writer, i: nat, t: Step)
    requires TakenInv(job, steps, w) && i < |steps| && t.drained == steps[i].drained
    ensures TakenInv(job, steps[i := t], w)
  {
    GatherFrame(job.steps, steps, steps[i := t], Reach(w.ordinal, |steps|));
  }

  /** While some step is unfinished the caller is still joining. */
  lemma UnfinishedMeansJoining(s: State, i: nat)
    requires MainInv(s) && i < |s.steps| && !s.steps[i].phase.Finished?
    ensures s.main.Joining? && s.closeCalls == 0
  {
  }

  lemma MoveKeepsInv(job: Job, s: State, i: nat, t: Step)
    requires Inv(job, s) && i < |s.steps| && StepsInv(job.steps, s.steps[i := t])
    requires LocalMove(GateOpen(job, s, i), s.run, s.steps[i], t)
    ensures Inv(job, s.(steps := s.steps[i := t]))
  {
    MoveKeepsRecord(s.steps, s.first, s.rowCounts, i, t);
    MoveKeepsWindow(job.Window(), s.steps, s.run, i, t);
    MoveKeepsChannels(s.steps, s.writer.ordinal, i, t);
    MoveKeepsTaken(job, s.steps, s.writer, i, t);
    UnfinishedMeansJoining(s, i);
  }

  lemma StepKeepsInv(job: Job, s: State, i: nat, what: LocalAction)
    requires Inv(job, s) && Enabled(job, s, StepDoes(i, what))
    ensures Inv(job, Apply(job, s, StepDoes(i, what)))
  {
    var gate := GateOpen(job, s, i);
    var t := LocalApply(job.steps[i], gate, s.run, s.steps[i], what);
    assert StepAt(job.steps, s.steps, i);
    LocalKeepsStep(job.steps[i], gate, s.run, s.steps[i], what);
    MoveKeepsSteps(job.steps, s.steps, i, t);
    LocalFrame(job.steps[i], gate, s.run, s.steps[i], what);
    MoveKeepsInv(job, s, i, t);
  }

  lemma RecordKeepsRecord(s: State, i: nat)
    requires RecordInv(s.steps, s.first, s.rowCounts) && i < |s.steps| && s.steps[i].phase.Recording?
    ensures var s' := ApplyRecord(s, i); RecordInv(s'.steps, s'.first, s'.rowCounts)
  {
    var s' := ApplyRecord(s, i);
    forall k | 0 <= k < |s'.steps|
      ensures RecordAt(s'.steps, s'.first, s'.rowCounts, k)
    {
      assert RecordAt(s.steps, s.first, s.rowCounts, k);
    }
    if s.first.Some? {
      var k :| 0 <= k < |s.steps| && RecordedAs(s.steps, s.first.value, k);
      assert RecordedAs(s'.steps, s'.first.value, k);
    } else if s.steps[i].result.Failed? {
      assert RecordedAs(s'.steps, s'.first.value, i);
    }
  }

  lemma RecordedStep(spec: Work, st: Step)
    requires StepInv(spec, st) && st.phase.Recording?
    ensures StepInv(spec, st.(phase := Signalling))
  {
  }

  lemma RecordMovesOneStep(job: Job, s: State, i: nat, t: Step)
    requires Inv(job, s) && i < |s.steps| && s.steps[i].phase.Recording? && t == s.steps[i].(phase := Signalling)
    ensures StepsInv(job.steps, s.steps[i := t])
    ensures ChannelsInv(s.steps[i := t], s.writer.ordinal)
    ensures TakenInv(job, s.steps[i := t], s.writer)
  {
    assert StepAt(job.steps, s.steps, i);
    RecordedStep(job.steps[i], s.steps[i]);
    MoveKeepsSteps(job.steps, s.steps, i, t);
    MoveKeepsChannels(s.steps, s.writer.ordinal, i, t);
    MoveKeepsTaken(job, s.steps, s.writer, i, t);
  }

  lemma RecordKeepsInv(job: Job, s: State, i: nat)
    requires Inv(job, s) && Enabled(job, s, Record(i))
    ensures Inv(job, Apply(job, s, Record(i)))
  {
    var s' := ApplyRecord(s, i);
    RecordKeepsRecord(s, i);
    RecordMovesOneStep(job, s, i, s'.steps[i]);
    WindowFrame(job.Window(), s.steps, s.run, s'.steps, s'.run);
    UnfinishedMeansJoining(s, i);
  }

  lemma ReceivedInv(spec: Work, st: Step)
    requires StepInv(spec, st) && st.queue != []
    ensures StepInv(spec, st.(queue := st.queue[1..], drained := st.drained + st.queue[0].rows))
  {
    assert st.queue[1..] == [];
  }

  lemma ReceivedBytes(spec: Work, drained: nat, b: Batch)
    requires QueueInv(spec.lines, drained, [b])
    ensures DrainedBytes(spec, drained + b.rows) == DrainedBytes(spec, drained) + b.bytes
  {
    ConcatSplit(spec.lines, 0, drained, drained + b.rows);
    assert spec.lines[0..drained] == spec.lines[..drained];
    assert spec.lines[0..drained + b.rows] == spec.lines[..drained + b.rows];
  }

  lemma ReceivedStep(spec: Work, st: Step)
    requires StepInv(spec, st) && st.queue != []
    ensures var drained := st.drained + st.queue[0].rows;
            && StepInv(spec, st.(queue := st.queue[1..], drained := drained))
            && DrainedBytes(spec, drained) == DrainedBytes(spec, st.drained) + st.queue[0].bytes
  {
    ReceivedInv(spec, st);
    assert st.queue == [st.queue[0]];
    ReceivedBytes(spec, st.drained, st.queue[0]);
  }

  lemma Regroup(a: Bytes, b: Bytes, c: Bytes)
    ensures a + (b + c) == (a + b) + c
  {
  }

  lemma GatherReceive(specs: seq<Work>, steps: seq<Step>, o: nat, t: Step, b: Batch)
    requires o < |specs| == |steps| && t.drained == steps[o].drained + b.rows
    requires DrainedBytes(specs[o], t.drained) == DrainedBytes(specs[o], steps[o].drained) + b.bytes
    ensures Gather(specs, steps[o := t], o + 1) == Gather(specs, steps, o + 1) + b.bytes
    ensures GatherRows(steps[o := t], o + 1) == GatherRows(steps, o + 1) + b.rows
  {
    GatherFrame(specs, steps, steps[o := t], o);
    Regroup(Gather(specs, steps, o), DrainedBytes(specs[o], steps[o].drained), b.bytes);
  }

  lemma ReceiveKeepsTaken(job: Job, steps: seq<Step>, after: seq<Step>, w: Writer, b: Batch)
    requires TakenInv(job, steps, w) && w.ordinal < |steps| == |after| && w.hand.None? && b.rows <= BATCH_ROWS
    requires Gather(job.steps, after, w.ordinal + 1) == Gather(job.steps, steps, w.ordinal + 1) + b.bytes
    requires GatherRows(after, w.ordinal + 1) == GatherRows(steps, w.ordinal + 1) + b.rows
    ensures TakenInv(job, after, w.(hand := Some(b), size := w.size + |b.bytes|))
  {
  }

  lemma ReceiveMovesRows(job: Job, steps: seq<Step>, w: Writer, st: Step, t: Step)
    requires StepsInv(job.steps, steps) && TakenInv(job, steps, w)
    requires w.ordinal < |steps| && w.hand.None? && st == steps[w.ordinal] && st.queue != []
    requires t == st.(queue := st.queue[1..], drained := st.drained + st.queue[0].rows)
    ensures StepsInv(job.steps, steps[w.ordinal := t])
    ensures TakenInv(job, steps[w.ordinal := t],
                     w.(hand := Some(st.queue[0]), size := w.size + |st.queue[0].bytes|))
    ensures st.queue[1..] == []
  {
    var o := w.ordinal;
    assert StepAt(job.steps, steps, o);
    ReceivedStep(job.steps[o], st);
    MoveKeepsSteps(job.steps, steps, o, t);
    GatherReceive(job.steps, steps, o, t, st.queue[0]);
    ReceiveKeepsTaken(job, steps, steps[o := t], w, st.queue[0]);
  }

  lemma ReceiveKeepsInv(job: Job, s: State)
    requires Inv(job, s) && Enabled(job, s, Receive)
    ensures Inv(job, Apply(job, s, Receive))
  {
    var s' := Apply(job, s, Receive);
    var o := s.writer.ordinal;
    ReceiveMovesRows(job, s.steps, s.writer, s.steps[o], s'.steps[o]);
    MoveKeepsChannels(s.steps, o, o, s'.steps[o]);
    MoveKeepsRecord(s.steps, s.first, s.rowCounts, o, s'.steps[o]);
    WindowFrame(job.Window(), s.steps, s.run, s'.steps, s'.run);
  }

  lemma NextGathersNothing(specs: seq<Work>, steps: seq<Step>, o: nat)
    requires o + 1 < |specs| == |steps| && steps[o + 1].drained == 0
    ensures Gather(specs, steps, o + 2) == Gather(specs, steps, o + 1)
    ensures GatherRows(steps, o + 2) == GatherRows(steps, o + 1)
  {
    NothingDrained(specs[o + 1]);
    assert Gather(specs, steps, o + 2) == Gather(specs, steps, o + 1) + "";
  }

  lemma AdvanceKeepsTaken(job: Job, steps: seq<Step>, w: Writer)
    requires ChannelsInv(steps, w.ordinal) && TakenInv(job, steps, w) && w.ordinal < |steps|
    ensures TakenInv(job, steps, w.(ordinal := w.ordinal + 1))
  {
    var o := w.ordinal;
    if o + 1 < |steps| {
      NextGathersNothing(job.steps, steps, o);
    }
  }

  lemma ClosedChannel(spec: Work, st: Step)
    requires StepInv(spec, st)
    ensures st.channelCloses > 0 <==> ChannelClosed(st.phase)
  {
  }

  lemma AdvanceKeepsInv(job: Job, s: State)
    requires Inv(job, s) && Enabled(job, s, Advance)
    ensures Inv(job, Apply(job, s, Advance))
  {
    AdvanceKeepsTaken(job, s.steps, s.writer);
    assert StepAt(job.steps, s.steps, s.writer.ordinal);
    ClosedChannel(job.steps[s.writer.ordinal], s.steps[s.writer.ordinal]);
  }

  lemma WriterKeepsTaken(job: Job, s: State, a: Action)
    requires Shaped(job, s) && TakenInv(job, s.steps, s.writer) && Enabled(job, s, a)
    requires a.TripLimit? || a.WriteBatch? || a.FailWrite? || a.Report?
    ensures TakenInv(job, s.steps, Apply(job, s, a).writer)
  {
  }

  lemma WriterKeepsInv(job: Job, s: State, a: Action)
    requires Inv(job, s) && Enabled(job, s, a)
    requires a.TripLimit? || a.WriteBatch? || a.FailWrite? || a.Report?
    ensures Inv(job, Apply(job, s, a))
  {
    var s' := Apply(job, s, a);
    WriterKeepsTaken(job, s, a);
    WindowFrame(job.Window(), s.steps, s.run, s'.steps, s'.run);
    assert OutcomeInv(job, s'.writer);
  }

  lemma CallerKeepsMain(job: Job, s: State, a: Action)
    requires Shaped(job, s) && MainInv(s) && Enabled(job, s, a)
    requires ContextInv(s.host, s.write, s.run, s.first.Some?, WriterFailed(s.writer))
    requires RecordInv(s.steps, s.first, s.rowCounts) && OutcomeInv(job, s.writer)
    requires a.Join? || a.Collect? || a.CloseSink? || a.FailClose? || a.EndHost?
    ensures MainInv(Apply(job, s, a))
  {
  }

  lemma CallerKeepsInv(job: Job, s: State, a: Action)
    requires Inv(job, s) && Enabled(job, s, a)
    requires a.Join? || a.Collect? || a.CloseSink? || a.FailClose? || a.EndHost?
    ensures Inv(job, Apply(job, s, a))
  {
    var s' := Apply(job, s, a);
    CallerKeepsMain(job, s, a);
    WindowFrame(job.Window(), s.steps, s.run, s'.steps, s'.run);
  }

  lemma ActionKeepsInv(job: Job, s: State, a: Action)
    requires Inv(job, s) && Enabled(job, s, a)
    ensures Inv(job, Apply(job, s, a))
  {
    match a
    case StepDoes(i, what) => StepKeepsInv(job, s, i, what);
    case Record(i) => RecordKeepsInv(job, s, i);
    case Receive => ReceiveKeepsInv(job, s);
    case Advance => AdvanceKeepsInv(job, s);
    case TripLimit => WriterKeepsInv(job, s, a);
    case WriteBatch => WriterKeepsInv(job, s, a);
    case FailWrite => WriterKeepsInv(job, s, a);
    case Report => WriterKeepsInv(job, s, a);
    case _ => CallerKeepsInv(job, s, a);
  }

  // ----- runs -----

  /** `states` is a run of the machine taking `actions`, starting from the initial state. */
  ghost predicate Run(job: Job, states: seq<State>, actions: seq<Action>) {
    && |states| == |actions| + 1
    && states[0] == Init(job)
    && forall k | 0 <= k < |actions| ::
         Shaped(job, states[k]) && Enabled(job, states[k], actions[k])
         && states[k + 1] == Apply(job, states[k], actions[k])
  }

  /** The invariant holds in every state of every run. */
  lemma {:induction false} RunKeepsInv(job: Job, states: seq<State>, actions: seq<Action>, k: nat)
    requires Run(job, states, actions) && k < |states|
    ensures Inv(job, states[k])
  {
    if k == 0 {
      InitInv(job);
    } else {
      RunKeepsInv(job, states, actions, k - 1);
      ActionKeepsInv(job, states[k - 1], actions[k - 1]);
    }
  }

  /** A run may go on with any action enabled in its last state. */
  lemma ExtendRun(job: Job, states: seq<State>, actions: seq<Action>, a: Action)
    requires Run(job, states, actions) && Shaped(job, states[|actions|]) && Enabled(job, states[|actions|], a)
    ensures Run(job, states + [Apply(job, states[|actions|], a)], actions + [a])
  {
    var longer, more := states + [Apply(job, states[|actions|], a)], actions + [a];
    forall k | 0 <= k < |more|
      ensures Shaped(job, longer[k]) && Enabled(job, longer[k], more[k])
              && longer[k + 1] == Apply(job, longer[k], more[k])
    {
      if k < |actions| {
        assert longer[k] == states[k] && longer[k + 1] == states[k + 1] && more[k] == actions[k];
      }
    }
  }
}
