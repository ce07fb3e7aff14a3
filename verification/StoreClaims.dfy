// Runs that refute two remarks in the design comments: that the running steps are always
// the W lowest incomplete ones, and that only about W batches are in flight.
module StoreClaims {
  import opened Engine
  import opened Lines
  import opened Sets
  import opened StoreMachine
  import opened StoreInvariant
  import opened StoreWindow

  /** A run, written as its states and actions. */
  datatype Trace = Trace(states: seq<State>, actions: seq<Action>)
  {
    predicate Nonempty() {
      |states| > 0
    }

    function Last(): State
      requires Nonempty()
    {
      states[|states| - 1]
    }
  }

  ghost predicate IsTrace(job: Job, t: Trace) {
    t.Nonempty() && Run(job, t.states, t.actions) && Shaped(job, t.Last())
  }

  lemma Push(job: Job, t: Trace, a: Action) returns (t': Trace)
    requires IsTrace(job, t) && Enabled(job, t.Last(), a)
    ensures IsTrace(job, t') && t'.Last() == Apply(job, t.Last(), a)
  {
    ExtendRun(job, t.states, t.actions, a);
    t' := Trace(t.states + [Apply(job, t.Last(), a)], t.actions + [a]);
  }

  /** Step i takes one action of its own and only its own record changes. */
  lemma PushStep(job: Job, t: Trace, i: nat, what: LocalAction, after: Step) returns (t': Trace)
    requires IsTrace(job, t) && i < |t.Last().steps| && !what.PassGateOnCancel?
    requires LocalEnabled(job.steps[i], GateOpen(job, t.Last(), i), t.Last().run, t.Last().steps[i], what)
    requires after == LocalApply(job.steps[i], GateOpen(job, t.Last(), i), t.Last().run, t.Last().steps[i], what)
    ensures IsTrace(job, t') && t'.Last() == t.Last().(steps := t.Last().steps[i := after])
  {
    t' := Push(job, t, StepDoes(i, what));
  }

  /** Drive a fresh, released step into streaming. */
  lemma OpenStep(job: Job, t: Trace, i: nat) returns (t': Trace)
    requires IsTrace(job, t) && i < |t.Last().steps| && t.Last().steps[i] == INIT_STEP
    requires GateOpen(job, t.Last(), i) && t.Last().run.Live?
    ensures IsTrace(job, t')
    ensures t'.Last() == t.Last().(steps := t.Last().steps[i := INIT_STEP.(phase := Streaming, calls := 1, built := 1)])
  {
    t' := PushStep(job, t, i, OpenGate, INIT_STEP.(phase := Entered, calls := 1));
    t' := PushStep(job, t', i, PassGuard, INIT_STEP.(phase := Resolving, calls := 1));
    t' := PushStep(job, t', i, Build, INIT_STEP.(phase := Testing, calls := 1, built := 1));
    t' := PushStep(job, t', i, PassTest, INIT_STEP.(phase := Querying, calls := 1, built := 1));
    t' := PushStep(job, t', i, OpenCursor, INIT_STEP.(phase := Streaming, calls := 1, built := 1));
  }

  /** Record a successful result and signal completion. */
  lemma FinishStep(job: Job, t: Trace, i: nat, st: Step) returns (t': Trace)
    requires IsTrace(job, t) && i < |t.Last().steps| && st == t.Last().steps[i]
    requires st.phase.Recording? && st.result.Ok?
    ensures IsTrace(job, t')
    ensures t'.Last() == t.Last().(
              steps := t.Last().steps[i := st.(phase := Finished, doneCloses := st.doneCloses + 1)],
              rowCounts := t.Last().rowCounts[i := st.result.count])
  {
    t' := Push(job, t, Record(i));
    t' := PushStep(job, t', i, Signal, st.(phase := Finished, doneCloses := st.doneCloses + 1));
  }

  /** Let a step that has its result run its deferred actions to the end. */
  lemma CloseStep(job: Job, t: Trace, i: nat, st: Step) returns (t': Trace)
    requires IsTrace(job, t) && i < |t.Last().steps| && st == t.Last().steps[i]
    requires st.phase.ClosingConnector? && st.result.Ok?
    ensures IsTrace(job, t')
    ensures t'.Last() == t.Last().(
              steps := t.Last().steps[i := st.(phase := Finished, closed := st.closed + 1,
                                               channelCloses := st.channelCloses + 1, doneCloses := st.doneCloses + 1)],
              rowCounts := t.Last().rowCounts[i := st.result.count])
  {
    var s1 := st.(phase := ClosingChannel, closed := st.closed + 1);
    t' := PushStep(job, t, i, CloseConnector, s1);
    var s2 := s1.(phase := Recording, channelCloses := st.channelCloses + 1);
    t' := PushStep(job, t', i, CloseChannel, s2);
    t' := FinishStep(job, t', i, s2);
  }

  function IdleJob(n: nat, w: nat): Job {
    Job(seq(n, _ => Work("", [])), w, 0, (_: Bytes) => "")
  }

  lemma StartTrace(job: Job) returns (t: Trace)
    ensures IsTrace(job, t) && t.Last() == Init(job)
  {
    t := Trace([Init(job)], []);
  }

  /**
   * The exact boundary of the "lowest incomplete" remark: for every window of at least two
   * and every plan two or more steps longer, some run has a working step with W incomplete
   * steps below it.  LowestRunningHolds covers all other cases.
   */
  lemma LowestRunningFails(n: nat, w: nat) returns (job: Job, t: Trace)
    requires w >= 2 && n >= w + 2
    ensures |job.steps| == n && job.Window() == w
    ensures IsTrace(job, t) && !LowestRunning(job, t.Last())
  {
    job := IdleJob(n, w);
    t := StartTrace(job);
    t := OpenStep(job, t, 1);
    var done := INIT_STEP.(phase := ClosingConnector, calls := 1, built := 1, result := Ok(0));
    t := PushStep(job, t, 1, EndStream, done);
    t := CloseStep(job, t, 1, done);
    t := OpenStep(job, t, w + 1);
    StepsBelow(job, t.Last(), w);
  }

  lemma StepsBelow(job: Job, s: State, w: nat)
    requires w >= 2 && job.Window() == w && |s.steps| >= w + 2
    requires s.steps[1].phase.Finished? && Working(s.steps[w + 1].phase)
    requires forall i | 0 <= i <= w && i != 1 :: !s.steps[i].phase.Finished?
    ensures !LowestRunning(job, s)
  {
    assert IncompleteBelow(s, w + 1) == Below(w + 1) - {1};
    assert Below(w + 1) == (Below(w + 1) - {1}) + {1};
  }

  /** One row per step, one worker. */
  function OneRowJob(n: nat): Job {
    Job(seq(n, _ => Work("", [Some("\n")])), 1, 0, (_: Bytes) => "")
  }

  ghost predicate AllQueued(job: Job, s: State, k: nat) {
    && Shaped(job, s) && k <= |s.steps|
    && s.run.Live? && s.writer.written == "" && s.writer.hand.None?
    && (forall i | 0 <= i < k :: s.steps[i].phase.Finished? && s.steps[i].queue != [])
    && (forall i | k <= i < |s.steps| :: s.steps[i] == INIT_STEP)
  }

  lemma QueueOne(job: Job, n: nat, t: Trace, k: nat) returns (t': Trace)
    requires job == OneRowJob(n) && k < n && IsTrace(job, t) && AllQueued(job, t.Last(), k)
    ensures IsTrace(job, t') && AllQueued(job, t'.Last(), k + 1)
  {
    t' := OpenStep(job, t, k);
    var st := INIT_STEP.(phase := Streaming, calls := 1, built := 1, read := 1, buf := "" + "\n", pending := 1);
    t' := PushStep(job, t', k, NextRow, st);
    t' := PushStep(job, t', k, EndStream, st.(phase := Sending(true)));
    var sent := st.(phase := ClosingConnector, result := Ok(1), queue := [Batch(st.buf, 1)], buf := "", pending := 0);
    t' := PushStep(job, t', k, Send, sent);
    t' := CloseStep(job, t', k, sent);
  }

  lemma {:induction false} QueueMany(job: Job, n: nat, k: nat) returns (t: Trace)
    requires job == OneRowJob(n) && k <= n
    ensures IsTrace(job, t) && AllQueued(job, t.Last(), k)
  {
    if k == 0 {
      t := StartTrace(job);
    } else {
      t := QueueMany(job, n, k - 1);
      t := QueueOne(job, n, t, k - 1);
    }
  }

  /** However small the window, a run can have every batch of the result in flight at once. */
  lemma InFlightBatchesUnboundedByWindow(n: nat) returns (job: Job, t: Trace)
    ensures job.Window() == 1 && IsTrace(job, t)
    ensures |Queued(t.Last())| == n && t.Last().writer.written == ""
  {
    job := OneRowJob(n);
    t := QueueMany(job, n, n);
    assert Queued(t.Last()) == Below(n);
  }
}
