// The store pipeline never deadlocks and always ends, and what has happened when it ends.
module StoreProgress {
  import opened Engine
  import opened Lines
  import opened StoreMachine
  import opened StoreInvariant

  // ----- deadlock freedom -----

  /** A goroutine that is neither parked on its gate nor on a full channel can always move. */
  lemma BusyStepMoves(spec: Work, gateOpen: bool, run: Context, st: Step) returns (what: LocalAction)
    requires !st.phase.Recording? && !st.phase.Finished?
    requires st.phase.Waiting? ==> gateOpen || run.Done?
    requires st.phase.Sending? ==> st.queue == [] || run.Done?
    ensures LocalEnabled(spec, gateOpen, run, st, what)
    ensures what.PassGateOnCancel? ==> !gateOpen
  {
    match st.phase
    case Waiting => what := if gateOpen then OpenGate else PassGateOnCancel;
    case Entered => what := if run.Live? then PassGuard else StopAtGuard;
    case Resolving => what := Build;
    case Testing => what := PassTest;
    case Querying => what := OpenCursor;
    case Streaming =>
      what := if st.read < |spec.lines| then (if spec.lines[st.read].Some? then NextRow else FailMarshal)
              else if run.Live? then EndStream else StopOnCancel;
    case Sending(_) => what := if st.queue == [] then Send else CancelSend;
    case ClosingConnector => what := CloseConnector;
    case ClosingChannel => what := CloseChannel;
    case Signalling => what := Signal;
  }

  lemma BusyActs(job: Job, s: State, i: nat) returns (a: Action)
    requires Shaped(job, s) && i < |s.steps| && !s.steps[i].phase.Finished?
    requires s.steps[i].phase.Waiting? ==> GateOpen(job, s, i) || s.run.Done?
    requires s.steps[i].phase.Sending? ==> s.steps[i].queue == [] || s.run.Done?
    ensures !a.EndHost? && Enabled(job, s, a)
  {
    if s.steps[i].phase.Recording? {
      a := Record(i);
    } else {
      var what := BusyStepMoves(job.steps[i], GateOpen(job, s, i), s.run, s.steps[i]);
      a := StepDoes(i, what);
    }
  }

  /** The step the writer is parked on can move, or the step its gate waits for can. */
  lemma TargetActs(job: Job, s: State, o: nat) returns (a: Action)
    requires Shaped(job, s) && o < |s.steps| && !ChannelClosed(s.steps[o].phase) && s.steps[o].queue == []
    requires forall k | 0 <= k < o :: ChannelClosed(s.steps[k].phase) && s.steps[k].queue == []
    ensures !a.EndHost? && Enabled(job, s, a)
  {
    if s.steps[o].phase.Waiting? && !GateOpen(job, s, o) {
      a := BusyActs(job, s, o - job.Window());
    } else {
      a := BusyActs(job, s, o);
    }
  }

  /** While the writer runs, it or the step it is waiting for can move. */
  lemma WriterSideActs(job: Job, s: State) returns (a: Action)
    requires Shaped(job, s) && StepsInv(job.steps, s.steps) && ChannelsInv(s.steps, s.writer.ordinal)
    requires s.writer.outcome.None?
    ensures !a.EndHost? && Enabled(job, s, a)
  {
    var o := s.writer.ordinal;
    if s.writer.hand.Some? {
      a := if job.OverLimit(s.writer.size) then TripLimit else WriteBatch;
    } else if o == |s.steps| {
      a := Report;
    } else if s.steps[o].queue != [] {
      a := Receive;
    } else {
      assert s.steps[o].channelCloses > 0 <==> ChannelClosed(s.steps[o].phase) by {
        assert StepAt(job.steps, s.steps, o);
        ClosedChannel(job.steps[o], s.steps[o]);
      }
      if s.steps[o].channelCloses > 0 {
        a := Advance;
      } else {
        a := TargetActs(job, s, o);
      }
    }
  }

  lemma UnfinishedSideActs(job: Job, s: State, i: nat) returns (a: Action)
    requires Inv(job, s) && i < |s.steps| && !s.steps[i].phase.Finished?
    ensures !a.EndHost? && Enabled(job, s, a)
  {
    if s.writer.outcome.None? {
      a := WriterSideActs(job, s);
    } else if WriterFailed(s.writer) {
      a := BusyActs(job, s, i);
    } else {
      // The writer saw every channel closed, so step i only has its last actions left.
      assert ChannelClosed(s.steps[i].phase);
      a := BusyActs(job, s, i);
    }
  }

  lemma SomeoneActs(job: Job, s: State) returns (a: Action)
    requires Inv(job, s) && !Terminal(s)
    ensures !a.EndHost? && Enabled(job, s, a)
  {
    if i :| 0 <= i < |s.steps| && !s.steps[i].phase.Finished? {
      a := UnfinishedSideActs(job, s, i);
    } else {
      match s.main
      case Joining => a := Join;
      case Awaiting(_) =>
        if s.writer.outcome.Some? {
          a := Collect;
        } else {
          a := WriterSideActs(job, s);
        }
      case Finalising(_, _, _) => a := CloseSink(SinkReference(None, 0, true));
    }
  }

  /** Every state a run can reach, whatever failed or was cancelled, is terminal or can move by itself. */
  lemma NoDeadlock(job: Job, states: seq<State>, actions: seq<Action>)
    requires Run(job, states, actions)
    ensures forall k | 0 <= k < |states| && !Terminal(states[k]) ::
              Shaped(job, states[k]) && exists a: Action :: !a.EndHost? && Enabled(job, states[k], a)
  {
    forall k | 0 <= k < |states| && !Terminal(states[k])
      ensures Shaped(job, states[k]) && exists a: Action :: !a.EndHost? && Enabled(job, states[k], a)
    {
      RunKeepsInv(job, states, actions, k);
      var a := SomeoneActs(job, states[k]);
      assert !a.EndHost? && Enabled(job, states[k], a);
    }
  }

  // ----- termination -----

  function Rank(p: Phase): nat {
    match p
    case Waiting => 12
    case Entered => 11
    case Resolving => 10
    case Testing => 9
    case Querying => 8
    case Streaming => 6
    case Sending(_) => 5
    case ClosingConnector => 4
    case ClosingChannel => 3
    case Recording => 2
    case Signalling => 1
    case Finished => 0
  }

  /** An unread row is worth 5: reading it, sending, receiving and writing the batch it may complete. */
  function StepMeasure(spec: Work, st: Step): nat {
    Rank(st.phase) + (if st.read <= |spec.lines| then 5 * (|spec.lines| - st.read) else 0)
    + 2 * |st.queue| + if st.pending > 0 then 4 else 0
  }

  function StepsMeasure(specs: seq<Work>, steps: seq<Step>, k: nat): nat
    requires k <= |specs| == |steps|
  {
    if k == 0 then 0 else StepsMeasure(specs, steps, k - 1) + StepMeasure(specs[k - 1], steps[k - 1])
  }

  function WriterMeasure(n: nat, w: Writer): nat {
    (if w.ordinal <= n then n - w.ordinal else 0)
    + (if w.hand.Some? then 1 else 0) + if w.outcome.None? then 1 else 0
  }

  function MainMeasure(m: Main): nat {
    match m
    case Joining => 3
    case Awaiting(_) => 2
    case Finalising(_, _, _) => 1
    case Returned(_) => 0
  }

  function Measure(job: Job, s: State): nat
    requires Shaped(job, s)
  {
    StepsMeasure(job.steps, s.steps, |s.steps|) + WriterMeasure(|s.steps|, s.writer)
    + MainMeasure(s.main) + if s.host.Live? then 1 else 0
  }

  lemma {:induction false} StepsMeasureUpdate(specs: seq<Work>, steps: seq<Step>, i: nat, t: Step, k: nat)
    requires i < |specs| == |steps| && k <= |steps|
    ensures StepsMeasure(specs, steps[i := t], k) ==
            StepsMeasure(specs, steps, k)
            + (if i < k then StepMeasure(specs[i], t) - StepMeasure(specs[i], steps[i]) else 0)
  {
    if k > 0 {
      StepsMeasureUpdate(specs, steps, i, t, k - 1);
    }
  }

  lemma LocalDecreases(spec: Work, gateOpen: bool, run: Context, st: Step, a: LocalAction)
    requires st.read <= |spec.lines| && (st.phase.Sending? ==> st.pending > 0)
    requires LocalEnabled(spec, gateOpen, run, st, a)
    ensures StepMeasure(spec, LocalApply(spec, gateOpen, run, st, a)) < StepMeasure(spec, st)
  {
  }

  lemma StepDecreases(job: Job, s: State, i: nat, what: LocalAction)
    requires Shaped(job, s) && StepsInv(job.steps, s.steps) && Enabled(job, s, StepDoes(i, what))
    ensures Measure(job, Apply(job, s, StepDoes(i, what))) < Measure(job, s)
  {
    assert s.steps[i].read <= |job.steps[i].lines| && (s.steps[i].phase.Sending? ==> s.steps[i].pending > 0) by {
      assert StepAt(job.steps, s.steps, i);
    }
    var t := LocalApply(job.steps[i], GateOpen(job, s, i), s.run, s.steps[i], what);
    LocalDecreases(job.steps[i], GateOpen(job, s, i), s.run, s.steps[i], what);
    StepsMeasureUpdate(job.steps, s.steps, i, t, |s.steps|);
  }

  lemma RecordDecreases(job: Job, s: State, i: nat)
    requires Shaped(job, s) && Enabled(job, s, Record(i))
    ensures Measure(job, Apply(job, s, Record(i))) < Measure(job, s)
  {
    var s', t := ApplyRecord(s, i), s.steps[i].(phase := Signalling);
    assert s'.steps == s.steps[i := t] && s'.writer == s.writer && s'.main == s.main && s'.host == s.host;
    StepsMeasureUpdate(job.steps, s.steps, i, t, |s.steps|);
  }

  lemma CallerDecreases(job: Job, s: State, a: Action)
    requires Shaped(job, s) && Enabled(job, s, a)
    requires a.Join? || a.Collect? || a.CloseSink? || a.FailClose? || a.EndHost?
    ensures Measure(job, Apply(job, s, a)) < Measure(job, s)
  {
  }

  lemma WriterDecreases(job: Job, s: State, a: Action)
    requires Inv(job, s) && Enabled(job, s, a)
    requires a.Receive? || a.Advance? || a.TripLimit? || a.WriteBatch? || a.FailWrite? || a.Report?
    ensures Measure(job, Apply(job, s, a)) < Measure(job, s)
  {
    if a.Receive? {
      var o := s.writer.ordinal;
      StepsMeasureUpdate(job.steps, s.steps, o, Apply(job, s, a).steps[o], |s.steps|);
    }
  }

  /** Every action, a host cancel included, makes the measure strictly smaller. */
  lemma ActionDecreases(job: Job, s: State, a: Action)
    requires Inv(job, s) && Enabled(job, s, a)
    ensures Measure(job, Apply(job, s, a)) < Measure(job, s)
  {
    match a
    case StepDoes(i, what) => StepDecreases(job, s, i, what);
    case Record(i) => RecordDecreases(job, s, i);
    case Join => CallerDecreases(job, s, a);
    case Collect => CallerDecreases(job, s, a);
    case CloseSink(_) => CallerDecreases(job, s, a);
    case FailClose => CallerDecreases(job, s, a);
    case EndHost(_) => CallerDecreases(job, s, a);
    case _ => WriterDecreases(job, s, a);
  }

  lemma {:induction false} InitialMeasure(job: Job, k: nat)
    requires k <= |job.steps|
    ensures StepsMeasure(job.steps, Init(job).steps, k) == 12 * k + 5 * RowTotal(job.steps, k)
  {
    if k > 0 {
      InitialMeasure(job, k - 1);
    }
  }

  lemma {:induction false} RunSpendsMeasure(job: Job, states: seq<State>, actions: seq<Action>, k: nat)
    requires Run(job, states, actions) && k < |states|
    ensures Shaped(job, states[k]) && k + Measure(job, states[k]) <= Measure(job, Init(job))
  {
    RunKeepsInv(job, states, actions, k);
    if k > 0 {
      RunSpendsMeasure(job, states, actions, k - 1);
      RunKeepsInv(job, states, actions, k - 1);
      ActionDecreases(job, states[k - 1], actions[k - 1]);
    }
  }

  /** Every run, under every schedule, is at most this long; with NoDeadlock it therefore ends. */
  lemma RunsAreBounded(job: Job, states: seq<State>, actions: seq<Action>)
    requires Run(job, states, actions)
    ensures |actions| <= 13 * |job.steps| + 5 * RowTotal(job.steps, |job.steps|) + 5
  {
    RunSpendsMeasure(job, states, actions, |actions|);
    InitialMeasure(job, |job.steps|);
  }

  /** Any run can be carried on, without the host's help, until the caller returns. */
  lemma {:induction false} EveryRunCompletes(job: Job, states: seq<State>, actions: seq<Action>)
    returns (states': seq<State>, actions': seq<Action>)
    requires Run(job, states, actions)
    ensures Run(job, states', actions') && Terminal(states'[|actions'|])
    ensures states <= states' && actions <= actions'
    ensures forall k | |actions| <= k < |actions'| :: !actions'[k].EndHost?
    decreases 13 * |job.steps| + 5 * RowTotal(job.steps, |job.steps|) + 5 - |actions|
  {
    var s := states[|actions|];
    RunKeepsInv(job, states, actions, |actions|);
    if Terminal(s) {
      states', actions' := states, actions;
    } else {
      var a := SomeoneActs(job, s);
      ExtendRun(job, states, actions, a);
      var longer, more := states + [Apply(job, s, a)], actions + [a];
      RunsAreBounded(job, longer, more);
      states', actions' := EveryRunCompletes(job, longer, more);
    }
  }

  // ----- what has happened at the end -----

  /** Every connector that was built has been closed exactly once. */
  predicate ConnectorSettled(st: Step) {
    st.closed == st.built <= 1
  }

  /**
   * When the caller returns, every step function ran once, every channel and done channel
   * was closed once, and the writer reported once.  Each built connector was closed exactly
   * once unless a panic inside TestConnection lost it.
   */
  lemma EndedExactlyOnce(job: Job, states: seq<State>, actions: seq<Action>, k: nat)
    requires Run(job, states, actions) && k < |states| && Terminal(states[k])
    ensures states[k].writer.reports == 1
    ensures forall i | 0 <= i < |states[k].steps| ::
              var st := states[k].steps[i];
              && st.calls == 1 && st.channelCloses == 1 && st.doneCloses == 1
              && (ConnectorSettled(st) <==> !PanickedInTest(actions, i, k))
  {
    RunKeepsInv(job, states, actions, k);
    var s := states[k];
    forall i | 0 <= i < |s.steps|
      ensures var st := s.steps[i];
              && st.calls == 1 && st.channelCloses == 1 && st.doneCloses == 1
              && (ConnectorSettled(st) <==> !PanickedInTest(actions, i, k))
    {
      assert StepAt(job.steps, s.steps, i);
      assert s.steps[i].phase.Finished?;
      LostOnlyByTestPanic(job, states, actions, k, i);
    }
  }

  lemma AbandonedBy(job: Job, s: State, a: Action, i: nat)
    requires Shaped(job, s) && Enabled(job, s, a) && i < |s.steps|
    ensures i < |Apply(job, s, a).steps|
    ensures Apply(job, s, a).steps[i].abandoned <==> s.steps[i].abandoned || a == StepDoes(i, PanicInTest)
  {
  }

  ghost predicate PanickedInTest(actions: seq<Action>, i: nat, k: nat) {
    exists j :: 0 <= j < k <= |actions| && actions[j] == StepDoes(i, PanicInTest)
  }

  /** A connector is lost only by the one action that panics inside TestConnection. */
  lemma {:induction false} LostOnlyByTestPanic(job: Job, states: seq<State>, actions: seq<Action>, k: nat, i: nat)
    requires Run(job, states, actions) && k < |states| && i < |job.steps|
    ensures i < |states[k].steps|
    ensures states[k].steps[i].abandoned <==> PanickedInTest(actions, i, k)
  {
    if k > 0 {
      LostOnlyByTestPanic(job, states, actions, k - 1, i);
      AbandonedBy(job, states[k - 1], actions[k - 1], i);
      PanicStep(actions, i, k);
    }
  }

  lemma PanicStep(actions: seq<Action>, i: nat, k: nat)
    requires 0 < k <= |actions|
    ensures PanickedInTest(actions, i, k) <==>
            PanickedInTest(actions, i, k - 1) || actions[k - 1] == StepDoes(i, PanicInTest)
  {
  }
}
