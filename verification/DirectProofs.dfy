// Every action of the direct pool keeps the invariant, and so every run does.
module DirectProofs {
  import opened Engine
  import opened Sets
  import opened DirectMachine
  import opened DirectInvariant

  lemma LocalKeepsStep(limited: bool, run: Context, st: Step, a: LocalAction)
    requires StepInv(limited, st) && LocalEnabled(run, st, a)
    requires st.phase.Entered? && run.Live? ==> st.slot
    ensures StepInv(limited, LocalApply(run, st, a))
    ensures LocalMove(st, LocalApply(run, st, a))
  {
  }

  lemma {:induction false} NothingSized(tasks: seq<Task>, steps: seq<Step>, k: nat)
    requires k <= |tasks| == |steps| && forall i | 0 <= i < |steps| :: !steps[i].sized
    ensures SizedSum(tasks, steps, k) == 0
  {
    if k > 0 {
      NothingSized(tasks, steps, k - 1);
    }
  }

  lemma InitInv(job: Job)
    ensures Inv(job, Init(job))
  {
    var s := Init(job);
    NothingSized(job.tasks, s.steps, |s.steps|);
    assert Slots(s.steps) == {};
  }

  // ----- preservation -----

  lemma {:induction false} SizedSumUpdate(tasks: seq<Task>, steps: seq<Step>, i: nat, t: Step, k: nat)
    requires i < |tasks| == |steps| && k <= |steps| && (steps[i].sized ==> t.sized)
    ensures SizedSum(tasks, steps[i := t], k) ==
            SizedSum(tasks, steps, k) + if i < k && t.sized && !steps[i].sized then SizeOf(tasks[i]) else 0
  {
    if k > 0 {
      SizedSumUpdate(tasks, steps, i, t, k - 1);
    }
  }

  lemma MoveKeepsSlots(steps: seq<Step>, i: nat, t: Step)
    requires i < |steps| && (t.slot ==> steps[i].slot)
    ensures |Slots(steps[i := t])| <= |Slots(steps)|
  {
    SubsetSize(Slots(steps[i := t]), Slots(steps));
  }

  lemma MoveKeepsSteps(job: Job, steps: seq<Step>, i: nat, t: Step)
    requires StepsInv(job, steps) && i < |steps| && StepInv(job.maxBytes > 0, t)
    ensures StepsInv(job, steps[i := t])
  {
    var after := steps[i := t];
    forall k | 0 <= k < |after|
      ensures StepAt(job, after, k)
    {
      assert StepAt(job, steps, k);
    }
  }

  lemma MoveKeepsEntry(run: Context, steps: seq<Step>, i: nat, t: Step)
    requires EntryInv(run, steps) && i < |steps| && (t.phase.Entered? && run.Live? ==> t.slot)
    ensures EntryInv(run, steps[i := t])
  {
    var after := steps[i := t];
    forall k | 0 <= k < |after|
      ensures EntryAt(run, after, k)
    {
      assert EntryAt(run, steps, k);
    }
  }

  lemma MoveKeepsRecord(steps: seq<Step>, first: Option<EngineError>, i: nat, t: Step)
    requires RecordInv(steps, first) && i < |steps|
    requires Recorded(t.phase) || Recorded(steps[i].phase) ==>
               Recorded(steps[i].phase) && Recorded(t.phase) && t.result == steps[i].result
    ensures RecordInv(steps[i := t], first)
  {
    var after := steps[i := t];
    forall k | 0 <= k < |after|
      ensures RecordAt(after, first, k)
    {
      assert RecordAt(steps, first, k);
    }
    if first.Some? {
      var k :| 0 <= k < |steps| && RecordedAs(steps, first.value, k);
      assert RecordedAs(after, first.value, k);
    }
  }

  lemma MoveKeepsSize(job: Job, steps: seq<Step>, running: nat, i: nat, t: Step)
    requires SizeInv(job, steps, running) && i < |steps| && t.sized == steps[i].sized
    requires t.sized ==> t.result == steps[i].result
    ensures SizeInv(job, steps[i := t], running)
  {
    var after := steps[i := t];
    SizedSumUpdate(job.tasks, steps, i, t, |steps|);
    forall k | 0 <= k < |after|
      ensures LimitAt(job, after, running, k)
    {
      assert LimitAt(job, steps, running, k);
    }
  }

  lemma MoveKeepsCross(job: Job, steps: seq<Step>, running: nat, i: nat, t: Step)
    requires CrossInv(job, steps, running) && i < |steps| && t.sized == steps[i].sized
    requires t.sized ==> t.result == steps[i].result
    ensures CrossInv(job, steps[i := t], running)
  {
    if job.OverLimit(running) {
      var k :| 0 <= k < |steps| && CrossedAt(steps, k);
      assert CrossedAt(steps[i := t], k);
    }
  }

  lemma MoveKeepsSlotRows(job: Job, steps: seq<Step>, results: seq<Slot>, i: nat, t: Step)
    requires SlotsInv(job, steps, results) && i < |steps| && (t.result.Ok? ==> steps[i].result.Ok?)
    ensures SlotsInv(job, steps[i := t], results)
  {
    var after := steps[i := t];
    forall k | 0 <= k < |after|
      ensures SlotAt(job, after, results, k)
    {
      assert SlotAt(job, steps, results, k);
    }
  }

  lemma UnfinishedMeansJoining(job: Job, s: State, i: nat)
    requires MainInv(job, s) && i < |s.steps| && !s.steps[i].phase.Finished?
    ensures s.main.Joining?
  {
  }

  lemma StepKeepsInv(job: Job, s: State, i: nat, what: LocalAction)
    requires Inv(job, s) && Enabled(job, s, StepDoes(i, what))
    ensures Inv(job, Apply(job, s, StepDoes(i, what)))
  {
    var t := LocalApply(s.run, s.steps[i], what);
    assert StepAt(job, s.steps, i) && EntryAt(s.run, s.steps, i);
    LocalKeepsStep(job.maxBytes > 0, s.run, s.steps[i], what);
    MoveKeepsInv(job, s, i, t);
  }

  lemma MoveKeepsInv(job: Job, s: State, i: nat, t: Step)
    requires Inv(job, s) && i < |s.steps| && StepInv(job.maxBytes > 0, t) && LocalMove(s.steps[i], t)
    requires t.phase.Entered? ==> s.run.Done?
    ensures Inv(job, s.(steps := s.steps[i := t]))
  {
    MoveKeepsSteps(job, s.steps, i, t);
    MoveKeepsEntry(s.run, s.steps, i, t);
    MoveKeepsRecord(s.steps, s.first, i, t);
    MoveKeepsSize(job, s.steps, s.running, i, t);
    MoveKeepsCross(job, s.steps, s.running, i, t);
    MoveKeepsSlotRows(job, s.steps, s.results, i, t);
    MoveKeepsSlots(s.steps, i, t);
    UnfinishedMeansJoining(job, s, i);
  }

  lemma AcquireKeepsInv(job: Job, s: State, i: nat)
    requires Inv(job, s) && Enabled(job, s, Acquire(i))
    ensures Inv(job, Apply(job, s, Acquire(i)))
  {
    var t := s.steps[i].(phase := Entered, slot := true, calls := s.steps[i].calls + 1);
    assert StepAt(job, s.steps, i);
    MoveKeepsSteps(job, s.steps, i, t);
    MoveKeepsEntry(s.run, s.steps, i, t);
    MoveKeepsRecord(s.steps, s.first, i, t);
    MoveKeepsSize(job, s.steps, s.running, i, t);
    MoveKeepsCross(job, s.steps, s.running, i, t);
    MoveKeepsSlotRows(job, s.steps, s.results, i, t);
    UnfinishedMeansJoining(job, s, i);
    assert Slots(s.steps[i := t]) == Slots(s.steps) + {i};
  }

  lemma MeasureKeepsSize(job: Job, s: State, i: nat)
    requires Shaped(job, s) && SizeInv(job, s.steps, s.running) && i < |s.steps| && !s.steps[i].sized
    ensures var s' := ApplyMeasure(job, s, i); SizeInv(job, s'.steps, s'.running)
  {
    var s' := ApplyMeasure(job, s, i);
    assert s'.steps == s.steps[i := s'.steps[i]];
    SizedSumUpdate(job.tasks, s.steps, i, s'.steps[i], |s.steps|);
    forall k | 0 <= k < |s'.steps|
      ensures LimitAt(job, s'.steps, s'.running, k)
    {
      assert LimitAt(job, s.steps, s.running, k);
    }
  }

  lemma MeasureKeepsCross(job: Job, s: State, i: nat)
    requires Shaped(job, s) && CrossInv(job, s.steps, s.running) && i < |s.steps| && !s.steps[i].sized
    ensures var s' := ApplyMeasure(job, s, i); CrossInv(job, s'.steps, s'.running)
  {
    var s' := ApplyMeasure(job, s, i);
    if job.OverLimit(s.running) {
      var k :| 0 <= k < |s.steps| && CrossedAt(s.steps, k);
      assert CrossedAt(s'.steps, k);
    } else if job.OverLimit(s'.running) {
      assert CrossedAt(s'.steps, i);
    }
  }

  lemma MeasureKeepsSlotRows(job: Job, s: State, i: nat)
    requires Shaped(job, s) && SlotsInv(job, s.steps, s.results) && i < |s.steps|
    ensures var s' := ApplyMeasure(job, s, i); SlotsInv(job, s'.steps, s'.results)
  {
    var s' := ApplyMeasure(job, s, i);
    forall k | 0 <= k < |s'.steps|
      ensures SlotAt(job, s'.steps, s'.results, k)
    {
      assert SlotAt(job, s.steps, s.results, k);
    }
  }

  lemma MeasureKeepsInv(job: Job, s: State, i: nat)
    requires Inv(job, s) && Enabled(job, s, Measure(i))
    ensures Inv(job, Apply(job, s, Measure(i)))
  {
    var s' := ApplyMeasure(job, s, i);
    var t := s'.steps[i];
    assert StepAt(job, s.steps, i);
    assert StepInv(job.maxBytes > 0, t);
    assert s'.steps == s.steps[i := t];
    MoveKeepsSteps(job, s.steps, i, t);
    MoveKeepsEntry(s.run, s.steps, i, t);
    MoveKeepsRecord(s.steps, s.first, i, t);
    MeasureKeepsSize(job, s, i);
    MeasureKeepsCross(job, s, i);
    MeasureKeepsSlotRows(job, s, i);
    MoveKeepsSlots(s.steps, i, t);
    UnfinishedMeansJoining(job, s, i);
  }

  lemma RecordKeepsRecord(s: State, i: nat)
    requires RecordInv(s.steps, s.first) && i < |s.steps| && s.steps[i].phase.Recording?
    ensures RecordInv(ApplyRecord(s, i).steps, ApplyRecord(s, i).first)
  {
    var s' := ApplyRecord(s, i);
    forall k | 0 <= k < |s'.steps|
      ensures RecordAt(s'.steps, s'.first, k)
    {
      assert RecordAt(s.steps, s.first, k);
    }
    if s.first.Some? {
      var k :| 0 <= k < |s.steps| && RecordedAs(s.steps, s.first.value, k);
      assert RecordedAs(s'.steps, s'.first.value, k);
    } else if s.steps[i].result.Failed? {
      assert RecordedAs(s'.steps, s'.first.value, i);
    }
  }

  lemma RecordKeepsStep(limited: bool, st: Step)
    requires StepInv(limited, st) && st.phase.Recording?
    ensures StepInv(limited, AfterRecord(st))
  {
  }

  lemma RecordKeepsInv(job: Job, s: State, i: nat)
    requires Inv(job, s) && Enabled(job, s, Record(i))
    ensures Inv(job, Apply(job, s, Record(i)))
  {
    var s' := ApplyRecord(s, i);
    var t := AfterRecord(s.steps[i]);
    assert StepAt(job, s.steps, i);
    RecordKeepsStep(job.maxBytes > 0, s.steps[i]);
    assert s'.steps == s.steps[i := t];
    MoveKeepsSteps(job, s.steps, i, t);
    MoveKeepsEntry(s.run, s.steps, i, t);
    EntryLater(s.run, s'.run, s'.steps);
    RecordKeepsRecord(s, i);
    MoveKeepsSize(job, s.steps, s.running, i, t);
    MoveKeepsCross(job, s.steps, s.running, i, t);
    MoveKeepsSlotRows(job, s.steps, s.results, i, t);
    MoveKeepsSlots(s.steps, i, t);
    UnfinishedMeansJoining(job, s, i);
  }

  lemma EntryLater(run: Context, run': Context, steps: seq<Step>)
    requires EntryInv(run, steps) && (run'.Live? ==> run.Live?)
    ensures EntryInv(run', steps)
  {
    forall k | 0 <= k < |steps|
      ensures EntryAt(run', steps, k)
    {
      assert EntryAt(run, steps, k);
    }
  }

  lemma CallerKeepsInv(job: Job, s: State, a: Action)
    requires Inv(job, s) && Enabled(job, s, a) && (a.Join? || a.Assemble? || a.EndHost?)
    ensures Inv(job, Apply(job, s, a))
  {
    EntryLater(s.run, Apply(job, s, a).run, s.steps);
  }

  lemma ActionKeepsInv(job: Job, s: State, a: Action)
    requires Inv(job, s) && Enabled(job, s, a)
    ensures Inv(job, Apply(job, s, a))
  {
    match a
    case StepDoes(i, what) => StepKeepsInv(job, s, i, what);
    case Acquire(i) => AcquireKeepsInv(job, s, i);
    case Measure(i) => MeasureKeepsInv(job, s, i);
    case Record(i) => RecordKeepsInv(job, s, i);
    case _ => CallerKeepsInv(job, s, a);
  }

  // ----- runs -----

  ghost predicate Run(job: Job, states: seq<State>, actions: seq<Action>) {
    && |states| == |actions| + 1
    && states[0] == Init(job)
    && forall k | 0 <= k < |actions| ::
         Shaped(job, states[k]) && Enabled(job, states[k], actions[k])
         && states[k + 1] == Apply(job, states[k], actions[k])
  }

  lemma {:induction false} RunKeepsInv(job: Job, states: seq<State>, actions: seq<Action>, k: nat)
    requires Run(job, states, actions) && k < |states|
    ensures Inv(job, states[k])
  {
    if k == 0 {
      InitInv(job);
    } else {
      RunKeepsInv(job, states, actions, k - 1);
      ActionKeepsInv(job, states[k - 1], actions[k - 1]);
    }
  }
}
