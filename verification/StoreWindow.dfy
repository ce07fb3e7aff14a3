// The ordinal window: how many steps work at once, what is in flight, and which of the
// design comments about the window hold.
module StoreWindow {
  import opened Engine
  import opened Lines
  import opened Sets
  import opened StoreMachine
  import opened StoreInvariant

  // ----- counting by residue -----

  /** i modulo w. */
  function Residue(i: nat, w: nat): (r: nat)
    requires w >= 1
    ensures r < w
  {
    if i < w then i else Residue(i - w, w)
  }

  lemma {:induction false} ClassmatesApart(i: nat, j: nat, w: nat)
    requires w >= 1 && i < j && Residue(i, w) == Residue(j, w)
    ensures w <= j - i
    decreases j
  {
    if j >= w && j - w < i && i >= w {
      ClassmatesApart(i - w, j - w, w);
    }
  }

  /** A finished chain covers every lower step of the residue class. */
  lemma {:induction false} ChainCovers(steps: seq<Step>, w: nat, i: nat, j: nat)
    requires w >= 1 && i < j < |steps| && Residue(i, w) == Residue(j, w) && Chain(steps, w, j)
    ensures steps[i].phase.Finished?
    decreases j
  {
    ClassmatesApart(i, j, w);
    if j - w != i {
      ChainCovers(steps, w, i, j - w);
    }
  }

  predicate DistinctResidues(a: set<nat>, w: nat)
    requires w >= 1
  {
    forall i, j | i in a && j in a && i < j :: Residue(i, w) != Residue(j, w)
  }

  function Residues(a: set<nat>, w: nat): set<nat>
    requires w >= 1
  {
    set i | i in a :: Residue(i, w)
  }

  lemma ResiduesInsert(rest: set<nat>, x: nat, w: nat)
    requires w >= 1 && x !in rest && DistinctResidues(rest + {x}, w)
    ensures Residues(rest + {x}, w) == Residues(rest, w) + {Residue(x, w)}
    ensures Residue(x, w) !in Residues(rest, w)
  {
    forall i | i in rest
      ensures Residue(i, w) != Residue(x, w)
    {
      assert i in rest + {x} && x in rest + {x};
    }
  }

  lemma {:induction false} ResiduesInjective(a: set<nat>, w: nat)
    requires w >= 1 && DistinctResidues(a, w)
    ensures |Residues(a, w)| == |a|
  {
    if a != {} {
      var x :| x in a;
      var rest := a - {x};
      assert rest + {x} == a;
      ResiduesInjective(rest, w);
      ResiduesInsert(rest, x, w);
    }
  }

  lemma ResiduesBound(a: set<nat>, w: nat)
    requires w >= 1 && DistinctResidues(a, w)
    ensures |a| <= w
  {
    ResiduesInjective(a, w);
    SubsetSize(Residues(a, w), Below(w));
  }

  // ----- window safety -----

  function WorkingSteps(s: State): set<nat> {
    set i: nat | i < |s.steps| && Working(s.steps[i].phase)
  }

  function OpenConnectors(s: State): set<nat> {
    set i: nat | i < |s.steps| && ConnectorOpen(s.steps[i].phase)
  }

  /** Steps whose encoder holds rows that are still to be sent. */
  function Encoding(s: State): set<nat> {
    set i: nat | i < |s.steps| && (s.steps[i].phase.Streaming? || s.steps[i].phase.Sending?) && s.steps[i].pending > 0
  }

  function Queued(s: State): set<nat> {
    set i: nat | i < |s.steps| && s.steps[i].queue != []
  }

  /** The batch step i has queued: 256 rows, or the rest of its rows. */
  predicate BatchSize(job: Job, s: State, i: nat)
    requires i < |s.steps| && s.steps[i].queue != []
  {
    var left := if i < |job.steps| then |job.steps[i].lines| - s.steps[i].drained else 0;
    s.steps[i].queue[0].rows == if left < 256 then left else 256
  }

  lemma WorkingWithinWindow(job: Job, s: State)
    requires Inv(job, s)
    ensures |WorkingSteps(s)| <= job.Window()
  {
    var w := job.Window();
    forall i, j | i in WorkingSteps(s) && j in WorkingSteps(s) && i < j
      ensures Residue(i, w) != Residue(j, w)
    {
      if Residue(i, w) == Residue(j, w) {
        assert WindowAt(w, s.steps, s.run, j);
        ChainCovers(s.steps, w, i, j);
        assert false;
      }
    }
    ResiduesBound(WorkingSteps(s), w);
  }

  /**
   * In every reachable state, cancelled ones included: at most W connectors are open, at
   * most W encoders hold rows, at most one batch is queued per step not yet drained, and no
   * batch anywhere exceeds 256 rows. A queued batch has fewer only if it ends its step.
   */
  lemma WindowSafety(job: Job, states: seq<State>, actions: seq<Action>, k: nat)
    requires Run(job, states, actions) && k < |states|
    ensures |OpenConnectors(states[k])| <= job.Window()
    ensures |Encoding(states[k])| <= job.Window()
    ensures |Queued(states[k])| <= |states[k].steps| - states[k].writer.ordinal
    ensures forall i | 0 <= i < |states[k].steps| ::
              && |states[k].steps[i].queue| <= 1 && states[k].steps[i].pending <= 256
              && (states[k].steps[i].queue != [] ==> BatchSize(job, states[k], i))
    ensures states[k].writer.hand.Some? ==> states[k].writer.hand.value.rows <= 256
  {
    var s := states[k];
    RunKeepsInv(job, states, actions, k);
    WorkingWithinWindow(job, s);
    SubsetSize(OpenConnectors(s), WorkingSteps(s));
    SubsetSize(Encoding(s), WorkingSteps(s));
    QueuedBehindWriter(s);
    forall i | 0 <= i < |s.steps|
      ensures |s.steps[i].queue| <= 1 && s.steps[i].pending <= 256
              && (s.steps[i].queue != [] ==> BatchSize(job, s, i))
    {
      assert StepAt(job.steps, s.steps, i);
    }
  }

  lemma QueuedBehindWriter(s: State)
    requires ChannelsInv(s.steps, s.writer.ordinal)
    ensures |Queued(s)| <= |s.steps| - s.writer.ordinal
  {
    var o, n := s.writer.ordinal, |s.steps|;
    SubsetSize(Queued(s), Below(n) - Below(o));
  }

  /**
   * The step the writer waits for, and every step before it, has a gate predecessor that has
   * closed its channel; and no two unfinished steps past their gate share a residue class.
   */
  lemma WriterTargetIsReleased(job: Job, states: seq<State>, actions: seq<Action>, k: nat)
    requires Run(job, states, actions) && k < |states|
    ensures forall i | 0 <= i < |states[k].steps| && i + job.Window() <= states[k].writer.ordinal ::
              ChannelClosed(states[k].steps[i].phase)
    ensures forall i, j | 0 <= i < j < |states[k].steps| && Residue(i, job.Window()) == Residue(j, job.Window()) ::
              Admitted(states[k].run, states[k].steps[j].phase) ==> states[k].steps[i].phase.Finished?
  {
    var s, w := states[k], job.Window();
    RunKeepsInv(job, states, actions, k);
    forall i, j | 0 <= i < j < |s.steps| && Residue(i, w) == Residue(j, w) && Admitted(s.run, s.steps[j].phase)
      ensures s.steps[i].phase.Finished?
    {
      assert WindowAt(w, s.steps, s.run, j);
      ChainCovers(s.steps, w, i, j);
    }
  }

  // ----- "the running steps are the W lowest incomplete ones" -----

  function IncompleteBelow(s: State, j: nat): set<nat>
    requires j <= |s.steps|
  {
    set i: nat | i < j && !s.steps[i].phase.Finished?
  }

  /** Every working step is among the W lowest-ordinal incomplete steps. */
  predicate LowestRunning(job: Job, s: State) {
    forall j | 0 <= j < |s.steps| && Working(s.steps[j].phase) :: |IncompleteBelow(s, j)| < job.Window()
  }

  lemma {:induction false} SerialChain(steps: seq<Step>, i: nat, j: nat)
    requires i < j < |steps| && Chain(steps, 1, j)
    ensures steps[i].phase.Finished?
    decreases j
  {
    if i < j - 1 {
      SerialChain(steps, i, j - 1);
    }
  }

  /** The claim holds for serial runs and for plans at most one step longer than the window. */
  lemma LowestRunningHolds(job: Job, states: seq<State>, actions: seq<Action>, k: nat)
    requires Run(job, states, actions) && k < |states|
    requires job.Window() == 1 || |job.steps| <= job.Window() + 1
    ensures LowestRunning(job, states[k])
  {
    var s, w := states[k], job.Window();
    RunKeepsInv(job, states, actions, k);
    forall j | 0 <= j < |s.steps| && Working(s.steps[j].phase)
      ensures |IncompleteBelow(s, j)| < w
    {
      assert WindowAt(w, s.steps, s.run, j);
      var low := Below(j);
      if w == 1 {
        forall i | i in IncompleteBelow(s, j)
          ensures false
        {
          SerialChain(s.steps, i, j);
        }
        assert IncompleteBelow(s, j) == {};
      } else if j < w {
        SubsetSize(IncompleteBelow(s, j), low);
      } else {
        assert s.steps[0].phase.Finished?;
        SubsetSize(IncompleteBelow(s, j), low - {0});
      }
    }
  }
}
