// The row counts both delivery modes report, and what they count.
module RowCounts {
  import opened Engine
  import opened Lines
  import opened Json
  import opened Rows
  import opened ByConfig
  import opened DirectPayload
  import Ndjson
  import DirectMachine
  import DirectProofs
  import StoreMachine
  import StoreInvariant
  import StoreDelivery

  // ----- what is counted -----

  function Lengths(t: Tables): map<string, nat> {
    map k | k in t :: |t[k]|
  }

  /** The rows of all tables together. */
  ghost function RowsHeld(t: Tables): nat {
    Sum(Lengths(t))
  }

  /** Grouping loses and invents no row: the tables of a step hold as many rows as its cursor gave. */
  lemma {:induction false} GroupHoldsAll(pairs: seq<Pair>)
    ensures RowsHeld(Group(pairs)) == |pairs|
  {
    if pairs == [] {
      assert Lengths(Group(pairs)) == map[];
    } else {
      var front, p := pairs[..|pairs| - 1], pairs[|pairs| - 1];
      var before := Group(front);
      GroupHoldsAll(front);
      assert Lengths(Group(pairs)) == Lengths(before)[p.table := |RowsIn(before, p.table)| + 1];
      SumUpdate(Lengths(before), p.table, |RowsIn(before, p.table)| + 1);
    }
  }

  // ----- the store path counts the same -----

  lemma {:induction false} StoreCountsPairs(steps: seq<StepRows>)
    ensures StoreDelivery.LineCounts(Ndjson.Works(steps)) == RowsPerStep(steps)
    ensures StoreMachine.Configs(Ndjson.Works(steps)) == Names(steps)
  {
    forall i | 0 <= i < |steps|
      ensures |Ndjson.Works(steps)[i].lines| == |steps[i].pairs|
    {
      LinesOfAt(steps[i].config, steps[i].pairs);
    }
  }

  lemma {:induction false} LinesTotal(works: seq<Work>, counts: seq<nat>, k: nat)
    requires k <= |works| == |counts| && forall i | 0 <= i < |works| :: |works[i].lines| == counts[i]
    ensures RowTotal(works, k) == Total(counts[..k])
  {
    if k > 0 {
      LinesTotal(works, counts, k - 1);
      TotalOneMore(counts, k - 1);
    }
  }

  lemma StoreTotal(steps: seq<StepRows>)
    ensures RowTotal(Ndjson.Works(steps), |steps|) == Total(RowsPerStep(steps))
  {
    StoreCountsPairs(steps);
    var works, counts := Ndjson.Works(steps), RowsPerStep(steps);
    assert forall i | 0 <= i < |works| :: StoreDelivery.LineCounts(works)[i] == counts[i];
    LinesTotal(works, counts, |steps|);
    assert counts[..|steps|] == counts;
  }

  /** A store run that delivers reports each step's rows under its config name, and their total. */
  lemma StoreReports(steps: seq<StepRows>, job: StoreMachine.Job, states: seq<StoreMachine.State>,
                     actions: seq<StoreMachine.Action>, k: nat, reference: StoreMachine.Delivery)
    requires job.steps == Ndjson.Works(steps) && StoreInvariant.Run(job, states, actions) && k < |states|
    requires states[k].main == StoreMachine.Returned(StoreMachine.Delivered(reference))
    ensures reference.rowCount == Total(RowsPerStep(steps))
    ensures reference.rowCounts == Merge(Names(steps), RowsPerStep(steps))
  {
    StoreDelivery.DeliveredThroughClose(job, states, actions, k);
    StoreCountsPairs(steps);
    StoreTotal(steps);
  }

  /**
   * The modes report the same counts: any store run and any direct run of one plan that both
   * deliver agree on the total and on the count of every config, whatever happened on the way.
   */
  lemma ModesCountAlike(steps: seq<StepRows>,
                        job: StoreMachine.Job, states: seq<StoreMachine.State>, actions: seq<StoreMachine.Action>,
                        k: nat, reference: StoreMachine.Delivery,
                        maxConcurrency: int, maxBytes: int, states': seq<DirectMachine.State>,
                        actions': seq<DirectMachine.Action>, k': nat, d: DirectMachine.Delivery)
    requires job.steps == Ndjson.Works(steps) && StoreInvariant.Run(job, states, actions) && k < |states|
    requires states[k].main == StoreMachine.Returned(StoreMachine.Delivered(reference))
    requires DirectProofs.Run(DirectJob(steps, maxConcurrency, maxBytes), states', actions') && k' < |states'|
    requires states'[k'].main == DirectMachine.Returned(DirectMachine.Delivered(d))
    ensures reference.rowCount == d.rowCount && reference.rowCounts == d.rowCounts
  {
    StoreReports(steps, job, states, actions, k, reference);
    DirectDeliversPayload(steps, maxConcurrency, maxBytes, states', actions', k', d);
  }

  /**
   * With unique config names the reported counts are those of the rows delivered: each config's
   * count is the number of rows in its tables, and the counts add up to the reported total.
   */
  lemma CountsAreRows(steps: seq<StepRows>)
    requires Unique(Names(steps))
    ensures Merge(Names(steps), RowsPerStep(steps)).Keys == Aggregated(steps).Keys
    ensures forall c | c in Aggregated(steps) ::
              Merge(Names(steps), RowsPerStep(steps))[c] == RowsHeld(Aggregated(steps)[c])
    ensures Sum(Merge(Names(steps), RowsPerStep(steps))) == Total(RowsPerStep(steps))
  {
    var names := Names(steps);
    MergeHolds(names, RowsPerStep(steps));
    MergeHolds(names, Groups(steps));
    SumMerge(names, RowsPerStep(steps));
    forall c | c in Aggregated(steps)
      ensures Merge(names, RowsPerStep(steps))[c] == RowsHeld(Aggregated(steps)[c])
    {
      var i :| 0 <= i < |names| && names[i] == c;
      GroupHoldsAll(steps[i].pairs);
    }
  }

  lemma {:induction false} RecordCount(config: string, pairs: seq<Pair>)
    ensures |Ndjson.Records(config, pairs)| == |pairs|
  {
    if pairs != [] {
      RecordCount(config, pairs[..|pairs| - 1]);
    }
  }

  lemma {:induction false} RecordsTotal(steps: seq<StepRows>, k: nat)
    requires k <= |steps|
    ensures |Ndjson.PlanRecords(steps, k)| == Total(RowsPerStep(steps)[..k])
  {
    if k > 0 {
      RecordsTotal(steps, k - 1);
      RecordCount(steps[k - 1].config, steps[k - 1].pairs);
      TotalOneMore(RowsPerStep(steps), k - 1);
    }
  }

  /** The serial stream reads back, as exactly as many lines as the modes report rows. */
  lemma LinesReadBack(steps: seq<StepRows>)
    requires forall i | 0 <= i < |steps| :: Ndjson.Encodable(steps[i].pairs)
    ensures var r := Ndjson.ReadAll(Ndjson.ENVELOPE_READER, Output(Ndjson.Works(steps), |steps|));
            r.Some? && |r.value| == Total(RowsPerStep(steps))
  {
    Ndjson.EnvelopeReads();
    Ndjson.ReadOutput(Ndjson.ENVELOPE_READER, steps);
    RecordsTotal(steps, |steps|);
    assert RowsPerStep(steps)[..|steps|] == RowsPerStep(steps);
  }

  /** When a store run closes its sink, what it wrote reads back as as many lines as it then reports rows. */
  lemma StreamHoldsReportedRows(steps: seq<StepRows>, job: StoreMachine.Job, states: seq<StoreMachine.State>,
                                actions: seq<StoreMachine.Action>, k: nat)
    requires forall i | 0 <= i < |steps| :: Ndjson.Encodable(steps[i].pairs)
    requires job.steps == Ndjson.Works(steps) && StoreInvariant.Run(job, states, actions)
    requires k < |actions| && actions[k].CloseSink? && actions[k].reference.protectionValid
    ensures states[k + 1].main.Returned? && states[k + 1].main.result.Delivered?
    ensures var r := Ndjson.ReadAll(Ndjson.ENVELOPE_READER, states[k].writer.written);
            r.Some? && |r.value| == states[k + 1].main.result.reference.rowCount
  {
    StoreDelivery.CloseMeansWholeOutput(job, states, actions, k);
    LinesReadBack(steps);
    StoreTotal(steps);
  }
}
