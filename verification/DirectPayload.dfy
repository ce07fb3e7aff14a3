// The direct payload: merging the steps' rows and why the early size check is a lower bound.
module DirectPayload {
  import opened Engine
  import opened Lines
  import opened Json
  import opened JsonReader
  import opened PayloadReader
  import opened StringOrder
  import opened Rows
  import opened ByConfig
  import DirectMachine
  import DirectInvariant
  import DirectProofs
  import DirectTheorems

  // ----- sums over keys do not depend on the listing -----

  function CompactSize(m: map<string, Json>, key: string): nat {
    if key in m then |Compact(m[key])| else 0
  }

  function KeySum(keys: seq<string>, m: map<string, Json>): nat {
    if keys == [] then 0 else CompactSize(m, keys[0]) + KeySum(keys[1..], m)
  }

  lemma {:induction false} KeySumAppend(keys: seq<string>, x: string, m: map<string, Json>)
    ensures KeySum(keys + [x], m) == KeySum(keys, m) + CompactSize(m, x)
  {
    if keys == [] {
      assert keys + [x] == [x];
      assert [x][1..] == [];
    } else {
      assert (keys + [x])[1..] == keys[1..] + [x];
      KeySumAppend(keys[1..], x, m);
    }
  }

  lemma {:induction false} KeySumInsert(x: string, keys: seq<string>, m: map<string, Json>)
    ensures KeySum(Insert(x, keys), m) == KeySum(keys, m) + CompactSize(m, x)
  {
    if keys == [] {
      assert [x][1..] == [];
    } else if Leq(x, keys[0]) {
      assert ([x] + keys)[1..] == keys;
    } else {
      KeySumInsert(x, keys[1..], m);
      assert ([keys[0]] + Insert(x, keys[1..]))[1..] == Insert(x, keys[1..]);
    }
  }

  lemma {:induction false} KeySumSort(keys: seq<string>, m: map<string, Json>)
    ensures KeySum(Sort(keys), m) == KeySum(keys, m)
  {
    if keys != [] {
      KeySumSort(keys[1..], m);
      KeySumInsert(keys[0], Sort(keys[1..]), m);
    }
  }

  lemma {:induction false} MembersCarryKeySum(keys: seq<string>, m: map<string, Json>)
    requires forall k | k in keys :: k in m
    ensures ValueSizes(MembersOf(keys, m)) == KeySum(keys, m)
  {
    if keys != [] {
      var front, x := keys[..|keys| - 1], keys[|keys| - 1];
      MembersCarryKeySum(front, m);
      KeySumAppend(front, x, m);
      assert front + [x] == keys;
      var all := MembersOf(keys, m);
      assert all[..|all| - 1] == MembersOf(front, m);
    }
  }

  function SizeSum(values: seq<Json>): nat {
    if values == [] then 0 else SizeSum(values[..|values| - 1]) + |Compact(values[|values| - 1])|
  }

  lemma {:induction false} StepSizesAreKeySum(names: seq<string>, values: seq<Json>, m: map<string, Json>)
    requires |names| == |values|
    requires forall i | 0 <= i < |names| :: names[i] in m && m[names[i]] == values[i]
    ensures KeySum(names, m) == SizeSum(values)
  {
    if names != [] {
      var front, x := names[..|names| - 1], names[|names| - 1];
      StepSizesAreKeySum(front, values[..|values| - 1], m);
      KeySumAppend(front, x, m);
      assert front + [x] == names;
    }
  }

  lemma {:induction false} UniqueMultiset(names: seq<string>)
    requires Unique(names)
    ensures multiset(names) == multiset(set n | n in names)
  {
    if names != [] {
      var x, rest := names[|names| - 1], names[..|names| - 1];
      UniqueMultiset(rest);
      assert names == rest + [x];
      assert (set n | n in names) == (set n | n in rest) + {x};
      assert x !in rest;
    }
  }

  /** The compact sizes of the steps together fit in the indented payload. */
  lemma {:induction false} SizesFitPayload(names: seq<string>, values: seq<Json>)
    requires |names| == |values| && Unique(names)
    ensures SizeSum(values) <= |Indented(MapJson(Merge(names, values)), 0)|
  {
    var m := Merge(names, values);
    MergeHolds(names, values);
    StepSizesAreKeySum(names, values, m);
    UniqueMultiset(names);
    SortedKeysStrict(m.Keys);
    var keys := SortedKeys(m.Keys);
    SortSorts(names);
    SortedKeysUnique(m.Keys, Sort(names));
    KeySumSort(names, m);
    MembersCarryKeySum(keys, m);
    ValueSizesWithinObject(MembersOf(keys, m));
    CompactNoLongerThanIndented(MapJson(m), 0);
  }

  // ----- the direct job of a plan -----

  function Names(steps: seq<StepRows>): (ns: seq<string>)
    ensures |ns| == |steps|
  {
    seq(|steps|, i requires 0 <= i < |steps| => steps[i].config)
  }

  function Groups(steps: seq<StepRows>): (gs: seq<Tables>)
    ensures |gs| == |steps|
  {
    seq(|steps|, i requires 0 <= i < |steps| => Group(steps[i].pairs))
  }

  function RowsPerStep(steps: seq<StepRows>): (ns: seq<nat>)
    ensures |ns| == |steps|
  {
    seq(|steps|, i requires 0 <= i < |steps| => |steps[i].pairs|)
  }

  ghost function Values(steps: seq<StepRows>): (vs: seq<Json>)
    ensures |vs| == |steps|
  {
    seq(|steps|, i requires 0 <= i < |steps| => TablesJson(Group(steps[i].pairs)))
  }

  /** runDirectExtraction's aggregated map. */
  function Aggregated(steps: seq<StepRows>): map<string, Tables> {
    Merge(Names(steps), Groups(steps))
  }

  /** The bytes MarshalIndent returns for a merged map, or None when it fails. */
  ghost function MarshalIndent(m: map<string, Tables>): Option<Bytes> {
    var merged := MapJson(map c | c in m :: TablesJson(m[c]));
    if Marshalable(merged) then Some(Indented(merged, 0)) else None
  }

  ghost function TaskOf(step: StepRows): DirectMachine.Task {
    var value := TablesJson(Group(step.pairs));
    DirectMachine.Task(step.config, Group(step.pairs), |step.pairs|,
                       if Marshalable(value) then Some(|Compact(value)|) else None)
  }

  ghost function Tasks(steps: seq<StepRows>): (ts: seq<DirectMachine.Task>)
    ensures |ts| == |steps|
  {
    seq(|steps|, i requires 0 <= i < |steps| => TaskOf(steps[i]))
  }

  ghost function DirectJob(steps: seq<StepRows>, maxConcurrency: int, maxBytes: int): DirectMachine.Job {
    DirectMachine.Job(Tasks(steps), maxConcurrency, maxBytes, m => MarshalIndent(m))
  }

  /** The payload of a plan: its steps' values merged by name and printed. */
  ghost function Payload(steps: seq<StepRows>): Option<Bytes> {
    var merged := MapJson(Merge(Names(steps), Values(steps)));
    if Marshalable(merged) then Some(Indented(merged, 0)) else None
  }

  ghost function OwedDelivery(steps: seq<StepRows>): DirectMachine.Delivery
    requires Payload(steps).Some?
  {
    DirectMachine.Delivery(Payload(steps).value, Total(RowsPerStep(steps)), Merge(Names(steps), RowsPerStep(steps)))
  }

  lemma {:induction false} MergedValues(names: seq<string>, groups: seq<Tables>, values: seq<Json>)
    requires |names| == |groups| == |values|
    requires forall i | 0 <= i < |names| :: values[i] == TablesJson(groups[i])
    ensures (map c | c in Merge(names, groups) :: TablesJson(Merge(names, groups)[c])) == Merge(names, values)
  {
    if names != [] {
      var n := |names| - 1;
      MergedValues(names[..n], groups[..n], values[..n]);
    }
  }

  /** What the machine owes for the job of a plan is the plan's payload with its row counts. */
  lemma OwedIsPayload(steps: seq<StepRows>, maxConcurrency: int, maxBytes: int)
    ensures DirectTheorems.Owed(DirectJob(steps, maxConcurrency, maxBytes))
         == if Payload(steps).Some? then Some(OwedDelivery(steps)) else None
  {
    var slots := DirectTheorems.AllSlots(Tasks(steps));
    assert DirectMachine.Configs(slots) == Names(steps);
    assert DirectMachine.AllRows(slots) == Groups(steps);
    assert DirectMachine.Counts(slots) == RowsPerStep(steps);
    MergedValues(Names(steps), Groups(steps), Values(steps));
  }

  lemma {:induction false} MembersMarshalable(keys: seq<string>, m: map<string, Json>)
    requires forall k | k in keys :: k in m
    requires forall x | x in MembersOf(keys, m) :: Marshalable(x.value)
    ensures forall k | k in keys :: Marshalable(m[k])
  {
    if keys != [] {
      var last := keys[|keys| - 1];
      assert forall x | x in MembersOf(keys[..|keys| - 1], m) :: x in MembersOf(keys, m);
      MembersMarshalable(keys[..|keys| - 1], m);
      assert Member(Quote(last), m[last]) in MembersOf(keys, m);
      assert keys == keys[..|keys| - 1] + [last];
    }
  }

  lemma {:induction false} TotalIsSizeSum(steps: seq<StepRows>, k: nat)
    requires k <= |steps| && forall i | 0 <= i < |steps| :: Marshalable(Values(steps)[i])
    ensures DirectInvariant.TotalSize(Tasks(steps), k) == SizeSum(Values(steps)[..k])
  {
    if k > 0 {
      TotalIsSizeSum(steps, k - 1);
      assert Values(steps)[..k][..k - 1] == Values(steps)[..k - 1];
      assert Marshalable(Values(steps)[k - 1]);
    }
  }

  lemma {:induction false} PayloadNeedsEveryStep(names: seq<string>, values: seq<Json>)
    requires |names| == |values| && Unique(names) && Marshalable(MapJson(Merge(names, values)))
    ensures forall i | 0 <= i < |values| :: Marshalable(values[i])
  {
    var m := Merge(names, values);
    MergeHolds(names, values);
    SortedKeysStrict(m.Keys);
    MembersMarshalable(SortedKeys(m.Keys), m);
    forall i | 0 <= i < |values|
      ensures Marshalable(values[i])
    {
      assert names[i] in m.Keys;
      assert names[i] in SortedKeys(m.Keys);
    }
  }

  /** With unique config names the early check counts nothing the payload does not contain. */
  lemma DirectSizesSound(steps: seq<StepRows>, maxConcurrency: int, maxBytes: int)
    requires Unique(Names(steps))
    ensures DirectTheorems.SizesSound(DirectJob(steps, maxConcurrency, maxBytes))
  {
    OwedIsPayload(steps, maxConcurrency, maxBytes);
    if Payload(steps).Some? {
      PayloadNeedsEveryStep(Names(steps), Values(steps));
      SizesFitPayload(Names(steps), Values(steps));
      TotalIsSizeSum(steps, |steps|);
      assert Values(steps)[..|steps|] == Values(steps);
      forall i | 0 <= i < |steps|
        ensures Tasks(steps)[i].size.Some?
      {
        assert Marshalable(Values(steps)[i]);
      }
    }
  }

  // ----- what a payload says -----

  /** Every row is a tree of JSON tokens, as encoding/json prints them. */
  predicate AllWellFormed(steps: seq<StepRows>) {
    forall i, j | 0 <= i < |steps| && 0 <= j < |steps[i].pairs| :: WellFormed(steps[i].pairs[j].row)
  }

  lemma {:induction false} GroupWellFormed(pairs: seq<Pair>)
    requires forall j | 0 <= j < |pairs| :: WellFormed(pairs[j].row)
    ensures WellFormedRows(Group(pairs))
  {
    if pairs != [] {
      GroupWellFormed(pairs[..|pairs| - 1]);
      var before := Group(pairs[..|pairs| - 1]);
      assert forall t | t in before :: WellFormed(Arr(before[t]));
    }
  }

  lemma {:induction false} MergeWellFormed(names: seq<string>, groups: seq<Tables>)
    requires |names| == |groups| && forall i | 0 <= i < |groups| :: WellFormedRows(groups[i])
    ensures forall c | c in Merge(names, groups) :: WellFormedRows(Merge(names, groups)[c])
  {
    if names != [] {
      MergeWellFormed(names[..|names| - 1], groups[..|groups| - 1]);
    }
  }

  /** The payload of a plan reads back as its rows by config and table. */
  lemma PayloadHoldsRows(steps: seq<StepRows>)
    requires Payload(steps).Some? && AllWellFormed(steps)
    ensures ReadPayload(Payload(steps).value) == Some(Aggregated(steps))
  {
    forall i | 0 <= i < |steps|
      ensures WellFormedRows(Groups(steps)[i])
    {
      GroupWellFormed(steps[i].pairs);
    }
    MergeWellFormed(Names(steps), Groups(steps));
    MergedValues(Names(steps), Groups(steps), Values(steps));
    PayloadReadsBack(Aggregated(steps));
  }

  /**
   * Whatever fails or is cancelled on the way, and whatever the schedule, a run that delivers
   * returns exactly the plan's payload and row counts, and its payload reads back as the plan's
   * rows by config and table.
   */
  lemma DirectDeliversPayload(steps: seq<StepRows>, maxConcurrency: int, maxBytes: int,
                              states: seq<DirectMachine.State>, actions: seq<DirectMachine.Action>, k: nat,
                              d: DirectMachine.Delivery)
    requires DirectProofs.Run(DirectJob(steps, maxConcurrency, maxBytes), states, actions)
    requires k < |states| && states[k].main == DirectMachine.Returned(DirectMachine.Delivered(d))
    ensures Payload(steps).Some? && d == OwedDelivery(steps)
    ensures maxBytes > 0 ==> |d.payload| <= maxBytes
    ensures AllWellFormed(steps) ==> ReadPayload(d.payload) == Some(Aggregated(steps))
  {
    DirectTheorems.DeliveredIsWhole(DirectJob(steps, maxConcurrency, maxBytes), states, actions, k, d);
    OwedIsPayload(steps, maxConcurrency, maxBytes);
    if AllWellFormed(steps) {
      PayloadHoldsRows(steps);
    }
  }

  /**
   * The direct mode's size verdict for a whole plan: with unique config names, marshalable
   * rows and no outside failure, every schedule fails with the size-limit error exactly when
   * the indented payload exceeds the limit, and otherwise returns exactly that payload.
   */
  lemma DirectVerdict(steps: seq<StepRows>, maxConcurrency: int, maxBytes: int,
                      states: seq<DirectMachine.State>, actions: seq<DirectMachine.Action>, k: nat)
    requires Unique(Names(steps)) && Payload(steps).Some?
    requires DirectProofs.Run(DirectJob(steps, maxConcurrency, maxBytes), states, actions)
    requires k < |states| && DirectMachine.Terminal(states[k])
    requires forall j | 0 <= j < |actions| :: DirectTheorems.Benign(actions[j])
    ensures states[k].main.result ==
              if maxBytes > 0 && |Payload(steps).value| > maxBytes then DirectMachine.Aborted(LIMIT_ERROR)
              else DirectMachine.Delivered(OwedDelivery(steps))
  {
    DirectSizesSound(steps, maxConcurrency, maxBytes);
    OwedIsPayload(steps, maxConcurrency, maxBytes);
    DirectTheorems.VerdictIndependentOfSchedule(DirectJob(steps, maxConcurrency, maxBytes), states, actions, k);
  }

  // ----- equal config names -----

  predicate AllMarshal(values: seq<Json>) {
    forall i | 0 <= i < |values| :: Marshalable(values[i])
  }

  lemma PlanMarshalable(steps: seq<StepRows>, job: DirectMachine.Job)
    requires AllMarshal(Values(steps)) && job.tasks == Tasks(steps)
    ensures DirectTheorems.AllMarshalable(job)
    ensures DirectInvariant.TotalSize(job.tasks, |job.tasks|) == SizeSum(Values(steps))
  {
    TotalIsSizeSum(steps, |steps|);
    assert Values(steps)[..|steps|] == Values(steps);
    forall i | 0 <= i < |steps|
      ensures Tasks(steps)[i].size.Some?
    {
      assert Marshalable(Values(steps)[i]);
    }
  }

  /**
   * The verdict for any config names: without outside failures every schedule is refused exactly
   * when the compact step sizes together or the payload exceed the limit.
   */
  lemma DirectVerdictAnyNames(steps: seq<StepRows>, maxConcurrency: int, maxBytes: int,
                              states: seq<DirectMachine.State>, actions: seq<DirectMachine.Action>, k: nat)
    requires AllMarshal(Values(steps))
    requires DirectProofs.Run(DirectJob(steps, maxConcurrency, maxBytes), states, actions)
    requires k < |states| && DirectMachine.Terminal(states[k])
    requires forall j | 0 <= j < |actions| :: DirectTheorems.Benign(actions[j])
    ensures Payload(steps).Some?
    ensures states[k].main.result ==
              if maxBytes > 0 && (SizeSum(Values(steps)) > maxBytes || |Payload(steps).value| > maxBytes)
              then DirectMachine.Aborted(LIMIT_ERROR)
              else DirectMachine.Delivered(OwedDelivery(steps))
  {
    var job := DirectJob(steps, maxConcurrency, maxBytes);
    PayloadMarshals(steps);
    OwedIsPayload(steps, maxConcurrency, maxBytes);
    PlanMarshalable(steps, job);
    DirectTheorems.VerdictOfBothChecks(job, states, actions, k);
  }

  /** For every plan with these config names the compact step sizes fit in the payload. */
  ghost predicate BoundHolds(names: seq<string>) {
    forall steps: seq<StepRows> | Names(steps) == names ::
      SizeSum(Values(steps)) <= |Indented(MapJson(Merge(names, Values(steps))), 0)|
  }

  function EmptyRows(n: nat): seq<Pair> {
    seq(n, _ => Pair("", Obj([])))
  }

  lemma {:induction false} EmptyRowsGrouped(n: nat)
    requires n > 0
    ensures Group(EmptyRows(n)) == map["" := seq(n, _ => Obj([]))]
  {
    var pairs, one := EmptyRows(n), Obj([]);
    assert pairs[..n - 1] == EmptyRows(n - 1);
    if n == 1 {
      assert Group(pairs[..0]) == map[];
      assert [] + [one] == seq(1, _ => one);
    } else {
      EmptyRowsGrouped(n - 1);
      assert seq(n - 1, _ => one) + [one] == seq(n, _ => one);
    }
  }

  lemma {:induction false} ItemsAtLeast(items: seq<Json>)
    requires forall k | 0 <= k < |items| :: items[k] == Obj([])
    ensures |CompactItems(items)| >= |items|
  {
    if items != [] {
      ItemsAtLeast(items[..|items| - 1]);
      assert Compact(Obj([])) == "{}";
    }
  }

  lemma OneTable(rows: seq<Json>)
    ensures TablesJson(map["" := rows]) == Obj([Member(Quote(""), Arr(rows))])
  {
    var t: Tables := map["" := rows];
    var m := map k | k in t :: Arr(t[k]);
    assert m == map["" := Arr(rows)];
    SortedKeysUnique(m.Keys, [""]);
    assert [""][..0] == [];
    assert MembersOf([""], m) == [Member(Quote(""), Arr(rows))];
  }

  lemma OneMemberAtLeast(key: Bytes, value: Json)
    ensures |Compact(Obj([Member(key, value)]))| >= |Compact(value)|
  {
    assert CompactMembers([Member(key, value)]) == key + ":" + Compact(value);
  }

  /** Rows make a step as long as one likes. */
  lemma LongStep(n: nat)
    requires n > 0
    ensures |Compact(TablesJson(Group(EmptyRows(n))))| >= n
  {
    var rows := seq(n, _ => Obj([]));
    EmptyRowsGrouped(n);
    OneTable(rows);
    OneMemberAtLeast(Quote(""), Arr(rows));
    ItemsAtLeast(rows);
  }

  lemma {:induction false} SizeSumAtLeast(values: seq<Json>, i: nat)
    requires i < |values|
    ensures SizeSum(values) >= |Compact(values[i])|
  {
    if i < |values| - 1 {
      SizeSumAtLeast(values[..|values| - 1], i);
    }
  }

  /** A plan in which only step i has rows, n empty ones. */
  function OneLongStep(names: seq<string>, i: nat, n: nat): (steps: seq<StepRows>)
    ensures |steps| == |names|
  {
    seq(|names|, k requires 0 <= k < |names| => StepRows(names[k], if k == i then EmptyRows(n) else []))
  }

  lemma LongStepValues(names: seq<string>, i: nat, n: nat)
    requires i < |names|
    ensures Names(OneLongStep(names, i, n)) == names
    ensures Values(OneLongStep(names, i, n))
         == Values(OneLongStep(names, i, 0))[i := TablesJson(Group(EmptyRows(n)))]
  {
    var a, b := Values(OneLongStep(names, i, n)), Values(OneLongStep(names, i, 0));
    forall k | 0 <= k < |names|
      ensures a[k] == b[i := TablesJson(Group(EmptyRows(n)))][k]
    {
      assert k != i ==> OneLongStep(names, i, n)[k] == OneLongStep(names, i, 0)[k];
    }
  }

  /** The early check is a lower bound for all rows exactly when the config names are unique. */
  lemma BoundExactlyForUniqueNames(names: seq<string>)
    ensures BoundHolds(names) <==> Unique(names)
  {
    if Unique(names) {
      forall steps: seq<StepRows> | Names(steps) == names
        ensures SizeSum(Values(steps)) <= |Indented(MapJson(Merge(names, Values(steps))), 0)|
      {
        SizesFitPayload(names, Values(steps));
      }
    } else {
      var i: nat, j: nat :| i < j < |names| && names[i] == names[j];
      LongPlanOutweighs(names, i, j);
    }
  }

  lemma EmptyObject()
    ensures TablesJson(map[]) == Obj([])
  {
    var nothing: Tables := map[];
    var members := map k | k in nothing :: Arr(nothing[k]);
    SortedKeysStrict(members.Keys);
    assert |members.Keys| == 0;
    assert SortedKeys(members.Keys) == [];
  }

  lemma {:induction false} MergeAll(names: seq<string>, values: seq<Json>)
    requires |names| == |values| && AllMarshal(values)
    ensures forall k | k in Merge(names, values) :: Marshalable(Merge(names, values)[k])
  {
    if names != [] {
      MergeAll(names[..|names| - 1], values[..|values| - 1]);
    }
  }

  lemma {:induction false} MembersAllMarshal(keys: seq<string>, m: map<string, Json>)
    requires forall k | k in keys :: k in m && Marshalable(m[k])
    ensures forall x | x in MembersOf(keys, m) :: Marshalable(x.value)
  {
    if keys != [] {
      MembersAllMarshal(keys[..|keys| - 1], m);
      assert keys[|keys| - 1] in keys;
    }
  }

  /** Marshalable steps make a marshalable payload. */
  lemma PayloadMarshals(steps: seq<StepRows>)
    requires AllMarshal(Values(steps))
    ensures Payload(steps).Some?
  {
    var m := Merge(Names(steps), Values(steps));
    MergeAll(Names(steps), Values(steps));
    SortedKeysStrict(m.Keys);
    MembersAllMarshal(SortedKeys(m.Keys), m);
  }

  lemma LongStepMarshals(names: seq<string>, i: nat, n: nat)
    requires i < |names| && n > 0
    ensures AllMarshal(Values(OneLongStep(names, i, n)))
  {
    var rows := seq(n, _ => Obj([]));
    EmptyObject();
    EmptyRowsGrouped(n);
    OneTable(rows);
    assert forall x | x in rows :: Marshalable(x);
    assert Marshalable(Arr(rows));
    var steps := OneLongStep(names, i, n);
    forall k | 0 <= k < |steps|
      ensures Marshalable(Values(steps)[k])
    {
      assert Group([]) == map[];
    }
  }

  /** The plan that shows it and the length of its payload. */
  ghost function LongPlan(names: seq<string>, i: nat): seq<StepRows>
    requires i < |names|
  {
    OneLongStep(names, i, |Indented(MapJson(Merge(names, Values(OneLongStep(names, i, 0)))), 0)| + 1)
  }

  lemma LongPlanOutweighs(names: seq<string>, i: nat, j: nat)
    requires i < j < |names| && names[i] == names[j]
    ensures Names(LongPlan(names, i)) == names && AllMarshal(Values(LongPlan(names, i)))
    ensures Payload(LongPlan(names, i)).Some?
    ensures |Payload(LongPlan(names, i)).value| < SizeSum(Values(LongPlan(names, i)))
  {
    var base := Values(OneLongStep(names, i, 0));
    var n := |Indented(MapJson(Merge(names, base)), 0)| + 1;
    var steps := LongPlan(names, i);
    LongStepValues(names, i, n);
    MergeOverwritten(names, base, i, j, TablesJson(Group(EmptyRows(n))));
    LongStep(n);
    SizeSumAtLeast(Values(steps), i);
    LongStepMarshals(names, i, n);
    PayloadMarshals(steps);
  }

  /**
   * Whenever a config name repeats, some plan with these names is wrongly refused: under every limit
   * that its payload fits and its compact sizes do not, and there is one, every completed run without
   * outside failures ends with the size-limit error.
   */
  lemma RepeatedNamesRefused(names: seq<string>, i: nat, j: nat, maxConcurrency: int, maxBytes: int,
                             states: seq<DirectMachine.State>, actions: seq<DirectMachine.Action>, k: nat)
    requires i < j < |names| && names[i] == names[j]
    requires DirectProofs.Run(DirectJob(LongPlan(names, i), maxConcurrency, maxBytes), states, actions)
    requires k < |states| && DirectMachine.Terminal(states[k])
    requires forall m | 0 <= m < |actions| :: DirectTheorems.Benign(actions[m])
    ensures Names(LongPlan(names, i)) == names && Payload(LongPlan(names, i)).Some?
    ensures 0 < |Payload(LongPlan(names, i)).value| < SizeSum(Values(LongPlan(names, i)))
    ensures |Payload(LongPlan(names, i)).value| <= maxBytes < SizeSum(Values(LongPlan(names, i))) ==>
              states[k].main.result == DirectMachine.Aborted(LIMIT_ERROR)
  {
    LongPlanOutweighs(names, i, j);
    NonEmptyPayload(LongPlan(names, i));
    DirectVerdictAnyNames(LongPlan(names, i), maxConcurrency, maxBytes, states, actions, k);
  }

  lemma NonEmptyPayload(steps: seq<StepRows>)
    requires Payload(steps).Some?
    ensures |Payload(steps).value| > 0
  {
  }
}
