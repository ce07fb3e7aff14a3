// The pure planner: from a request to a deterministic plan, and from a plan step back to the
// single-datasource request a connector receives.
module Planner {
  import opened Engine
  import opened StringOrder
  import opened Limits

  /** An opaque host value: a string-keyed map or anything else. */
  datatype Any = Entries(entries: map<string, Any>) | Leaf(text: string)

  /** table -> selected fields */
  type FieldSelection = map<string, seq<string>>

  /** table -> field -> value */
  type Filters = map<string, map<string, Any>>

  datatype Request = Request(mapped: map<string, FieldSelection>, filters: map<string, Any>,
                             metadata: map<string, Any>, overrides: Option<Limits>)

  datatype Tenant = Tenant(tenantId: string, requestId: string)

  datatype PlanStep = PlanStep(ordinal: nat, config: string, tables: seq<string>, fields: FieldSelection,
                               filters: Filters)

  datatype Plan = Plan(tenantId: string, requestId: string, steps: seq<PlanStep>, metadata: map<string, Any>,
                       limits: Limits)

  // ----- what a step holds -----

  function SortedFields(selection: FieldSelection): FieldSelection {
    map t | t in selection :: Sort(selection[t])
  }

  /** Entries that are maps of maps; everything else in the opaque filter value is dropped. */
  function FiltersOf(raw: Any): Filters {
    match raw
    case Leaf(_) => map[]
    case Entries(tables) => map t | t in tables && tables[t].Entries? :: tables[t].entries
  }

  function FiltersFor(filters: map<string, Any>, config: string): Filters {
    if config in filters then FiltersOf(filters[config]) else map[]
  }

  function SelectionOf(request: Request, config: string): FieldSelection {
    if config in request.mapped then request.mapped[config] else map[]
  }

  ghost function StepFor(request: Request, ordinal: nat, config: string): PlanStep {
    var selection := SelectionOf(request, config);
    PlanStep(ordinal, config, SortedKeys(selection.Keys), SortedFields(selection), FiltersFor(request.filters, config))
  }

  /** One item per name, each made from its position and its name. */
  function Listed<T>(make: (nat, string) -> T, names: seq<string>): (r: seq<T>)
    ensures |r| == |names|
  {
    if names == [] then []
    else Listed(make, names[..|names| - 1]) + [make(|names| - 1, names[|names| - 1])]
  }

  lemma {:induction false} ListedAt<T>(make: (nat, string) -> T, names: seq<string>, i: nat)
    requires i < |names|
    ensures Listed(make, names)[i] == make(i, names[i])
  {
    if i < |names| - 1 {
      ListedAt(make, names[..|names| - 1], i);
    }
  }

  lemma ListedOneMore<T>(make: (nat, string) -> T, names: seq<string>, k: nat)
    requires k < |names|
    ensures Listed(make, names[..k + 1]) == Listed(make, names[..k]) + [make(k, names[k])]
  {
    assert names[..k + 1][..k] == names[..k];
  }

  lemma ListedAlike<T>(make: (nat, string) -> T, make': (nat, string) -> T, names: seq<string>)
    requires forall i: nat | i < |names| :: make(i, names[i]) == make'(i, names[i])
    ensures Listed(make, names) == Listed(make', names)
  {
    forall i: nat | i < |names|
      ensures Listed(make, names)[i] == Listed(make', names)[i]
    {
      ListedAt(make, names, i);
      ListedAt(make', names, i);
    }
  }

  ghost function Maker(request: Request): (nat, string) -> PlanStep {
    (i: nat, config: string) => StepFor(request, i, config)
  }

  ghost function StepsOf(request: Request): (steps: seq<PlanStep>)
    ensures |steps| == |request.mapped|
  {
    SortedKeysStrict(request.mapped.Keys);
    Listed(Maker(request), SortedKeys(request.mapped.Keys))
  }

  lemma StepsAt(request: Request, i: nat)
    requires i < |request.mapped|
    ensures i < |SortedKeys(request.mapped.Keys)|
    ensures StepsOf(request)[i] == StepFor(request, i, SortedKeys(request.mapped.Keys)[i])
  {
    SortedKeysStrict(request.mapped.Keys);
    ListedAt(Maker(request), SortedKeys(request.mapped.Keys), i);
  }

  ghost function PlanOf(tenant: Tenant, request: Request, limits: Limits): Plan {
    Plan(tenant.tenantId, tenant.requestId, StepsOf(request), request.metadata, limits)
  }

  // ----- the planner's loops -----

  /** sortedCopy over every table of a selection. */
  method SortSelection(selection: FieldSelection, tables: seq<string>) returns (fields: FieldSelection)
    requires forall t :: t in tables <==> t in selection
    ensures fields == SortedFields(selection)
  {
    fields := map[];
    var i := 0;
    while i < |tables|
      invariant i <= |tables| && forall t | t in tables[..i] :: t in fields
      invariant fields.Keys <= selection.Keys && forall t | t in fields :: fields[t] == SortedFields(selection)[t]
    {
      var sorted := Sort(selection[tables[i]]);
      assert sorted == SortedFields(selection)[tables[i]];
      fields := fields[tables[i] := sorted];
      i := i + 1;
    }
    assert tables[..i] == tables;
    assert fields.Keys == SortedFields(selection).Keys;
  }

  /** datasourceFilters: a copy of the well-shaped part of a datasource's filters. */
  method DatasourceFilters(filters: map<string, Any>, config: string) returns (out: Filters)
    ensures out == FiltersFor(filters, config)
  {
    out := map[];
    if config !in filters || filters[config].Leaf? {
      return;
    }
    var tables := filters[config].entries;
    var rest := tables.Keys;
    while rest != {}
      invariant rest <= tables.Keys
      invariant forall t :: t in out <==> t in tables.Keys - rest && tables[t].Entries?
      invariant forall t | t in out :: out[t] == tables[t].entries
      decreases rest
    {
      var table :| table in rest;
      if tables[table].Entries? {
        out := out[table := tables[table].entries];
      }
      rest := rest - {table};
    }
  }

  /** buildExtractionPlan: one step per datasource, in sorted order of config names. */
  method BuildExtractionPlan(tenant: Tenant, request: Request, limits: Limits) returns (plan: Plan)
    ensures plan == PlanOf(tenant, request, limits)
  {
    var configs := ListKeys(request.mapped);
    var steps: seq<PlanStep> := [];
    var ordinal := 0;
    while ordinal < |configs|
      invariant ordinal <= |configs| && steps == Listed(Maker(request), configs[..ordinal])
    {
      var step := BuildStep(request, ordinal, configs[ordinal]);
      assert step == Maker(request)(ordinal, configs[ordinal]);
      ListedOneMore(Maker(request), configs, ordinal);
      steps := steps + [step];
      ordinal := ordinal + 1;
    }
    assert configs[..ordinal] == configs;
    plan := Plan(tenant.tenantId, tenant.requestId, steps, request.metadata, limits);
  }

  method BuildStep(request: Request, ordinal: nat, config: string) returns (step: PlanStep)
    ensures step == StepFor(request, ordinal, config)
  {
    var selection := SelectionOf(request, config);
    var tables := ListKeys(selection);
    SortedKeysStrict(selection.Keys);
    var fields := SortSelection(selection, tables);
    var filters := DatasourceFilters(request.filters, config);
    step := PlanStep(ordinal, config, tables, fields, filters);
  }

  // ----- canonical form -----

  /** Config names are in dictionary order, ordinals are positions, and so are tables and fields. */
  ghost predicate Canonical(steps: seq<PlanStep>) {
    && (forall i, j | 0 <= i < j < |steps| :: Before(steps[i].config, steps[j].config))
    && (forall i | 0 <= i < |steps| :: steps[i].ordinal == i && CanonicalStep(steps[i]))
  }

  ghost predicate CanonicalStep(step: PlanStep) {
    && Ascending(step.tables) && (forall t :: t in step.tables <==> t in step.fields)
    && forall t | t in step.fields :: NeverDescending(step.fields[t])
  }

  lemma StepCanonical(request: Request, ordinal: nat, config: string)
    ensures CanonicalStep(StepFor(request, ordinal, config))
  {
    var selection := SelectionOf(request, config);
    SortedKeysStrict(selection.Keys);
    SortedMeans(SortedKeys(selection.Keys));
    forall t | t in selection
      ensures NeverDescending(Sort(selection[t]))
    {
      SortOrders(selection[t]);
    }
  }

  /** The plan is in canonical form and has one step per mapped datasource. */
  lemma PlanIsCanonical(request: Request)
    ensures Canonical(StepsOf(request)) && |StepsOf(request)| == |request.mapped|
  {
    var configs, steps := SortedKeys(request.mapped.Keys), StepsOf(request);
    SortedKeysStrict(request.mapped.Keys);
    SortedMeans(configs);
    forall i | 0 <= i < |steps|
      ensures steps[i].config == configs[i] && steps[i].ordinal == i && CanonicalStep(steps[i])
    {
      StepsAt(request, i);
      StepCanonical(request, i, configs[i]);
    }
  }

  /** The value an opaque filter holds for a table, if both are maps. */
  predicate HoldsFilter(filters: map<string, Any>, config: string, table: string, fields: map<string, Any>) {
    && config in filters && filters[config].Entries?
    && table in filters[config].entries && filters[config].entries[table] == Entries(fields)
  }

  /**
   * What a plan step holds: the fields the request selects for that datasource, rearranged, and of its
   * filters those table entries that are maps of a map, unchanged.
   */
  lemma StepHolds(request: Request, i: nat, table: string)
    requires i < |StepsOf(request)|
    ensures var step := StepsOf(request)[i];
            && step.config in request.mapped && step.fields.Keys == request.mapped[step.config].Keys
            && (table in step.fields ==>
                  multiset(step.fields[table]) == multiset(request.mapped[step.config][table]))
            && (forall fields ::
                  HoldsFilter(request.filters, step.config, table, fields)
                  <==> table in step.filters && step.filters[table] == fields)
  {
    SortedKeysStrict(request.mapped.Keys);
    StepsAt(request, i);
    var step := StepsOf(request)[i];
    assert step.config in SortedKeys(request.mapped.Keys);
    if table in step.fields {
      SortSorts(request.mapped[step.config][table]);
    }
  }

  ghost predicate HasStep(steps: seq<PlanStep>, config: string) {
    exists i :: 0 <= i < |steps| && steps[i].config == config
  }

  /** Every mapped datasource has its step, and every step its datasource. */
  lemma PlanCovers(request: Request, config: string)
    ensures config in request.mapped <==> HasStep(StepsOf(request), config)
  {
    var configs := SortedKeys(request.mapped.Keys);
    SortedKeysStrict(request.mapped.Keys);
    if config in request.mapped {
      var i :| 0 <= i < |configs| && configs[i] == config;
      StepsAt(request, i);
    }
    if i: nat :| i < |StepsOf(request)| && StepsOf(request)[i].config == config {
      StepsAt(request, i);
    }
  }

  // ----- what the plan forgets -----

  /** The same tables with the same fields, listed in any order. */
  predicate SameFields(a: FieldSelection, b: FieldSelection) {
    a.Keys == b.Keys && forall t | t in a :: multiset(a[t]) == multiset(b[t])
  }

  predicate SameDatasource(a: Request, b: Request, config: string)
    requires config in a.mapped && config in b.mapped
  {
    && SameFields(a.mapped[config], b.mapped[config])
    && FiltersFor(a.filters, config) == FiltersFor(b.filters, config)
  }

  /** Requests that differ only in field order and in filter parts that no datasource reads. */
  predicate Equivalent(a: Request, b: Request) {
    a.mapped.Keys == b.mapped.Keys && forall c | c in a.mapped :: SameDatasource(a, b, c)
  }

  lemma SameFieldsSortAlike(a: FieldSelection, b: FieldSelection)
    requires SameFields(a, b)
    ensures SortedFields(a) == SortedFields(b)
  {
    forall t | t in a
      ensures Sort(a[t]) == Sort(b[t])
    {
      SortCanonical(a[t], b[t]);
    }
  }

  lemma SortAlikeSameFields(a: FieldSelection, b: FieldSelection)
    requires SortedFields(a) == SortedFields(b)
    ensures SameFields(a, b)
  {
    assert SortedFields(a).Keys == a.Keys && SortedFields(b).Keys == b.Keys;
    forall t | t in a
      ensures multiset(a[t]) == multiset(b[t])
    {
      assert SortedFields(a)[t] == SortedFields(b)[t];
      SortCanonical(a[t], b[t]);
    }
  }

  lemma SameStep(a: Request, b: Request, i: nat, config: string)
    requires config in a.mapped && config in b.mapped
    ensures SameDatasource(a, b, config) <==> StepFor(a, i, config) == StepFor(b, i, config)
  {
    var x, y := a.mapped[config], b.mapped[config];
    if SameDatasource(a, b, config) {
      SameFieldsSortAlike(x, y);
    }
    if SortedFields(x) == SortedFields(y) {
      SortAlikeSameFields(x, y);
    }
  }

  lemma EquivalentPlanAlike(a: Request, b: Request)
    requires Equivalent(a, b)
    ensures StepsOf(a) == StepsOf(b)
  {
    var configs := SortedKeys(a.mapped.Keys);
    SortedKeysStrict(a.mapped.Keys);
    forall i: nat | i < |configs|
      ensures Maker(a)(i, configs[i]) == Maker(b)(i, configs[i])
    {
      assert SameDatasource(a, b, configs[i]);
      SameStep(a, b, i, configs[i]);
    }
    ListedAlike(Maker(a), Maker(b), configs);
  }

  lemma SameConfigs(a: Request, b: Request)
    requires StepsOf(a) == StepsOf(b)
    ensures a.mapped.Keys == b.mapped.Keys
  {
    forall c
      ensures c in a.mapped.Keys <==> c in b.mapped.Keys
    {
      PlanCovers(a, c);
      PlanCovers(b, c);
    }
  }

  lemma PlanAlikeEquivalent(a: Request, b: Request)
    requires StepsOf(a) == StepsOf(b)
    ensures Equivalent(a, b)
  {
    SameConfigs(a, b);
    var configs := SortedKeys(a.mapped.Keys);
    SortedKeysStrict(a.mapped.Keys);
    forall c | c in a.mapped
      ensures SameDatasource(a, b, c)
    {
      var i :| 0 <= i < |configs| && configs[i] == c;
      StepsAt(a, i);
      StepsAt(b, i);
      SameStep(a, b, i, c);
    }
  }

  /** Two requests get the same steps exactly when they are equivalent: nothing else is forgotten. */
  lemma SameStepsExactlyWhenEquivalent(a: Request, b: Request)
    ensures StepsOf(a) == StepsOf(b) <==> Equivalent(a, b)
  {
    if Equivalent(a, b) {
      EquivalentPlanAlike(a, b);
    }
    if StepsOf(a) == StepsOf(b) {
      PlanAlikeEquivalent(a, b);
    }
  }

  // ----- back from a step to a request -----

  /** filtersToAny: the same nesting as opaque values. */
  function Widen(filters: Filters): Any {
    Entries(map t | t in filters :: Entries(filters[t]))
  }

  function RequestFor(step: PlanStep): Request {
    Request(map[step.config := step.fields],
            if step.filters == map[] then map[] else map[step.config := Widen(step.filters)], map[], None)
  }

  /** extractionRequestForStep. */
  method ExtractionRequestForStep(step: PlanStep) returns (request: Request)
    ensures request == RequestFor(step)
  {
    var selection: FieldSelection := map[];
    var rest := step.fields.Keys;
    while rest != {}
      invariant rest <= step.fields.Keys && selection.Keys == step.fields.Keys - rest
      invariant forall t | t in selection :: selection[t] == step.fields[t]
      decreases rest
    {
      var table :| table in rest;
      selection, rest := selection[table := step.fields[table]], rest - {table};
    }
    assert selection == step.fields;
    request := Request(map[step.config := selection], map[], map[], None);
    if |step.filters| > 0 {
      var filters := FiltersToAny(step.filters);
      request := request.(filters := map[step.config := filters]);
    }
  }

  method FiltersToAny(filters: Filters) returns (out: Any)
    ensures out == Widen(filters)
  {
    var entries: map<string, Any> := map[];
    var rest := filters.Keys;
    while rest != {}
      invariant rest <= filters.Keys && entries.Keys == filters.Keys - rest
      invariant forall t | t in entries :: entries[t] == Entries(filters[t])
      decreases rest
    {
      var table :| table in rest;
      entries, rest := entries[table := Entries(filters[table])], rest - {table};
    }
    assert entries == map t | t in filters :: Entries(filters[t]);
    out := Entries(entries);
  }

  lemma ResortKeeps(fields: FieldSelection)
    requires forall t | t in fields :: NeverDescending(fields[t])
    ensures SortedFields(fields) == fields
  {
    forall t | t in fields
      ensures Sort(fields[t]) == fields[t]
    {
      SortedMeans(fields[t]);
      SortIdempotent(fields[t]);
    }
  }

  lemma OneConfig(config: string)
    ensures SortedKeys({config}) == [config]
  {
    SortedKeysUnique({config}, [config]);
  }

  lemma CanonicalTables(step: PlanStep)
    requires CanonicalStep(step)
    ensures SortedKeys(step.fields.Keys) == step.tables
  {
    SortedKeysStrict(step.fields.Keys);
    SortedMeans(step.tables);
    StrictlySortedUnique(SortedKeys(step.fields.Keys), step.tables);
  }

  lemma StepOfOne(request: Request, config: string)
    requires request.mapped.Keys == {config}
    ensures StepsOf(request) == [StepFor(request, 0, config)]
  {
    OneConfig(config);
    assert |request.mapped| == |request.mapped.Keys| == 1;
  }

  lemma ProjectionStep(step: PlanStep)
    requires CanonicalStep(step)
    ensures StepFor(RequestFor(step), 0, step.config) == step.(ordinal := 0)
  {
    CanonicalTables(step);
    ResortKeeps(step.fields);
  }

  /** Replanning the request projected from a plan step gives back that step, alone. */
  lemma ProjectionReplans(request: Request, i: nat)
    requires i < |StepsOf(request)|
    ensures StepsOf(RequestFor(StepsOf(request)[i])) == [StepsOf(request)[i].(ordinal := 0)]
  {
    PlanIsCanonical(request);
    var step := StepsOf(request)[i];
    assert CanonicalStep(step);
    StepOfOne(RequestFor(step), step.config);
    ProjectionStep(step);
  }
}
