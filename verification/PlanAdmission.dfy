// Which requests become plans: the gates of PlanExtraction in order, and exactly what a plan
// that passes them satisfies.
module PlanAdmission {
  import opened Engine
  import opened Failures
  import opened FieldLookup
  import opened Limits
  import opened Planner
  import opened SchemaValidation
  import opened StringOrder

  datatype Refusal =
    | NoStore | BadScope | NoMappedFields | EmptySelection | OverrideExceeded(field: Field)
    | BlankConfig | UnknownConnection | TooManyDatasources | MalformedRequest | Invalid | Host(err: EngineError)

  // ----- the gates -----

  predicate Selecting(request: Request) {
    forall c | c in request.mapped :: request.mapped[c] != map[]
  }

  method CheckSelections(mapped: map<string, FieldSelection>, configs: seq<string>) returns (ok: bool)
    requires forall c | c in configs :: c in mapped
    ensures ok <==> forall c | c in configs :: mapped[c] != map[]
  {
    for i := 0 to |configs|
      invariant forall c | c in configs[..i] :: mapped[c] != map[]
    {
      assert configs[i] in configs;
      if |mapped[configs[i]]| == 0 {
        return false;
      }
    }
    assert configs[..|configs|] == configs;
    return true;
  }

  /** requireNonEmptySelections. */
  method RequireNonEmptySelections(request: Request) returns (ok: bool)
    ensures ok <==> Selecting(request)
  {
    var configs := ListKeys(request.mapped);
    SortedKeysStrict(request.mapped.Keys);
    ok := CheckSelections(request.mapped, configs);
  }

  /** The verdict of probing one config name. */
  function Probe(w: World, config: string): Option<Refusal> {
    if Blank(config) then Some(BlankConfig)
    else match w.find(config)
      case StoreFailed(err) => Some(Host(err))
      case Missing => Some(UnknownConnection)
      case Found => None
  }

  predicate Scoped(w: World, request: Request) {
    forall c | c in request.mapped :: Probe(w, c).None?
  }

  /** Name i is refused for this reason and every name before it passed. */
  predicate FirstRefused(w: World, names: seq<string>, i: nat, why: Refusal) {
    i < |names| && Probe(w, names[i]) == Some(why) && forall j | 0 <= j < i :: Probe(w, names[j]).None?
  }

  /** The probing loop over the sorted names, cut off one past the limit. */
  method ProbeNames(w: World, names: seq<string>, maximum: int) returns (refusal: Option<Refusal>, lookups: nat)
    ensures refusal.None? <==> (forall n | n in names :: Probe(w, n).None?) && AtMost(|names|, maximum)
    ensures lookups <= |names| && (maximum > 0 ==> lookups <= maximum + 1)
    ensures refusal == Some(TooManyDatasources) ==>
              0 < maximum < |names| && forall i | 0 <= i <= maximum :: Probe(w, names[i]).None?
    ensures refusal.Some? && refusal != Some(TooManyDatasources) ==>
              exists i: nat :: FirstRefused(w, names, i, refusal.value)
  {
    var probeBudget := |names|;
    if maximum > 0 && probeBudget > maximum {
      probeBudget := maximum + 1;
    }
    lookups := 0;
    for i := 0 to |names|
      invariant i <= probeBudget && lookups == i
      invariant forall n | n in names[..i] :: Probe(w, n).None?
      invariant forall j | 0 <= j < i :: Probe(w, names[j]).None?
    {
      if i >= probeBudget {
        break;
      }
      assert names[i] in names;
      assert Probe(w, names[i]).Some? ==> FirstRefused(w, names, i, Probe(w, names[i]).value);
      if Blank(names[i]) {
        return Some(BlankConfig), lookups;
      }
      lookups := lookups + 1;
      var found := w.find(names[i]);
      if found.StoreFailed? {
        return Some(Host(found.err)), lookups;
      }
      if found.Missing? {
        return Some(UnknownConnection), lookups;
      }
    }
    if maximum > 0 && |names| > maximum {
      return Some(TooManyDatasources), lookups;
    }
    assert names[..|names|] == names;
    return None, lookups;
  }

  /** In sorted order, the first datasource that is refused, or a budget of names that all passed. */
  ghost predicate ScopeExplains(w: World, limits: Limits, request: Request, why: Refusal) {
    var names := SortedKeys(request.mapped.Keys);
    if why.TooManyDatasources? then
      0 < limits.maxDatasources < |names| && forall i | 0 <= i <= limits.maxDatasources :: Probe(w, names[i]).None?
    else exists i: nat :: FirstRefused(w, names, i, why)
  }

  /**
   * requireScopedConnections: passes exactly when every datasource is found and their number is
   * within the limit; `lookups` counts the store calls.
   */
  method RequireScopedConnections(w: World, request: Request, limits: Limits)
    returns (refusal: Option<Refusal>, lookups: nat)
    ensures refusal.None? <==> Scoped(w, request) && AtMost(|request.mapped|, limits.maxDatasources)
    ensures lookups <= |request.mapped| && (limits.maxDatasources > 0 ==> lookups <= limits.maxDatasources + 1)
    ensures refusal.Some? ==> ScopeExplains(w, limits, request, refusal.value)
  {
    var names := ListKeys(request.mapped);
    SortedKeysStrict(request.mapped.Keys);
    refusal, lookups := ProbeNames(w, names, limits.maxDatasources);
  }

  datatype Planned = Planned(plan: Plan) | Refused(refusal: Refusal)

  /** The requests that become plans, gate by gate. */
  ghost predicate Passes(w: World, defaults: Limits, hasStore: bool, scopeValid: bool, request: Request) {
    && hasStore && scopeValid && request.mapped != map[] && Selecting(request)
    && InForce(defaults, request.overrides).Some?
    && var limits := InForce(defaults, request.overrides).value;
    && Scoped(w, request) && AtMost(|request.mapped|, limits.maxDatasources)
    && forall i | 0 <= i < |StepsOf(request)| :: ChecksOut(w, limits, MappingFor(StepsOf(request)[i]))
  }

  predicate ChecksOut(w: World, limits: Limits, d: DatasourceMapping) {
    Named(d) && Within(d, limits) && ValidDatasource(w, d)
  }

  ghost predicate Mapped(request: Request, ds: seq<DatasourceMapping>) {
    AreMappings(ds, StepsOf(request))
  }

  /** What the schema check finds wrong with the references of a request, check by check. */
  ghost predicate CheckExplains(w: World, limits: Limits, ds: seq<DatasourceMapping>, why: Refusal) {
    match why
    case MalformedRequest => !AllNamed(ds)
    case Host(err) => AllNamed(ds) && AllWithin(ds, limits) && exists i: nat :: FirstDown(w, ds, i, err)
    case UnknownConnection => AllNamed(ds) && AllWithin(ds, limits) && SomeMissing(w, ds)
    case Invalid =>
      && AllNamed(ds) && !AllCheckOut(w, limits, ds)
      && (AllWithin(ds, limits) ==> !SomeMissing(w, ds) && forall i | 0 <= i < |ds| :: !Down(w, ds[i].config))
    case _ => false
  }

  ghost predicate SomeMissing(w: World, ds: seq<DatasourceMapping>) {
    exists i :: 0 <= i < |ds| && w.find(ds[i].config).Missing?
  }

  /**
   * A refusal is that of the first gate the request fails, and names what is wrong there: the gates
   * before it have passed, and nothing after it has been looked at.
   */
  ghost predicate Explains(w: World, defaults: Limits, hasStore: bool, scopeValid: bool, request: Request,
                           why: Refusal)
  {
    if !hasStore then why == NoStore
    else if !scopeValid then why == BadScope
    else if request.mapped == map[] then why == NoMappedFields
    else if !Selecting(request) then why == EmptySelection
    else if InForce(defaults, request.overrides).None? then
      request.overrides.Some? && why.OverrideExceeded? && FirstExceeded(defaults, request.overrides.value, why.field)
    else
      var limits := InForce(defaults, request.overrides).value;
      if !Scoped(w, request) || !AtMost(|request.mapped|, limits.maxDatasources) then
        ScopeExplains(w, limits, request, why)
      else exists ds :: Mapped(request, ds) && CheckExplains(w, limits, ds, why)
  }

  predicate AllCheckOut(w: World, limits: Limits, ds: seq<DatasourceMapping>) {
    forall i | 0 <= i < |ds| :: ChecksOut(w, limits, ds[i])
  }

  lemma ReportVerdict(w: World, limits: Limits, ds: seq<DatasourceMapping>)
    requires AtMost(|ds|, limits.maxDatasources)
    ensures AllNamed(ds) && AllWithin(ds, limits) && AllValid(w, ds) <==> AllCheckOut(w, limits, ds)
  {
    if AllCheckOut(w, limits, ds) {
      assert forall d | d in ds :: exists i :: 0 <= i < |ds| && ds[i] == d;
    }
    if AllNamed(ds) && AllWithin(ds, limits) {
      assert forall i | 0 <= i < |ds| :: ds[i] in ds;
    }
  }

  /** planValidationError for a report that is not empty. */
  method ReportRefusal(failures: seq<Failure>) returns (why: Refusal)
    ensures why == if exists f :: f in failures && f.kind == NoConnection then UnknownConnection else Invalid
  {
    for i := 0 to |failures|
      invariant forall j | 0 <= j < i :: failures[j].kind != NoConnection
    {
      if failures[i].kind == NoConnection {
        assert failures[i] in failures;
        return UnknownConnection;
      }
    }
    return Invalid;
  }

  /** A missing connection is reported exactly when some datasource has none. */
  lemma MissingReported(w: World, ds: seq<DatasourceMapping>)
    ensures (exists f :: SomeReports(w, ds, f) && f.kind == NoConnection) <==> SomeMissing(w, ds)
  {
    if i :| 0 <= i < |ds| && w.find(ds[i].config).Missing? {
      assert Reported(w, ds[i], Failure(NoConnection, ds[i].config, "", ""));
      assert SomeReports(w, ds, Failure(NoConnection, ds[i].config, "", ""));
    }
    if f :| SomeReports(w, ds, f) && f.kind == NoConnection {
      var i :| 0 <= i < |ds| && Reported(w, ds[i], f);
      assert w.find(ds[i].config).Missing?;
    }
  }

  /** The schema check of the references, and the refusal that its report becomes. */
  method CheckMappings(w: World, ds: seq<DatasourceMapping>, limits: Limits) returns (refusal: Option<Refusal>)
    requires ds != [] && AtMost(|ds|, limits.maxDatasources)
    ensures refusal.None? <==> AllCheckOut(w, limits, ds)
    ensures refusal.Some? ==> CheckExplains(w, limits, ds, refusal.value)
  {
    var report := ValidateSchema(w, ds, limits);
    ReportVerdict(w, limits, ds);
    MissingReported(w, ds);
    match report
    case Failed(err) => return Some(Host(err));
    case Malformed => return Some(MalformedRequest);
    case Report(failures) =>
      if failures == [] {
        return None;
      }
      var why := ReportRefusal(failures);
      return Some(why);
  }

  lemma MappingsCheckOut(w: World, limits: Limits, request: Request, ds: seq<DatasourceMapping>)
    requires Mapped(request, ds)
    ensures AllCheckOut(w, limits, ds) <==>
            forall i | 0 <= i < |StepsOf(request)| :: ChecksOut(w, limits, MappingFor(StepsOf(request)[i]))
  {
    forall i | 0 <= i < |ds|
      ensures ds[i] == MappingFor(StepsOf(request)[i])
    {
      assert IsMapping(ds[i], StepsOf(request)[i]);
    }
  }

  /** The schema check of a request whose datasources are in scope. */
  method CheckReferences(w: World, request: Request, limits: Limits) returns (refusal: Option<Refusal>)
    requires request.mapped != map[] && AtMost(|request.mapped|, limits.maxDatasources)
    ensures refusal.None? <==>
            forall i | 0 <= i < |StepsOf(request)| :: ChecksOut(w, limits, MappingFor(StepsOf(request)[i]))
    ensures refusal.Some? ==> exists ds :: Mapped(request, ds) && CheckExplains(w, limits, ds, refusal.value)
  {
    var ds := ValidationRequestFor(request);
    assert Mapped(request, ds) && |ds| == |request.mapped| > 0;
    refusal := CheckMappings(w, ds, limits);
    MappingsCheckOut(w, limits, request, ds);
  }

  /** PlanExtraction: a plan exactly for the requests that pass every gate, and then that plan. */
  method PlanExtraction(w: World, defaults: Limits, hasStore: bool, tenant: Tenant, scopeValid: bool, request: Request)
    returns (r: Planned)
    ensures r.Planned? <==> Passes(w, defaults, hasStore, scopeValid, request)
    ensures r.Planned? ==> r.plan == PlanOf(tenant, request, InForce(defaults, request.overrides).value)
    ensures r.Refused? ==> Explains(w, defaults, hasStore, scopeValid, request, r.refusal)
  {
    if !hasStore {
      return Refused(NoStore);
    }
    if !scopeValid {
      return Refused(BadScope);
    }
    if |request.mapped| == 0 {
      return Refused(NoMappedFields);
    }
    var selecting := RequireNonEmptySelections(request);
    if !selecting {
      return Refused(EmptySelection);
    }
    var effective := Effective(defaults, request.overrides);
    if effective.Exceeded? {
      return Refused(OverrideExceeded(effective.field));
    }
    var limits := effective.limits;
    var refusal, _ := RequireScopedConnections(w, request, limits);
    if refusal.Some? {
      return Refused(refusal.value);
    }
    refusal := CheckReferences(w, request, limits);
    if refusal.Some? {
      return Refused(refusal.value);
    }
    var plan := BuildExtractionPlan(tenant, request, limits);
    r := Planned(plan);
  }

  // ----- what an admitted plan satisfies -----

  predicate NameAdmitted(columns: set<string>, name: string) {
    !Blank(name) && Resolves(columns, name)
  }

  predicate FieldsAdmitted(columns: set<string>, maximum: int, names: seq<string>) {
    AtMost(|names|, maximum) && forall n | n in names :: NameAdmitted(columns, n)
  }

  predicate FiltersAdmitted(columns: set<string>, maximum: int, filters: map<string, Any>) {
    AtMost(|filters|, maximum) && forall n | n in filters :: NameAdmitted(columns, n)
  }

  /** A selected table: known, within the limits, and with every field and filter field resolvable. */
  predicate TableAdmitted(schema: Schema, limits: Limits, step: PlanStep, table: string) {
    && !Blank(table) && table in schema
    && FieldsAdmitted(Columns(schema, table), limits.maxFields, FieldsAt(step, table))
    && (table in step.filters ==> FiltersAdmitted(Columns(schema, table), limits.maxFields, step.filters[table]))
  }

  /** Everything the engine promises about a step before it may run. */
  predicate StepAdmitted(w: World, limits: Limits, step: PlanStep) {
    && !Blank(step.config) && w.Reaches(step.config)
    && AtMost(|step.tables|, limits.maxTables)
    && forall t | t in step.tables :: TableAdmitted(w.SchemaOf(step.config), limits, step, t)
  }

  predicate TableChecks(schema: Schema, limits: Limits, t: TableMapping) {
    NamedTable(t) && WithinTable(t, limits) && ResolvedTable(t, schema)
  }

  lemma FiltersAsListed(columns: set<string>, maximum: int, filters: map<string, Any>)
    ensures FiltersAdmitted(columns, maximum, filters) <==> FieldsAdmitted(columns, maximum, SortedKeys(filters.Keys))
  {
    SortedKeysStrict(filters.Keys);
    assert |filters| == |filters.Keys|;
  }

  lemma TableAdmittedAsChecked(schema: Schema, limits: Limits, step: PlanStep, table: string)
    ensures TableAdmitted(schema, limits, step, table) <==> TableChecks(schema, limits, TableFor(step, table))
  {
    if table in step.filters {
      FiltersAsListed(Columns(schema, table), limits.maxFields, step.filters[table]);
    }
  }

  lemma MappedTables(step: PlanStep, t: TableMapping)
    ensures t in MappingFor(step).tables <==> exists table :: table in step.tables && t == TableFor(step, table)
  {
    var make := TableMaker(step);
    forall i | 0 <= i < |step.tables|
      ensures MappingFor(step).tables[i] == TableFor(step, step.tables[i])
    {
      ListedAt(make, step.tables, i);
    }
    if table :| table in step.tables && t == TableFor(step, table) {
      var i :| 0 <= i < |step.tables| && step.tables[i] == table;
      assert MappingFor(step).tables[i] == t;
    }
  }

  lemma TablesAdmittedAsChecked(schema: Schema, limits: Limits, step: PlanStep)
    ensures (forall t | t in MappingFor(step).tables :: TableChecks(schema, limits, t))
            <==> forall table | table in step.tables :: TableAdmitted(schema, limits, step, table)
  {
    if forall t | t in MappingFor(step).tables :: TableChecks(schema, limits, t) {
      forall table | table in step.tables
        ensures TableAdmitted(schema, limits, step, table)
      {
        MappedTables(step, TableFor(step, table));
        TableAdmittedAsChecked(schema, limits, step, table);
      }
    }
    if forall table | table in step.tables :: TableAdmitted(schema, limits, step, table) {
      forall t | t in MappingFor(step).tables
        ensures TableChecks(schema, limits, t)
      {
        MappedTables(step, t);
        var table :| table in step.tables && t == TableFor(step, table);
        TableAdmittedAsChecked(schema, limits, step, table);
      }
    }
  }

  lemma StepAdmittedAsChecked(w: World, limits: Limits, step: PlanStep)
    ensures StepAdmitted(w, limits, step) <==> ChecksOut(w, limits, MappingFor(step))
  {
    TablesAdmittedAsChecked(w.SchemaOf(step.config), limits, step);
  }

  /** A plan whose size and every step the engine vouches for. */
  ghost predicate PlanAdmitted(w: World, limits: Limits, steps: seq<PlanStep>) {
    && steps != [] && AtMost(|steps|, limits.maxDatasources)
    && forall i | 0 <= i < |steps| :: steps[i].tables != [] && StepAdmitted(w, limits, steps[i])
  }

  lemma StepSelects(request: Request, i: nat)
    requires i < |request.mapped|
    ensures i < |SortedKeys(request.mapped.Keys)| && SortedKeys(request.mapped.Keys)[i] in request.mapped
    ensures StepsOf(request)[i].tables != [] <==> request.mapped[SortedKeys(request.mapped.Keys)[i]] != map[]
  {
    SortedKeysStrict(request.mapped.Keys);
    StepsAt(request, i);
    var config := SortedKeys(request.mapped.Keys)[i];
    SortedKeysStrict(request.mapped[config].Keys);
    assert |request.mapped[config]| == |request.mapped[config].Keys|;
  }

  lemma SelectingSteps(request: Request)
    ensures Selecting(request) <==> forall i | 0 <= i < |StepsOf(request)| :: StepsOf(request)[i].tables != []
  {
    if Selecting(request) {
      forall i | 0 <= i < |StepsOf(request)|
        ensures StepsOf(request)[i].tables != []
      {
        StepSelects(request, i);
      }
    } else {
      var c :| c in request.mapped && request.mapped[c] == map[];
      SortedKeysStrict(request.mapped.Keys);
      var i :| 0 <= i < |SortedKeys(request.mapped.Keys)| && SortedKeys(request.mapped.Keys)[i] == c;
      StepSelects(request, i);
    }
  }

  lemma ScopedSteps(w: World, limits: Limits, request: Request)
    requires forall i | 0 <= i < |StepsOf(request)| :: StepAdmitted(w, limits, StepsOf(request)[i])
    ensures Scoped(w, request)
  {
    forall c | c in request.mapped
      ensures Probe(w, c).None?
    {
      PlanCovers(request, c);
      var i :| 0 <= i < |StepsOf(request)| && StepsOf(request)[i].config == c;
      assert StepAdmitted(w, limits, StepsOf(request)[i]);
    }
  }

  /**
   * A request is planned exactly when the store and scope are there, its overrides are within
   * the defaults, and the plan it denotes is admitted under the resulting limits.
   */
  lemma PlannedExactlyWhenAdmitted(w: World, defaults: Limits, hasStore: bool, scopeValid: bool, request: Request)
    ensures Passes(w, defaults, hasStore, scopeValid, request) <==>
            && hasStore && scopeValid && InForce(defaults, request.overrides).Some?
            && PlanAdmitted(w, InForce(defaults, request.overrides).value, StepsOf(request))
  {
    SelectingSteps(request);
    assert request.mapped == map[] <==> |request.mapped| == 0;
    if InForce(defaults, request.overrides).Some? {
      var limits := InForce(defaults, request.overrides).value;
      forall i | 0 <= i < |StepsOf(request)|
        ensures StepAdmitted(w, limits, StepsOf(request)[i]) <==> ChecksOut(w, limits, MappingFor(StepsOf(request)[i]))
      {
        StepAdmittedAsChecked(w, limits, StepsOf(request)[i]);
      }
      if forall i | 0 <= i < |StepsOf(request)| :: StepAdmitted(w, limits, StepsOf(request)[i]) {
        ScopedSteps(w, limits, request);
      }
    }
  }

  // ----- filters on tables that are not selected -----

  function WithFilter(filters: map<string, Any>, config: string, table: string, fields: map<string, Any>)
    : map<string, Any>
  {
    var tables := if config in filters && filters[config].Entries? then filters[config].entries else map[];
    filters[config := Entries(tables[table := Entries(fields)])]
  }

  lemma WithFilterAdds(filters: map<string, Any>, config: string, table: string, fields: map<string, Any>,
                       other: string)
    ensures FiltersFor(WithFilter(filters, config, table, fields), other)
         == if other == config then FiltersFor(filters, config)[table := fields] else FiltersFor(filters, other)
  {
  }

  /** Two step lists that differ in one filter entry of step i. */
  predicate OneFilterAdded(steps: seq<PlanStep>, steps': seq<PlanStep>, i: nat, table: string,
                           fields: map<string, Any>)
  {
    && i < |steps| == |steps'|
    && steps'[i] == steps[i].(filters := steps[i].filters[table := fields])
    && forall j | 0 <= j < |steps| && j != i :: steps'[j] == steps[j]
  }

  lemma AddedFilterAdmitted(w: World, limits: Limits, steps: seq<PlanStep>, steps': seq<PlanStep>, i: nat,
                            table: string, fields: map<string, Any>)
    requires OneFilterAdded(steps, steps', i, table, fields) && table !in steps[i].tables
    ensures PlanAdmitted(w, limits, steps) <==> PlanAdmitted(w, limits, steps')
  {
  }

  /**
   * Filters on a table that is not selected reach the plan without being checked: adding any
   * such filter to a request leaves it planned or refused as before, with the filter in its step.
   */
  lemma UnselectedFiltersUnchecked(w: World, defaults: Limits, request: Request, i: nat, table: string,
                                   fields: map<string, Any>)
    requires i < |StepsOf(request)| && table !in StepsOf(request)[i].tables
    ensures var request' := request.(filters := WithFilter(request.filters, StepsOf(request)[i].config, table, fields));
            && (Passes(w, defaults, true, true, request) <==> Passes(w, defaults, true, true, request'))
            && OneFilterAdded(StepsOf(request), StepsOf(request'), i, table, fields)
  {
    var request' := request.(filters := WithFilter(request.filters, StepsOf(request)[i].config, table, fields));
    var steps, steps' := StepsOf(request), StepsOf(request');
    forall j | 0 <= j < |steps'|
      ensures steps'[j] == if j == i then steps[j].(filters := steps[j].filters[table := fields]) else steps[j]
    {
      ChangedFilterStep(request, i, table, fields, j);
    }
    PlannedExactlyWhenAdmitted(w, defaults, true, true, request);
    PlannedExactlyWhenAdmitted(w, defaults, true, true, request');
    if InForce(defaults, request.overrides).Some? {
      AddedFilterAdmitted(w, InForce(defaults, request.overrides).value, steps, steps', i, table, fields);
    }
  }

  lemma ChangedFilterStep(request: Request, i: nat, table: string, fields: map<string, Any>, j: nat)
    requires i < |StepsOf(request)| && j < |StepsOf(request)|
    ensures var request' := request.(filters := WithFilter(request.filters, StepsOf(request)[i].config, table, fields));
            var step := StepsOf(request)[j];
            StepsOf(request')[j] == if j == i then step.(filters := step.filters[table := fields]) else step
  {
    var config := StepsOf(request)[i].config;
    var request' := request.(filters := WithFilter(request.filters, config, table, fields));
    PlanIsCanonical(request);
    StepsAt(request, i);
    StepsAt(request, j);
    StepsAt(request', j);
    var other := SortedKeys(request.mapped.Keys)[j];
    WithFilterAdds(request.filters, config, table, fields, other);
    SortedKeysStrict(request.mapped.Keys);
    if i < j {
      LessAsymmetric(config, other);
    } else if j < i {
      LessAsymmetric(other, config);
    }
  }
}
