// Schema validation of a request: malformed names, count limits, and references that do not
// resolve in the datasource's snapshot.
module SchemaValidation {
  import opened Engine
  import opened Failures
  import opened FieldLookup
  import opened Limits
  import opened Planner
  import opened StringOrder

  // ----- blank names -----

  /** unicode.IsSpace. */
  predicate IsSpace(c: char) {
    || '\t' <= c <= '\r' || c == ' ' || c == '\U{85}' || c == '\U{A0}' || c == '\U{1680}'
    || '\U{2000}' <= c <= '\U{200A}' || c == '\U{2028}' || c == '\U{2029}' || c == '\U{202F}'
    || c == '\U{205F}' || c == '\U{3000}'
  }

  /** The code points of Unicode's White_Space property. */
  const WHITE_SPACE: set<int> := {
    0x09, 0x0A, 0x0B, 0x0C, 0x0D, 0x20, 0x85, 0xA0, 0x1680, 0x2000, 0x2001, 0x2002, 0x2003, 0x2004, 0x2005, 0x2006,
    0x2007, 0x2008, 0x2009, 0x200A, 0x2028, 0x2029, 0x202F, 0x205F, 0x3000}

  lemma SpacesAreWhiteSpace(c: char)
    ensures IsSpace(c) <==> c as int in WHITE_SPACE
  {
  }

  predicate Blank(name: string) {
    forall i | 0 <= i < |name| :: IsSpace(name[i])
  }

  /** strings.TrimSpace. */
  function TrimSpace(s: string): string {
    if s == "" then ""
    else if IsSpace(s[0]) then TrimSpace(s[1..])
    else if IsSpace(s[|s| - 1]) then TrimSpace(s[..|s| - 1])
    else s
  }

  /** A name is blank exactly when trimming leaves nothing of it. */
  lemma {:induction false} BlankTrims(name: string)
    ensures Blank(name) <==> TrimSpace(name) == ""
    decreases |name|
  {
    if name == "" {
    } else if IsSpace(name[0]) {
      BlankTrims(name[1..]);
      assert name == [name[0]] + name[1..];
    } else if IsSpace(name[|name| - 1]) {
      BlankTrims(name[..|name| - 1]);
      assert name == name[..|name| - 1] + [name[|name| - 1]];
    }
  }

  predicate NoneBlank(names: seq<string>) {
    forall n | n in names :: !Blank(n)
  }

  // ----- the validation request -----

  datatype TableMapping = TableMapping(name: string, fields: seq<string>, filterFields: seq<string>)

  datatype DatasourceMapping = DatasourceMapping(config: string, tables: seq<TableMapping>)

  function FieldsAt(step: PlanStep, table: string): seq<string> {
    if table in step.fields then step.fields[table] else []
  }

  /** filterFieldsByTable for one table. */
  ghost function FilterNames(filters: Filters, table: string): seq<string> {
    if table in filters then SortedKeys(filters[table].Keys) else []
  }

  ghost function TableFor(step: PlanStep, table: string): TableMapping {
    TableMapping(table, FieldsAt(step, table), FilterNames(step.filters, table))
  }

  ghost function TableMaker(step: PlanStep): (nat, string) -> TableMapping {
    (i: nat, table: string) => TableFor(step, table)
  }

  /** The references of a plan step that are checked against the schema. */
  ghost function MappingFor(step: PlanStep): DatasourceMapping {
    DatasourceMapping(step.config, Listed(TableMaker(step), step.tables))
  }

  /** One table of schemaValidationRequestFromExtraction. */
  method MapTable(selection: FieldSelection, table: string, filters: Filters, ghost step: PlanStep)
    returns (t: TableMapping)
    requires table in selection && step.fields == SortedFields(selection) && step.filters == filters
    ensures t == TableFor(step, table)
  {
    var names: seq<string> := [];
    if table in filters {
      names := ListKeys(filters[table]);
    }
    t := TableMapping(table, Sort(selection[table]), names);
  }

  method MapTables(selection: FieldSelection, names: seq<string>, filters: Filters, ghost step: PlanStep)
    returns (tables: seq<TableMapping>)
    requires forall t | t in names :: t in selection
    requires step.fields == SortedFields(selection) && step.filters == filters
    ensures tables == Listed(TableMaker(step), names)
  {
    tables := [];
    ghost var make := TableMaker(step);
    var i := 0;
    while i < |names|
      invariant i <= |names| && tables == Listed(make, names[..i])
    {
      var t := MapTable(selection, names[i], filters, step);
      ListedOneMore(make, names, i);
      tables := tables + [t];
      i := i + 1;
    }
    assert names[..i] == names;
  }

  method MapDatasource(request: Request, config: string, ghost step: PlanStep) returns (d: DatasourceMapping)
    requires config in request.mapped && step == StepFor(request, step.ordinal, config)
    ensures d == MappingFor(step)
  {
    var names := ListKeys(request.mapped[config]);
    SortedKeysStrict(request.mapped[config].Keys);
    var filters := DatasourceFilters(request.filters, config);
    var tables := MapTables(request.mapped[config], names, filters, step);
    d := DatasourceMapping(config, tables);
  }

  ghost predicate IsStep(request: Request, steps: seq<PlanStep>, configs: seq<string>, i: nat)
    requires i < |steps| == |configs|
  {
    configs[i] in request.mapped && steps[i] == StepFor(request, i, configs[i])
  }

  ghost predicate IsMapping(d: DatasourceMapping, step: PlanStep) {
    d == MappingFor(step)
  }

  ghost predicate AreMappings(ds: seq<DatasourceMapping>, steps: seq<PlanStep>) {
    |ds| == |steps| && forall i | 0 <= i < |ds| :: IsMapping(ds[i], steps[i])
  }

  method MapDatasources(request: Request, configs: seq<string>, ghost steps: seq<PlanStep>)
    returns (ds: seq<DatasourceMapping>)
    requires |steps| == |configs| && forall i | 0 <= i < |configs| :: IsStep(request, steps, configs, i)
    ensures AreMappings(ds, steps)
  {
    ds := [];
    var i := 0;
    while i < |configs|
      invariant i <= |configs| && |ds| == i
      invariant forall j | 0 <= j < i :: IsMapping(ds[j], steps[j])
    {
      assert IsStep(request, steps, configs, i);
      var d := MapDatasource(request, configs[i], steps[i]);
      assert IsMapping(d, steps[i]);
      ds := ds + [d];
      i := i + 1;
    }
  }

  /** schemaValidationRequestFromExtraction: the same selection the plan will hold. */
  method ValidationRequestFor(request: Request) returns (ds: seq<DatasourceMapping>)
    ensures AreMappings(ds, StepsOf(request))
  {
    var configs := ListKeys(request.mapped);
    SortedKeysStrict(request.mapped.Keys);
    forall i | 0 <= i < |configs|
      ensures IsStep(request, StepsOf(request), configs, i)
    {
      StepsAt(request, i);
    }
    ds := MapDatasources(request, configs, StepsOf(request));
  }

  // ----- malformed names -----

  predicate NamedTable(t: TableMapping) {
    !Blank(t.name) && NoneBlank(t.fields) && NoneBlank(t.filterFields)
  }

  predicate Named(d: DatasourceMapping) {
    !Blank(d.config) && forall t | t in d.tables :: NamedTable(t)
  }

  method CheckNames(names: seq<string>) returns (ok: bool)
    ensures ok <==> NoneBlank(names)
  {
    for i := 0 to |names|
      invariant NoneBlank(names[..i])
    {
      if Blank(names[i]) {
        return false;
      }
    }
    assert names[..|names|] == names;
    return true;
  }

  method CheckTables(tables: seq<TableMapping>) returns (ok: bool)
    ensures ok <==> forall t | t in tables :: NamedTable(t)
  {
    for i := 0 to |tables|
      invariant forall j | 0 <= j < i :: NamedTable(tables[j])
    {
      assert tables[i] in tables;
      if Blank(tables[i].name) {
        return false;
      }
      ok := CheckNames(tables[i].fields);
      if !ok {
        return false;
      }
      ok := CheckNames(tables[i].filterFields);
      if !ok {
        return false;
      }
    }
    return true;
  }

  /** validateRequestNames. */
  method ValidateRequestNames(ds: seq<DatasourceMapping>) returns (ok: bool)
    ensures ok <==> forall d | d in ds :: Named(d)
  {
    for i := 0 to |ds|
      invariant forall j | 0 <= j < i :: Named(ds[j])
    {
      assert ds[i] in ds;
      if Blank(ds[i].config) {
        return false;
      }
      ok := CheckTables(ds[i].tables);
      if !ok {
        return false;
      }
    }
    return true;
  }

  // ----- count limits -----

  predicate WithinTable(t: TableMapping, limits: Limits) {
    AtMost(|t.fields|, limits.maxFields) && AtMost(|t.filterFields|, limits.maxFields)
  }

  predicate Within(d: DatasourceMapping, limits: Limits) {
    AtMost(|d.tables|, limits.maxTables) && forall t | t in d.tables :: WithinTable(t, limits)
  }

  /** A table of the datasource with too many fields or filter fields, named by the failure. */
  predicate TableExceeds(config: string, t: TableMapping, limits: Limits, f: Failure) {
    f == Failure(TooMany, config, t.name, "") && !WithinTable(t, limits)
  }

  /** A limit the datasource exceeds: its number of tables, or one of them. */
  ghost predicate Exceeding(d: DatasourceMapping, limits: Limits, f: Failure) {
    || (f == Failure(TooMany, d.config, "", "") && !AtMost(|d.tables|, limits.maxTables))
    || exists j :: 0 <= j < |d.tables| && TableExceeds(d.config, d.tables[j], limits, f)
  }

  method TableLimitFailures(d: DatasourceMapping, limits: Limits) returns (failures: seq<Failure>)
    ensures failures == [] <==> Within(d, limits)
    ensures forall f :: f in failures <==> Exceeding(d, limits, f)
  {
    failures := [];
    if limits.maxTables > 0 && |d.tables| > limits.maxTables {
      failures := [Failure(TooMany, d.config, "", "")];
    }
    for i := 0 to |d.tables|
      invariant failures == [] <==>
                AtMost(|d.tables|, limits.maxTables) && forall j | 0 <= j < i :: WithinTable(d.tables[j], limits)
      invariant forall f :: f in failures <==>
                || (f == Failure(TooMany, d.config, "", "") && !AtMost(|d.tables|, limits.maxTables))
                || exists j :: 0 <= j < i && TableExceeds(d.config, d.tables[j], limits, f)
    {
      var t := d.tables[i];
      if limits.maxFields > 0 && |t.fields| > limits.maxFields {
        failures := failures + [Failure(TooMany, d.config, t.name, "")];
      }
      if limits.maxFields > 0 && |t.filterFields| > limits.maxFields {
        failures := failures + [Failure(TooMany, d.config, t.name, "")];
      }
    }
  }

  predicate AllWithin(ds: seq<DatasourceMapping>, limits: Limits) {
    AtMost(|ds|, limits.maxDatasources) && forall d | d in ds :: Within(d, limits)
  }

  /** A limit the request exceeds, named by its scope: the request, a datasource, or a table. */
  ghost predicate LimitExceeded(ds: seq<DatasourceMapping>, limits: Limits, f: Failure) {
    || (f == Failure(TooMany, "", "", "") && !AtMost(|ds|, limits.maxDatasources))
    || exists i :: 0 <= i < |ds| && Exceeding(ds[i], limits, f)
  }

  /** limitFailures: exactly the exceeded limits, each with its scope. */
  method LimitFailures(ds: seq<DatasourceMapping>, limits: Limits) returns (failures: seq<Failure>)
    ensures failures == [] <==> AllWithin(ds, limits)
    ensures forall f :: f in failures <==> LimitExceeded(ds, limits, f)
  {
    failures := [];
    if limits.maxDatasources > 0 && |ds| > limits.maxDatasources {
      failures := [Failure(TooMany, "", "", "")];
    }
    for i := 0 to |ds|
      invariant failures == [] <==>
                AtMost(|ds|, limits.maxDatasources) && forall j | 0 <= j < i :: Within(ds[j], limits)
      invariant forall f :: f in failures <==>
                || (f == Failure(TooMany, "", "", "") && !AtMost(|ds|, limits.maxDatasources))
                || exists j :: 0 <= j < i && Exceeding(ds[j], limits, f)
    {
      var more := TableLimitFailures(ds[i], limits);
      failures := failures + more;
    }
  }

  // ----- references against the snapshot -----

  type Schema = map<string, seq<string>>

  function Columns(schema: Schema, table: string): set<string> {
    if table in schema then set f | f in schema[table] else {}
  }

  predicate FieldDefect(f: Failure, kind: Kind, config: string, table: string, names: seq<string>,
                        columns: set<string>)
  {
    f == Failure(kind, config, table, f.field) && f.field in names && !Resolves(columns, f.field)
  }

  /** What is wrong with a mapped table: it is missing, or a field or filter field is. */
  predicate TableDefect(config: string, t: TableMapping, schema: Schema, f: Failure) {
    if t.name !in schema then f == Failure(NoTable, config, t.name, "")
    else
      || FieldDefect(f, NoField, config, t.name, t.fields, Columns(schema, t.name))
      || FieldDefect(f, NoFilterField, config, t.name, t.filterFields, Columns(schema, t.name))
  }

  method ValidateFields(kind: Kind, config: string, table: string, names: seq<string>, index: FieldIndex)
    returns (failures: seq<Failure>)
    requires index.Valid()
    ensures forall f :: f in failures <==> FieldDefect(f, kind, config, table, names, index.exact)
  {
    failures := [];
    for i := 0 to |names|
      invariant forall f :: f in failures <==> FieldDefect(f, kind, config, table, names[..i], index.exact)
    {
      var found := Has(index, names[i]);
      assert names[..i + 1] == names[..i] + [names[i]];
      if !found {
        failures := failures + [Failure(kind, config, table, names[i])];
      }
    }
    assert names[..|names|] == names;
  }

  method ValidateTable(config: string, t: TableMapping, index: map<string, FieldIndex>, ghost schema: Schema)
    returns (failures: seq<Failure>)
    requires index.Keys == schema.Keys
    requires forall n | n in index :: index[n].Valid() && index[n].exact == Columns(schema, n)
    ensures forall f :: f in failures <==> TableDefect(config, t, schema, f)
  {
    if t.name !in index {
      return [Failure(NoTable, config, t.name, "")];
    }
    var missing := ValidateFields(NoField, config, t.name, t.fields, index[t.name]);
    var invalid := ValidateFields(NoFilterField, config, t.name, t.filterFields, index[t.name]);
    failures := missing + invalid;
  }

  ghost predicate Defect(d: DatasourceMapping, schema: Schema, f: Failure) {
    exists i :: 0 <= i < |d.tables| && TableDefect(d.config, d.tables[i], schema, f)
  }

  /** validateMappingAgainstSnapshot: exactly the defects of the mapping are reported. */
  method ValidateMapping(d: DatasourceMapping, snapshot: seq<TableSchema>) returns (failures: seq<Failure>)
    ensures forall f :: f in failures <==> Defect(d, FieldsOf(snapshot), f)
  {
    var index := IndexSnapshot(snapshot);
    ghost var schema := FieldsOf(snapshot);
    failures := [];
    for i := 0 to |d.tables|
      invariant forall f :: f in failures <==> exists j :: 0 <= j < i && TableDefect(d.config, d.tables[j], schema, f)
    {
      var more := ValidateTable(d.config, d.tables[i], index, schema);
      failures := failures + more;
    }
  }

  predicate ResolvedTable(t: TableMapping, schema: Schema) {
    && t.name in schema
    && (forall f | f in t.fields :: Resolves(Columns(schema, t.name), f))
    && (forall f | f in t.filterFields :: Resolves(Columns(schema, t.name), f))
  }

  predicate ResolvedMapping(d: DatasourceMapping, schema: Schema) {
    forall t | t in d.tables :: ResolvedTable(t, schema)
  }

  lemma UnresolvedTableHasDefect(config: string, t: TableMapping, schema: Schema)
    ensures ResolvedTable(t, schema) <==> forall f :: !TableDefect(config, t, schema, f)
  {
    if t.name !in schema {
      assert TableDefect(config, t, schema, Failure(NoTable, config, t.name, ""));
    } else {
      forall n | n in t.fields && !Resolves(Columns(schema, t.name), n)
        ensures TableDefect(config, t, schema, Failure(NoField, config, t.name, n))
      {
      }
      forall n | n in t.filterFields && !Resolves(Columns(schema, t.name), n)
        ensures TableDefect(config, t, schema, Failure(NoFilterField, config, t.name, n))
      {
      }
    }
  }

  lemma NoDefects(d: DatasourceMapping, schema: Schema)
    ensures ResolvedMapping(d, schema) <==> forall f :: !Defect(d, schema, f)
  {
    forall i | 0 <= i < |d.tables|
      ensures ResolvedTable(d.tables[i], schema) <==> forall f :: !TableDefect(d.config, d.tables[i], schema, f)
    {
      UnresolvedTableHasDefect(d.config, d.tables[i], schema);
    }
    if forall f :: !Defect(d, schema, f) {
      forall i, f | 0 <= i < |d.tables|
        ensures !TableDefect(d.config, d.tables[i], schema, f)
      {
        assert !Defect(d, schema, f);
      }
    }
  }

  // ----- the whole request -----

  datatype Lookup = Found | Missing | StoreFailed(err: EngineError)

  datatype Discovery = Snapshot(tables: seq<TableSchema>) | SourceDown(err: EngineError)

  /** What the tenant's connection store and the datasources answer during the call. */
  datatype World = World(find: string -> Lookup, discover: string -> Discovery)
  {
    predicate Reaches(config: string) {
      find(config).Found? && discover(config).Snapshot?
    }

    function SchemaOf(config: string): Schema {
      if discover(config).Snapshot? then FieldsOf(discover(config).tables) else map[]
    }
  }

  datatype Validation = Report(failures: seq<Failure>) | Malformed | Failed(err: EngineError)

  predicate ValidDatasource(w: World, d: DatasourceMapping) {
    w.Reaches(d.config) && ResolvedMapping(d, w.SchemaOf(d.config))
  }

  /** What one datasource contributes to the report. */
  ghost predicate Reported(w: World, d: DatasourceMapping, f: Failure) {
    if w.find(d.config).Missing? then f == Failure(NoConnection, d.config, "", "")
    else w.Reaches(d.config) && Defect(d, w.SchemaOf(d.config), f)
  }

  /** The store fails for this datasource, or it is found and its source is down. */
  predicate Down(w: World, config: string) {
    w.find(config).StoreFailed? || (w.find(config).Found? && w.discover(config).SourceDown?)
  }

  /** The error with which the store or the source fails for this datasource. */
  predicate DownWith(w: World, config: string, err: EngineError) {
    w.find(config) == StoreFailed(err) || (w.find(config).Found? && w.discover(config) == SourceDown(err))
  }

  /** Datasource i is the first that is down, and this is its error. */
  predicate FirstDown(w: World, ds: seq<DatasourceMapping>, i: nat, err: EngineError) {
    i < |ds| && DownWith(w, ds[i].config, err) && forall j | 0 <= j < i :: !Down(w, ds[j].config)
  }

  /** validateDatasource: a missing connection is reported, a source that is down is an error. */
  method ValidateDatasource(w: World, d: DatasourceMapping) returns (r: Validation)
    ensures !r.Malformed? && (r == Report([]) <==> ValidDatasource(w, d))
    ensures r.Failed? <==> Down(w, d.config)
    ensures r.Failed? ==> DownWith(w, d.config, r.err)
    ensures r.Report? ==> forall f :: f in r.failures <==> Reported(w, d, f)
  {
    match w.find(d.config)
    case StoreFailed(err) => return Failed(err);
    case Missing => return Report([Failure(NoConnection, d.config, "", "")]);
    case Found =>
      match w.discover(d.config) {
        case SourceDown(err) => return Failed(err);
        case Snapshot(tables) =>
          var failures := ValidateMapping(d, tables);
          NoDefects(d, FieldsOf(tables));
          assert failures == [] <==> forall f :: f !in failures by {
            assert failures == [] || failures[0] in failures;
          }
          return Report(failures);
      }
  }

  predicate AllNamed(ds: seq<DatasourceMapping>) {
    forall d | d in ds :: Named(d)
  }

  predicate AllValid(w: World, ds: seq<DatasourceMapping>) {
    forall i | 0 <= i < |ds| :: ValidDatasource(w, ds[i])
  }

  ghost predicate SomeReports(w: World, ds: seq<DatasourceMapping>, f: Failure) {
    exists i :: 0 <= i < |ds| && Reported(w, ds[i], f)
  }

  lemma OneMoreReports(w: World, ds: seq<DatasourceMapping>, i: nat, f: Failure)
    requires i < |ds|
    ensures SomeReports(w, ds[..i + 1], f) <==> SomeReports(w, ds[..i], f) || Reported(w, ds[i], f)
  {
    assert ds[..i + 1] == ds[..i] + [ds[i]];
    if SomeReports(w, ds[..i], f) {
      var j :| 0 <= j < |ds[..i]| && Reported(w, ds[..i][j], f);
      assert Reported(w, ds[..i + 1][j], f);
    }
    if Reported(w, ds[i], f) {
      assert Reported(w, ds[..i + 1][i], f);
    }
  }

  /** The loop over the datasources: all failures they contribute, or the first source that is down. */
  method CollectFailures(w: World, ds: seq<DatasourceMapping>) returns (r: Validation)
    ensures !r.Malformed? && (r == Report([]) <==> AllValid(w, ds))
    ensures r.Report? ==> forall f :: f in r.failures <==> SomeReports(w, ds, f)
    ensures r.Failed? <==> exists i :: 0 <= i < |ds| && Down(w, ds[i].config)
    ensures r.Failed? ==> exists i: nat :: FirstDown(w, ds, i, r.err)
  {
    var failures: seq<Failure> := [];
    for i := 0 to |ds|
      invariant failures == [] <==> AllValid(w, ds[..i])
      invariant forall f :: f in failures <==> SomeReports(w, ds[..i], f)
      invariant forall j | 0 <= j < i :: !Down(w, ds[j].config)
    {
      var one := ValidateDatasource(w, ds[i]);
      assert ds[..i + 1] == ds[..i] + [ds[i]];
      if one.Failed? {
        assert FirstDown(w, ds, i, one.err);
        return one;
      }
      forall f
        ensures SomeReports(w, ds[..i + 1], f) <==> SomeReports(w, ds[..i], f) || Reported(w, ds[i], f)
      {
        OneMoreReports(w, ds, i, f);
      }
      failures := failures + one.failures;
    }
    assert ds[..|ds|] == ds;
    return Report(failures);
  }

  /**
   * validateSchemaWithLimits: an empty report exactly when every check passes; otherwise an ordered
   * report of the exceeded limits or, within the limits, of exactly what the datasources contribute.
   */
  method ValidateSchema(w: World, ds: seq<DatasourceMapping>, limits: Limits) returns (r: Validation)
    ensures r == Report([]) <==> ds != [] && AllNamed(ds) && AllWithin(ds, limits) && AllValid(w, ds)
    ensures r.Malformed? <==> ds == [] || !AllNamed(ds)
    ensures r.Failed? <==> && ds != [] && AllNamed(ds) && AllWithin(ds, limits)
                           && exists i :: 0 <= i < |ds| && Down(w, ds[i].config)
    ensures r.Failed? ==> exists i: nat :: FirstDown(w, ds, i, r.err)
    ensures r.Report? ==> Ordered(r.failures)
    ensures r.Report? && AllWithin(ds, limits) ==> forall f :: f in r.failures <==> SomeReports(w, ds, f)
    ensures r.Report? && !AllWithin(ds, limits) ==> forall f :: f in r.failures <==> LimitExceeded(ds, limits, f)
  {
    if ds == [] {
      return Malformed;
    }
    var named := ValidateRequestNames(ds);
    if !named {
      return Malformed;
    }
    var failures := LimitFailures(ds, limits);
    if failures != [] {
      ArrangeOrders(failures);
      ArrangeKeeps(failures);
      return Report(Arrange(failures));
    }
    r := CollectFailures(w, ds);
    if r.Report? {
      ArrangeOrders(r.failures);
      ArrangeKeeps(r.failures);
      r := Report(Arrange(r.failures));
    }
  }
}
