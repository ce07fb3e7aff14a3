// Per-request limits: the engine defaults tightened by a request's overrides.
module Limits {
  import opened Engine

  datatype Limits = Limits(maxDatasources: int, maxTables: int, maxFields: int, maxConcurrency: int,
                           timeout: int, maxResultBytes: int, hardLimits: map<string, int>)

  /** The overridable limits in the order they are checked. */
  datatype Field = Datasources | TablesPerDatasource | FieldsPerTable | Concurrency | Deadline | ResultBytes

  function Get(l: Limits, f: Field): int {
    match f
    case Datasources => l.maxDatasources
    case TablesPerDatasource => l.maxTables
    case FieldsPerTable => l.maxFields
    case Concurrency => l.maxConcurrency
    case Deadline => l.timeout
    case ResultBytes => l.maxResultBytes
  }

  function Position(f: Field): nat {
    match f
    case Datasources => 0
    case TablesPerDatasource => 1
    case FieldsPerTable => 2
    case Concurrency => 3
    case Deadline => 4
    case ResultBytes => 5
  }

  /** A positive request above a positive maximum; a maximum that is not positive bounds nothing. */
  predicate Exceeds(requested: int, maximum: int) {
    requested > 0 && maximum > 0 && requested > maximum
  }

  predicate ExceedsAt(defaults: Limits, overrides: Limits, f: Field) {
    Exceeds(Get(overrides, f), Get(defaults, f))
  }

  /** The first override, in the order of checking, that exceeds its default. */
  predicate FirstExceeded(defaults: Limits, overrides: Limits, f: Field) {
    ExceedsAt(defaults, overrides, f) && forall g | Position(g) < Position(f) :: !ExceedsAt(defaults, overrides, g)
  }

  /** No more than a limit allows, where only a positive limit allows less than everything. */
  predicate AtMost(count: int, limit: int) {
    limit > 0 ==> count <= limit
  }

  datatype Resolution = Ok(limits: Limits) | Exceeded(field: Field)

  /** applyIntOverride, applyDurationOverride and applyResultBytesOverride. */
  method ApplyOverride(target: int, requested: int, maximum: int) returns (ok: bool, value: int)
    ensures ok <==> !Exceeds(requested, maximum)
    ensures value == if ok && requested > 0 then requested else target
  {
    if requested <= 0 {
      return true, target;
    }
    if maximum > 0 && requested > maximum {
      return false, target;
    }
    return true, requested;
  }

  /**
   * Limits.Effective: refuses the first override that exceeds its default; otherwise every
   * limit is the requested one or, without a positive request, the default.
   */
  method Effective(defaults: Limits, overrides: Option<Limits>) returns (r: Resolution)
    ensures overrides.None? ==> r == Ok(defaults)
    ensures r.Exceeded? ==> overrides.Some?
    ensures r.Exceeded? ==>
              FirstExceeded(defaults, overrides.value, r.field)
    ensures r.Ok? ==> InForce(defaults, overrides) == Some(r.limits)
    ensures r.Exceeded? ==> InForce(defaults, overrides).None?
  {
    if overrides.None? {
      return Ok(defaults);
    }
    var o, l := overrides.value, defaults;
    var ok;
    ok, l := Override(l, o, defaults, Datasources);
    if !ok { return Exceeded(Datasources); }
    ok, l := Override(l, o, defaults, TablesPerDatasource);
    if !ok { return Exceeded(TablesPerDatasource); }
    ok, l := Override(l, o, defaults, FieldsPerTable);
    if !ok { return Exceeded(FieldsPerTable); }
    ok, l := Override(l, o, defaults, Concurrency);
    if !ok { return Exceeded(Concurrency); }
    ok, l := Override(l, o, defaults, Deadline);
    if !ok { return Exceeded(Deadline); }
    ok, l := Override(l, o, defaults, ResultBytes);
    if !ok { return Exceeded(ResultBytes); }
    return Ok(l);
  }

  function Set(l: Limits, f: Field, value: int): Limits {
    match f
    case Datasources => l.(maxDatasources := value)
    case TablesPerDatasource => l.(maxTables := value)
    case FieldsPerTable => l.(maxFields := value)
    case Concurrency => l.(maxConcurrency := value)
    case Deadline => l.(timeout := value)
    case ResultBytes => l.(maxResultBytes := value)
  }

  method Override(l: Limits, overrides: Limits, defaults: Limits, f: Field) returns (ok: bool, r: Limits)
    ensures ok <==> !ExceedsAt(defaults, overrides, f)
    ensures r == if ok && Get(overrides, f) > 0 then Set(l, f, Get(overrides, f)) else l
  {
    var value;
    ok, value := ApplyOverride(Get(l, f), Get(overrides, f), Get(defaults, f));
    r := Set(l, f, value);
  }

  function Chosen(requested: int, byDefault: int): int {
    if requested > 0 then requested else byDefault
  }

  /** What an accepted request runs under; the connector hard limits are never overridable. */
  function Resolved(defaults: Limits, o: Limits): Limits {
    Limits(Chosen(o.maxDatasources, defaults.maxDatasources), Chosen(o.maxTables, defaults.maxTables),
           Chosen(o.maxFields, defaults.maxFields), Chosen(o.maxConcurrency, defaults.maxConcurrency),
           Chosen(o.timeout, defaults.timeout), Chosen(o.maxResultBytes, defaults.maxResultBytes),
           defaults.hardLimits)
  }

  /** The limits in force for a request, or None when an override is refused. */
  function InForce(defaults: Limits, overrides: Option<Limits>): Option<Limits> {
    match overrides
    case None => Some(defaults)
    case Some(o) =>
      if ExceedsAt(defaults, o, Datasources) || ExceedsAt(defaults, o, TablesPerDatasource)
         || ExceedsAt(defaults, o, FieldsPerTable) || ExceedsAt(defaults, o, Concurrency)
         || ExceedsAt(defaults, o, Deadline) || ExceedsAt(defaults, o, ResultBytes) then None
      else Some(Resolved(defaults, o))
  }

  /**
   * Refused exactly when some override exceeds its default; otherwise each limit in force is a positive
   * override or else the default, so never above a positive default, and hard limits stay the defaults'.
   */
  lemma InForceBounds(defaults: Limits, overrides: Option<Limits>)
    ensures InForce(defaults, overrides).None?
            <==> overrides.Some? && exists f :: ExceedsAt(defaults, overrides.value, f)
    ensures InForce(defaults, overrides).Some? ==>
              && InForce(defaults, overrides).value.hardLimits == defaults.hardLimits
              && (forall f | Get(defaults, f) > 0 ::
                    0 < Get(InForce(defaults, overrides).value, f) <= Get(defaults, f))
              && (forall f | overrides.Some? && Get(overrides.value, f) > 0 ::
                    Get(InForce(defaults, overrides).value, f) == Get(overrides.value, f))
              && (forall f | overrides.None? || Get(overrides.value, f) <= 0 ::
                    Get(InForce(defaults, overrides).value, f) == Get(defaults, f))
  {
    if overrides.Some? {
      assert InForce(defaults, overrides).None? ==> exists f :: ExceedsAt(defaults, overrides.value, f);
    }
  }
}
