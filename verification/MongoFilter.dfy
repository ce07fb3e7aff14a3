// Lowering a filter condition to a MongoDB filter document, and what it keeps of the condition.
module MongoFilter {
  import opened Engine
  import opened LikeLowering
  import opened Newlines

  /** Scalar filter operands and field values; only text takes part in LIKE. */
  datatype Value = Text(s: string) | Scalar(id: int)

  datatype Condition = Condition(
    equals: seq<Value>, greaterThan: seq<Value>, greaterOrEqual: seq<Value>,
    lessThan: seq<Value>, lessOrEqual: seq<Value>, between: seq<Value>,
    isIn: seq<Value>, notIn: seq<Value>, notEquals: seq<Value>, like: seq<Value>)

  predicate IsEmpty(c: Condition) {
    && c.equals == [] && c.greaterThan == [] && c.greaterOrEqual == [] && c.lessThan == [] && c.lessOrEqual == []
    && c.between == [] && c.isIn == [] && c.notIn == [] && c.notEquals == [] && c.like == []
  }

  /** validateFilterCondition: two bounds for between, one value for each comparison. */
  predicate Valid(c: Condition) {
    && (c.between == [] || |c.between| == 2)
    && |c.greaterThan| <= 1 && |c.greaterOrEqual| <= 1 && |c.lessThan| <= 1 && |c.lessOrEqual| <= 1
  }

  /** The operator keys of a MongoDB field filter; Regex stands for $regex with $options "i". */
  datatype Key = Gt | Gte | Lt | Lte | In | Nin | Ne | Regex

  datatype Operand = Single(v: Value) | List(vs: seq<Value>) | Pattern(text: string)

  type Ops = map<Key, Operand>

  function Lookup(ops: Ops, key: Key): Option<Operand> {
    if key in ops then Some(ops[key]) else None
  }

  /** The entry written for one field: none, a bare value, or an operator document. */
  datatype Lowered = Nothing | Exactly(v: Value) | Document(ops: Ops)

  predicate HasPattern(c: Condition) {
    c.like != [] && c.like[0].Text?
  }

  // ----- which operand ends up under which key -----

  function FirstOf(vs: seq<Value>): Option<Operand> {
    if vs == [] then None else Some(Single(vs[0]))
  }

  function AllOf(vs: seq<Value>): Option<Operand> {
    if vs == [] then None else Some(List(vs))
  }

  function Else(a: Option<Operand>, b: Option<Operand>): Option<Operand> {
    if a.Some? then a else b
  }

  /** What the comparison helper writes under a key; between wins over the single bounds. */
  function ComparisonFor(c: Condition, key: Key): Option<Operand>
    requires Valid(c)
  {
    match key
    case Gt => FirstOf(c.greaterThan)
    case Gte => Else(FirstOf(c.between), FirstOf(c.greaterOrEqual))
    case Lt => FirstOf(c.lessThan)
    case Lte => if c.between != [] then Some(Single(c.between[1])) else FirstOf(c.lessOrEqual)
    case In => AllOf(c.isIn)
    case Nin => AllOf(c.notIn)
    case Ne => None
    case Regex => None
  }

  function NotEqualsFor(c: Condition, key: Key): Option<Operand> {
    if key.Ne? && |c.notEquals| == 1 then FirstOf(c.notEquals)
    else if key.Nin? && |c.notEquals| > 1 then AllOf(c.notEquals)
    else None
  }

  function LikeFor(c: Condition, key: Key): Option<Operand> {
    if key.Regex? && HasPattern(c) then Some(Pattern(ToRegex(c.like[0].s))) else None
  }

  function EqualsFor(c: Condition, key: Key): Option<Operand> {
    if key.In? && |c.equals| > 1 then AllOf(c.equals) else None
  }

  /** Later helpers replace what earlier ones wrote. */
  function OperandFor(c: Condition, key: Key): Option<Operand>
    requires Valid(c)
  {
    Else(LikeFor(c, key), Else(NotEqualsFor(c, key), Else(ComparisonFor(c, key), EqualsFor(c, key))))
  }

  function FinalOps(c: Condition): Ops
    requires Valid(c)
  {
    map key: Key | OperandFor(c, key).Some? :: OperandFor(c, key).value
  }

  function Lower(c: Condition): Lowered
    requires Valid(c)
  {
    if FinalOps(c) != map[] then Document(FinalOps(c))
    else if |c.equals| == 1 then Exactly(c.equals[0])
    else Nothing
  }

  // ----- the code -----

  /** The field filter map that the apply helpers fill in place. */
  class FieldFilter {
    var ops: Ops

    constructor ()
      ensures ops == map[]
    {
      ops := map[];
    }

    /** Write a key if there is something to write. */
    method Put(key: Key, operand: Option<Operand>)
      modifies this
      ensures forall k: Key ::
                Lookup(ops, k) == if k == key then Else(operand, Lookup(old(ops), k)) else Lookup(old(ops), k)
    {
      if operand.Some? {
        ops := ops[key := operand.value];
      }
    }

    method ApplyComparisonOperators(c: Condition)
      requires Valid(c)
      modifies this
      ensures forall k: Key :: Lookup(ops, k) == Else(ComparisonFor(c, k), Lookup(old(ops), k))
    {
      Put(Gt, FirstOf(c.greaterThan));
      Put(Gte, FirstOf(c.greaterOrEqual));
      Put(Lt, FirstOf(c.lessThan));
      Put(Lte, FirstOf(c.lessOrEqual));
      Put(Gte, FirstOf(c.between));
      Put(Lte, if |c.between| > 0 then Some(Single(c.between[1])) else None);
      Put(In, AllOf(c.isIn));
      Put(Nin, AllOf(c.notIn));
    }

    method ApplyNotEquals(c: Condition)
      modifies this
      ensures forall k: Key :: Lookup(ops, k) == Else(NotEqualsFor(c, k), Lookup(old(ops), k))
    {
      if |c.notEquals| == 0 {
        return;
      }
      if |c.notEquals| == 1 {
        ops := ops[Ne := Single(c.notEquals[0])];
      } else {
        ops := ops[Nin := List(c.notEquals)];
      }
    }

    method ApplyLikePattern(c: Condition)
      modifies this
      ensures forall k: Key :: Lookup(ops, k) == Else(LikeFor(c, k), Lookup(old(ops), k))
    {
      if |c.like| == 0 || !c.like[0].Text? {
        return;
      }
      var regex := ConvertSqlLikeToRegex(c.like[0].s);
      ops := ops[Regex := Pattern(regex)];
    }
  }

  lemma OpsByLookup(ops: Ops, c: Condition)
    requires Valid(c) && forall k: Key :: Lookup(ops, k) == OperandFor(c, k)
    ensures ops == FinalOps(c)
  {
    forall k: Key
      ensures k in ops <==> k in FinalOps(c)
      ensures k in ops ==> ops[k] == FinalOps(c)[k]
    {
      assert Lookup(ops, k) == OperandFor(c, k);
    }
  }

  /** convertFilterConditionToMongoFilter: None reports an invalid condition. */
  method ConvertFilterCondition(c: Condition) returns (r: Option<Lowered>)
    ensures r.Some? <==> IsEmpty(c) || Valid(c)
    ensures r.None? <==> || |c.between| == 1 || |c.between| > 2 || |c.greaterThan| > 1 || |c.greaterOrEqual| > 1
                         || |c.lessThan| > 1 || |c.lessOrEqual| > 1
    ensures r.Some? ==> r.value == if IsEmpty(c) then Nothing else Lower(c)
  {
    if IsEmpty(c) {
      return Some(Nothing);
    }
    if !Valid(c) {
      return None;
    }
    var field := new FieldFilter();
    var entry := Nothing;
    if |c.equals| > 0 {
      if |c.equals| == 1 {
        entry := Exactly(c.equals[0]);
      } else {
        field.ops := field.ops[In := List(c.equals)];
      }
    }
    field.ApplyComparisonOperators(c);
    field.ApplyNotEquals(c);
    field.ApplyLikePattern(c);
    OpsByLookup(field.ops, c);
    if field.ops != map[] {
      entry := Document(field.ops);
    }
    r := Some(entry);
  }

  // ----- what the lowered entry keeps -----

  /** One requirement on the field's value. */
  datatype Constraint = Equal(v: Value) | Test(key: Key, operand: Operand)

  /** Everything the condition asks for, operator by operator. */
  predicate Wanted(c: Condition, k: Constraint)
    requires Valid(c)
  {
    match k
    case Equal(v) => c.equals == [v]
    case Test(Gt, o) => FirstOf(c.greaterThan) == Some(o)
    case Test(Gte, o) => FirstOf(c.greaterOrEqual) == Some(o) || FirstOf(c.between) == Some(o)
    case Test(Lt, o) => FirstOf(c.lessThan) == Some(o)
    case Test(Lte, o) => FirstOf(c.lessOrEqual) == Some(o) || (c.between != [] && o == Single(c.between[1]))
    case Test(In, o) => (|c.equals| > 1 && o == List(c.equals)) || AllOf(c.isIn) == Some(o)
    case Test(Nin, o) => AllOf(c.notIn) == Some(o) || (|c.notEquals| > 1 && o == List(c.notEquals))
    case Test(Ne, o) => |c.notEquals| == 1 && o == Single(c.notEquals[0])
    case Test(Regex, o) => HasPattern(c) && o == Pattern(ToRegex(c.like[0].s))
  }

  /** What the lowered entry asks for. */
  predicate Kept(entry: Lowered, k: Constraint) {
    match entry
    case Nothing => false
    case Exactly(v) => k == Equal(v)
    case Document(ops) => k.Test? && Lookup(ops, k.key) == Some(k.operand)
  }

  /** The value meets every wanted constraint, for a given reading of the operators. */
  ghost predicate Meets(c: Condition, holds: (Constraint, Value) -> bool, x: Value)
    requires Valid(c)
  {
    forall k | Wanted(c, k) :: holds(k, x)
  }

  ghost predicate Selected(entry: Lowered, holds: (Constraint, Value) -> bool, x: Value) {
    forall k | Kept(entry, k) :: holds(k, x)
  }

  predicate OtherOperator(c: Condition) {
    c.greaterThan != [] || c.greaterOrEqual != [] || c.lessThan != [] || c.lessOrEqual != [] || c.between != []
    || c.isIn != [] || c.notIn != [] || c.notEquals != [] || HasPattern(c)
  }

  /** No two operators of the condition compete for one place in the document. */
  predicate NoCollision(c: Condition)
    requires Valid(c)
  {
    && (|c.equals| == 1 ==> !OtherOperator(c))
    && (|c.equals| > 1 && c.isIn != [] ==> c.equals == c.isIn)
    && (c.greaterOrEqual != [] && c.between != [] ==> c.greaterOrEqual[0] == c.between[0])
    && (c.lessOrEqual != [] && c.between != [] ==> c.lessOrEqual[0] == c.between[1])
    && (c.notIn != [] && |c.notEquals| > 1 ==> c.notIn == c.notEquals)
  }

  lemma OperatorShows(c: Condition)
    requires Valid(c) && |c.equals| <= 1
    ensures FinalOps(c) != map[] <==> OtherOperator(c)
  {
    forall k: Key
      ensures k in FinalOps(c) ==> OtherOperator(c)
    {
    }
    if c.greaterThan != [] { assert Gt in FinalOps(c); }
    if c.greaterOrEqual != [] || c.between != [] { assert Gte in FinalOps(c); }
    if c.lessThan != [] { assert Lt in FinalOps(c); }
    if c.lessOrEqual != [] { assert Lte in FinalOps(c); }
    if c.isIn != [] { assert In in FinalOps(c); }
    if c.notIn != [] || |c.notEquals| > 1 { assert Nin in FinalOps(c); }
    if |c.notEquals| == 1 { assert Ne in FinalOps(c); }
    if HasPattern(c) { assert Regex in FinalOps(c); }
  }

  lemma WantedIsKept(c: Condition, k: Constraint)
    requires Valid(c) && NoCollision(c) && Wanted(c, k)
    ensures Kept(Lower(c), k)
  {
    if k.Equal? {
      OperatorShows(c);
    } else {
      assert OperandFor(c, k.key) == Some(k.operand);
      assert k.key in FinalOps(c);
    }
  }

  /** A collision loses some wanted constraint. */
  lemma CollisionLoses(c: Condition) returns (k: Constraint)
    requires Valid(c) && !NoCollision(c)
    ensures Wanted(c, k) && !Kept(Lower(c), k)
  {
    if |c.equals| == 1 && OtherOperator(c) {
      OperatorShows(c);
      k := Equal(c.equals[0]);
    } else if |c.equals| > 1 && c.isIn != [] && c.equals != c.isIn {
      k := Test(In, List(c.equals));
      assert OperandFor(c, In) == Some(List(c.isIn));
    } else if c.greaterOrEqual != [] && c.between != [] && c.greaterOrEqual[0] != c.between[0] {
      k := Test(Gte, Single(c.greaterOrEqual[0]));
      assert OperandFor(c, Gte) == Some(Single(c.between[0]));
    } else if c.lessOrEqual != [] && c.between != [] && c.lessOrEqual[0] != c.between[1] {
      k := Test(Lte, Single(c.lessOrEqual[0]));
      assert OperandFor(c, Lte) == Some(Single(c.between[1]));
    } else {
      k := Test(Nin, List(c.notIn));
      assert OperandFor(c, Nin) == Some(List(c.notEquals));
    }
  }

  /**
   * The lowered entry selects the same values as the condition, under every reading of the
   * operators, exactly when no two operators collide.
   */
  lemma LoweringExactWithoutCollision(c: Condition)
    requires Valid(c)
    ensures NoCollision(c) <==>
            forall holds: (Constraint, Value) -> bool, x :: Selected(Lower(c), holds, x) <==> Meets(c, holds, x)
  {
    if NoCollision(c) {
      forall holds: (Constraint, Value) -> bool, x
        ensures Selected(Lower(c), holds, x) <==> Meets(c, holds, x)
      {
        forall k: Constraint
          ensures Kept(Lower(c), k) <==> Wanted(c, k)
        {
          if Wanted(c, k) {
            WantedIsKept(c, k);
          }
        }
      }
    } else {
      var lost := CollisionLoses(c);
      var entry := Lower(c);
      var holds := (k: Constraint, x: Value) => Kept(entry, k);
      var x := Scalar(0);
      assert Selected(entry, holds, x);
      assert !holds(lost, x);
      assert !Meets(c, holds, x);
    }
  }

  // ----- on scalar values -----

  /** The database's comparison of two scalars; no law of it is assumed. */
  datatype Order = Order(less: (Value, Value) -> bool, leq: (Value, Value) -> bool)

  predicate SatisfiesBounds(c: Condition, o: Order, x: Value)
    requires Valid(c)
  {
    && (c.greaterThan != [] ==> o.less(c.greaterThan[0], x))
    && (c.greaterOrEqual != [] ==> o.leq(c.greaterOrEqual[0], x))
    && (c.lessThan != [] ==> o.less(x, c.lessThan[0]))
    && (c.lessOrEqual != [] ==> o.leq(x, c.lessOrEqual[0]))
    && (c.between != [] ==> o.leq(c.between[0], x) && o.leq(x, c.between[1]))
  }

  predicate SatisfiesMembership(c: Condition, x: Value) {
    && (c.equals != [] ==> x in c.equals)
    && (c.isIn != [] ==> x in c.isIn)
    && (c.notIn != [] ==> x !in c.notIn)
    && (c.notEquals != [] ==> x !in c.notEquals)
  }

  predicate SatisfiesPattern(c: Condition, fold: char -> char, x: Value) {
    HasPattern(c) ==> x.Text? && Like(fold, c.like[0].s, x.s)
  }

  /** What the condition says about a value: every operator it names holds. */
  predicate Satisfies(c: Condition, o: Order, fold: char -> char, x: Value)
    requires Valid(c)
  {
    SatisfiesBounds(c, o, x) && SatisfiesMembership(c, x) && SatisfiesPattern(c, fold, x)
  }

  /** MongoDB's reading of a constraint on a scalar value. */
  ghost predicate Holds(o: Order, fold: char -> char, k: Constraint, x: Value) {
    match k
    case Equal(v) => x == v
    case Test(Gt, Single(v)) => o.less(v, x)
    case Test(Gte, Single(v)) => o.leq(v, x)
    case Test(Lt, Single(v)) => o.less(x, v)
    case Test(Lte, Single(v)) => o.leq(x, v)
    case Test(In, List(vs)) => x in vs
    case Test(Nin, List(vs)) => x !in vs
    case Test(Ne, Single(v)) => x != v
    case Test(Regex, Pattern(text)) => x.Text? && Search(fold, text, x.s)
    case Test(_, _) => false
  }

  ghost function Reading(o: Order, fold: char -> char): (Constraint, Value) -> bool {
    (k, x) => Holds(o, fold, k, x)
  }

  /** The pattern and the value are ones for which the LIKE lowering is faithful. */
  predicate LikeReadable(c: Condition, x: Value) {
    HasPattern(c) ==> Plain(c.like[0].s) && '.' !in c.like[0].s && (x.Text? ==> NoNewline(x.s))
  }

  lemma PatternMeaning(c: Condition, fold: char -> char, x: Value)
    requires HasPattern(c) && LikeReadable(c, x) && x.Text?
    ensures Search(fold, ToRegex(c.like[0].s), x.s) <==> Like(fold, c.like[0].s, x.s)
  {
    UndotNothing(c.like[0].s);
    LoweringMeaning(fold, c.like[0].s, x.s);
  }

  lemma SatisfiedMeets(c: Condition, o: Order, fold: char -> char, x: Value)
    requires Valid(c) && LikeReadable(c, x) && Satisfies(c, o, fold, x)
    ensures Meets(c, Reading(o, fold), x)
  {
    if HasPattern(c) {
      PatternMeaning(c, fold, x);
    }
    forall k: Constraint | Wanted(c, k)
      ensures Holds(o, fold, k, x)
    {
    }
  }

  lemma MeetsOne(c: Condition, o: Order, fold: char -> char, x: Value, k: Constraint)
    requires Valid(c) && Meets(c, Reading(o, fold), x) && Wanted(c, k)
    ensures Holds(o, fold, k, x)
  {
    assert Reading(o, fold)(k, x);
  }

  lemma MetBounds(c: Condition, o: Order, fold: char -> char, x: Value)
    requires Valid(c) && Meets(c, Reading(o, fold), x)
    ensures SatisfiesBounds(c, o, x)
  {
    if c.greaterThan != [] { MeetsOne(c, o, fold, x, Test(Gt, Single(c.greaterThan[0]))); }
    if c.greaterOrEqual != [] { MeetsOne(c, o, fold, x, Test(Gte, Single(c.greaterOrEqual[0]))); }
    if c.lessThan != [] { MeetsOne(c, o, fold, x, Test(Lt, Single(c.lessThan[0]))); }
    if c.lessOrEqual != [] { MeetsOne(c, o, fold, x, Test(Lte, Single(c.lessOrEqual[0]))); }
    if c.between != [] {
      MeetsOne(c, o, fold, x, Test(Gte, Single(c.between[0])));
      MeetsOne(c, o, fold, x, Test(Lte, Single(c.between[1])));
    }
  }

  lemma MetMembership(c: Condition, o: Order, fold: char -> char, x: Value)
    requires Valid(c) && Meets(c, Reading(o, fold), x)
    ensures SatisfiesMembership(c, x)
  {
    if |c.equals| == 1 { MeetsOne(c, o, fold, x, Equal(c.equals[0])); }
    if |c.equals| > 1 { MeetsOne(c, o, fold, x, Test(In, List(c.equals))); }
    if c.isIn != [] { MeetsOne(c, o, fold, x, Test(In, List(c.isIn))); }
    if c.notIn != [] { MeetsOne(c, o, fold, x, Test(Nin, List(c.notIn))); }
    if |c.notEquals| == 1 { MeetsOne(c, o, fold, x, Test(Ne, Single(c.notEquals[0]))); }
    if |c.notEquals| > 1 { MeetsOne(c, o, fold, x, Test(Nin, List(c.notEquals))); }
  }

  /** A valid condition without collisions selects exactly the values that satisfy all its operators. */
  lemma LoweringDenotesCondition(c: Condition, o: Order, fold: char -> char, x: Value)
    requires Valid(c) && NoCollision(c) && LikeReadable(c, x)
    ensures Selected(Lower(c), Reading(o, fold), x) <==> Satisfies(c, o, fold, x)
  {
    LoweringExactWithoutCollision(c);
    if Meets(c, Reading(o, fold), x) {
      MetBounds(c, o, fold, x);
      MetMembership(c, o, fold, x);
      if HasPattern(c) {
        MeetsOne(c, o, fold, x, Test(Regex, Pattern(ToRegex(c.like[0].s))));
        PatternMeaning(c, fold, x);
      }
    }
    if Satisfies(c, o, fold, x) {
      SatisfiedMeets(c, o, fold, x);
    }
  }

  // ----- the whole filter -----

  predicate Acceptable(c: Condition) {
    IsEmpty(c) || Valid(c)
  }

  /** The entry a field gets; an empty condition gets none. */
  function EntryOf(c: Condition): Lowered
    requires Acceptable(c)
  {
    if IsEmpty(c) then Nothing else Lower(c)
  }

  /** buildMongoFilter: visits the fields in any order and fails on the first invalid condition. */
  method BuildMongoFilter(filter: map<string, Condition>) returns (r: Option<map<string, Lowered>>)
    ensures r.Some? <==> forall f | f in filter :: Acceptable(filter[f])
    ensures r.Some? ==>
              && r.value.Keys <= filter.Keys
              && (forall f | f in filter :: Acceptable(filter[f]))
              && (forall f | f in r.value :: r.value[f] == EntryOf(filter[f]))
              && (forall f | f in filter && f !in r.value :: EntryOf(filter[f]) == Nothing)
  {
    var out: map<string, Lowered> := map[];
    var rest := filter.Keys;
    while rest != {}
      invariant rest <= filter.Keys && out.Keys <= filter.Keys - rest
      invariant forall f | f in filter.Keys - rest :: Acceptable(filter[f])
      invariant forall f | f in out :: out[f] == EntryOf(filter[f])
      invariant forall f | f in filter.Keys - rest && f !in out :: EntryOf(filter[f]) == Nothing
      decreases rest
    {
      var field :| field in rest;
      var entry := ConvertFilterCondition(filter[field]);
      if entry.None? {
        return None;
      }
      if entry.value != Nothing {
        out := out[field := entry.value];
      }
      rest := rest - {field};
    }
    r := Some(out);
  }

  /** The filter document as MongoDB reads it: every field entry selects the record's value. */
  ghost predicate DocumentSelects(doc: map<string, Lowered>, holds: (Constraint, Value) -> bool,
                                  record: string -> Value)
  {
    forall f | f in doc :: Selected(doc[f], holds, record(f))
  }

  /** Without collisions a record passes the document exactly when it satisfies every field's condition. */
  lemma DocumentDenotesFilter(filter: map<string, Condition>, doc: map<string, Lowered>,
                              o: Order, fold: char -> char, record: string -> Value)
    requires doc.Keys <= filter.Keys && forall f | f in filter :: Valid(filter[f])
    requires forall f | f in doc :: doc[f] == EntryOf(filter[f])
    requires forall f | f in filter && f !in doc :: EntryOf(filter[f]) == Nothing
    requires forall f | f in filter :: NoCollision(filter[f]) && LikeReadable(filter[f], record(f))
    ensures DocumentSelects(doc, Reading(o, fold), record) <==>
            forall f | f in filter :: Satisfies(filter[f], o, fold, record(f))
  {
    forall f | f in filter
      ensures Selected(EntryOf(filter[f]), Reading(o, fold), record(f)) <==> Satisfies(filter[f], o, fold, record(f))
    {
      LoweringDenotesCondition(filter[f], o, fold, record(f));
    }
  }
}
