/**
 * Exactly which filter conditions keep their meaning under MongoDB's own reading of the operators:
 * what the lowering drops and which values notice, over all orders together and in one order.
 */
module MongoReadings {
  import opened Engine
  import opened StringOrder
  import opened Newlines
  import opened LikeLowering
  import opened MongoFilter

  // ----- what is left of a condition -----

  /** The condition without the operators that the lowering overwrites. */
  function Reduced(c: Condition): (r: Condition)
    ensures Valid(c) ==> Valid(r)
  {
    c.(equals := if (|c.equals| == 1 && OtherOperator(c)) || (|c.equals| > 1 && c.isIn != []) then [] else c.equals,
       greaterOrEqual := if c.between != [] then [] else c.greaterOrEqual,
       lessOrEqual := if c.between != [] then [] else c.lessOrEqual,
       notIn := if |c.notEquals| > 1 then [] else c.notIn)
  }

  lemma ReducedOperand(c: Condition, key: Key)
    requires Valid(c)
    ensures OperandFor(Reduced(c), key) == OperandFor(c, key)
  {
  }

  lemma ReducedLowersAlike(c: Condition)
    requires Valid(c)
    ensures NoCollision(Reduced(c)) && Lower(Reduced(c)) == Lower(c)
  {
    var r := Reduced(c);
    forall key: Key
      ensures OperandFor(r, key) == OperandFor(c, key)
    {
      ReducedOperand(c, key);
    }
    assert FinalOps(r) == FinalOps(c);
    if |c.equals| == 1 {
      OperatorShows(c);
    }
  }

  /** The lowered entry selects exactly the values that satisfy what is left of the condition. */
  lemma SelectedMeansReduced(c: Condition, o: Order, fold: char -> char, x: Value)
    requires Valid(c) && LikeReadable(c, x)
    ensures Selected(Lower(c), Reading(o, fold), x) <==> Satisfies(Reduced(c), o, fold, x)
  {
    ReducedLowersAlike(c);
    LoweringDenotesCondition(Reduced(c), o, fold, x);
  }

  // ----- the orders a database has -----

  predicate SameKind(a: Value, b: Value) {
    a.Text? <==> b.Text?
  }

  /** A total order on texts and one on other scalars; values of different kinds do not compare. */
  ghost predicate Lawful(o: Order) {
    && (forall a, b :: o.leq(a, b) ==> SameKind(a, b))
    && (forall a, b :: SameKind(a, b) ==> o.leq(a, b) || o.leq(b, a))
    && (forall a, b :: o.leq(a, b) && o.leq(b, a) ==> a == b)
    && (forall a, b, c :: o.leq(a, b) && o.leq(b, c) ==> o.leq(a, c))
    && (forall a, b :: o.less(a, b) <==> o.leq(a, b) && a != b)
  }

  predicate Base(a: Value, b: Value) {
    match (a, b)
    case (Text(s), Text(t)) => Leq(s, t)
    case (Scalar(i), Scalar(j)) => i <= j
    case _ => false
  }

  lemma BaseLaws(a: Value, b: Value, c: Value)
    ensures Base(a, b) ==> SameKind(a, b)
    ensures SameKind(a, b) ==> Base(a, b) || Base(b, a)
    ensures Base(a, b) && Base(b, a) ==> a == b
    ensures Base(a, b) && Base(b, c) ==> Base(a, c)
  {
    if a.Text? && b.Text? {
      LessTotal(a.s, b.s);
      LeqReflexive(a.s);
      if Less(a.s, b.s) { LessAsymmetric(a.s, b.s); }
      if Less(b.s, a.s) { LessAsymmetric(b.s, a.s); }
      if c.Text? && Leq(a.s, b.s) && Leq(b.s, c.s) {
        LeqTransitive(a.s, b.s, c.s);
      }
    }
  }

  /** Below x, x itself, above x. */
  function Place(x: Value, low: set<Value>, y: Value): nat {
    if y == x then 1 else if y in low then 0 else 2
  }

  predicate AroundLeq(x: Value, low: set<Value>, a: Value, b: Value) {
    SameKind(a, b) && (Place(x, low, a) < Place(x, low, b) || (Place(x, low, a) == Place(x, low, b) && Base(a, b)))
  }

  /** The order that puts the values of `low` below x and all others of its kind above it. */
  function Around(x: Value, low: set<Value>): Order {
    Order((a: Value, b: Value) => AroundLeq(x, low, a, b) && a != b, (a: Value, b: Value) => AroundLeq(x, low, a, b))
  }

  lemma AroundLawful(x: Value, low: set<Value>)
    ensures Lawful(Around(x, low))
  {
    forall a, b
      ensures SameKind(a, b) ==> AroundLeq(x, low, a, b) || AroundLeq(x, low, b, a)
      ensures AroundLeq(x, low, a, b) && AroundLeq(x, low, b, a) ==> a == b
    {
      BaseLaws(a, b, a);
    }
    forall a, b, c
      ensures AroundLeq(x, low, a, b) && AroundLeq(x, low, b, c) ==> AroundLeq(x, low, a, c)
    {
      BaseLaws(a, b, c);
    }
  }

  // ----- values that notice -----

  function Floors(c: Condition): set<Value> {
    (set v | v in c.greaterOrEqual) + (if c.between != [] then {c.between[0]} else {})
  }

  function Ceilings(c: Condition): set<Value>
    requires Valid(c)
  {
    (set v | v in c.lessOrEqual) + (if c.between != [] then {c.between[1]} else {})
  }

  function Above(c: Condition): set<Value> {
    set v | v in c.greaterThan
  }

  function Below(c: Condition): set<Value> {
    set v | v in c.lessThan
  }

  /** Some lawful order puts x between inclusive bounds `lower`, `upper` and strict bounds `above`, `below`. */
  predicate Fits(lower: set<Value>, upper: set<Value>, above: set<Value>, below: set<Value>, x: Value) {
    && (forall b | b in lower + upper + above + below :: SameKind(b, x))
    && x !in above + below
    && above !! below + upper
    && lower !! below
    && lower * upper <= {x}
  }

  predicate BoundsAllow(c: Condition, x: Value)
    requires Valid(c)
  {
    Fits(Floors(c), Ceilings(c), Above(c), Below(c), x)
  }

  const ONE_CASE: char -> char := (_: char) => 'a'

  /** Some case folding makes x match the pattern: only lengths count. */
  predicate PatternAllows(c: Condition, x: Value) {
    SatisfiesPattern(c, ONE_CASE, x)
  }

  /** x passes everything that is left, in some order and folding. */
  predicate Left(c: Condition, x: Value)
    requires Valid(c)
  {
    BoundsAllow(Reduced(c), x) && SatisfiesMembership(Reduced(c), x) && PatternAllows(c, x)
  }

  /** A dropped membership operator refuses x. */
  predicate MembershipRefuses(c: Condition, x: Value) {
    (c.equals != [] && x !in c.equals) || (|c.notEquals| > 1 && x in c.notIn)
  }

  /** A bound that x may miss: it is of another kind, or nothing that is left implies it. */
  predicate Unimplied(bound: seq<Value>, x: Value, implied: set<Value>) {
    bound != [] && (!SameKind(bound[0], x) || (bound[0] != x && bound[0] !in implied))
  }

  /** A dropped bound refuses x in some order that keeps the bounds that are left. */
  predicate BoundRefuses(c: Condition, x: Value)
    requires Valid(c)
  {
    var r := Reduced(c);
    c.between != [] && (Unimplied(c.greaterOrEqual, x, Floors(r) + Above(r))
                        || Unimplied(c.lessOrEqual, x, Ceilings(r) + Below(r)))
  }

  /** The lowering lets x pass although a dropped operator refuses it. */
  predicate Escapes(c: Condition, x: Value)
    requires Valid(c)
  {
    Left(c, x) && (MembershipRefuses(c, x) || BoundRefuses(c, x))
  }

  lemma FitsNeeded(o: Order, lower: set<Value>, upper: set<Value>, above: set<Value>, below: set<Value>, x: Value)
    requires Lawful(o)
    requires forall v | v in lower :: o.leq(v, x)
    requires forall v | v in upper :: o.leq(x, v)
    requires forall v | v in above :: o.less(v, x)
    requires forall v | v in below :: o.less(x, v)
    ensures Fits(lower, upper, above, below, x)
  {
    forall v | v in lower * upper
      ensures v == x
    {
      assert o.leq(v, x) && o.leq(x, v);
    }
    forall v | v in above
      ensures v !in below + upper
    {
      assert o.less(v, x) && o.leq(v, x);
    }
    forall v | v in below
      ensures v !in lower
    {
      assert o.less(x, v) && o.leq(x, v);
    }
  }

  lemma BoundsKept(c: Condition, o: Order, x: Value)
    requires Valid(c) && SatisfiesBounds(c, o, x)
    ensures forall v | v in Floors(c) :: o.leq(v, x)
    ensures forall v | v in Ceilings(c) :: o.leq(x, v)
    ensures forall v | v in Above(c) :: o.less(v, x)
    ensures forall v | v in Below(c) :: o.less(x, v)
  {
  }

  lemma BoundsNeeded(c: Condition, o: Order, x: Value)
    requires Valid(c) && Lawful(o) && SatisfiesBounds(c, o, x)
    ensures BoundsAllow(c, x)
  {
    BoundsKept(c, o, x);
    FitsNeeded(o, Floors(c), Ceilings(c), Above(c), Below(c), x);
  }

  lemma {:induction false} LikeInOneCase(fold: char -> char, p: string, v: string)
    requires Like(fold, p, v)
    ensures Like(ONE_CASE, p, v)
    decreases |p|, |v|
  {
    if p != "" {
      if p[0] == '%' && !Like(fold, p[1..], v) {
        LikeInOneCase(fold, p, v[1..]);
      } else if p[0] == '%' {
        LikeInOneCase(fold, p[1..], v);
      } else {
        LikeInOneCase(fold, p[1..], v[1..]);
      }
    }
  }

  /** Whatever a lawful order and a folding let pass wrongly escapes. */
  lemma WrongEscapes(c: Condition, o: Order, fold: char -> char, x: Value)
    requires Valid(c) && Lawful(o)
    requires Satisfies(Reduced(c), o, fold, x) && !Satisfies(c, o, fold, x)
    ensures Escapes(c, x)
  {
    BoundsNeeded(Reduced(c), o, x);
    if HasPattern(c) {
      LikeInOneCase(fold, c.like[0].s, x.s);
    }
    if SatisfiesMembership(c, x) {
      RefusedByBound(c, o, x);
    }
  }

  lemma RefusedByBound(c: Condition, o: Order, x: Value)
    requires Valid(c) && Lawful(o)
    requires SatisfiesBounds(Reduced(c), o, x) && !SatisfiesBounds(c, o, x)
    ensures BoundRefuses(c, x)
  {
    var r := Reduced(c);
    assert c.between != [];
    BoundsKept(r, o, x);
  }

  lemma BoundsHold(c: Condition, x: Value, low: set<Value>)
    requires Valid(c) && BoundsAllow(c, x)
    requires Floors(c) + Above(c) <= low + {x} && low * (Ceilings(c) + Below(c)) <= {x}
    ensures SatisfiesBounds(c, Around(x, low), x)
  {
    BaseLaws(x, x, x);
    assert forall v | v in Floors(c) :: AroundLeq(x, low, v, x);
    assert forall v | v in Above(c) :: AroundLeq(x, low, v, x) && v != x;
    forall v | v in Ceilings(c) + Below(c)
      ensures AroundLeq(x, low, x, v)
    {
      assert v in Floors(c) + Ceilings(c) + Above(c) + Below(c);
      assert v in low ==> v in low * (Ceilings(c) + Below(c));
    }
    assert c.greaterThan != [] ==> c.greaterThan[0] in Above(c);
    assert c.lessThan != [] ==> c.lessThan[0] in Below(c);
    assert c.greaterOrEqual != [] ==> c.greaterOrEqual[0] in Floors(c);
    assert c.lessOrEqual != [] ==> c.lessOrEqual[0] in Ceilings(c);
  }

  /** An escaping value is let pass wrongly by some lawful order and folding. */
  lemma EscapingIsWrong(c: Condition, x: Value) returns (o: Order)
    requires Valid(c) && Escapes(c, x)
    ensures Lawful(o) && Satisfies(Reduced(c), o, ONE_CASE, x) && !Satisfies(c, o, ONE_CASE, x)
  {
    var r := Reduced(c);
    var low := Floors(r) + Above(r);
    if !MembershipRefuses(c, x) && !Unimplied(c.greaterOrEqual, x, low) {
      low := low + {c.lessOrEqual[0]};
    }
    o := Around(x, low);
    AroundLawful(x, low);
    BoundsHold(r, x, low);
  }

  /** The lowering selects what the condition says, in every lawful order and folding, on every readable value. */
  ghost predicate ExactlyRead(c: Condition)
    requires Valid(c)
  {
    forall o, fold: char -> char, x | Lawful(o) && LikeReadable(c, x) ::
      Selected(Lower(c), Reading(o, fold), x) <==> Satisfies(c, o, fold, x)
  }

  lemma SatisfiedSurvives(c: Condition, o: Order, fold: char -> char, x: Value)
    requires Valid(c) && Satisfies(c, o, fold, x)
    ensures Satisfies(Reduced(c), o, fold, x)
  {
  }

  /** The meaning is kept in all lawful orders and foldings together exactly when no readable value escapes. */
  lemma ExactlyReadWithoutEscape(c: Condition)
    requires Valid(c)
    ensures ExactlyRead(c) <==> forall x | LikeReadable(c, x) :: !Escapes(c, x)
  {
    ReducedLowersAlike(c);
    if forall x | LikeReadable(c, x) :: !Escapes(c, x) {
      forall o, fold: char -> char, x | Lawful(o) && LikeReadable(c, x)
        ensures Selected(Lower(c), Reading(o, fold), x) <==> Satisfies(c, o, fold, x)
      {
        SelectedMeansReduced(c, o, fold, x);
        if Satisfies(c, o, fold, x) {
          SatisfiedSurvives(c, o, fold, x);
        } else if Satisfies(Reduced(c), o, fold, x) {
          WrongEscapes(c, o, fold, x);
        }
      }
    } else {
      var x :| LikeReadable(c, x) && Escapes(c, x);
      var o := EscapingIsWrong(c, x);
      SelectedMeansReduced(c, o, ONE_CASE, x);
    }
  }

  // ----- in one order -----

  /** The lowering selects what the condition says in this order and folding, on every readable value. */
  ghost predicate ExactIn(c: Condition, o: Order, fold: char -> char)
    requires Valid(c)
  {
    forall x | LikeReadable(c, x) :: Selected(Lower(c), Reading(o, fold), x) <==> Satisfies(c, o, fold, x)
  }

  /** Every readable value that satisfies what is left satisfies the condition. */
  ghost predicate LeftSuffices(c: Condition, o: Order, fold: char -> char)
    requires Valid(c)
  {
    forall x | LikeReadable(c, x) && Satisfies(Reduced(c), o, fold, x) :: Satisfies(c, o, fold, x)
  }

  lemma ExactInWhenLeftSuffices(c: Condition, o: Order, fold: char -> char)
    requires Valid(c)
    ensures ExactIn(c, o, fold) <==> LeftSuffices(c, o, fold)
  {
    ReducedLowersAlike(c);
    forall x | LikeReadable(c, x)
      ensures Selected(Lower(c), Reading(o, fold), x) <==> Satisfies(Reduced(c), o, fold, x)
      ensures Satisfies(c, o, fold, x) ==> Satisfies(Reduced(c), o, fold, x)
    {
      SelectedMeansReduced(c, o, fold, x);
      if Satisfies(c, o, fold, x) {
        SatisfiedSurvives(c, o, fold, x);
      }
    }
  }

  /** The single bounds that between overwrites are no tighter than it. */
  predicate BoundsImplied(c: Condition, o: Order)
    requires Valid(c)
  {
    c.between != [] ==>
      && (c.greaterOrEqual != [] ==> o.leq(c.greaterOrEqual[0], c.between[0]))
      && (c.lessOrEqual != [] ==> o.leq(c.between[1], c.lessOrEqual[0]))
  }

  lemma ImpliedBoundsHold(c: Condition, o: Order, x: Value)
    requires Valid(c) && Lawful(o) && BoundsImplied(c, o) && SatisfiesBounds(Reduced(c), o, x)
    ensures SatisfiesBounds(c, o, x)
  {
  }

  predicate BoundsOnly(c: Condition) {
    && c.equals == [] && c.greaterThan == [] && c.lessThan == [] && c.isIn == [] && c.notIn == [] && c.notEquals == []
    && !HasPattern(c)
  }

  /**
   * Bounds that between overwrites, in one lawful order: the meaning is kept on every value exactly
   * when between admits nothing or both single bounds are implied by it.
   */
  lemma BoundsExactInOrder(c: Condition, o: Order, fold: char -> char)
    requires Valid(c) && Lawful(o) && BoundsOnly(c) && c.between != []
    ensures ExactIn(c, o, fold) <==> !o.leq(c.between[0], c.between[1]) || BoundsImplied(c, o)
  {
    ExactInWhenLeftSuffices(c, o, fold);
    var r, low, high := Reduced(c), c.between[0], c.between[1];
    if BoundsImplied(c, o) {
      forall x | Satisfies(r, o, fold, x)
        ensures Satisfies(c, o, fold, x)
      {
        ImpliedBoundsHold(c, o, x);
      }
    } else if o.leq(low, high) {
      assert o.leq(low, low) && o.leq(high, high);
      assert Satisfies(r, o, fold, low) && Satisfies(r, o, fold, high);
      assert !Satisfies(c, o, fold, low) || !Satisfies(c, o, fold, high);
    } else {
      forall x
        ensures !Satisfies(r, o, fold, x)
      {
        assert o.leq(low, x) && o.leq(x, high) ==> o.leq(low, high);
      }
    }
  }

  /** With an In list, in any one order, only its own members have to be tried. */
  lemma ListedExactInOrder(c: Condition, o: Order, fold: char -> char)
    requires Valid(c) && c.isIn != []
    ensures ExactIn(c, o, fold) <==>
            forall x | x in c.isIn && LikeReadable(c, x) && Satisfies(Reduced(c), o, fold, x) ::
              Satisfies(c, o, fold, x)
  {
    ExactInWhenLeftSuffices(c, o, fold);
  }

  /** When only NotIn is overwritten, in any one order, only its own members have to be tried. */
  lemma ExcludedExactInOrder(c: Condition, o: Order, fold: char -> char)
    requires Valid(c) && Reduced(c) == c.(notIn := [])
    ensures ExactIn(c, o, fold) <==>
            forall x | x in c.notIn && LikeReadable(c, x) :: !Satisfies(Reduced(c), o, fold, x)
  {
    ExactInWhenLeftSuffices(c, o, fold);
  }

  /** A single Equals that is overwritten keeps its meaning in an order when nothing else satisfies what is left. */
  lemma EqualExactInOrder(c: Condition, o: Order, fold: char -> char)
    requires Valid(c) && Lawful(o) && |c.equals| == 1 && OtherOperator(c)
    requires BoundsImplied(c, o) && |c.notEquals| <= 1
    ensures ExactIn(c, o, fold) <==>
            forall x | LikeReadable(c, x) && x != c.equals[0] :: !Satisfies(Reduced(c), o, fold, x)
  {
    ExactInWhenLeftSuffices(c, o, fold);
    forall x | Satisfies(Reduced(c), o, fold, x)
      ensures SatisfiesBounds(c, o, x)
    {
      ImpliedBoundsHold(c, o, x);
    }
  }

  // ----- a finite test -----

  /** Every operand of the condition but the pattern. */
  function Mentioned(c: Condition): seq<Value> {
    c.equals + c.isIn + c.notIn + c.notEquals + c.greaterThan + c.lessThan
    + c.greaterOrEqual + c.lessOrEqual + c.between
  }

  /** Whether an unmentioned value escapes depends only on its kind and on the pattern. */
  lemma UnmentionedAlike(c: Condition, x: Value, y: Value)
    requires Valid(c) && Escapes(c, x) && x !in Mentioned(c) && y !in Mentioned(c)
    requires SameKind(x, y) && PatternAllows(c, y)
    ensures Escapes(c, y)
  {
  }

  function Size(v: Value): nat {
    match v
    case Text(s) => |s|
    case Scalar(id) => if id < 0 then -id else id
  }

  function Largest(vs: seq<Value>): nat {
    if vs == [] then 0
    else
      var rest := Largest(vs[1..]);
      if Size(vs[0]) > rest then Size(vs[0]) else rest
  }

  lemma {:induction false} LargerIsNew(vs: seq<Value>, v: Value)
    requires Size(v) > Largest(vs)
    ensures v !in vs
  {
    if vs != [] {
      LargerIsNew(vs[1..], v);
    }
  }

  function PatternLength(c: Condition): nat {
    if HasPattern(c) then |c.like[0].s| else 0
  }

  function NewScalar(c: Condition): Value {
    Scalar(Largest(Mentioned(c)) + 1)
  }

  function NewText(c: Condition): Value {
    Text(seq(Largest(Mentioned(c)) + PatternLength(c) + 1, _ => 'a'))
  }

  lemma {:induction false} OneCaseLength(p: string, v: string)
    requires '%' !in p && |v| == |p|
    ensures Like(ONE_CASE, p, v)
  {
    if p != "" {
      assert p[0] in p;
      OneCaseLength(p[1..], v[1..]);
    }
  }

  lemma {:induction false} OneCaseOpen(p: string, v: string)
    requires '%' in p && |v| >= |p|
    ensures Like(ONE_CASE, p, v)
    decreases |p|
  {
    assert p == [p[0]] + p[1..];
    if p[0] != '%' {
      OneCaseOpen(p[1..], v[1..]);
    } else if '%' in p[1..] {
      OneCaseOpen(p[1..], v);
    } else {
      LeadingPercent(ONE_CASE, p[1..], v);
      var i := |v| - |p[1..]|;
      OneCaseLength(p[1..], v[i..]);
      assert p == "%" + p[1..];
    }
  }

  /** The values that decide: those the condition mentions and one new value of each kind. */
  function Probes(c: Condition): seq<Value> {
    Mentioned(c) + [NewScalar(c), NewText(c)]
  }

  lemma ProbeForEscape(c: Condition, x: Value) returns (y: Value)
    requires Valid(c) && (HasPattern(c) ==> '%' in c.like[0].s) && LikeReadable(c, x) && Escapes(c, x)
    ensures y in Probes(c) && LikeReadable(c, y) && Escapes(c, y)
  {
    if x in Mentioned(c) {
      y := x;
    } else {
      y := if x.Text? then NewText(c) else NewScalar(c);
      LargerIsNew(Mentioned(c), y);
      if HasPattern(c) {
        OneCaseOpen(c.like[0].s, y.s);
      }
      UnmentionedAlike(c, x, y);
    }
  }

  /**
   * The test is finite when the pattern, if any, has a '%': the condition keeps its meaning in all
   * lawful orders and foldings exactly when no value it mentions and no new value escapes.
   */
  lemma ExactlyReadByProbing(c: Condition)
    requires Valid(c) && (HasPattern(c) ==> '%' in c.like[0].s)
    ensures ExactlyRead(c) <==> forall x | x in Probes(c) && LikeReadable(c, x) :: !Escapes(c, x)
  {
    ExactlyReadWithoutEscape(c);
    if x :| LikeReadable(c, x) && Escapes(c, x) {
      var y := ProbeForEscape(c, x);
    }
  }

  const NONE := Condition([], [], [], [], [], [], [], [], [], [])

  lemma MembershipCollisionsEscape(a: Value, b: Value, x: Value)
    requires a != b && x != a && x != b && SameKind(b, x)
    ensures Escapes(NONE.(equals := [a], greaterThan := [b]), x)
    ensures Escapes(NONE.(equals := [a, a], isIn := [a, b]), b)
    ensures Escapes(NONE.(notIn := [x], notEquals := [a, b]), x)
  {
  }

  lemma BoundCollisionsEscape(a: Value, b: Value, x: Value)
    requires a != b && x != a && x != b && SameKind(a, x) && SameKind(b, x)
    ensures Escapes(NONE.(greaterOrEqual := [a], between := [b, a]), x)
    ensures Escapes(NONE.(lessOrEqual := [a], between := [a, b]), x)
  {
  }

  /** One condition of every colliding kind that some lawful order reads differently, with a value that shows it. */
  lemma EveryCollisionKindEscapes(a: Value, b: Value, x: Value)
    requires a != b && x != a && x != b && SameKind(a, x) && SameKind(b, x)
    ensures Escapes(NONE.(equals := [a], greaterThan := [b]), x)
    ensures Escapes(NONE.(equals := [a, a], isIn := [a, b]), b)
    ensures Escapes(NONE.(greaterOrEqual := [a], between := [b, a]), x)
    ensures Escapes(NONE.(lessOrEqual := [a], between := [a, b]), x)
    ensures Escapes(NONE.(notIn := [x], notEquals := [a, b]), x)
  {
    MembershipCollisionsEscape(a, b, x);
    BoundCollisionsEscape(a, b, x);
  }

  /** Collisions that no lawful reading notices: the same members in another order, a single value listed again. */
  lemma HarmlessCollisions(v: Value, w: Value)
    requires v != w
    ensures var c := NONE.(equals := [v], isIn := [v]); !NoCollision(c) && forall x :: !Escapes(c, x)
    ensures var c := NONE.(equals := [v, w], isIn := [w, v]); !NoCollision(c) && forall x :: !Escapes(c, x)
    ensures var c := NONE.(notIn := [v, w], notEquals := [w, v]); !NoCollision(c) && forall x :: !Escapes(c, x)
  {
  }
}
