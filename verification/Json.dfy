// A JSON tree with the two printers of encoding/json: compact (Marshal) and
// two-space indented (MarshalIndent).  One char stands for one byte.
module Json {
  import Lines

  type Bytes = Lines.Bytes

  /**
   * Scalars carry the token that encoding/json prints for them.  Object members are
   * listed in printing order.  Unsupported stands for a value that cannot be marshalled.
   */
  datatype Json =
    | Scalar(token: Bytes)
    | Arr(items: seq<Json>)
    | Obj(members: seq<Member>)
    | Unsupported

  datatype Member = Member(key: Bytes, value: Json)

  predicate Marshalable(j: Json) {
    match j
    case Scalar(_) => true
    case Arr(items) => forall x | x in items :: Marshalable(x)
    case Obj(members) => forall m | m in members :: Marshalable(m.value)
    case Unsupported => false
  }

  /** x is j or part of it. */
  predicate Occurs(x: Json, j: Json) {
    || x == j
    || (j.Arr? && exists i :: 0 <= i < |j.items| && Occurs(x, j.items[i]))
    || (j.Obj? && exists i :: 0 <= i < |j.members| && Occurs(x, j.members[i].value))
  }

  /** Marshalling fails exactly for trees with a value in them that cannot be marshalled. */
  lemma {:induction false} MarshalableExactly(j: Json)
    ensures Marshalable(j) <==> !Occurs(Unsupported, j)
  {
    match j
    case Scalar(_) =>
    case Arr(items) =>
      forall i | 0 <= i < |items|
        ensures Marshalable(items[i]) <==> !Occurs(Unsupported, items[i])
      {
        MarshalableExactly(items[i]);
      }
      assert Marshalable(j) <==> forall i | 0 <= i < |items| :: Marshalable(items[i]);
    case Obj(members) =>
      forall i | 0 <= i < |members|
        ensures Marshalable(members[i].value) <==> !Occurs(Unsupported, members[i].value)
      {
        MarshalableExactly(members[i].value);
      }
      assert Marshalable(j) <==> forall i | 0 <= i < |members| :: Marshalable(members[i].value);
    case Unsupported =>
  }

  function Compact(j: Json): Bytes
    decreases j, 1
  {
    match j
    case Scalar(token) => token
    case Arr(items) => "[" + CompactItems(items) + "]"
    case Obj(members) => "{" + CompactMembers(members) + "}"
    case Unsupported => ""
  }

  function CompactItems(items: seq<Json>): Bytes
    decreases items, 0
  {
    if items == [] then ""
    else (if |items| == 1 then "" else CompactItems(items[..|items| - 1]) + ",") + Compact(items[|items| - 1])
  }

  function CompactMembers(members: seq<Member>): Bytes
    decreases members, 0
  {
    if members == [] then ""
    else
      (if |members| == 1 then "" else CompactMembers(members[..|members| - 1]) + ",")
      + members[|members| - 1].key + ":" + Compact(members[|members| - 1].value)
  }

  /** The line break MarshalIndent writes at nesting depth d. */
  function NewLine(d: nat): (r: Bytes)
    ensures |r| == 2 * d + 1 && r[0] == '\n' && forall i | 0 < i < |r| :: r[i] == ' '
  {
    if d == 0 then "\n" else NewLine(d - 1) + "  "
  }

  /** Empty arrays and objects stay on one line, everything else is broken per element. */
  function Indented(j: Json, d: nat): Bytes
    decreases j, 1
  {
    match j
    case Scalar(token) => token
    case Arr(items) =>
      if items == [] then "[]" else "[" + IndentedItems(items, d + 1) + NewLine(d) + "]"
    case Obj(members) =>
      if members == [] then "{}" else "{" + IndentedMembers(members, d + 1) + NewLine(d) + "}"
    case Unsupported => ""
  }

  function IndentedItems(items: seq<Json>, d: nat): Bytes
    decreases items, 0
  {
    if items == [] then ""
    else
      (if |items| == 1 then "" else IndentedItems(items[..|items| - 1], d) + ",")
      + NewLine(d) + Indented(items[|items| - 1], d)
  }

  function IndentedMembers(members: seq<Member>, d: nat): Bytes
    decreases members, 0
  {
    if members == [] then ""
    else
      (if |members| == 1 then "" else IndentedMembers(members[..|members| - 1], d) + ",")
      + NewLine(d) + members[|members| - 1].key + ": " + Indented(members[|members| - 1].value, d)
  }

  /** Indenting only adds bytes, for every tree at every depth. */
  lemma {:induction false} CompactNoLongerThanIndented(j: Json, d: nat)
    ensures |Compact(j)| <= |Indented(j, d)|
    decreases j, 1
  {
    match j
    case Scalar(_) =>
    case Arr(items) => CompactItemsNoLonger(items, d + 1);
    case Obj(members) => CompactMembersNoLonger(members, d + 1);
    case Unsupported =>
  }

  lemma {:induction false} CompactItemsNoLonger(items: seq<Json>, d: nat)
    ensures |CompactItems(items)| <= |IndentedItems(items, d)|
    decreases items, 0
  {
    if items != [] {
      CompactNoLongerThanIndented(items[|items| - 1], d);
      CompactItemsNoLonger(items[..|items| - 1], d);
    }
  }

  lemma {:induction false} CompactMembersNoLonger(members: seq<Member>, d: nat)
    ensures |CompactMembers(members)| <= |IndentedMembers(members, d)|
    decreases members, 0
  {
    if members != [] {
      CompactNoLongerThanIndented(members[|members| - 1].value, d);
      CompactMembersNoLonger(members[..|members| - 1], d);
    }
  }

  /** The summed compact size of the member values. */
  function ValueSizes(members: seq<Member>): nat {
    if members == [] then 0
    else ValueSizes(members[..|members| - 1]) + |Compact(members[|members| - 1].value)|
  }

  /** The members' values account for at most the compact object without its braces. */
  lemma {:induction false} ValueSizesWithinObject(members: seq<Member>)
    ensures ValueSizes(members) <= |CompactMembers(members)|
  {
    if members != [] {
      ValueSizesWithinObject(members[..|members| - 1]);
    }
  }
}
