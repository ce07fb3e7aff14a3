// Field lookup against a schema snapshot: the sorted index and the linear scan it replaces.
module FieldLookup {
  import opened StringOrder

  datatype TableSchema = TableSchema(name: string, fields: seq<string>)

  /** A field name resolves to an equal column or to a parent object of a dotted column path. */
  predicate Covers(field: string, name: string) {
    field == name || name + "." <= field
  }

  predicate Resolves(fields: set<string>, name: string) {
    exists f :: f in fields && Covers(f, name)
  }

  // ----- the reference: a scan over all columns -----

  /** DataSourceSchema.HasField for a known table. */
  method HasField(columns: set<string>, name: string) returns (found: bool)
    ensures found <==> Resolves(columns, name)
  {
    if name in columns {
      assert Covers(name, name);
      return true;
    }
    var prefix := name + ".";
    var rest := columns;
    while rest != {}
      invariant rest <= columns
      invariant forall f | f in columns - rest :: !Covers(f, name)
      decreases rest
    {
      var col :| col in rest;
      if prefix <= col {
        assert Covers(col, name);
        return true;
      }
      assert !Covers(col, name);
      rest := rest - {col};
    }
    return false;
  }

  // ----- the index -----

  /** A per-table lookup: exact membership plus the names in sorted order. */
  datatype FieldIndex = FieldIndex(exact: set<string>, sorted: seq<string>)
  {
    predicate Valid() {
      Sorted(sorted) && exact == set f | f in sorted
    }
  }

  lemma {:induction false} PrefixLeq(p: string, b: string)
    requires p <= b
    ensures Leq(p, b)
  {
    if p != "" {
      PrefixLeq(p[1..], b[1..]);
    }
  }

  /** Everything between a prefix and a string it starts also has that prefix. */
  lemma {:induction false} PrefixInterval(p: string, a: string, b: string)
    requires Leq(p, a) && Leq(a, b) && p <= b
    ensures p <= a
  {
    if p != "" {
      assert b[0] == p[0];
      assert a != "" && a[0] == p[0];
      PrefixInterval(p[1..], a[1..], b[1..]);
      assert p == [p[0]] + p[1..] && a == [a[0]] + a[1..];
    }
  }

  /** sort.SearchStrings: the first position whose element is not below x. */
  method SearchStrings(a: seq<string>, x: string) returns (pos: nat)
    requires Sorted(a)
    ensures pos <= |a|
    ensures forall i | 0 <= i < pos :: Less(a[i], x)
    ensures forall i | pos <= i < |a| :: Leq(x, a[i])
  {
    var lo, hi := 0, |a|;
    while lo < hi
      invariant 0 <= lo <= hi <= |a|
      invariant forall i | 0 <= i < lo :: Less(a[i], x)
      invariant forall i | hi <= i < |a| :: Leq(x, a[i])
    {
      var mid := (lo + hi) / 2;
      if Less(a[mid], x) {
        forall i | 0 <= i < mid
          ensures Less(a[i], x)
        {
          BelowLess(a[i], a[mid], x);
        }
        lo := mid + 1;
      } else {
        forall i | mid < i < |a|
          ensures Leq(x, a[i])
        {
          LeqTransitive(x, a[mid], a[i]);
        }
        hi := mid;
      }
    }
    pos := lo;
  }

  lemma BelowLess(a: string, b: string, c: string)
    requires Leq(a, b) && Less(b, c)
    ensures Less(a, c)
  {
    LessTotal(a, b);
    if Less(a, b) {
      LessTransitive(a, b, c);
    }
  }

  /** fieldIndex.has: one exact lookup and one probe, yet it finds whatever the scan finds. */
  method Has(index: FieldIndex, name: string) returns (found: bool)
    requires index.Valid()
    ensures found <==> Resolves(index.exact, name)
  {
    if name in index.exact {
      assert Covers(name, name);
      return true;
    }
    var prefix := name + ".";
    var pos := SearchStrings(index.sorted, prefix);
    found := pos < |index.sorted| && prefix <= index.sorted[pos];
    if found {
      assert Covers(index.sorted[pos], name) && index.sorted[pos] in index.exact;
    } else {
      forall f | f in index.exact
        ensures !Covers(f, name)
      {
        if prefix <= f {
          ProbeWouldFind(index.sorted, prefix, pos, f);
        }
      }
    }
  }

  lemma ProbeWouldFind(sorted: seq<string>, prefix: string, pos: nat, f: string)
    requires Sorted(sorted) && f in sorted && prefix <= f && pos <= |sorted|
    requires forall i | 0 <= i < pos :: Less(sorted[i], prefix)
    requires forall i | pos <= i < |sorted| :: Leq(prefix, sorted[i])
    ensures pos < |sorted| && prefix <= sorted[pos]
  {
    var k :| 0 <= k < |sorted| && sorted[k] == f;
    PrefixLeq(prefix, f);
    assert pos <= k;
    LeqReflexive(f);
    PrefixInterval(prefix, sorted[pos], f);
  }

  /** The fields indexed under a table name: a later table of the same name replaces an earlier one. */
  function FieldsOf(tables: seq<TableSchema>): map<string, seq<string>> {
    if tables == [] then map[]
    else FieldsOf(tables[..|tables| - 1])[tables[|tables| - 1].name := tables[|tables| - 1].fields]
  }

  method IndexFields(fields: seq<string>) returns (index: FieldIndex)
    ensures index.Valid() && index.exact == set f | f in fields
  {
    var exact: set<string>, names: seq<string> := {}, [];
    for i := 0 to |fields|
      invariant names == fields[..i] && exact == set f | f in names
    {
      exact := exact + {fields[i]};
      names := names + [fields[i]];
    }
    assert fields[..|fields|] == fields;
    var sorted := Sort(names);
    SortSorts(names);
    assert forall f :: f in sorted <==> f in multiset(sorted);
    index := FieldIndex(exact, sorted);
  }

  /** indexSnapshotFields: one valid index per table name, holding exactly that table's fields. */
  method IndexSnapshot(tables: seq<TableSchema>) returns (index: map<string, FieldIndex>)
    ensures index.Keys == FieldsOf(tables).Keys
    ensures forall t | t in index :: index[t].Valid() && index[t].exact == set f | f in FieldsOf(tables)[t]
  {
    index := map[];
    for i := 0 to |tables|
      invariant index.Keys == FieldsOf(tables[..i]).Keys
      invariant forall t | t in index :: index[t].Valid() && index[t].exact == set f | f in FieldsOf(tables[..i])[t]
    {
      var one := IndexFields(tables[i].fields);
      assert tables[..i + 1][..i] == tables[..i];
      index := index[tables[i].name := one];
    }
    assert tables[..|tables|] == tables;
  }
}
