// Validation failures and the stable order of a report.
module Failures {
  import opened StringOrder

  datatype Kind = TooMany | NoConnection | NoTable | NoField | NoFilterField

  datatype Failure = Failure(kind: Kind, config: string, table: string, field: string)

  /** The alphabetical position of a failure type's name. */
  function Position(k: Kind): nat {
    match k
    case NoConnection => 0
    case NoField => 1
    case NoFilterField => 2
    case TooMany => 3
    case NoTable => 4
  }

  /** newValidationReport's comparison: config, table, type, field. */
  predicate Precedes(f: Failure, g: Failure) {
    if f.config != g.config then Less(f.config, g.config)
    else if f.table != g.table then Less(f.table, g.table)
    else if f.kind != g.kind then Position(f.kind) < Position(g.kind)
    else Less(f.field, g.field)
  }

  /** The failure types by name. */
  function TypeName(k: Kind): string {
    match k
    case NoConnection => "datasource_not_found"
    case NoTable => "table_not_found"
    case NoField => "field_not_found"
    case NoFilterField => "invalid_filter"
    case TooMany => "limit_exceeded"
  }

  /** What a report is ordered by, most important first. */
  function SortKeys(f: Failure): (keys: seq<string>)
    ensures |keys| == 4
  {
    [f.config, f.table, TypeName(f.kind), f.field]
  }

  predicate AgreeUpTo(f: Failure, g: Failure, i: nat)
    requires i < 4
  {
    SortKeys(f)[..i] == SortKeys(g)[..i]
  }

  lemma TypesByName(k: Kind, l: Kind)
    ensures Less(TypeName(k), TypeName(l)) <==> Position(k) < Position(l)
  {
    LeqReflexive(TypeName(k));
    assert TypeName(k)[0] < TypeName(l)[0] <==> Position(k) < Position(l);
    assert TypeName(k)[0] == TypeName(l)[0] <==> k == l;
  }

  lemma AgreeOneMore(f: Failure, g: Failure)
    ensures AgreeUpTo(f, g, 0)
    ensures AgreeUpTo(f, g, 1) <==> f.config == g.config
    ensures AgreeUpTo(f, g, 2) <==> f.config == g.config && f.table == g.table
    ensures AgreeUpTo(f, g, 3) <==> f.config == g.config && f.table == g.table && f.kind == g.kind
  {
    var a, b := SortKeys(f), SortKeys(g);
    assert a[..1] == [f.config] && b[..1] == [g.config];
    assert a[..2] == [f.config, f.table] && b[..2] == [g.config, g.table];
    assert a[..3] == [f.config, f.table, a[2]] && b[..3] == [g.config, g.table, b[2]];
    TypesByName(f.kind, g.kind);
    TypesByName(g.kind, f.kind);
    LeqReflexive(a[2]);
  }

  /** The comparison is the dictionary order of config, table, type name and field, in this order. */
  lemma PrecedesByKeys(f: Failure, g: Failure)
    ensures Precedes(f, g) <==>
            exists i: nat :: i < 4 && AgreeUpTo(f, g, i) && Before(SortKeys(f)[i], SortKeys(g)[i])
  {
    var a, b := SortKeys(f), SortKeys(g);
    AgreeOneMore(f, g);
    TypesByName(f.kind, g.kind);
    forall i | 0 <= i < 4
      ensures Less(a[i], b[i]) <==> Before(a[i], b[i])
      ensures a[i] == b[i] ==> !Less(a[i], b[i])
    {
      LessIsBefore(a[i], b[i]);
      LeqReflexive(a[i]);
    }
    assert Precedes(f, g) <==>
      || Less(a[0], b[0])
      || (AgreeUpTo(f, g, 1) && Less(a[1], b[1]))
      || (AgreeUpTo(f, g, 2) && Less(a[2], b[2]))
      || (AgreeUpTo(f, g, 3) && Less(a[3], b[3]));
  }

  predicate NotAfter(f: Failure, g: Failure) {
    !Precedes(g, f)
  }

  lemma PrecedesTotal(f: Failure, g: Failure)
    ensures Precedes(f, g) || Precedes(g, f) || f == g
    ensures Precedes(f, g) ==> !Precedes(g, f)
  {
    LessTotal(f.config, g.config);
    LessTotal(f.table, g.table);
    LessTotal(f.field, g.field);
    if Less(f.config, g.config) { LessAsymmetric(f.config, g.config); }
    if Less(f.table, g.table) { LessAsymmetric(f.table, g.table); }
    if Less(f.field, g.field) { LessAsymmetric(f.field, g.field); }
  }

  lemma LessThrough(a: string, b: string, c: string)
    requires a == b || Less(a, b)
    requires b == c || Less(b, c)
    ensures a == c || Less(a, c)
    ensures a == c ==> a == b
  {
    if Less(a, b) && Less(b, c) {
      LessTransitive(a, b, c);
    }
    if a == c && Less(a, b) {
      LessAsymmetric(a, b);
    }
  }

  lemma PrecedesTransitive(f: Failure, g: Failure, h: Failure)
    requires Precedes(f, g) && Precedes(g, h)
    ensures Precedes(f, h)
  {
    LessThrough(f.config, g.config, h.config);
    if f.config == h.config {
      LessThrough(f.table, g.table, h.table);
      if f.table == h.table && f.kind == g.kind == h.kind {
        LessTransitive(f.field, g.field, h.field);
      }
    }
  }

  lemma NotAfterTransitive(f: Failure, g: Failure, h: Failure)
    requires NotAfter(f, g) && NotAfter(g, h)
    ensures NotAfter(f, h)
  {
    PrecedesTotal(f, g);
    PrecedesTotal(g, h);
    if Precedes(h, f) && Precedes(f, g) {
      PrecedesTransitive(h, f, g);
    }
  }

  predicate Ordered(fs: seq<Failure>) {
    forall i, j | 0 <= i < j < |fs| :: NotAfter(fs[i], fs[j])
  }

  function Insert(f: Failure, fs: seq<Failure>): seq<Failure> {
    if fs == [] then [f] else if NotAfter(f, fs[0]) then [f] + fs else [fs[0]] + Insert(f, fs[1..])
  }

  /** The report's stable sort. */
  function Arrange(fs: seq<Failure>): seq<Failure> {
    if fs == [] then [] else Insert(fs[0], Arrange(fs[1..]))
  }

  lemma {:induction false} InsertAdds(f: Failure, fs: seq<Failure>)
    ensures multiset(Insert(f, fs)) == multiset(fs) + multiset{f}
  {
    if fs != [] {
      assert fs == [fs[0]] + fs[1..];
      InsertAdds(f, fs[1..]);
    }
  }

  lemma {:induction false} InsertOrdered(f: Failure, fs: seq<Failure>)
    requires Ordered(fs)
    ensures Ordered(Insert(f, fs))
  {
    if fs == [] {
    } else if NotAfter(f, fs[0]) {
      forall j | 0 <= j < |fs|
        ensures NotAfter(f, fs[j])
      {
        if j > 0 {
          NotAfterTransitive(f, fs[0], fs[j]);
        }
      }
    } else {
      InsertOrdered(f, fs[1..]);
      InsertAdds(f, fs[1..]);
      PrecedesTotal(fs[0], f);
      var rest := Insert(f, fs[1..]);
      forall j | 0 <= j < |rest|
        ensures NotAfter(fs[0], rest[j])
      {
        assert rest[j] in multiset(rest);
        if rest[j] != f {
          assert rest[j] in fs[1..];
        }
      }
    }
  }

  /** The report holds the same failures, in order. */
  lemma {:induction false} ArrangeOrders(fs: seq<Failure>)
    ensures Ordered(Arrange(fs)) && multiset(Arrange(fs)) == multiset(fs)
  {
    if fs != [] {
      ArrangeOrders(fs[1..]);
      InsertOrdered(fs[0], Arrange(fs[1..]));
      InsertAdds(fs[0], Arrange(fs[1..]));
      assert fs == [fs[0]] + fs[1..];
    }
  }

  lemma ArrangeKeeps(fs: seq<Failure>)
    ensures forall f :: f in Arrange(fs) <==> f in fs
    ensures Arrange(fs) == [] <==> fs == []
  {
    ArrangeOrders(fs);
    assert forall f :: f in Arrange(fs) <==> f in multiset(Arrange(fs));
    assert |Arrange(fs)| == |multiset(Arrange(fs))| == |fs|;
  }

  lemma FirstIsLeast(a: seq<Failure>, b: seq<Failure>)
    requires Ordered(a) && Ordered(b) && a != [] && b != [] && a[0] in b && b[0] in a
    ensures a[0] == b[0]
  {
    var i :| 0 <= i < |b| && b[i] == a[0];
    var j :| 0 <= j < |a| && a[j] == b[0];
    PrecedesTotal(a[0], b[0]);
  }

  /** Failures have only one ordered listing, so the report does not depend on the order they were found in. */
  lemma {:induction false} OrderedUnique(a: seq<Failure>, b: seq<Failure>)
    requires Ordered(a) && Ordered(b) && multiset(a) == multiset(b)
    ensures a == b
  {
    assert |a| == |multiset(a)| == |multiset(b)| == |b|;
    if a != [] {
      assert a[0] in multiset(b) && b[0] in multiset(a);
      FirstIsLeast(a, b);
      TailMultiset(a);
      TailMultiset(b);
      OrderedUnique(a[1..], b[1..]);
      assert a == [a[0]] + a[1..] && b == [b[0]] + b[1..];
    }
  }

  lemma ReportCanonical(a: seq<Failure>, b: seq<Failure>)
    requires multiset(a) == multiset(b)
    ensures Arrange(a) == Arrange(b)
  {
    ArrangeOrders(a);
    ArrangeOrders(b);
    OrderedUnique(Arrange(a), Arrange(b));
  }
}
