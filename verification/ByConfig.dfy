// Values reported per config name, as both delivery modes do: a later step of a name overwrites.
module ByConfig {

  predicate Unique(names: seq<string>) {
    forall i, j | 0 <= i < j < |names| :: names[i] != names[j]
  }

  /** out[name] = value in plan order. */
  function Merge<T>(names: seq<string>, values: seq<T>): map<string, T>
    requires |names| == |values|
  {
    if names == [] then map[]
    else Merge(names[..|names| - 1], values[..|values| - 1])[names[|names| - 1] := values[|values| - 1]]
  }

  lemma {:induction false} MergeHolds<T>(names: seq<string>, values: seq<T>)
    requires |names| == |values| && Unique(names)
    ensures Merge(names, values).Keys == set n | n in names
    ensures forall i | 0 <= i < |names| :: Merge(names, values)[names[i]] == values[i]
  {
    if names != [] {
      var n := |names| - 1;
      MergeHolds(names[..n], values[..n]);
      assert names == names[..n] + [names[n]];
      forall i | 0 <= i < |names|
        ensures names[i] in Merge(names, values) && Merge(names, values)[names[i]] == values[i]
      {
        if i < n {
          assert names[..n][i] == names[i] && values[..n][i] == values[i];
        }
      }
    }
  }

  lemma {:induction false} MergeElsewhere<T>(names: seq<string>, values: seq<T>, i: nat, v: T)
    requires i < |names| == |values|
    ensures Merge(names, values[i := v]).Keys == Merge(names, values).Keys
    ensures forall k | k in Merge(names, values) && k != names[i] ::
              Merge(names, values[i := v])[k] == Merge(names, values)[k]
  {
    var n := |names| - 1;
    if i < n {
      assert values[i := v][..n] == values[..n][i := v];
      MergeElsewhere(names[..n], values[..n], i, v);
    } else {
      assert values[i := v][..n] == values[..n];
    }
  }

  /** A value that a later step of the same name overwrites does not show. */
  lemma {:induction false} MergeOverwritten<T>(names: seq<string>, values: seq<T>, i: nat, j: nat, v: T)
    requires i < j < |names| == |values| && names[i] == names[j]
    ensures Merge(names, values[i := v]) == Merge(names, values)
  {
    var n := |names| - 1;
    assert values[i := v][..n] == values[..n][i := v];
    if j < n {
      MergeOverwritten(names[..n], values[..n], i, j, v);
    } else {
      MergeElsewhere(names[..n], values[..n], i, v);
    }
  }

  function Total(counts: seq<nat>): nat {
    if counts == [] then 0 else Total(counts[..|counts| - 1]) + counts[|counts| - 1]
  }

  lemma TotalOneMore(counts: seq<nat>, k: nat)
    requires k < |counts|
    ensures Total(counts[..k + 1]) == Total(counts[..k]) + counts[k]
  {
    assert counts[..k + 1][..k] == counts[..k];
  }

  /** The values of a map added up. */
  ghost function Sum(m: map<string, nat>): nat
    decreases |m|
  {
    if m == map[] then 0
    else
      var k :| k in m;
      m[k] + Sum(m - {k})
  }

  /** It does not matter which key is taken first. */
  lemma {:induction false} SumRemove(m: map<string, nat>, k: string)
    requires k in m
    ensures Sum(m) == m[k] + Sum(m - {k})
    decreases |m|
  {
    var k0 :| k0 in m && Sum(m) == m[k0] + Sum(m - {k0});
    if k0 != k {
      SumRemove(m - {k0}, k);
      SumRemove(m - {k}, k0);
      assert m - {k0} - {k} == m - {k} - {k0};
    }
  }

  lemma SumUpdate(m: map<string, nat>, k: string, v: nat)
    ensures Sum(m[k := v]) == Sum(m) + v - (if k in m then m[k] else 0)
  {
    SumRemove(m[k := v], k);
    if k in m {
      SumRemove(m, k);
      assert m[k := v] - {k} == m - {k};
    } else {
      assert m[k := v] - {k} == m;
    }
  }

  /** With unique names nothing is overwritten, so the merged counts add up to the total. */
  lemma {:induction false} SumMerge(names: seq<string>, counts: seq<nat>)
    requires |names| == |counts| && Unique(names)
    ensures Sum(Merge(names, counts)) == Total(counts)
  {
    if names != [] {
      var n := |names| - 1;
      SumMerge(names[..n], counts[..n]);
      MergeHolds(names[..n], counts[..n]);
      assert names[n] !in names[..n];
      SumUpdate(Merge(names[..n], counts[..n]), names[n], counts[n]);
    }
  }
}
