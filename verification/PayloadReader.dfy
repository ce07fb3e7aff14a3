// Reading a direct payload back as the map it was printed from: config -> table -> rows.
module PayloadReader {
  import opened Engine
  import opened Json
  import opened JsonReader
  import opened Rows
  import opened StringOrder

  /** The text of a literal, if nothing follows its closing quote. */
  function Unquote(key: Bytes): Option<string> {
    if key == "" || key[0] != '\"' then None
    else match ReadString(key[1..])
      case None => None
      case Some(p) => if p.1 == "" then Some(p.0) else None
  }

  lemma UnquoteQuote(s: string)
    ensures Unquote(Quote(s)) == Some(s)
  {
    assert Quote(s)[1..] == Escape(s) + ("\"" + "");
    ReadEscaped(s, "");
  }

  /** The members of an object as a map of what their values read as; None if one does not. */
  function Entries<V>(read: Json -> Option<V>, members: seq<Member>): Option<map<string, V>> {
    if members == [] then Some(map[])
    else
      var m := members[|members| - 1];
      var front, key, value := Entries(read, members[..|members| - 1]), Unquote(m.key), read(m.value);
      if front.Some? && key.Some? && value.Some? then Some(front.value[key.value := value.value]) else None
  }

  function RowsOf(j: Json): Option<seq<Json>> {
    if j.Arr? then Some(j.items) else None
  }

  function TablesOf(j: Json): Option<Tables> {
    if j.Obj? then Entries(RowsOf, j.members) else None
  }

  /** config -> table -> rows. */
  function ReadPayload(s: Bytes): Option<map<string, Tables>> {
    match ReadJson(s)
    case Some(Obj(members)) => Entries(TablesOf, members)
    case _ => None
  }

  lemma EntriesOneMore<V>(read: Json -> Option<V>, members: seq<Member>, key: string, j: Json, front: map<string, V>,
                          value: V)
    requires Entries(read, members) == Some(front) && read(j) == Some(value)
    ensures Entries(read, members + [Member(Quote(key), j)]) == Some(front[key := value])
  {
    var all := members + [Member(Quote(key), j)];
    UnquoteQuote(key);
    assert all[..|all| - 1] == members && all[|all| - 1] == Member(Quote(key), j);
  }

  /** The entries of a map under the given keys. */
  function Restrict<V>(keys: seq<string>, values: map<string, V>): map<string, V>
    requires forall k | k in keys :: k in values
  {
    map k | k in keys :: values[k]
  }

  lemma RestrictOneMore<V>(keys: seq<string>, last: string, values: map<string, V>)
    requires last in values && forall k | k in keys :: k in values
    ensures Restrict(keys + [last], values) == Restrict(keys, values)[last := values[last]]
  {
  }

  /** The value under the key reads as its entry. */
  ghost predicate ReadsAs<V>(read: Json -> Option<V>, m: map<string, Json>, values: map<string, V>, k: string) {
    k in m && k in values && read(m[k]) == Some(values[k])
  }

  lemma {:induction false} EntriesOfMembers<V>(read: Json -> Option<V>, keys: seq<string>, m: map<string, Json>,
                                               values: map<string, V>)
    requires forall k | k in keys :: k in m && k in values && ReadsAs(read, m, values, k)
    ensures Entries(read, MembersOf(keys, m)) == Some(Restrict(keys, values))
  {
    if keys != [] {
      var front, last := keys[..|keys| - 1], keys[|keys| - 1];
      EntriesOfMembers(read, front, m, values);
      assert ReadsAs(read, m, values, last);
      EntriesOneMore(read, MembersOf(front, m), last, m[last], Restrict(front, values), values[last]);
      RestrictOneMore(front, last, values);
      assert keys == front + [last];
    }
  }

  /** A printed map reads as the map of its values. */
  lemma EntriesOfMap<V>(read: Json -> Option<V>, m: map<string, Json>, values: map<string, V>)
    requires m.Keys == values.Keys && forall k | k in m :: read(m[k]) == Some(values[k])
    ensures MapJson(m).Obj? && Entries(read, MapJson(m).members) == Some(values)
  {
    SortedKeysStrict(m.Keys);
    assert forall k | k in SortedKeys(m.Keys) :: ReadsAs(read, m, values, k);
    EntriesOfMembers(read, SortedKeys(m.Keys), m, values);
    assert Restrict(SortedKeys(m.Keys), values) == values;
  }

  lemma TablesRead(t: Tables)
    ensures TablesOf(TablesJson(t)) == Some(t)
  {
    EntriesOfMap(RowsOf, map k | k in t :: Arr(t[k]), t);
  }

  // ----- the printed map is well formed -----

  lemma {:induction false} EscapedRest(s: string)
    ensures LiteralRest(Escape(s) + "\"")
  {
    if s != "" {
      EscapedRest(s[1..]);
      EscapedChar(s[0], Escape(s[1..]) + "\"");
      assert Escape(s) + "\"" == EscapeChar(s[0]) + (Escape(s[1..]) + "\"");
    }
  }

  lemma EscapedHex(hi: char, lo: char, rest: Bytes)
    requires LiteralRest(rest) && hi >= ' ' && lo >= ' ' && hi != '\"' && lo != '\"' && hi != '\\' && lo != '\\'
    ensures LiteralRest("\\u00" + [hi, lo] + rest)
  {
    var s := "\\u00" + [hi, lo] + rest;
    assert s[6..] == rest && s[5..][1..] == s[6..] && s[4..][1..] == s[5..] && s[3..][1..] == s[4..]
      && s[2..][1..] == s[3..];
    assert LiteralRest(s[5..]) && LiteralRest(s[4..]) && LiteralRest(s[3..]) && LiteralRest(s[2..]);
  }

  lemma EscapedChar(c: char, rest: Bytes)
    requires LiteralRest(rest)
    ensures LiteralRest(EscapeChar(c) + rest)
  {
    var s := EscapeChar(c) + rest;
    if c == '\"' || c == '\\' || c == '\n' || c == '\r' || c == '\t' {
      assert s[2..] == rest;
    } else if c < ' ' || c == '<' || c == '>' || c == '&' {
      EscapedHex(HexDigit(c as int / 16 % 16), HexDigit(c as int % 16), rest);
    } else {
      assert s[1..] == rest;
    }
  }

  lemma QuoteIsLiteral(s: string)
    ensures IsLiteral(Quote(s))
  {
    EscapedRest(s);
    assert Quote(s)[1..] == Escape(s) + "\"";
  }

  lemma {:induction false} MembersWellFormed(keys: seq<string>, m: map<string, Json>)
    requires forall k | k in keys :: k in m && WellFormed(m[k])
    ensures forall x | x in MembersOf(keys, m) :: WellFormedMember(x)
  {
    if keys != [] {
      MembersWellFormed(keys[..|keys| - 1], m);
      QuoteIsLiteral(keys[|keys| - 1]);
    }
  }

  lemma MapWellFormed(m: map<string, Json>)
    requires forall k | k in m :: WellFormed(m[k])
    ensures WellFormed(MapJson(m))
  {
    SortedKeysStrict(m.Keys);
    MembersWellFormed(SortedKeys(m.Keys), m);
  }

  predicate WellFormedRows(t: Tables) {
    forall k | k in t :: WellFormed(Arr(t[k]))
  }

  /** Printing a map of rows and reading it back gives the map, whatever the names. */
  lemma PayloadReadsBack(m: map<string, Tables>)
    requires forall c | c in m :: WellFormedRows(m[c])
    ensures ReadPayload(Indented(MapJson(map c | c in m :: TablesJson(m[c])), 0)) == Some(m)
  {
    var values := map c | c in m :: TablesJson(m[c]);
    forall c | c in values
      ensures WellFormed(values[c]) && TablesOf(values[c]) == Some(m[c])
    {
      MapWellFormed(map k | k in m[c] :: Arr(m[c][k]));
      TablesRead(m[c]);
    }
    MapWellFormed(values);
    EntriesOfMap(TablesOf, values, m);
    PrintersReadBack(MapJson(values), 0);
  }
}
