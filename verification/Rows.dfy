// Extracted rows and their two serialised shapes: the NDJSON envelope of the store path and
// the nested object of the direct path.
module Rows {
  import opened Engine
  import opened Lines
  import opened Json
  import opened StringOrder

  /** What a cursor yields: the qualified table and the row's column map. */
  datatype Pair = Pair(table: string, row: Json)

  /** One plan step: its config name and the rows its cursor holds, in cursor order. */
  datatype StepRows = StepRows(config: string, pairs: seq<Pair>)

  /** Rows keyed by qualified table. */
  type Tables = map<string, seq<Json>>

  function HexDigit(n: nat): char
    requires n < 16
  {
    "0123456789abcdef"[n]
  }

  /** encoding/json's escaping of one character inside a string literal. */
  function EscapeChar(c: char): Bytes {
    if c == '\"' then "\\\""
    else if c == '\\' then "\\\\"
    else if c == '\n' then "\\n"
    else if c == '\r' then "\\r"
    else if c == '\t' then "\\t"
    else if c < ' ' || c == '<' || c == '>' || c == '&' then
      "\\u00" + [HexDigit(c as int / 16 % 16), HexDigit(c as int % 16)]
    else [c]
  }

  function Escape(s: string): Bytes {
    if s == "" then "" else EscapeChar(s[0]) + Escape(s[1..])
  }

  function Quote(s: string): Bytes {
    "\"" + Escape(s) + "\""
  }

  // ----- store path -----

  const CONFIG_KEY: Bytes := "\"config\""
  const TABLE_KEY: Bytes := "\"table\""
  const ROW_KEY: Bytes := "\"row\""

  function Envelope(config: string, p: Pair): Json {
    Obj([Member(CONFIG_KEY, Scalar(Quote(config))),
         Member(TABLE_KEY, Scalar(Quote(p.table))),
         Member(ROW_KEY, p.row)])
  }

  /** appendRow's bytes for one row, or None when the row cannot be marshalled. */
  function EncodeRow(config: string, p: Pair): Line {
    if Marshalable(p.row) then Some(Compact(Envelope(config, p)) + "\n") else None
  }

  function LinesOf(config: string, pairs: seq<Pair>): seq<Line> {
    if pairs == [] then [] else LinesOf(config, pairs[..|pairs| - 1]) + [EncodeRow(config, pairs[|pairs| - 1])]
  }

  lemma {:induction false} LinesOfAt(config: string, pairs: seq<Pair>)
    ensures |LinesOf(config, pairs)| == |pairs|
    ensures forall i | 0 <= i < |pairs| :: LinesOf(config, pairs)[i] == EncodeRow(config, pairs[i])
  {
    if pairs != [] {
      LinesOfAt(config, pairs[..|pairs| - 1]);
    }
  }

  // ----- direct path -----

  /** executeStep's aggregation: rows[table] = append(rows[table], row), pair by pair. */
  function Group(pairs: seq<Pair>): Tables {
    if pairs == [] then map[]
    else
      var p := pairs[|pairs| - 1];
      var before := Group(pairs[..|pairs| - 1]);
      before[p.table := RowsIn(before, p.table) + [p.row]]
  }

  function RowsIn(t: Tables, table: string): seq<Json> {
    if table in t then t[table] else []
  }

  /** The members of an object with the given keys, in the given order. */
  function MembersOf(keys: seq<string>, m: map<string, Json>): seq<Member>
    requires forall k | k in keys :: k in m
  {
    if keys == [] then []
    else MembersOf(keys[..|keys| - 1], m) + [Member(Quote(keys[|keys| - 1]), m[keys[|keys| - 1]])]
  }

  /** encoding/json prints a map with its keys sorted. */
  ghost function MapJson(m: map<string, Json>): Json {
    SortedKeysStrict(m.Keys);
    Obj(MembersOf(SortedKeys(m.Keys), m))
  }

  ghost function TablesJson(t: Tables): Json {
    MapJson(map k | k in t :: Arr(t[k]))
  }
}
