// The NDJSON stream of the store path: the encoder, a reader for its lines, and the proof
// that reading a stream back gives exactly the rows the direct path returns.
module Ndjson {
  import opened Engine
  import opened Lines
  import opened Json
  import opened JsonReader
  import opened PayloadReader
  import opened Newlines
  import opened Rows
  import opened ByConfig
  import opened DirectPayload
  import StoreMachine
  import StoreInvariant
  import StoreDelivery

  /** Accumulates the lines of one step until the batch is taken. */
  class NdjsonEncoder {
    const config: string
    var buf: Bytes

    constructor (config: string)
      ensures this.config == config && buf == ""
    {
      this.config := config;
      buf := "";
    }

    /** A row that cannot be marshalled leaves the buffer alone. */
    method AppendRow(p: Pair) returns (err: Option<EngineError>)
      modifies this`buf
      ensures buf == old(buf) + Text(EncodeRow(config, p))
      ensures err == if Marshalable(p.row) then None else Some(SERIALIZE_ERROR)
    {
      if !Marshalable(p.row) {
        return Some(SERIALIZE_ERROR);
      }
      buf := buf + (Compact(Envelope(config, p)) + "\n");
      err := None;
    }

    method Take() returns (out: Bytes)
      modifies this`buf
      ensures out == old(buf) && buf == ""
    {
      out := buf;
      buf := "";
    }
  }

  // ----- reading a line -----

  datatype Record = Record(config: string, table: string, row: Bytes)

  function Strip(prefix: Bytes, s: Bytes): Option<Bytes> {
    if prefix <= s then Some(s[|prefix|..]) else None
  }

  /** The fixed text before each value of a line. */
  datatype Leads = Leads(config: Bytes, table: Bytes, row: Bytes)

  function EnvelopeLeads(): Leads {
    Leads("{\"config\":\"", ",\"table\":\"", ",\"row\":")
  }

  function ReadLine(l: Leads, line: Bytes): Option<Record> {
    match Strip(l.config, line) case None => None case Some(a) =>
    match ReadString(a) case None => None case Some(config) =>
    match Strip(l.table, config.1) case None => None case Some(b) =>
    match ReadString(b) case None => None case Some(table) =>
    match Strip(l.row, table.1) case None => None case Some(row) =>
    if row == "" || row[|row| - 1] != '}' then None
    else Some(Record(config.0, table.0, row[..|row| - 1]))
  }

  function RowPart(l: Leads, row: Bytes): Bytes {
    l.row + (row + "}")
  }

  function TablePart(l: Leads, table: string, row: Bytes): Bytes {
    l.table + (Escape(table) + ("\"" + RowPart(l, row)))
  }

  function Layout(l: Leads, config: string, table: string, row: Bytes): Bytes {
    l.config + (Escape(config) + ("\"" + TablePart(l, table, row)))
  }

  lemma ReadLayout(l: Leads, config: string, table: string, row: Bytes)
    ensures ReadLine(l, Layout(l, config, table, row)) == Some(Record(config, table, row))
  {
    ReadEscaped(config, TablePart(l, table, row));
    ReadEscaped(table, RowPart(l, row));
    assert (row + "}")[..|row + "}"| - 1] == row;
  }

  lemma Regrouped(a: Bytes, b: Bytes, c: Bytes, key1: Bytes, key2: Bytes, key3: Bytes)
    ensures "{" + (((key1 + ":" + ("\"" + a + "\"")) + "," + key2 + ":" + ("\"" + b + "\""))
                   + "," + key3 + ":" + c) + "}"
         == ("{" + key1 + ":" + "\"") + (a + ("\"" + (("," + key2 + ":" + "\"")
            + (b + ("\"" + (("," + key3 + ":") + (c + "}")))))))
  {
  }

  lemma CompactThree(m1: Member, m2: Member, m3: Member)
    ensures Compact(Obj([m1, m2, m3]))
         == "{" + (((m1.key + ":" + Compact(m1.value)) + "," + m2.key + ":" + Compact(m2.value))
                   + "," + m3.key + ":" + Compact(m3.value)) + "}"
  {
    assert CompactMembers([m1]) == m1.key + ":" + Compact(m1.value);
    assert [m1, m2][..1] == [m1];
    assert CompactMembers([m1, m2]) == CompactMembers([m1]) + "," + m2.key + ":" + Compact(m2.value);
    assert [m1, m2, m3][..2] == [m1, m2];
    assert CompactMembers([m1, m2, m3]) == CompactMembers([m1, m2]) + "," + m3.key + ":" + Compact(m3.value);
  }

  lemma EnvelopeLayout(config: string, p: Pair)
    ensures Compact(Envelope(config, p)) == Layout(EnvelopeLeads(), config, p.table, Compact(p.row))
  {
    CompactThree(Member(CONFIG_KEY, Scalar(Quote(config))),
                 Member(TABLE_KEY, Scalar(Quote(p.table))), Member(ROW_KEY, p.row));
    Regrouped(Escape(config), Escape(p.table), Compact(p.row), CONFIG_KEY, TABLE_KEY, ROW_KEY);
    var l := EnvelopeLeads();
    assert l.config == "{" + CONFIG_KEY + ":" + "\"";
    assert l.table == "," + TABLE_KEY + ":" + "\"" && l.row == "," + ROW_KEY + ":";
  }

  lemma ReadEnvelope(config: string, p: Pair)
    ensures ReadLine(EnvelopeLeads(), Compact(Envelope(config, p))) == Some(Record(config, p.table, Compact(p.row)))
  {
    EnvelopeLayout(config, p);
    ReadLayout(EnvelopeLeads(), config, p.table, Compact(p.row));
  }

  type Reader = Bytes -> Option<Record>

  const ENVELOPE_READER: Reader := line => ReadLine(EnvelopeLeads(), line)

  /** The reader gives back the config, the table and the row's own text. */
  ghost predicate Reads(read: Reader) {
    forall config, p :: read(Compact(Envelope(config, p))) == Some(Record(config, p.table, Compact(p.row)))
  }

  lemma EnvelopeReads()
    ensures Reads(ENVELOPE_READER)
  {
    forall config, p
      ensures ENVELOPE_READER(Compact(Envelope(config, p))) == Some(Record(config, p.table, Compact(p.row)))
    {
      ReadEnvelope(config, p);
    }
  }

  // ----- lines end at the first newline -----

  /** Tokens and keys as encoding/json prints them contain no raw newline. */
  predicate OneLine(j: Json) {
    match j
    case Scalar(token) => NoNewline(token)
    case Arr(items) => forall x | x in items :: OneLine(x)
    case Obj(members) => forall m | m in members :: NoNewline(m.key) && OneLine(m.value)
    case Unsupported => true
  }

  lemma {:induction false} CompactOneLine(j: Json)
    requires OneLine(j)
    ensures NoNewline(Compact(j))
    decreases j, 1
  {
    match j
    case Scalar(_) =>
    case Arr(items) => ItemsOneLine(items);
    case Obj(members) => MembersOneLine(members);
    case Unsupported =>
  }

  lemma {:induction false} ItemsOneLine(items: seq<Json>)
    requires forall x | x in items :: OneLine(x)
    ensures NoNewline(CompactItems(items))
    decreases items, 0
  {
    if items != [] {
      ItemsOneLine(items[..|items| - 1]);
      CompactOneLine(items[|items| - 1]);
    }
  }

  lemma {:induction false} MembersOneLine(members: seq<Member>)
    requires forall m | m in members :: NoNewline(m.key) && OneLine(m.value)
    ensures NoNewline(CompactMembers(members))
    decreases members, 0
  {
    if members != [] {
      MembersOneLine(members[..|members| - 1]);
      CompactOneLine(members[|members| - 1].value);
    }
  }

  lemma {:induction false} EscapeOneLine(s: string)
    ensures NoNewline(Escape(s))
  {
    if s != "" {
      EscapeOneLine(s[1..]);
      HexRead(s[0] as int / 16 % 16);
      HexRead(s[0] as int % 16);
    }
  }

  lemma QuoteOneLine(s: string)
    ensures NoNewline(Quote(s))
  {
    EscapeOneLine(s);
  }

  lemma ThreeOneLine(m1: Member, m2: Member, m3: Member)
    requires forall m | m in [m1, m2, m3] :: NoNewline(m.key) && OneLine(m.value)
    ensures NoNewline(Compact(Obj([m1, m2, m3])))
  {
    CompactOneLine(Obj([m1, m2, m3]));
  }

  lemma EnvelopeOneLine(config: string, p: Pair)
    requires OneLine(p.row)
    ensures NoNewline(Compact(Envelope(config, p)))
  {
    QuoteOneLine(config);
    QuoteOneLine(p.table);
    ThreeOneLine(Member(CONFIG_KEY, Scalar(Quote(config))), Member(TABLE_KEY, Scalar(Quote(p.table))),
                 Member(ROW_KEY, p.row));
  }

  // ----- reading a stream -----

  /** Splits at newlines and reads every line. */
  function ReadAll(read: Reader, bytes: Bytes): Option<seq<Record>>
    decreases |bytes|
  {
    if bytes == "" then Some([])
    else
      match Cut(bytes)
      case None => None
      case Some(p) =>
        CutPlain(bytes);
        var first, rest := read(p.0), ReadAll(read, p.1);
        if first.Some? && rest.Some? then Some([first.value] + rest.value) else None
  }

  lemma {:induction false} ReadAllAppend(read: Reader, a: Bytes, b: Bytes)
    requires ReadAll(read, a).Some? && ReadAll(read, b).Some?
    ensures ReadAll(read, a + b) == Some(ReadAll(read, a).value + ReadAll(read, b).value)
    decreases |a|
  {
    if a == "" {
      assert a + b == b;
      assert [] + ReadAll(read, b).value == ReadAll(read, b).value;
    } else {
      var p := Cut(a).value;
      CutPlain(a);
      ReadAllAppend(read, p.1, b);
      assert a + b == Break(p.0, p.1 + b);
      CutBreak(p.0, p.1 + b);
      ReadAllCons(read, p.0, p.1);
      ReadAllCons(read, p.0, p.1 + b);
      var first, rest, more := read(p.0).value, ReadAll(read, p.1).value, ReadAll(read, b).value;
      assert [first] + (rest + more) == ([first] + rest) + more;
    }
  }

  lemma {:induction false} ReadAllCons(read: Reader, line: Bytes, rest: Bytes)
    requires NoNewline(line) && read(line).Some? && ReadAll(read, rest).Some?
    ensures ReadAll(read, Break(line, rest)) == Some([read(line).value] + ReadAll(read, rest).value)
  {
    CutBreak(line, rest);
  }

  lemma ReadOne(read: Reader, config: string, p: Pair)
    requires Reads(read) && Marshalable(p.row) && OneLine(p.row)
    ensures ReadAll(read, Text(EncodeRow(config, p))) == Some([Record(config, p.table, Compact(p.row))])
  {
    EnvelopeOneLine(config, p);
    ReadOneLine(read, Compact(Envelope(config, p)), Record(config, p.table, Compact(p.row)));
  }

  lemma ReadOneLine(read: Reader, line: Bytes, r: Record)
    requires NoNewline(line) && read(line) == Some(r)
    ensures ReadAll(read, line + "\n") == Some([r])
  {
    assert line + "\n" == Break(line, "");
    ReadAllCons(read, line, "");
    assert [r] + [] == [r];
  }

  function Records(config: string, pairs: seq<Pair>): seq<Record> {
    if pairs == [] then []
    else
      var p := pairs[|pairs| - 1];
      Records(config, pairs[..|pairs| - 1]) + [Record(config, p.table, Compact(p.row))]
  }

  predicate Encodable(pairs: seq<Pair>) {
    forall p | p in pairs :: Marshalable(p.row) && OneLine(p.row)
  }

  lemma {:induction false} ReadStep(read: Reader, config: string, pairs: seq<Pair>)
    requires Reads(read) && Encodable(pairs)
    ensures ReadAll(read, Concat(LinesOf(config, pairs))) == Some(Records(config, pairs))
  {
    if pairs != [] {
      var front, p := pairs[..|pairs| - 1], pairs[|pairs| - 1];
      ReadStep(read, config, front);
      ReadOne(read, config, p);
      var lines := LinesOf(config, pairs);
      assert lines[..|lines| - 1] == LinesOf(config, front);
      ReadAllAppend(read, Concat(LinesOf(config, front)), Text(EncodeRow(config, p)));
    }
  }

  function Works(steps: seq<StepRows>): (ws: seq<Work>)
    ensures |ws| == |steps|
  {
    seq(|steps|, i requires 0 <= i < |steps| => Work(steps[i].config, LinesOf(steps[i].config, steps[i].pairs)))
  }

  /** The rows of the first k steps in plan order, each step in cursor order. */
  function PlanRecords(steps: seq<StepRows>, k: nat): seq<Record>
    requires k <= |steps|
  {
    if k == 0 then [] else PlanRecords(steps, k - 1) + Records(steps[k - 1].config, steps[k - 1].pairs)
  }

  predicate StepReads(read: Reader, work: Work, step: StepRows) {
    ReadAll(read, Concat(work.lines)) == Some(Records(step.config, step.pairs))
  }

  lemma {:induction false} ReadWorks(read: Reader, works: seq<Work>, steps: seq<StepRows>, k: nat)
    requires k <= |steps| == |works| && forall i | 0 <= i < |steps| :: StepReads(read, works[i], steps[i])
    ensures ReadAll(read, Output(works, k)) == Some(PlanRecords(steps, k))
  {
    if k > 0 {
      ReadWorks(read, works, steps, k - 1);
      assert StepReads(read, works[k - 1], steps[k - 1]);
      ReadAllAppend(read, Output(works, k - 1), Concat(works[k - 1].lines));
    }
  }

  lemma {:induction false} WorkReads(read: Reader, steps: seq<StepRows>, i: nat)
    requires Reads(read) && i < |steps| && Encodable(steps[i].pairs)
    ensures StepReads(read, Works(steps)[i], steps[i])
  {
    ReadStep(read, steps[i].config, steps[i].pairs);
    assert Works(steps)[i].lines == LinesOf(steps[i].config, steps[i].pairs);
  }

  /** The serial output reads back as the plan's rows in order. */
  lemma ReadOutput(read: Reader, steps: seq<StepRows>)
    requires Reads(read) && forall i | 0 <= i < |steps| :: Encodable(steps[i].pairs)
    ensures ReadAll(read, Output(Works(steps), |steps|)) == Some(PlanRecords(steps, |steps|))
  {
    forall i | 0 <= i < |steps|
      ensures StepReads(read, Works(steps)[i], steps[i])
    {
      WorkReads(read, steps, i);
    }
    ReadWorks(read, Works(steps), steps, |steps|);
  }

  // ----- the same rows as the direct path -----

  /** The row texts of one table of one config, in stream order. */
  function Lookup(records: seq<Record>, config: string, table: string): seq<Bytes> {
    if records == [] then []
    else
      var r := records[|records| - 1];
      Lookup(records[..|records| - 1], config, table)
      + (if r.config == config && r.table == table then [r.row] else [])
  }

  function Texts(rows: seq<Json>): seq<Bytes> {
    seq(|rows|, i requires 0 <= i < |rows| => Compact(rows[i]))
  }

  lemma {:induction false} LookupAppend(a: seq<Record>, b: seq<Record>, config: string, table: string)
    ensures Lookup(a + b, config, table) == Lookup(a, config, table) + Lookup(b, config, table)
  {
    if b == [] {
      assert a + b == a;
    } else {
      LookupAppend(a, b[..|b| - 1], config, table);
      assert (a + b)[..|a + b| - 1] == a + b[..|b| - 1];
    }
  }

  lemma {:induction false} LookupOwn(config: string, pairs: seq<Pair>, table: string)
    ensures Lookup(Records(config, pairs), config, table) == Texts(RowsIn(Group(pairs), table))
  {
    if pairs != [] {
      var front, p := pairs[..|pairs| - 1], pairs[|pairs| - 1];
      LookupOwn(config, front, table);
      var records := Records(config, pairs);
      assert records[..|records| - 1] == Records(config, front);
      if p.table == table {
        var before := RowsIn(Group(front), table);
        assert Texts(before + [p.row]) == Texts(before) + [Compact(p.row)];
      }
    }
  }

  lemma {:induction false} LookupForeign(config: string, pairs: seq<Pair>, other: string, table: string)
    requires config != other
    ensures Lookup(Records(config, pairs), other, table) == []
  {
    if pairs != [] {
      LookupForeign(config, pairs[..|pairs| - 1], other, table);
      var records := Records(config, pairs);
      assert records[..|records| - 1] == Records(config, pairs[..|pairs| - 1]);
    }
  }

  /** The rows the direct result holds for a table of a config; none when either is absent. */
  function DirectRows(steps: seq<StepRows>, config: string, table: string): seq<Json> {
    var all := Aggregated(steps);
    if config in all then RowsIn(all[config], table) else []
  }

  predicate Absent(steps: seq<StepRows>, k: nat, config: string)
    requires k <= |steps|
  {
    forall i | 0 <= i < k :: steps[i].config != config
  }

  lemma {:induction false} LookupAbsent(steps: seq<StepRows>, k: nat, config: string, table: string)
    requires k <= |steps| && Absent(steps, k, config)
    ensures Lookup(PlanRecords(steps, k), config, table) == []
  {
    if k > 0 {
      var last := steps[k - 1];
      LookupAbsent(steps, k - 1, config, table);
      LookupAppend(PlanRecords(steps, k - 1), Records(last.config, last.pairs), config, table);
      LookupForeign(last.config, last.pairs, config, table);
    }
  }

  lemma LookupLast(steps: seq<StepRows>, k: nat, config: string, table: string)
    requires 0 < k <= |steps|
    ensures Lookup(PlanRecords(steps, k), config, table)
         == Lookup(PlanRecords(steps, k - 1), config, table)
            + Lookup(Records(steps[k - 1].config, steps[k - 1].pairs), config, table)
  {
    LookupAppend(PlanRecords(steps, k - 1), Records(steps[k - 1].config, steps[k - 1].pairs), config, table);
  }

  lemma ConfigsDiffer(steps: seq<StepRows>, i: nat, j: nat)
    requires Unique(Names(steps)) && i < j < |steps|
    ensures steps[i].config != steps[j].config
  {
    assert Names(steps)[i] != Names(steps)[j];
  }

  lemma {:induction false} LookupPresent(steps: seq<StepRows>, k: nat, i: nat, table: string)
    requires i < k <= |steps| && Unique(Names(steps))
    ensures Lookup(PlanRecords(steps, k), steps[i].config, table) == Texts(RowsIn(Group(steps[i].pairs), table))
  {
    var config, last := steps[i].config, steps[k - 1];
    LookupLast(steps, k, config, table);
    if i == k - 1 {
      forall j | 0 <= j < i
        ensures steps[j].config != config
      {
        ConfigsDiffer(steps, j, i);
      }
      LookupAbsent(steps, k - 1, config, table);
      LookupOwn(config, last.pairs, table);
    } else {
      ConfigsDiffer(steps, i, k - 1);
      LookupPresent(steps, k - 1, i, table);
      LookupForeign(last.config, last.pairs, config, table);
    }
  }

  lemma DirectRowsOf(steps: seq<StepRows>, i: nat, table: string)
    requires Unique(Names(steps)) && i < |steps|
    ensures DirectRows(steps, steps[i].config, table) == RowsIn(Group(steps[i].pairs), table)
  {
    MergeHolds(Names(steps), Groups(steps));
    assert Names(steps)[i] == steps[i].config && Groups(steps)[i] == Group(steps[i].pairs);
  }

  lemma DirectRowsAbsent(steps: seq<StepRows>, config: string, table: string)
    requires Unique(Names(steps)) && Absent(steps, |steps|, config)
    ensures DirectRows(steps, config, table) == []
  {
    MergeHolds(Names(steps), Groups(steps));
    assert config !in Names(steps);
  }

  /**
   * The two delivery modes carry the same rows: for every config and table, the row texts read
   * from the store stream are those of the direct result's rows, in the same order.
   */
  lemma StoreReadsAsDirect(steps: seq<StepRows>, config: string, table: string)
    requires Unique(Names(steps)) && forall i | 0 <= i < |steps| :: Encodable(steps[i].pairs)
    ensures ReadAll(ENVELOPE_READER, Output(Works(steps), |steps|)).Some?
    ensures Lookup(ReadAll(ENVELOPE_READER, Output(Works(steps), |steps|)).value, config, table)
         == Texts(DirectRows(steps, config, table))
  {
    EnvelopeReads();
    ReadOutput(ENVELOPE_READER, steps);
    if i: nat :| i < |steps| && steps[i].config == config {
      LookupPresent(steps, |steps|, i, table);
      DirectRowsOf(steps, i, table);
    } else {
      LookupAbsent(steps, |steps|, config, table);
      DirectRowsAbsent(steps, config, table);
    }
  }

  /** The texts read as these trees, one by one. */
  predicate ReadAs(texts: seq<Bytes>, rows: seq<Json>) {
    |texts| == |rows| && forall i | 0 <= i < |rows| :: ReadJson(texts[i]) == Some(rows[i])
  }

  lemma TextsRead(rows: seq<Json>)
    requires forall i | 0 <= i < |rows| :: WellFormed(rows[i])
    ensures ReadAs(Texts(rows), rows)
  {
    forall i | 0 <= i < |rows|
      ensures ReadJson(Texts(rows)[i]) == Some(rows[i])
    {
      PrintersReadBack(rows[i], 0);
    }
  }

  lemma DirectRowsWellFormed(steps: seq<StepRows>, config: string, table: string)
    requires AllWellFormed(steps)
    ensures forall i | 0 <= i < |DirectRows(steps, config, table)| :: WellFormed(DirectRows(steps, config, table)[i])
  {
    forall i | 0 <= i < |steps|
      ensures WellFormedRows(Groups(steps)[i])
    {
      GroupWellFormed(steps[i].pairs);
    }
    MergeWellFormed(Names(steps), Groups(steps));
  }

  /** Whatever the schedule, a stream the sink is asked to finalise reads back as the direct rows. */
  lemma StoreRunReadsAsDirect(steps: seq<StepRows>, job: StoreMachine.Job, states: seq<StoreMachine.State>,
                              actions: seq<StoreMachine.Action>, k: nat, config: string, table: string)
    requires Unique(Names(steps)) && forall i | 0 <= i < |steps| :: Encodable(steps[i].pairs)
    requires job.steps == Works(steps) && StoreInvariant.Run(job, states, actions)
    requires k < |actions| && StoreDelivery.IsClose(actions[k])
    ensures ReadAll(ENVELOPE_READER, states[k].writer.written).Some?
    ensures Lookup(ReadAll(ENVELOPE_READER, states[k].writer.written).value, config, table)
         == Texts(DirectRows(steps, config, table))
    ensures AllWellFormed(steps) ==>
              ReadAs(Lookup(ReadAll(ENVELOPE_READER, states[k].writer.written).value, config, table),
                     DirectRows(steps, config, table))
  {
    StoreDelivery.CloseMeansWholeOutput(job, states, actions, k);
    StoreReadsAsDirect(steps, config, table);
    if AllWellFormed(steps) {
      DirectRowsWellFormed(steps, config, table);
      TextsRead(DirectRows(steps, config, table));
    }
  }
}
