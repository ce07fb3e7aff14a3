// The eager cursor over a materialised result, and the two loops that drain it: the direct
// path's grouping loop and the store path's batching loop.
module Cursors {
  import opened Engine
  import opened Lines
  import opened Json
  import opened Rows
  import opened ByConfig
  import opened StringOrder
  import opened StoreMachine
  import Ndjson

  // ----- the frozen order -----

  function PairsOf(table: string, rows: seq<Json>): (ps: seq<Pair>)
    ensures |ps| == |rows|
  {
    seq(|rows|, i requires 0 <= i < |rows| => Pair(table, rows[i]))
  }

  function FlattenTables(tables: seq<string>, data: Tables): seq<Pair>
    requires forall t | t in tables :: t in data
  {
    if tables == [] then []
    else
      var last := tables[|tables| - 1];
      FlattenTables(tables[..|tables| - 1], data) + PairsOf(last, data[last])
  }

  lemma FlattenOneMore(tables: seq<string>, k: nat, data: Tables)
    requires k < |tables| && forall t | t in tables :: t in data
    ensures FlattenTables(tables[..k + 1], data)
         == FlattenTables(tables[..k], data) + PairsOf(tables[k], data[tables[k]])
  {
    assert tables[..k + 1][..k] == tables[..k];
  }

  /** Tables in sorted order, rows in slice order. */
  ghost function Flatten(data: Tables): seq<Pair> {
    SortedKeysStrict(data.Keys);
    FlattenTables(SortedKeys(data.Keys), data)
  }

  /** The tables that hold at least one row. */
  function NonEmpty(data: Tables): Tables {
    map t | t in data && data[t] != [] :: data[t]
  }

  function AddRow(t: Tables, p: Pair): Tables {
    t[p.table := RowsIn(t, p.table) + [p.row]]
  }

  function AddRows(t: Tables, table: string, rows: seq<Json>): Tables {
    if rows == [] then t else t[table := RowsIn(t, table) + rows]
  }

  lemma AddOneMore(t: Tables, table: string, front: seq<Json>, row: Json)
    ensures AddRow(AddRows(t, table, front), Pair(table, row)) == AddRows(t, table, front + [row])
  {
    assert RowsIn(t, table) + (front + [row]) == RowsIn(t, table) + front + [row];
    assert front == [] ==> RowsIn(t, table) + front == RowsIn(t, table);
  }

  lemma PairsOneMore(pairs: seq<Pair>, table: string, front: seq<Json>, row: Json)
    ensures pairs + PairsOf(table, front + [row]) == (pairs + PairsOf(table, front)) + [Pair(table, row)]
  {
    assert PairsOf(table, front + [row]) == PairsOf(table, front) + [Pair(table, row)];
  }

  predicate GroupsAs(pairs: seq<Pair>, table: string, rows: seq<Json>) {
    Group(pairs + PairsOf(table, rows)) == AddRows(Group(pairs), table, rows)
  }

  lemma GroupNoRow(pairs: seq<Pair>, table: string)
    ensures GroupsAs(pairs, table, [])
  {
    assert pairs + PairsOf(table, []) == pairs;
  }

  lemma GroupNextRow(pairs: seq<Pair>, table: string, front: seq<Json>, row: Json)
    requires GroupsAs(pairs, table, front)
    ensures GroupsAs(pairs, table, front + [row])
  {
    PairsOneMore(pairs, table, front, row);
    AddOneMore(Group(pairs), table, front, row);
  }

  lemma {:induction false} GroupOneTable(pairs: seq<Pair>, table: string, rows: seq<Json>)
    ensures GroupsAs(pairs, table, rows)
  {
    if rows == [] {
      GroupNoRow(pairs, table);
    } else {
      GroupOneTable(pairs, table, rows[..|rows| - 1]);
      GroupNextRow(pairs, table, rows[..|rows| - 1], rows[|rows| - 1]);
      assert rows == rows[..|rows| - 1] + [rows[|rows| - 1]];
    }
  }

  function Held(tables: seq<string>, data: Tables): Tables
    requires forall t | t in tables :: t in data
  {
    map t | t in tables && data[t] != [] :: data[t]
  }

  lemma HeldOneMore(front: seq<string>, last: string, data: Tables)
    requires last !in front && forall t | t in front + [last] :: t in data
    ensures AddRows(Held(front, data), last, data[last]) == Held(front + [last], data)
  {
    assert [] + data[last] == data[last];
  }

  lemma GroupNextTable(front: seq<string>, last: string, data: Tables)
    requires last !in front && forall t | t in front + [last] :: t in data
    requires Group(FlattenTables(front, data)) == Held(front, data)
    ensures Group(FlattenTables(front + [last], data)) == Held(front + [last], data)
  {
    assert (front + [last])[..|front|] == front;
    GroupOneTable(FlattenTables(front, data), last, data[last]);
    HeldOneMore(front, last, data);
  }

  lemma {:induction false} GroupTables(tables: seq<string>, data: Tables)
    requires Unique(tables) && forall t | t in tables :: t in data
    ensures Group(FlattenTables(tables, data)) == Held(tables, data)
  {
    if tables == [] {
      assert Held(tables, data) == map[];
    } else {
      var front, last := tables[..|tables| - 1], tables[|tables| - 1];
      GroupTables(front, data);
      GroupNextTable(front, last, data);
      assert tables == front + [last];
    }
  }

  /** Grouping a drained cursor gives back the materialised result without its empty tables. */
  lemma GroupUndoesFlatten(data: Tables)
    ensures Group(Flatten(data)) == NonEmpty(data)
  {
    SortedKeysStrict(data.Keys);
    var keys := SortedKeys(data.Keys);
    forall i, j | 0 <= i < j < |keys|
      ensures keys[i] != keys[j]
    {
      assert Less(keys[i], keys[j]);
      LeqReflexive(keys[i]);
    }
    GroupTables(keys, data);
  }

  // ----- the cursor -----

  const ZERO_ROW := Pair("", Scalar("null"))

  class EagerCursor {
    var pairs: seq<Pair>
    var pos: nat
    var exhausted: bool
    var err: Option<Cause>

    ghost predicate Unread()
      reads this
    {
      pos == 0 && !exhausted && err.None?
    }

    constructor (pairs: seq<Pair>)
      ensures this.pairs == pairs && Unread()
    {
      this.pairs := pairs;
      pos, exhausted, err := 0, false, None;
    }

    /** The context is the one observed by this call. */
    method Next(ctx: Context) returns (more: bool)
      modifies this
      ensures pairs == old(pairs)
      ensures more <==> old(err).None? && ctx.Live? && old(pos) < |pairs|
      ensures pos == if more then old(pos) + 1 else old(pos)
      ensures exhausted == (old(exhausted) || (old(err).None? && !more))
      ensures err == if old(err).None? && ctx.Done? then Some(ctx.cause) else old(err)
    {
      if err.Some? {
        return false;
      }
      if ctx.Done? {
        err, exhausted := Some(ctx.cause), true;
        return false;
      }
      if pos >= |pairs| {
        exhausted := true;
        return false;
      }
      pos := pos + 1;
      more := true;
    }

    function Row(): Pair
      reads this
    {
      if exhausted || pos == 0 || pos > |pairs| then ZERO_ROW else pairs[pos - 1]
    }

    method Close()
      modifies this
      ensures pairs == [] && pos == 0 && exhausted && err.None?
      ensures Row() == ZERO_ROW
    {
      pairs, pos, exhausted, err := [], 0, true, None;
    }
  }

  method AppendTable(pairs: seq<Pair>, table: string, rows: seq<Json>) returns (r: seq<Pair>)
    ensures r == pairs + PairsOf(table, rows)
  {
    r := pairs;
    var i := 0;
    while i < |rows|
      invariant i <= |rows| && r == pairs + PairsOf(table, rows)[..i]
    {
      r := r + [Pair(table, rows[i])];
      i := i + 1;
    }
  }

  /** NewEagerCursor: freezes the order before the first Next. */
  method NewEagerCursor(data: Tables) returns (cursor: EagerCursor)
    ensures fresh(cursor) && cursor.Unread() && cursor.pairs == Flatten(data)
  {
    var tables := ListKeys(data);
    SortedKeysStrict(data.Keys);
    var pairs: seq<Pair> := [];
    var k := 0;
    while k < |tables|
      invariant k <= |tables| && pairs == FlattenTables(tables[..k], data)
    {
      FlattenOneMore(tables, k, data);
      pairs := AppendTable(pairs, tables[k], data[tables[k]]);
      k := k + 1;
    }
    assert tables[..k] == tables;
    cursor := new EagerCursor(pairs);
  }

  // ----- draining for the direct path -----

  /** What each successive look at the context sees: once ended, it stays ended for the same cause. */
  ghost predicate Steady(observe: nat -> Context) {
    forall i: nat, j: nat | i <= j && observe(i).Done? :: observe(j) == observe(i)
  }

  datatype Drained = Read(rows: Tables, count: nat) | Stopped(err: EngineError)

  /** executeStep's loop: the rows come back exactly when the context outlives the last check. */
  method ReadRows(cursor: EagerCursor, observe: nat -> Context) returns (r: Drained)
    requires cursor.Unread() && Steady(observe)
    modifies cursor
    ensures var all := old(cursor.pairs);
            var last := observe(|all| + 1);
            r == if last.Done? then Stopped(CauseError(last.cause)) else Read(Group(all), |all|)
  {
    ghost var all := cursor.pairs;
    var rows: Tables, count, looks := map[], 0, 1;
    var more := cursor.Next(observe(0));
    while more
      invariant cursor.pairs == all && looks == count + 1
      invariant cursor.pos == (if more then count + 1 else count) <= |all|
      invariant more ==> !cursor.exhausted && cursor.err.None?
      invariant !more && cursor.err.None? ==> count == |all|
      invariant !more && cursor.err.Some? ==> observe(count) == Done(cursor.err.value)
      invariant rows == Group(all[..count])
      decreases |all| - count, more
    {
      var p := cursor.Row();
      assert all[..count + 1] == all[..count] + [p];
      rows := rows[p.table := RowsIn(rows, p.table) + [p.row]];
      count := count + 1;
      more := cursor.Next(observe(looks));
      looks := looks + 1;
    }
    if cursor.err.Some? {
      assert observe(|all| + 1) == observe(count);
      return Stopped(SafeConnectorError(observe(looks), OwnContext(cursor.err.value), QueryFailed));
    }
    assert all[..count] == all;
    if observe(looks).Done? {
      return Stopped(CauseError(observe(looks).cause));
    }
    r := Read(rows, count);
  }

  // ----- draining for the store path -----

  function ChunkCount(n: nat): nat {
    (n + BATCH_ROWS - 1) / BATCH_ROWS
  }

  /** Where chunk j ends among n lines. */
  function ChunkEnd(n: nat, j: nat): nat {
    if (j + 1) * BATCH_ROWS <= n then (j + 1) * BATCH_ROWS else n
  }

  /** The j-th run of 256 lines; the last one may be shorter. */
  function Chunk(lines: seq<Line>, j: nat): Batch
    requires j < ChunkCount(|lines|)
  {
    var end := ChunkEnd(|lines|, j);
    Batch(Concat(lines[j * BATCH_ROWS..end]), end - j * BATCH_ROWS)
  }

  predicate ChunkAt(lines: seq<Line>, batches: seq<Batch>, j: nat)
    requires j < |batches|
  {
    j < ChunkCount(|lines|) && batches[j] == Chunk(lines, j)
  }

  /** The batches are the leading chunks. */
  predicate AreChunks(lines: seq<Line>, batches: seq<Batch>) {
    forall j | 0 <= j < |batches| :: ChunkAt(lines, batches, j)
  }

  function BatchBytes(batches: seq<Batch>): Bytes {
    if batches == [] then "" else BatchBytes(batches[..|batches| - 1]) + batches[|batches| - 1].bytes
  }

  function BatchRows(batches: seq<Batch>): nat {
    if batches == [] then 0 else BatchRows(batches[..|batches| - 1]) + batches[|batches| - 1].rows
  }

  /** Chunks put end to end are a prefix of the lines; all of them are all the lines. */
  lemma {:induction false} ChunksJoin(lines: seq<Line>, batches: seq<Batch>)
    requires AreChunks(lines, batches)
    ensures var end := if batches == [] then 0 else ChunkEnd(|lines|, |batches| - 1);
            BatchBytes(batches) == Concat(lines[..end]) && BatchRows(batches) == end
  {
    if batches != [] {
      var front, j := batches[..|batches| - 1], |batches| - 1;
      assert ChunkAt(lines, batches, j);
      forall i | 0 <= i < j
        ensures ChunkAt(lines, front, i)
      {
        assert ChunkAt(lines, batches, i);
      }
      ChunksJoin(lines, front);
      ConcatSplit(lines, 0, j * BATCH_ROWS, ChunkEnd(|lines|, j));
      assert j > 0 ==> ChunkEnd(|lines|, j - 1) == j * BATCH_ROWS;
    }
  }

  lemma {:induction false} ChunksCover(lines: seq<Line>, batches: seq<Batch>)
    requires AreChunks(lines, batches) && |batches| == ChunkCount(|lines|)
    ensures BatchBytes(batches) == Concat(lines) && BatchRows(batches) == |lines|
  {
    ChunksJoin(lines, batches);
    assert lines[..|lines|] == lines;
  }

  lemma ChunkSizes(lines: seq<Line>, batches: seq<Batch>)
    requires AreChunks(lines, batches)
    ensures forall j | 0 <= j < |batches| :: 0 < batches[j].rows <= 256
    ensures forall j | 0 <= j < |batches| - 1 :: batches[j].rows == 256
  {
    forall j | 0 <= j < |batches|
      ensures 0 < batches[j].rows <= 256 && (j < |batches| - 1 ==> batches[j].rows == 256)
    {
      assert ChunkAt(lines, batches, j);
      assert ChunkAt(lines, batches, |batches| - 1);
    }
  }

  /** What the loop has read but not yet sent is in the encoder's buffer. */
  ghost predicate Pending(lines: seq<Line>, sent: nat, read: nat, pending: nat, buf: Bytes) {
    && sent * BATCH_ROWS <= read <= |lines|
    && pending == read - sent * BATCH_ROWS
    && buf == Concat(lines[sent * BATCH_ROWS..read])
  }

  lemma PendingOneMore(lines: seq<Line>, sent: nat, read: nat, pending: nat, buf: Bytes)
    requires Pending(lines, sent, read, pending, buf) && read < |lines|
    ensures Pending(lines, sent, read + 1, pending + 1, buf + Text(lines[read]))
  {
    ConcatOneMore(lines, sent * BATCH_ROWS, read);
  }

  lemma FlushedIsChunk(lines: seq<Line>, batches: seq<Batch>, read: nat, pending: nat, buf: Bytes)
    requires Pending(lines, |batches|, read, pending, buf) && AreChunks(lines, batches)
    requires 0 < pending <= BATCH_ROWS && (pending == BATCH_ROWS || read == |lines|)
    ensures AreChunks(lines, batches + [Batch(buf, pending)])
    ensures pending == BATCH_ROWS ==> Pending(lines, |batches| + 1, read, 0, "")
    ensures read == |lines| ==> |batches| + 1 == ChunkCount(|lines|)
  {
    var j := |batches|;
    assert read == ChunkEnd(|lines|, j);
    assert Batch(buf, pending) == Chunk(lines, j);
    var out := batches + [Batch(buf, pending)];
    forall i | 0 <= i < |out|
      ensures ChunkAt(lines, out, i)
    {
      assert i < j ==> ChunkAt(lines, batches, i);
    }
  }

  predicate EncodedAt(lines: seq<Line>, config: string, pairs: seq<Pair>, i: nat)
    requires i < |lines| == |pairs|
  {
    lines[i] == EncodeRow(config, pairs[i])
  }

  predicate Encoded(lines: seq<Line>, config: string, pairs: seq<Pair>) {
    |lines| == |pairs| && forall i | 0 <= i < |pairs| :: EncodedAt(lines, config, pairs, i)
  }

  /** After `count` rows: the full chunks are sent and the rest waits in the buffer. */
  ghost predicate Pumped(lines: seq<Line>, batches: seq<Batch>, count: nat, pending: nat, buf: Bytes) {
    && pending < BATCH_ROWS && Pending(lines, |batches|, count, pending, buf)
    && AreChunks(lines, batches)
    && AllEncodable(lines[..count])
  }

  /** A row more than Pumped: the buffer may hold a full batch. */
  ghost predicate Loaded(lines: seq<Line>, batches: seq<Batch>, count: nat, pending: nat, buf: Bytes) {
    && 0 < pending <= BATCH_ROWS && Pending(lines, |batches|, count, pending, buf)
    && AreChunks(lines, batches)
    && AllEncodable(lines[..count])
  }

  /** appendRow inside the loop. */
  method AppendNext(encoder: Ndjson.NdjsonEncoder, p: Pair, ghost pending: nat, ghost batches: seq<Batch>,
                    ghost lines: seq<Line>, ghost pairs: seq<Pair>, ghost count: nat)
    returns (err: Option<EngineError>)
    requires Pumped(lines, batches, count, pending, encoder.buf)
    requires Encoded(lines, encoder.config, pairs) && count < |pairs| && p == pairs[count]
    modifies encoder
    ensures AreChunks(lines, batches)
    ensures err.None? ==> Loaded(lines, batches, count + 1, pending + 1, encoder.buf)
    ensures err.Some? ==> err.value == SERIALIZE_ERROR && !AllEncodable(lines)
  {
    assert EncodedAt(lines, encoder.config, pairs, count);
    PendingOneMore(lines, |batches|, count, pending, encoder.buf);
    assert lines[..count + 1] == lines[..count] + [lines[count]];
    err := encoder.AppendRow(p);
  }

  /** flushBatch: a send waits for room or for the context, so it fails only once the context has ended. */
  method FlushBatch(encoder: Ndjson.NdjsonEncoder, ctx: Context, room: bool, pending: nat, batches: seq<Batch>,
                    ghost lines: seq<Line>, ghost count: nat)
    returns (err: Option<EngineError>, out: seq<Batch>)
    requires Pending(lines, |batches|, count, pending, encoder.buf) && AreChunks(lines, batches)
    requires 0 < pending <= BATCH_ROWS && (pending == BATCH_ROWS || count == |lines|)
    modifies encoder
    ensures err == if ctx.Done? && !room then Some(CauseError(ctx.cause)) else None
    ensures AreChunks(lines, out) && |out| == if err.None? then |batches| + 1 else |batches|
    ensures err.None? && pending == BATCH_ROWS ==> Pending(lines, |out|, count, 0, encoder.buf)
    ensures err.None? && count == |lines| ==> |out| == ChunkCount(|lines|)
  {
    FlushedIsChunk(lines, batches, count, pending, encoder.buf);
    var bytes := encoder.Take();
    if ctx.Done? && !room {
      return Some(CauseError(ctx.cause)), batches;
    }
    err, out := None, batches + [Batch(bytes, pending)];
  }

  /** The context had ended by this look, and the error says why. */
  ghost predicate EndedAs(observe: nat -> Context, err: EngineError, last: nat) {
    exists k: nat :: k <= last && observe(k).Done? && err == CauseError(observe(k).cause)
  }

  /** Sends the buffer once it holds a full batch. */
  method FlushWhenFull(encoder: Ndjson.NdjsonEncoder, ctx: Context, room: bool, pending: nat, batches: seq<Batch>,
                       ghost lines: seq<Line>, ghost count: nat)
    returns (err: Option<EngineError>, pending': nat, batches': seq<Batch>)
    requires Loaded(lines, batches, count, pending, encoder.buf)
    modifies encoder
    ensures AreChunks(lines, batches')
    ensures err.None? ==> Pumped(lines, batches', count, pending', encoder.buf)
    ensures err.Some? ==> ctx.Done? && err.value == CauseError(ctx.cause)
  {
    err, pending', batches' := None, pending, batches;
    if pending >= BATCH_ROWS {
      err, batches' := FlushBatch(encoder, ctx, room, pending, batches, lines, count);
      pending' := 0;
    }
  }

  /** streamStep's row loop: stops at the end of the cursor, with an error, or with the context ended. */
  method PumpRows(cursor: EagerCursor, encoder: Ndjson.NdjsonEncoder, observe: nat -> Context, room: nat -> bool,
                  ghost lines: seq<Line>)
    returns (err: Option<EngineError>, count: nat, pending: nat, batches: seq<Batch>, looks: nat)
    requires cursor.Unread() && encoder.buf == "" && Encoded(lines, encoder.config, cursor.pairs)
    modifies cursor, encoder
    ensures AreChunks(lines, batches)
    ensures err.None? && cursor.err.None? ==> count == |lines| && Pumped(lines, batches, count, pending, encoder.buf)
    ensures err.None? && cursor.err.None? ==> looks == 2 * |lines| + 1
    ensures err.Some? ==>
              (err.value == SERIALIZE_ERROR && !AllEncodable(lines)) || EndedAs(observe, err.value, 2 * |lines|)
    ensures cursor.err.Some? ==> EndedAs(observe, CauseError(cursor.err.value), 2 * |lines|)
  {
    ghost var all := cursor.pairs;
    err, batches := None, [];
    count, pending, looks := 0, 0, 1;
    var more := cursor.Next(observe(0));
    while more
      invariant cursor.pairs == all && err.None? && looks == 2 * count + 1
      invariant cursor.pos == (if more then count + 1 else count) <= |all|
      invariant more ==> !cursor.exhausted && cursor.err.None?
      invariant !more && cursor.err.None? ==> count == |all|
      invariant !more && cursor.err.Some? ==> EndedAs(observe, CauseError(cursor.err.value), 2 * count)
      invariant Pumped(lines, batches, count, pending, encoder.buf)
      decreases |all| - count, more
    {
      err := AppendNext(encoder, cursor.Row(), pending, batches, lines, all, count);
      if err.Some? {
        return;
      }
      count := count + 1;
      err, pending, batches := FlushWhenFull(encoder, observe(looks), room(looks), pending + 1, batches, lines, count);
      if err.Some? {
        return;
      }
      more := cursor.Next(observe(looks + 1));
      looks := looks + 2;
    }
  }

  /**
   * streamStep from the open cursor on.  The batches sent are always the leading chunks of the
   * step's lines; success means all of them, and a failure has a cause.  Row i looks at the context
   * twice, and with an ended context staying ended it is the check after the last row that decides:
   * the step succeeds exactly when its rows can be encoded, that check passes and the rest is sent.
   */
  method StreamRows(cursor: EagerCursor, encoder: Ndjson.NdjsonEncoder, observe: nat -> Context, room: nat -> bool,
                    ghost lines: seq<Line>)
    returns (r: StepResult, batches: seq<Batch>)
    requires cursor.Unread() && encoder.buf == "" && Encoded(lines, encoder.config, cursor.pairs)
    modifies cursor, encoder
    ensures AreChunks(lines, batches) && !r.Unset?
    ensures r.Ok? ==> r.count == |lines| && AllEncodable(lines) && |batches| == ChunkCount(|lines|)
    ensures r.Failed? ==>
              (r.err == SERIALIZE_ERROR && !AllEncodable(lines)) || EndedAs(observe, r.err, 2 * |lines| + 2)
    ensures Steady(observe) ==>
              (r.Ok? <==> && AllEncodable(lines) && observe(2 * |lines| + 1).Live?
                          && (|lines| % 256 == 0 || room(2 * |lines| + 2) || observe(2 * |lines| + 2).Live?))
  {
    var err, count, pending, looks;
    err, count, pending, batches, looks := PumpRows(cursor, encoder, observe, room, lines);
    if err.Some? {
      return Failed(err.value), batches;
    }
    if cursor.err.Some? {
      return Failed(SafeConnectorError(observe(looks), OwnContext(cursor.err.value), QueryFailed)), batches;
    }
    if observe(looks).Done? {
      return Failed(CauseError(observe(looks).cause)), batches;
    }
    assert lines[..count] == lines;
    if pending > 0 {
      err, batches := FlushBatch(encoder, observe(looks + 1), room(looks + 1), pending, batches, lines, count);
      if err.Some? {
        return Failed(err.value), batches;
      }
    }
    r := Ok(count);
  }

  /** The batches of a streamed step, put end to end, are the bytes of its rows. */
  method StreamStep(cursor: EagerCursor, config: string, observe: nat -> Context, room: nat -> bool)
    returns (r: StepResult, batches: seq<Batch>)
    requires cursor.Unread()
    modifies cursor
    ensures r.Ok? ==> r.count == |old(cursor.pairs)| == BatchRows(batches)
    ensures r.Ok? ==> BatchBytes(batches) == Concat(LinesOf(config, old(cursor.pairs)))
    ensures forall j | 0 <= j < |batches| :: 0 < batches[j].rows <= 256
    ensures forall j | 0 <= j < |batches| - 1 :: batches[j].rows == 256
    ensures BatchBytes(batches) <= Concat(LinesOf(config, old(cursor.pairs)))
  {
    ghost var lines := LinesOf(config, cursor.pairs);
    LinesOfAt(config, cursor.pairs);
    var encoder := new Ndjson.NdjsonEncoder(config);
    r, batches := StreamRows(cursor, encoder, observe, room, lines);
    ChunksJoin(lines, batches);
    if r.Ok? {
      ChunksCover(lines, batches);
    }
    ChunksPrefix(lines, batches);
    ChunkSizes(lines, batches);
  }

  lemma ChunksPrefix(lines: seq<Line>, batches: seq<Batch>)
    requires AreChunks(lines, batches)
    ensures BatchBytes(batches) <= Concat(lines)
  {
    ChunksJoin(lines, batches);
    var end := if batches == [] then 0 else ChunkEnd(|lines|, |batches| - 1);
    ConcatSplit(lines, 0, end, |lines|);
    assert lines[0..|lines|] == lines && lines[0..end] == lines[..end];
  }
}
