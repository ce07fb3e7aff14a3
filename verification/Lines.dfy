// Encoded rows: what appendRow contributes for each row of a step's cursor.
module Lines {
  import opened Engine

  /** One char stands for one byte. */
  type Bytes = seq<char>

  /** The newline-terminated line of a row, or None when the row cannot be marshalled. */
  type Line = Option<Bytes>

  /** One plan step: its config name and the line of each row its cursor yields, in cursor order. */
  datatype Work = Work(config: string, lines: seq<Line>)

  predicate AllEncodable(lines: seq<Line>) {
    forall k | 0 <= k < |lines| :: lines[k].Some?
  }

  function Text(line: Line): Bytes {
    if line.Some? then line.value else ""
  }

  /** Consecutive lines as one byte string. */
  function Concat(lines: seq<Line>): Bytes {
    if lines == [] then "" else Concat(lines[..|lines| - 1]) + Text(lines[|lines| - 1])
  }

  lemma {:induction false} ConcatAppend(a: seq<Line>, b: seq<Line>)
    ensures Concat(a + b) == Concat(a) + Concat(b)
  {
    if b == [] {
      assert a + b == a;
    } else {
      ConcatAppend(a, b[..|b| - 1]);
      assert (a + b)[..|a + b| - 1] == a + b[..|b| - 1];
    }
  }

  /** Adjacent ranges of the same line list are adjacent bytes. */
  lemma ConcatSplit(lines: seq<Line>, a: nat, b: nat, c: nat)
    requires a <= b <= c <= |lines|
    ensures Concat(lines[a..c]) == Concat(lines[a..b]) + Concat(lines[b..c])
  {
    ConcatAppend(lines[a..b], lines[b..c]);
    assert lines[a..b] + lines[b..c] == lines[a..c];
  }

  lemma ConcatOneMore(lines: seq<Line>, a: nat, b: nat)
    requires a <= b < |lines|
    ensures Concat(lines[a..b + 1]) == Concat(lines[a..b]) + Text(lines[b])
  {
    assert lines[a..b + 1][..b - a] == lines[a..b];
  }

  /** The bytes of the first `k` steps, each in cursor order: what a serial run would write. */
  function Output(steps: seq<Work>, k: nat): Bytes
    requires k <= |steps|
  {
    if k == 0 then "" else Output(steps, k - 1) + Concat(steps[k - 1].lines)
  }

  function RowTotal(steps: seq<Work>, k: nat): nat
    requires k <= |steps|
  {
    if k == 0 then 0 else RowTotal(steps, k - 1) + |steps[k - 1].lines|
  }
}
