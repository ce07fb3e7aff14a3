// SQL LIKE patterns lowered to regular expressions for MongoDB's $regex.
module LikeLowering {
  import opened Newlines

  // ----- the text transformation -----

  /** strings.ReplaceAll with a one-character needle. */
  function ReplaceAll(s: string, from: char, to: string): string {
    if s == "" then "" else (if s[0] == from then to else [s[0]]) + ReplaceAll(s[1..], from, to)
  }

  predicate HasSuffix(s: string, suffix: string) {
    |suffix| <= |s| && s[|s| - |suffix|..] == suffix
  }

  function Expand(pattern: string): string {
    ReplaceAll(ReplaceAll(pattern, '%', ".*"), '_', ".")
  }

  function TrimStart(text: string): string {
    if ".*" <= text then text[2..] else "^" + text
  }

  function TrimEnd(text: string): string {
    if HasSuffix(text, ".*") then text[..|text| - 2] else text + "$"
  }

  function ToRegex(pattern: string): string {
    TrimEnd(TrimStart(Expand(pattern)))
  }

  // ----- what a regular expression accepts -----

  datatype Atom = AnyChar | Literal(c: char)

  datatype Item = One(atom: Atom) | Many(atom: Atom) | Begin | End

  /** The dialect the lowering can produce: literals, '.', postfix '*', '^' and '$'. */
  function Parse(regex: string): seq<Item> {
    if regex == "" then []
    else if regex[0] == '^' then [Begin] + Parse(regex[1..])
    else if regex[0] == '$' then [End] + Parse(regex[1..])
    else
      var atom := if regex[0] == '.' then AnyChar else Literal(regex[0]);
      if |regex| > 1 && regex[1] == '*' then [Many(atom)] + Parse(regex[2..])
      else [One(atom)] + Parse(regex[1..])
  }

  /** '.' stops at a line break; literals compare up to case folding. */
  predicate Accepts(fold: char -> char, atom: Atom, c: char) {
    match atom
    case AnyChar => c != '\n'
    case Literal(x) => fold(x) == fold(c)
  }

  /** The items match v starting at i; '$' also holds before a final line break. */
  predicate Matches(fold: char -> char, items: seq<Item>, v: string, i: nat)
    requires i <= |v|
    decreases |items|, |v| - i
  {
    if items == [] then true
    else
      match items[0]
      case Begin => i == 0 && Matches(fold, items[1..], v, i)
      case End => (i == |v| || (i == |v| - 1 && v[i] == '\n')) && Matches(fold, items[1..], v, i)
      case One(atom) => i < |v| && Accepts(fold, atom, v[i]) && Matches(fold, items[1..], v, i + 1)
      case Many(atom) =>
        || Matches(fold, items[1..], v, i)
        || (i < |v| && Accepts(fold, atom, v[i]) && Matches(fold, items, v, i + 1))
  }

  /** Unanchored search: the expression matches somewhere. */
  ghost predicate Search(fold: char -> char, regex: string, v: string) {
    exists i: nat :: i <= |v| && Matches(fold, Parse(regex), v, i)
  }

  // ----- what LIKE means -----

  predicate Like(fold: char -> char, pattern: string, v: string) {
    if pattern == "" then v == ""
    else if pattern[0] == '%' then Like(fold, pattern[1..], v) || (v != "" && Like(fold, pattern, v[1..]))
    else if pattern[0] == '_' then v != "" && Like(fold, pattern[1..], v[1..])
    else v != "" && fold(pattern[0]) == fold(v[0]) && Like(fold, pattern[1..], v[1..])
  }

  /** The characters regular expressions treat specially, '.' aside. */
  predicate IsMeta(c: char) {
    c in {'\\', '+', '*', '?', '(', ')', '|', '[', ']', '{', '}', '^', '$'}
  }

  /** Free of regex metacharacters other than '.'. */
  predicate Plain(pattern: string) {
    forall i | 0 <= i < |pattern| :: !IsMeta(pattern[i])
  }

  /** The lowering leaves '.' alone, so it ends up as another single-character wildcard. */
  function Undot(pattern: string): string {
    if pattern == "" then ""
    else [if pattern[0] == '.' then '_' else pattern[0]] + Undot(pattern[1..])
  }

  // ----- the text parses to the intended items -----

  function ExpandChar(c: char): string {
    if c == '%' then ".*" else if c == '_' then "." else [c]
  }

  lemma {:induction false} ReplaceAllConcat(a: string, b: string, from: char, to: string)
    ensures ReplaceAll(a + b, from, to) == ReplaceAll(a, from, to) + ReplaceAll(b, from, to)
  {
    if a == "" {
      assert a + b == b;
    } else {
      assert (a + b)[1..] == a[1..] + b;
      ReplaceAllConcat(a[1..], b, from, to);
    }
  }

  lemma ExpandCons(c: char, rest: string)
    ensures Expand([c] + rest) == ExpandChar(c) + Expand(rest)
  {
    assert ([c] + rest)[1..] == rest;
    var head := if c == '%' then ".*" else [c];
    ReplaceAllConcat(head, ReplaceAll(rest, '%', ".*"), '_', ".");
  }

  lemma {:induction false} ExpandConcat(a: string, b: string)
    ensures Expand(a + b) == Expand(a) + Expand(b)
  {
    ReplaceAllConcat(a, b, '%', ".*");
    ReplaceAllConcat(ReplaceAll(a, '%', ".*"), ReplaceAll(b, '%', ".*"), '_', ".");
  }

  function ItemOf(c: char): Item {
    if c == '%' then Many(AnyChar)
    else if c == '_' || c == '.' then One(AnyChar)
    else One(Literal(c))
  }

  function ItemsOf(pattern: string): seq<Item> {
    if pattern == "" then [] else [ItemOf(pattern[0])] + ItemsOf(pattern[1..])
  }

  predicate NoStarAhead(text: string) {
    text == "" || text[0] != '*'
  }

  lemma {:induction false} ParseExpanded(q: string, tail: string)
    requires Plain(q) && NoStarAhead(tail)
    ensures Parse(Expand(q) + tail) == ItemsOf(q) + Parse(tail)
    ensures NoStarAhead(Expand(q) + tail)
  {
    if q == "" {
      assert Expand(q) + tail == tail;
    } else {
      ParseExpanded(q[1..], tail);
      ParseOneMore(q, tail);
    }
  }

  lemma Regroup<T>(a: seq<T>, b: seq<T>, c: seq<T>)
    ensures a + b + c == a + (b + c)
  {
  }

  lemma ParseOneMore(q: string, tail: string)
    requires q != "" && !IsMeta(q[0]) && NoStarAhead(Expand(q[1..]) + tail)
    requires Parse(Expand(q[1..]) + tail) == ItemsOf(q[1..]) + Parse(tail)
    ensures Parse(Expand(q) + tail) == ItemsOf(q) + Parse(tail)
    ensures NoStarAhead(Expand(q) + tail)
  {
    var c, rest := q[0], q[1..];
    ExpandCons(c, rest);
    assert q == [c] + rest;
    Regroup(ExpandChar(c), Expand(rest), tail);
    Regroup([ItemOf(c)], ItemsOf(rest), Parse(tail));
  }

  // ----- where the anchors go -----

  predicate OpenStart(pattern: string) {
    pattern != "" && pattern[0] == '%'
  }

  /** The pattern without a leading '%'. */
  function AfterStart(pattern: string): string {
    if OpenStart(pattern) then pattern[1..] else pattern
  }

  predicate EndsOpen(q: string) {
    q != "" && q[|q| - 1] == '%'
  }

  predicate OpenEnd(pattern: string) {
    EndsOpen(AfterStart(pattern))
  }

  function BeforeEnd(q: string): string {
    if EndsOpen(q) then q[..|q| - 1] else q
  }

  /** The pattern without one leading and one trailing '%'. */
  function Core(pattern: string): string {
    BeforeEnd(AfterStart(pattern))
  }

  /** A pattern is its core between an optional leading and an optional trailing '%'. */
  lemma CoreSplit(pattern: string)
    ensures pattern == (if OpenStart(pattern) then "%" else "") + Core(pattern) + (if OpenEnd(pattern) then "%" else "")
  {
  }

  lemma StartTrimmed(pattern: string)
    requires Plain(pattern)
    ensures TrimStart(Expand(pattern)) == (if OpenStart(pattern) then "" else "^") + Expand(AfterStart(pattern))
  {
    if pattern != "" {
      var c, rest := pattern[0], pattern[1..];
      assert pattern == [c] + rest;
      ExpandCons(c, rest);
      ParseExpanded(rest, "");
      assert Expand(rest) + "" == Expand(rest);
      if c == '%' {
        assert (".*" + Expand(rest))[2..] == Expand(rest);
      } else {
        assert Expand(pattern)[1..] == Expand(rest);
        assert |Expand(pattern)| < 2 || Expand(pattern)[1] != '*';
        assert ".*"[1] == '*';
      }
    }
  }

  lemma TrimOpenEnd(body: string)
    ensures TrimEnd(body + ".*") == body
  {
    var text := body + ".*";
    assert text[|text| - 2..] == ".*";
    assert text[..|text| - 2] == body;
  }

  lemma KeepClosedEnd(text: string)
    requires text == "" || text[|text| - 1] != '*'
    ensures TrimEnd(text) == text + "$"
  {
    if |text| >= 2 {
      assert text[|text| - 2..][1] != '*';
      assert ".*"[1] == '*';
    }
  }

  lemma ExpandLast(q: string)
    requires q != ""
    ensures Expand(q) == Expand(q[..|q| - 1]) + ExpandChar(q[|q| - 1])
  {
    var front, c := q[..|q| - 1], q[|q| - 1];
    assert q == front + [c];
    ExpandConcat(front, [c]);
    ExpandCons(c, "");
    assert [c] + "" == [c] && ExpandChar(c) + "" == ExpandChar(c);
  }

  lemma OpenEndTrimmed(head: string, q: string)
    requires EndsOpen(q)
    ensures TrimEnd(head + Expand(q)) == head + Expand(BeforeEnd(q))
  {
    ExpandLast(q);
    Regroup(head, Expand(BeforeEnd(q)), ".*");
    TrimOpenEnd(head + Expand(BeforeEnd(q)));
  }

  lemma ClosedEndTrimmed(head: string, q: string)
    requires Plain(q) && !EndsOpen(q) && (head == "" || head == "^")
    ensures TrimEnd(head + Expand(q)) == head + (Expand(q) + "$")
  {
    var text := head + Expand(q);
    if q != "" {
      ExpandLast(q);
      assert text[|text| - 1] == ExpandChar(q[|q| - 1])[0];
    }
    KeepClosedEnd(text);
    Regroup(head, Expand(q), "$");
  }

  lemma EndTrimmed(head: string, q: string)
    requires Plain(q) && (head == "" || head == "^")
    ensures TrimEnd(head + Expand(q)) == head + (Expand(BeforeEnd(q)) + if EndsOpen(q) then "" else "$")
  {
    if EndsOpen(q) {
      OpenEndTrimmed(head, q);
      assert Expand(BeforeEnd(q)) + "" == Expand(BeforeEnd(q));
    } else {
      ClosedEndTrimmed(head, q);
    }
  }

  lemma AnchoredItems(head: string, core: string, tail: string)
    requires Plain(core) && (head == "" || head == "^") && (tail == "" || tail == "$")
    ensures Parse(head + (Expand(core) + tail)) ==
              (if head == "" then [] else [Begin]) + (ItemsOf(core) + (if tail == "" then [] else [End]))
  {
    ParseExpanded(core, tail);
    assert "$"[1..] == "";
    assert Parse(tail) == if tail == "" then [] else [End];
    if head == "^" {
      assert (head + (Expand(core) + tail))[1..] == Expand(core) + tail;
    } else {
      assert head + (Expand(core) + tail) == Expand(core) + tail;
    }
  }

  /** The regex text parses to the core's items between the anchors its open ends leave. */
  lemma RegexItems(pattern: string)
    requires Plain(pattern)
    ensures Parse(ToRegex(pattern)) ==
              (if OpenStart(pattern) then [] else [Begin])
              + (ItemsOf(Core(pattern)) + (if OpenEnd(pattern) then [] else [End]))
  {
    var head, tail := if OpenStart(pattern) then "" else "^", if OpenEnd(pattern) then "" else "$";
    StartTrimmed(pattern);
    EndTrimmed(head, AfterStart(pattern));
    AnchoredItems(head, Core(pattern), tail);
  }

  // ----- the items mean LIKE -----

  lemma NoNewlineAt(v: string, i: nat)
    requires NoNewline(v) && i < |v|
    ensures v[i] != '\n'
  {
  }

  /** Anchored at the end: the items consume the rest of the value. */
  lemma {:induction false} AnchoredMeansLike(fold: char -> char, q: string, v: string, i: nat)
    requires NoNewline(v) && i <= |v|
    ensures Matches(fold, ItemsOf(q) + [End], v, i) <==> Like(fold, Undot(q), v[i..])
    decreases |q|, |v| - i
  {
    var items := ItemsOf(q) + [End];
    if q == "" {
      assert items == [End] && items[1..] == [];
    } else {
      assert items[1..] == ItemsOf(q[1..]) + [End];
      assert Undot(q)[1..] == Undot(q[1..]);
      if i < |v| {
        NoNewlineAt(v, i);
        assert v[i..][1..] == v[i + 1..];
        AnchoredMeansLike(fold, q[1..], v, i + 1);
      }
      if q[0] == '%' {
        AnchoredMeansLike(fold, q[1..], v, i);
        if i < |v| {
          AnchoredMeansLike(fold, q, v, i + 1);
        }
      }
    }
  }

  lemma {:induction false} PercentTakesAll(fold: char -> char, v: string)
    ensures Like(fold, "%", v)
  {
    assert "%"[1..] == "";
    if v != "" {
      PercentTakesAll(fold, v[1..]);
    }
  }

  /** Open at the end: the items match some prefix of the rest of the value. */
  lemma {:induction false} OpenMeansLike(fold: char -> char, q: string, v: string, i: nat)
    requires NoNewline(v) && i <= |v|
    ensures Matches(fold, ItemsOf(q), v, i) <==> Like(fold, Undot(q) + "%", v[i..])
    decreases |q|, |v| - i
  {
    var items := ItemsOf(q);
    if q == "" {
      assert Undot(q) + "%" == "%";
      PercentTakesAll(fold, v[i..]);
    } else {
      assert items[1..] == ItemsOf(q[1..]);
      assert (Undot(q) + "%")[1..] == Undot(q[1..]) + "%";
      if i < |v| {
        NoNewlineAt(v, i);
        assert v[i..][1..] == v[i + 1..];
        OpenMeansLike(fold, q[1..], v, i + 1);
      }
      if q[0] == '%' {
        OpenMeansLike(fold, q[1..], v, i);
        if i < |v| {
          OpenMeansLike(fold, q, v, i + 1);
        }
      }
    }
  }

  ghost predicate LikeSomewhere(fold: char -> char, q: string, v: string) {
    exists i: nat :: i <= |v| && Like(fold, q, v[i..])
  }

  /** A leading '%' skips any prefix. */
  lemma {:induction false} LeadingPercent(fold: char -> char, q: string, v: string)
    ensures Like(fold, "%" + q, v) <==> LikeSomewhere(fold, q, v)
    decreases |v|
  {
    var p := "%" + q;
    assert p[1..] == q;
    assert v[0..] == v;
    if v != "" && !Like(fold, q, v) {
      LeadingPercent(fold, q, v[1..]);
      if LikeSomewhere(fold, q, v[1..]) {
        var i: nat :| i <= |v[1..]| && Like(fold, q, v[1..][i..]);
        assert v[1..][i..] == v[i + 1..];
      }
      if LikeSomewhere(fold, q, v) {
        var i: nat :| i <= |v| && Like(fold, q, v[i..]);
        assert v[1..][i - 1..] == v[i..];
      }
    }
  }

  lemma {:induction false} UndotConcat(a: string, b: string)
    ensures Undot(a + b) == Undot(a) + Undot(b)
  {
    if a == "" {
      assert a + b == b;
    } else {
      assert (a + b)[1..] == a[1..] + b;
      UndotConcat(a[1..], b);
    }
  }

  /** The part of a match that follows the start anchor. */
  lemma TailMeansLike(fold: char -> char, q: string, openEnd: bool, v: string, i: nat)
    requires NoNewline(v) && i <= |v|
    ensures Matches(fold, ItemsOf(q) + (if openEnd then [] else [End]), v, i)
       <==> Like(fold, Undot(q) + (if openEnd then "%" else ""), v[i..])
  {
    if openEnd {
      assert ItemsOf(q) + [] == ItemsOf(q);
      OpenMeansLike(fold, q, v, i);
    } else {
      assert Undot(q) + "" == Undot(q);
      AnchoredMeansLike(fold, q, v, i);
    }
  }

  lemma UndotSplit(pattern: string)
    ensures Undot(pattern) == (if OpenStart(pattern) then "%" else "")
                              + (Undot(Core(pattern)) + (if OpenEnd(pattern) then "%" else ""))
  {
    var head, tail := if OpenStart(pattern) then "%" else "", if OpenEnd(pattern) then "%" else "";
    CoreSplit(pattern);
    UndotConcat(head + Core(pattern), tail);
    UndotConcat(head, Core(pattern));
    assert Undot("%") == "%" by {
      assert "%"[1..] == "";
    }
  }

  /**
   * What the lowering computes, for every pattern free of metacharacters other than '.',
   * every newline-free value and every case folding: LIKE with each '.' read as '_'.
   */
  lemma LoweringMeaning(fold: char -> char, pattern: string, v: string)
    requires Plain(pattern) && NoNewline(v)
    ensures Search(fold, ToRegex(pattern), v) <==> Like(fold, Undot(pattern), v)
  {
    var core, openEnd := Core(pattern), OpenEnd(pattern);
    var rest := ItemsOf(core) + (if openEnd then [] else [End]);
    var items := Parse(ToRegex(pattern));
    var target := Undot(core) + (if openEnd then "%" else "");
    RegexItems(pattern);
    UndotSplit(pattern);
    forall i: nat | i <= |v|
      ensures Matches(fold, rest, v, i) <==> Like(fold, target, v[i..])
    {
      TailMeansLike(fold, core, openEnd, v, i);
    }
    if OpenStart(pattern) {
      assert items == rest;
      LeadingPercent(fold, target, v);
      if Search(fold, ToRegex(pattern), v) {
        var i: nat :| i <= |v| && Matches(fold, items, v, i);
        assert Like(fold, target, v[i..]);
      }
      if LikeSomewhere(fold, target, v) {
        var i: nat :| i <= |v| && Like(fold, target, v[i..]);
        assert Matches(fold, items, v, i);
      }
    } else {
      assert items == [Begin] + rest && items[1..] == rest;
      assert "" + target == target;
      assert v[0..] == v;
      assert Matches(fold, items, v, 0) <==> Like(fold, target, v);
    }
  }

  // ----- exactly when the lowering is LIKE -----

  lemma {:induction false} UndotNothing(pattern: string)
    requires '.' !in pattern
    ensures Undot(pattern) == pattern
  {
    if pattern != "" {
      UndotNothing(pattern[1..]);
    }
  }

  /** Only c folds to what c folds to. */
  ghost predicate Distinguished(fold: char -> char, c: char) {
    forall x :: fold(x) == fold(c) ==> x == c
  }

  /** A literal of the pattern must occur in every matching value. */
  lemma {:induction false} LiteralOccurs(fold: char -> char, pattern: string, v: string, c: char)
    requires Like(fold, pattern, v) && c in pattern && c != '%' && c != '_' && Distinguished(fold, c)
    ensures c in v
    decreases |pattern|, |v|
  {
    if pattern[0] == '%' {
      if Like(fold, pattern[1..], v) {
        LiteralOccurs(fold, pattern[1..], v, c);
      } else {
        LiteralOccurs(fold, pattern, v[1..], c);
      }
    } else if pattern[0] != c {
      LiteralOccurs(fold, pattern[1..], v[1..], c);
    }
  }

  /** A short value the wildcards accept: nothing for '%', 'a' for '_' and '.'. */
  function Instance(pattern: string): string {
    if pattern == "" then ""
    else if pattern[0] == '%' then Instance(pattern[1..])
    else [if pattern[0] == '_' || pattern[0] == '.' then 'a' else pattern[0]] + Instance(pattern[1..])
  }

  lemma {:induction false} InstanceAccepted(fold: char -> char, pattern: string)
    ensures Like(fold, Undot(pattern), Instance(pattern))
    ensures '.' !in Instance(pattern)
    ensures NoNewline(pattern) ==> NoNewline(Instance(pattern))
  {
    if pattern != "" {
      InstanceAccepted(fold, pattern[1..]);
      assert Undot(pattern)[1..] == Undot(pattern[1..]);
      if pattern[0] != '%' {
        assert Instance(pattern)[1..] == Instance(pattern[1..]);
      }
    }
  }

  /** Search with the lowered pattern and LIKE agree on every newline-free value. */
  ghost predicate Faithful(fold: char -> char, pattern: string) {
    forall v | NoNewline(v) :: Search(fold, ToRegex(pattern), v) <==> Like(fold, pattern, v)
  }

  lemma {:induction false} UndotKeeps(pattern: string, c: char)
    requires c in pattern && c != '.'
    ensures c in Undot(pattern)
  {
    if pattern[0] != c {
      UndotKeeps(pattern[1..], c);
    }
  }

  /**
   * The lowering is faithful exactly when the pattern has no '.', or a line break that no
   * newline-free value can match.
   */
  lemma FaithfulExactlyWithoutDots(fold: char -> char, pattern: string)
    requires Plain(pattern) && Distinguished(fold, '.') && Distinguished(fold, '\n')
    ensures Faithful(fold, pattern) <==> '.' !in pattern || '\n' in pattern
  {
    if '.' !in pattern || '\n' in pattern {
      forall v | NoNewline(v)
        ensures Search(fold, ToRegex(pattern), v) <==> Like(fold, pattern, v)
      {
        LoweringMeaning(fold, pattern, v);
        if '\n' in pattern {
          UndotKeeps(pattern, '\n');
          NoMatchWithout(fold, pattern, v, '\n');
          NoMatchWithout(fold, Undot(pattern), v, '\n');
        } else {
          UndotNothing(pattern);
        }
      }
    } else {
      var v := Instance(pattern);
      InstanceAccepted(fold, pattern);
      LoweringMeaning(fold, pattern, v);
      NoMatchWithout(fold, pattern, v, '.');
    }
  }

  lemma NoMatchWithout(fold: char -> char, pattern: string, v: string, c: char)
    requires c in pattern && c !in v && c != '%' && c != '_' && Distinguished(fold, c)
    ensures !Like(fold, pattern, v)
  {
    if Like(fold, pattern, v) {
      LiteralOccurs(fold, pattern, v, c);
    }
  }

  /** Values with a line break are outside the guarantee: LIKE '_' accepts one, the regex does not. */
  lemma NewlineBreaksLowering(fold: char -> char)
    ensures Like(fold, "_", "\n") && !Search(fold, ToRegex("_"), "\n")
  {
    assert "_"[1..] == "" && "\n"[1..] == "";
    RegexItems("_");
    assert ItemsOf("_") == [One(AnyChar)];
    var items := Parse(ToRegex("_"));
    assert items == [Begin, One(AnyChar), End];
    assert items[1..] == [One(AnyChar), End];
  }

  /** convertSQLLikeToRegex, rewriting the text step by step. */
  method ConvertSqlLikeToRegex(pattern: string) returns (regex: string)
    ensures regex == ToRegex(pattern)
    ensures Plain(pattern) && '.' !in pattern ==>
              forall fold: char -> char, v | NoNewline(v) :: Search(fold, regex, v) <==> Like(fold, pattern, v)
  {
    regex := ReplaceAll(pattern, '%', ".*");
    regex := ReplaceAll(regex, '_', ".");
    if ".*" <= regex {
      regex := regex[2..];
    } else {
      regex := "^" + regex;
    }
    if HasSuffix(regex, ".*") {
      regex := regex[..|regex| - 2];
    } else {
      regex := regex + "$";
    }
    if Plain(pattern) && '.' !in pattern {
      UndotNothing(pattern);
      forall fold: char -> char, v | NoNewline(v)
        ensures Search(fold, regex, v) <==> Like(fold, pattern, v)
      {
        LoweringMeaning(fold, pattern, v);
      }
    }
  }
}
