/**
 * Exactly which LIKE patterns keep their meaning on every value, line breaks included: '.' never
 * matches a line break and '$' also holds before a final one, so most wildcards and every closed
 * end differ from LIKE on some value.
 */
module LikeAllValues {
  import opened Newlines
  import opened LikeLowering

  predicate AllPercent(p: string) {
    forall i | 0 <= i < |p| :: p[i] == '%'
  }

  /** Literal text without '.', then only '%'. */
  predicate LiteralThenOpen(p: string) {
    if p == "" then true
    else if p[0] == '%' then AllPercent(p)
    else p[0] != '_' && p[0] != '.' && LiteralThenOpen(p[1..])
  }

  /** Any number of '%', then literal text without '.', then only '%'. */
  predicate OneLiteral(p: string) {
    if p != "" && p[0] == '%' then OneLiteral(p[1..]) else LiteralThenOpen(p)
  }

  /** Search with the lowered pattern and LIKE agree on every value. */
  ghost predicate Exact(fold: char -> char, pattern: string) {
    forall v :: Search(fold, ToRegex(pattern), v) <==> Like(fold, pattern, v)
  }

  // ----- patterns that keep their meaning -----

  lemma {:induction false} PercentsMatch(fold: char -> char, p: string, v: string, i: nat)
    requires AllPercent(p) && i <= |v|
    ensures Matches(fold, ItemsOf(p), v, i)
  {
    if p != "" {
      assert ItemsOf(p)[1..] == ItemsOf(p[1..]);
      PercentsMatch(fold, p[1..], v, i);
    }
  }

  lemma {:induction false} PercentsLike(fold: char -> char, p: string, v: string)
    requires AllPercent(p) && p != ""
    ensures Like(fold, p, v)
    decreases |p|, |v|
  {
    if |p| == 1 {
      assert p == "%";
      PercentTakesAll(fold, v);
    } else {
      PercentsLike(fold, p[1..], v);
    }
  }

  /** Open at the end: literal text needs no wildcard, so line breaks do not matter. */
  lemma {:induction false} LiteralMeansLike(fold: char -> char, q: string, v: string, i: nat)
    requires LiteralThenOpen(q) && i <= |v|
    ensures Matches(fold, ItemsOf(q), v, i) <==> Like(fold, q + "%", v[i..])
    decreases |q|
  {
    if q == "" {
      assert q + "%" == "%";
      PercentTakesAll(fold, v[i..]);
    } else if q[0] == '%' {
      PercentsMatch(fold, q, v, i);
      PercentsLike(fold, q + "%", v[i..]);
    } else {
      assert ItemsOf(q)[1..] == ItemsOf(q[1..]);
      assert (q + "%")[1..] == q[1..] + "%";
      if i < |v| {
        assert v[i..][1..] == v[i + 1..];
        LiteralMeansLike(fold, q[1..], v, i + 1);
      }
    }
  }

  ghost predicate SearchItems(fold: char -> char, items: seq<Item>, v: string) {
    exists i: nat :: i <= |v| && Matches(fold, items, v, i)
  }

  lemma {:induction false} SkipMany(fold: char -> char, items: seq<Item>, v: string, i: nat)
    requires i <= |v| && Matches(fold, [Many(AnyChar)] + items, v, i)
    ensures SearchItems(fold, items, v)
    decreases |v| - i
  {
    var all := [Many(AnyChar)] + items;
    assert all[1..] == items;
    if !Matches(fold, items, v, i) {
      SkipMany(fold, items, v, i + 1);
    }
  }

  /** A leading '.*' adds nothing to an unanchored search. */
  lemma LeadingMany(fold: char -> char, items: seq<Item>, v: string)
    ensures SearchItems(fold, [Many(AnyChar)] + items, v) <==> SearchItems(fold, items, v)
  {
    var all := [Many(AnyChar)] + items;
    assert all[1..] == items;
    if SearchItems(fold, all, v) {
      var i: nat :| i <= |v| && Matches(fold, all, v, i);
      SkipMany(fold, items, v, i);
    }
    if SearchItems(fold, items, v) {
      var i: nat :| i <= |v| && Matches(fold, items, v, i);
      assert Matches(fold, all, v, i);
    }
  }

  /** A second leading '%' adds nothing to LIKE. */
  lemma DoublePercent(fold: char -> char, q: string, v: string)
    ensures Like(fold, "%" + ("%" + q), v) <==> Like(fold, "%" + q, v)
  {
    LeadingPercent(fold, "%" + q, v);
    LeadingPercent(fold, q, v);
    assert v[0..] == v;
    if LikeSomewhere(fold, "%" + q, v) {
      var i: nat :| i <= |v| && Like(fold, "%" + q, v[i..]);
      LeadingPercent(fold, q, v[i..]);
      var j: nat :| j <= |v[i..]| && Like(fold, q, v[i..][j..]);
      assert v[i..][j..] == v[i + j..];
    }
  }

  lemma {:induction false} SearchMeansLike(fold: char -> char, c: string, v: string)
    requires OneLiteral(c)
    ensures SearchItems(fold, ItemsOf(c), v) <==> Like(fold, "%" + (c + "%"), v)
    decreases |c|
  {
    if c != "" && c[0] == '%' {
      SearchMeansLike(fold, c[1..], v);
      assert ItemsOf(c) == [Many(AnyChar)] + ItemsOf(c[1..]);
      LeadingMany(fold, ItemsOf(c[1..]), v);
      assert c + "%" == "%" + (c[1..] + "%");
      DoublePercent(fold, c[1..] + "%", v);
    } else {
      LeadingPercent(fold, c + "%", v);
      forall i: nat | i <= |v|
        ensures Matches(fold, ItemsOf(c), v, i) <==> Like(fold, c + "%", v[i..])
      {
        LiteralMeansLike(fold, c, v, i);
      }
      if LikeSomewhere(fold, c + "%", v) {
        var i: nat :| i <= |v| && Like(fold, c + "%", v[i..]);
        assert Matches(fold, ItemsOf(c), v, i);
      }
    }
  }

  lemma {:induction false} DropLastLiteral(p: string)
    requires LiteralThenOpen(p) && EndsOpen(p)
    ensures LiteralThenOpen(p[..|p| - 1])
  {
    if p[0] != '%' {
      assert p[..|p| - 1][1..] == p[1..][..|p[1..]| - 1];
      DropLastLiteral(p[1..]);
    }
  }

  lemma {:induction false} DropLastOne(p: string)
    requires OneLiteral(p) && EndsOpen(p)
    ensures OneLiteral(p[..|p| - 1])
  {
    if p[0] != '%' {
      DropLastLiteral(p);
    } else if |p| > 1 {
      assert p[..|p| - 1][1..] == p[1..][..|p[1..]| - 1];
      DropLastOne(p[1..]);
    }
  }

  lemma OpenBothEnds(fold: char -> char, p: string, v: string)
    requires Plain(p) && OneLiteral(p) && OpenStart(p) && OpenEnd(p)
    ensures Search(fold, ToRegex(p), v) <==> Like(fold, p, v)
  {
    var core := Core(p);
    RegexItems(p);
    CoreSplit(p);
    DropLastOne(p[1..]);
    SearchMeansLike(fold, core, v);
    assert p == "%" + (core + "%");
    assert Parse(ToRegex(p)) == ItemsOf(core);
    assert Search(fold, ToRegex(p), v) <==> SearchItems(fold, ItemsOf(core), v);
  }

  lemma OpenEndOnly(fold: char -> char, p: string, v: string)
    requires Plain(p) && OneLiteral(p) && !OpenStart(p) && EndsOpen(p)
    ensures Search(fold, ToRegex(p), v) <==> Like(fold, p, v)
  {
    var core := Core(p);
    RegexItems(p);
    DropLastLiteral(p);
    assert p == core + "%";
    LiteralMeansLike(fold, core, v, 0);
    assert v[0..] == v;
    var items := Parse(ToRegex(p));
    assert items == [Begin] + ItemsOf(core) && items[1..] == ItemsOf(core);
    assert Matches(fold, items, v, 0) <==> Like(fold, p, v);
  }

  lemma LonePercent(fold: char -> char, v: string)
    ensures Search(fold, ToRegex("%"), v) && Like(fold, "%", v)
  {
    RegexItems("%");
    PercentTakesAll(fold, v);
    assert Parse(ToRegex("%")) == [End];
    assert Matches(fold, Parse(ToRegex("%")), v, |v|);
  }

  lemma OneLiteralExact(fold: char -> char, p: string, v: string)
    requires Plain(p) && OneLiteral(p) && EndsOpen(p)
    ensures Search(fold, ToRegex(p), v) <==> Like(fold, p, v)
  {
    if !OpenStart(p) {
      OpenEndOnly(fold, p, v);
    } else if |p| == 1 {
      assert p == "%";
      LonePercent(fold, v);
    } else {
      OpenBothEnds(fold, p, v);
    }
  }

  // ----- a match consumes no line break -----

  /** How many characters a match takes at least: one for each character of the pattern but '%'. */
  function Ones(q: string): nat {
    if q == "" then 0 else (if q[0] == '%' then 0 else 1) + Ones(q[1..])
  }

  /** The length of the line that starts at i. */
  function LineFrom(v: string, i: nat): nat
    requires i <= |v|
    decreases |v| - i
  {
    if i == |v| || v[i] == '\n' then 0 else 1 + LineFrom(v, i + 1)
  }

  lemma {:induction false} MatchStaysOnLine(fold: char -> char, q: string, tail: seq<Item>, v: string, i: nat)
    requires i <= |v| && NoNewline(q) && Distinguished(fold, '\n')
    requires Matches(fold, ItemsOf(q) + tail, v, i)
    ensures Ones(q) <= LineFrom(v, i)
    decreases |q|, |v| - i
  {
    if q != "" {
      var items := ItemsOf(q) + tail;
      assert items[1..] == ItemsOf(q[1..]) + tail;
      assert q[0] in q;
      if q[0] != '%' {
        MatchStaysOnLine(fold, q[1..], tail, v, i + 1);
      } else if Matches(fold, items[1..], v, i) {
        MatchStaysOnLine(fold, q[1..], tail, v, i);
      } else {
        MatchStaysOnLine(fold, q, tail, v, i + 1);
      }
    }
  }

  lemma {:induction false} OnesLast(q: string)
    requires EndsOpen(q)
    ensures Ones(q[..|q| - 1]) == Ones(q)
  {
    if |q| > 1 {
      assert q[..|q| - 1][1..] == q[1..][..|q[1..]| - 1];
      OnesLast(q[1..]);
    }
  }

  lemma CoreOnes(p: string)
    ensures Ones(Core(p)) == Ones(p)
  {
    if OpenEnd(p) {
      OnesLast(AfterStart(p));
    }
  }

  /** Whatever the search finds lies on one line and is long enough. */
  lemma SearchNeedsLine(fold: char -> char, p: string, v: string)
    requires Plain(p) && NoNewline(p) && Distinguished(fold, '\n') && Search(fold, ToRegex(p), v)
    ensures exists i: nat :: i <= |v| && Ones(p) <= LineFrom(v, i)
  {
    var tail := if OpenEnd(p) then [] else [End];
    var rest := ItemsOf(Core(p)) + tail;
    RegexItems(p);
    CoreOnes(p);
    var items := Parse(ToRegex(p));
    var i: nat :| i <= |v| && Matches(fold, items, v, i);
    if !OpenStart(p) {
      assert items == [Begin] + rest && items[1..] == rest;
    } else {
      assert items == rest;
    }
    MatchStaysOnLine(fold, Core(p), tail, v, i);
  }

  // ----- a value without a long enough line -----

  /** The pattern with a line break for every wildcard. */
  function Broken(p: string): string {
    if p == "" then "" else [if p[0] == '%' || p[0] == '_' then '\n' else p[0]] + Broken(p[1..])
  }

  lemma {:induction false} BrokenLike(fold: char -> char, p: string)
    ensures Like(fold, p, Broken(p))
  {
    if p != "" {
      BrokenLike(fold, p[1..]);
      assert Broken(p)[1..] == Broken(p[1..]);
    }
  }

  function Literals(p: string): nat {
    if p == "" then 0 else (if p[0] == '%' || p[0] == '_' then 0 else 1) + Literals(p[1..])
  }

  lemma {:induction false} LineWithinLiterals(p: string, i: nat)
    requires NoNewline(p) && i <= |Broken(p)|
    ensures LineFrom(Broken(p), i) <= Literals(p)
    ensures i > 0 && p[0] != '%' && p[0] != '_' ==> LineFrom(Broken(p), i) < Literals(p)
    decreases |p|
  {
    if p != "" {
      var v, rest := Broken(p), Broken(p[1..]);
      assert p[0] in p && v[1..] == rest;
      if i > 0 {
        LineWithinLiterals(p[1..], i - 1);
        LineFromTail(v, i);
      } else {
        LineWithinLiterals(p[1..], 0);
        LineFromTail(v, 1);
      }
    }
  }

  lemma {:induction false} LineFromTail(v: string, i: nat)
    requires 0 < i <= |v|
    ensures LineFrom(v, i) == LineFrom(v[1..], i - 1)
    decreases |v| - i
  {
    if i < |v| {
      LineFromTail(v, i + 1);
    }
  }

  lemma {:induction false} UnderscoreCounts(p: string)
    ensures Literals(p) <= Ones(p)
    ensures '_' in p ==> Literals(p) < Ones(p)
    ensures '_' !in p ==> Literals(p) == Ones(p)
  {
    if p != "" {
      UnderscoreCounts(p[1..]);
      assert p == [p[0]] + p[1..];
    }
  }

  lemma {:induction false} SomeLiteral(p: string)
    requires '_' !in p && !AllPercent(p)
    ensures Literals(p) > 0
  {
    assert p == [p[0]] + p[1..];
    if p[0] == '%' {
      assert forall i | 0 <= i < |p[1..]| :: p[1..][i] == p[i + 1];
      SomeLiteral(p[1..]);
    }
  }

  /** The first line of a broken pattern misses the literals after its first '%'. */
  lemma {:induction false} FirstLineShort(p: string)
    requires NoNewline(p) && '_' !in p && '.' !in p && !LiteralThenOpen(p)
    ensures LineFrom(Broken(p), 0) < Literals(p)
  {
    assert p == [p[0]] + p[1..];
    if p[0] == '%' {
      SomeLiteral(p);
    } else {
      FirstLineShort(p[1..]);
      assert Broken(p)[1..] == Broken(p[1..]);
      LineFromTail(Broken(p), 1);
    }
  }

  /** The pattern from its first character that is not '%'. */
  function DropLead(p: string): string {
    if p != "" && p[0] == '%' then DropLead(p[1..]) else p
  }

  lemma {:induction false} DropLeadKeeps(fold: char -> char, p: string, v: string)
    ensures Ones(DropLead(p)) == Ones(p)
    ensures OneLiteral(p) <==> LiteralThenOpen(DropLead(p))
    ensures Like(fold, DropLead(p), v) ==> Like(fold, p, v)
    ensures forall c | c in DropLead(p) :: c in p
    ensures DropLead(p) != "" ==> DropLead(p)[0] != '%' && DropLead(p)[|DropLead(p)| - 1] == p[|p| - 1]
    ensures '_' in p ==> '_' in DropLead(p)
    ensures DropLead(p) == "" ==> AllPercent(p)
  {
    if p != "" && p[0] == '%' {
      DropLeadKeeps(fold, p[1..], v);
      assert p == [p[0]] + p[1..];
    }
  }

  /** A pattern with another wildcard accepts a value that the search does not. */
  lemma WildcardDiffers(fold: char -> char, p: string)
    requires Plain(p) && NoNewline(p) && '.' !in p && Distinguished(fold, '\n') && !OneLiteral(p)
    ensures !Exact(fold, p)
  {
    var q := DropLead(p);
    var v := Broken(q);
    BrokenLike(fold, q);
    DropLeadKeeps(fold, p, v);
    UnderscoreCounts(q);
    if Search(fold, ToRegex(p), v) {
      SearchNeedsLine(fold, p, v);
      var i: nat :| i <= |v| && Ones(p) <= LineFrom(v, i);
      LineWithinLiterals(q, i);
      if '_' !in q && i == 0 {
        FirstLineShort(q);
      }
      assert false;
    }
    assert Like(fold, p, v) && !Search(fold, ToRegex(p), v);
  }

  // ----- a closed end lets a final line break pass -----

  lemma NotYetOpen(q: string)
    requires LiteralThenOpen(q) && !EndsOpen(q) && q != ""
    ensures DropLead(q[1..]) == q[1..] && OneLiteral(q[1..]) && !EndsOpen(q[1..])
  {
    if |q| > 1 {
      assert q[1..][|q| - 2] == q[|q| - 1];
      assert !AllPercent(q[1..]);
    }
  }

  lemma {:induction false} LiteralMatch(fold: char -> char, q: string, v: string, i: nat)
    requires OneLiteral(q) && !EndsOpen(q) && i <= |v| && v[i..] == DropLead(q) + "\n"
    ensures Matches(fold, ItemsOf(q) + [End], v, i)
    decreases |q|
  {
    var items := ItemsOf(q) + [End];
    if q == "" {
      assert items == [End] && items[1..] == [];
      assert v[i..][0] == v[i];
    } else {
      assert items[1..] == ItemsOf(q[1..]) + [End];
      if q[0] == '%' {
        LiteralMatch(fold, q[1..], v, i);
      } else {
        NotYetOpen(q);
        assert v[i..][0] == v[i] && v[i + 1..] == v[i..][1..];
        assert DropLead(q[1..]) == q[1..];
        assert v[i + 1..] == q[1..] + "\n";
        LiteralMatch(fold, q[1..], v, i + 1);
      }
    }
  }

  lemma {:induction false} LikeEnds(fold: char -> char, p: string, v: string)
    requires Like(fold, p, v) && p != "" && p[|p| - 1] != '%' && p[|p| - 1] != '_'
    ensures v != "" && fold(p[|p| - 1]) == fold(v[|v| - 1])
    decreases |p|, |v|
  {
    if p[0] == '%' {
      if Like(fold, p[1..], v) {
        LikeEnds(fold, p[1..], v);
      } else {
        LikeEnds(fold, p, v[1..]);
      }
    } else if |p| > 1 {
      LikeEnds(fold, p[1..], v[1..]);
    }
  }

  lemma {:induction false} TailOneLiteral(p: string)
    requires OneLiteral(p) && !EndsOpen(p)
    ensures OneLiteral(AfterStart(p)) && !EndsOpen(AfterStart(p)) && DropLead(AfterStart(p)) == DropLead(p)
  {
    if OpenStart(p) {
      assert |p| > 1 && p[1..][|p| - 2] == p[|p| - 1];
    }
  }

  lemma ClosedEndDiffers(fold: char -> char, p: string)
    requires Plain(p) && NoNewline(p) && Distinguished(fold, '\n') && OneLiteral(p) && !EndsOpen(p)
    ensures !Exact(fold, p)
  {
    var v := DropLead(p) + "\n";
    var rest := ItemsOf(Core(p)) + [End];
    TailOneLiteral(p);
    RegexItems(p);
    assert v[0..] == v;
    LiteralMatch(fold, Core(p), v, 0);
    var items := Parse(ToRegex(p));
    if OpenStart(p) {
      assert items == rest;
    } else {
      assert items == [Begin] + rest && items[1..] == rest;
    }
    assert Matches(fold, items, v, 0);
    if Like(fold, p, v) {
      ClosedLike(fold, p, v);
      assert false;
    }
  }

  lemma ClosedLike(fold: char -> char, p: string, v: string)
    requires NoNewline(p) && Distinguished(fold, '\n') && OneLiteral(p) && !EndsOpen(p)
    requires v != "" && v[|v| - 1] == '\n'
    ensures !Like(fold, p, v)
  {
    if p != "" && Like(fold, p, v) {
      ClosedLast(p);
      LikeEnds(fold, p, v);
    }
  }

  lemma {:induction false} ClosedLast(p: string)
    requires OneLiteral(p) && !EndsOpen(p) && p != ""
    ensures p[|p| - 1] != '_'
  {
    if p[0] == '%' {
      TailOneLiteral(p);
      ClosedLast(p[1..]);
    } else if |p| > 1 {
      NotYetOpen(p);
      ClosedLast(p[1..]);
    }
  }

  /**
   * The lowering has LIKE's meaning on every value, line breaks included, exactly for one piece
   * of literal text without '.', after any number of '%' and before at least one.
   */
  lemma ExactOnlyForOneOpenLiteral(fold: char -> char, p: string)
    requires Plain(p) && NoNewline(p) && Distinguished(fold, '.') && Distinguished(fold, '\n')
    ensures Exact(fold, p) <==> OneLiteral(p) && EndsOpen(p)
  {
    if OneLiteral(p) && EndsOpen(p) {
      forall v
        ensures Search(fold, ToRegex(p), v) <==> Like(fold, p, v)
      {
        OneLiteralExact(fold, p, v);
      }
    } else if '.' in p {
      FaithfulExactlyWithoutDots(fold, p);
    } else if !OneLiteral(p) {
      WildcardDiffers(fold, p);
    } else {
      ClosedEndDiffers(fold, p);
    }
  }
}
