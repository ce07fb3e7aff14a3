// Newline-terminated text: splitting at the first newline and counting newlines.
module Newlines {
  import opened Engine

  predicate NoNewline(s: string) {
    '\n' !in s
  }

  /** A field, its terminating newline, and what follows. */
  function Break(field: string, rest: string): string {
    field + ['\n'] + rest
  }

  lemma Regroup(a: string, b: string, rest: string)
    ensures Break(a + ['\n'] + b, rest) == Break(a, Break(b, rest))
  {
  }

  /** Splits at the first newline. */
  function Cut(s: string): Option<(string, string)> {
    if s == [] then None
    else if s[0] == '\n' then Some(([], s[1..]))
    else match Cut(s[1..])
         case None => None
         case Some(p) => Some(([s[0]] + p.0, p.1))
  }

  lemma {:induction false} CutBreak(field: string, rest: string)
    requires NoNewline(field)
    ensures Cut(Break(field, rest)) == Some((field, rest))
  {
    if field == [] {
      assert Break(field, rest)[1..] == rest;
    } else {
      assert field[0] != '\n';
      assert Break(field, rest)[1..] == Break(field[1..], rest);
      CutBreak(field[1..], rest);
      assert [field[0]] + field[1..] == field;
    }
  }

  lemma {:induction false} CutPlain(s: string)
    ensures Cut(s).Some? ==> NoNewline(Cut(s).value.0) && s == Break(Cut(s).value.0, Cut(s).value.1)
  {
    if s != [] {
      if s[0] == '\n' {
        assert s == Break([], s[1..]);
      } else {
        CutPlain(s[1..]);
        if Cut(s).Some? {
          var p := Cut(s[1..]).value;
          assert s == [s[0]] + Break(p.0, p.1);
          assert s == Break([s[0]] + p.0, p.1);
        }
      }
    }
  }

  function NewlineCount(s: string): nat {
    if s == [] then 0 else (if s[0] == '\n' then 1 else 0) + NewlineCount(s[1..])
  }

  lemma {:induction false} NewlinesBreak(field: string, rest: string)
    ensures NewlineCount(Break(field, rest)) == NewlineCount(field) + 1 + NewlineCount(rest)
  {
    if field == [] {
      assert Break(field, rest)[1..] == rest;
    } else {
      assert Break(field, rest)[1..] == Break(field[1..], rest);
      NewlinesBreak(field[1..], rest);
    }
  }

  lemma {:induction false} NewlinesNone(s: string)
    ensures NewlineCount(s) == 0 <==> NoNewline(s)
  {
    if s != [] {
      NewlinesNone(s[1..]);
      assert s == [s[0]] + s[1..];
    }
  }

  lemma {:induction false} CutFinds(s: string)
    requires NewlineCount(s) > 0
    ensures Cut(s).Some?
  {
    if s[0] != '\n' {
      CutFinds(s[1..]);
    }
  }

  lemma CutCounts(s: string)
    requires NewlineCount(s) > 0
    ensures Cut(s).Some? && NewlineCount(Cut(s).value.1) == NewlineCount(s) - 1
    ensures s == Break(Cut(s).value.0, Cut(s).value.1)
  {
    CutFinds(s);
    CutPlain(s);
    var p := Cut(s).value;
    NewlinesNone(p.0);
    NewlinesBreak(p.0, p.1);
  }
}
