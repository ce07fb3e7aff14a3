// MarshalIndent as encoding/json performs it: the compact text is scanned once, byte by byte, and
// line breaks are added around the punctuation outside string literals.
module JsonIndent {
  import opened Json
  import opened JsonReader

  datatype Mode = Outside | InLiteral | Escaped

  /** `need` marks a bracket that was opened and has nothing in it yet. */
  datatype Scan = Scan(depth: nat, need: bool)

  predicate Closes(c: char) {
    c == ']' || c == '}'
  }

  /** appendIndent with two spaces per level. */
  function Reindent(s: Bytes, sc: Scan, mode: Mode): Bytes
    decreases |s|
  {
    if s == "" then ""
    else
      match mode
      case Escaped => [s[0]] + Reindent(s[1..], sc, InLiteral)
      case InLiteral =>
        [s[0]] + Reindent(s[1..], sc, if s[0] == '\\' then Escaped else if s[0] == '\"' then Outside else InLiteral)
      case Outside =>
        if sc.need && !Closes(s[0]) then NewLine(sc.depth + 1) + Punctuate(s, Scan(sc.depth + 1, false))
        else Punctuate(s, sc)
  }

  function Punctuate(s: Bytes, sc: Scan): Bytes
    requires s != ""
    decreases |s|, 0
  {
    var c, rest := s[0], s[1..];
    if c == '[' || c == '{' then [c] + Reindent(rest, Scan(sc.depth, true), Outside)
    else if c == ',' then [c] + (NewLine(sc.depth) + Reindent(rest, sc, Outside))
    else if c == ':' then ": " + Reindent(rest, sc, Outside)
    else if Closes(c) then
      if sc.need || sc.depth == 0 then [c] + Reindent(rest, Scan(sc.depth, false), Outside)
      else NewLine(sc.depth - 1) + ([c] + Reindent(rest, Scan(sc.depth - 1, false), Outside))
    else [c] + Reindent(rest, sc, if c == '\"' then InLiteral else Outside)
  }

  // ----- tokens are copied -----

  lemma {:induction false} LiteralCopied(s: Bytes, rest: Bytes, sc: Scan)
    requires LiteralRest(s)
    ensures Reindent(s + rest, sc, InLiteral) == s + Reindent(rest, sc, Outside)
  {
    if s[0] == '\"' {
      assert (s + rest)[1..] == rest && s == [s[0]];
    } else if s[0] == '\\' {
      LiteralCopied(s[2..], rest, sc);
      assert (s + rest)[1..] == s[1..] + rest && (s[1..] + rest)[1..] == s[2..] + rest;
      assert s == [s[0]] + ([s[1]] + s[2..]);
    } else {
      LiteralCopied(s[1..], rest, sc);
      assert (s + rest)[1..] == s[1..] + rest;
      assert s == [s[0]] + s[1..];
    }
  }

  lemma {:induction false} AtomCopied(s: Bytes, rest: Bytes, depth: nat)
    requires forall i | 0 <= i < |s| :: AtomChar(s[i])
    ensures Reindent(s + rest, Scan(depth, false), Outside) == s + Reindent(rest, Scan(depth, false), Outside)
  {
    if s == "" {
      assert s + rest == rest;
    } else {
      AtomCopied(s[1..], rest, depth);
      assert AtomChar(s[0]);
      assert (s + rest)[1..] == s[1..] + rest;
      assert s == [s[0]] + s[1..];
    }
  }

  lemma TokenCopied(token: Bytes, rest: Bytes, depth: nat)
    requires IsLiteral(token) || IsAtom(token)
    ensures Reindent(token + rest, Scan(depth, false), Outside) == token + Reindent(rest, Scan(depth, false), Outside)
  {
    if IsLiteral(token) {
      LiteralCopied(token[1..], rest, Scan(depth, false));
      assert (token + rest)[1..] == token[1..] + rest;
      assert token == [token[0]] + token[1..];
    } else {
      AtomCopied(token, rest, depth);
    }
  }

  // ----- one step of the scan, on any text -----

  /** Scanning goes on at this depth, with nothing pending. */
  function On(s: Bytes, depth: nat): Bytes {
    Reindent(s, Scan(depth, false), Outside)
  }

  lemma OpenStep(c: char, s: Bytes, depth: nat)
    requires (c == '[' || c == '{') && s != "" && !Closes(s[0])
    ensures On([c] + s, depth) == [c] + (NewLine(depth + 1) + On(s, depth + 1))
  {
    var whole := [c] + s;
    assert whole[1..] == s;
    assert On(whole, depth) == Punctuate(whole, Scan(depth, false));
    assert Reindent(s, Scan(depth, true), Outside) == NewLine(depth + 1) + Punctuate(s, Scan(depth + 1, false));
    assert On(s, depth + 1) == Punctuate(s, Scan(depth + 1, false));
  }

  lemma EmptyStep(c: char, end: char, rest: Bytes, depth: nat)
    requires (c == '[' || c == '{') && Closes(end)
    ensures On([c, end] + rest, depth) == [c, end] + On(rest, depth)
  {
    var s := [c, end] + rest;
    assert s[1..] == [end] + rest && ([end] + rest)[1..] == rest;
    assert On(s, depth) == Punctuate(s, Scan(depth, false));
    assert Reindent([end] + rest, Scan(depth, true), Outside) == Punctuate([end] + rest, Scan(depth, true));
    assert [c] + ([end] + On(rest, depth)) == [c, end] + On(rest, depth);
  }

  lemma CloseStep(c: char, rest: Bytes, depth: nat)
    requires Closes(c)
    ensures On([c] + rest, depth + 1) == NewLine(depth) + ([c] + On(rest, depth))
  {
    assert ([c] + rest)[1..] == rest;
    assert On([c] + rest, depth + 1) == Punctuate([c] + rest, Scan(depth + 1, false));
  }

  lemma CommaStep(s: Bytes, depth: nat)
    ensures On("," + s, depth) == "," + (NewLine(depth) + On(s, depth))
  {
    assert ("," + s)[1..] == s;
    assert On("," + s, depth) == Punctuate("," + s, Scan(depth, false));
  }

  lemma ColonStep(s: Bytes, depth: nat)
    ensures On(":" + s, depth) == ": " + On(s, depth)
  {
    assert (":" + s)[1..] == s;
    assert On(":" + s, depth) == Punctuate(":" + s, Scan(depth, false));
  }

  // ----- scanning a compact tree -----

  /** Scanning the compact text of a value gives its indented text, at any depth and whatever follows. */
  lemma {:induction false} ValueScanned(j: Json, d: nat, rest: Bytes)
    requires WellFormed(j)
    ensures On(Printed(false, j, d) + rest, d) == Printed(true, j, d) + On(rest, d)
    decreases j, 1
  {
    match j
    case Scalar(token) => TokenCopied(token, rest, d);
    case Arr(items) => ArrayScanned(items, d, rest);
    case Obj(members) => ObjectScanned(members, d, rest);
  }

  lemma {:induction false} ArrayScanned(items: seq<Json>, d: nat, rest: Bytes)
    requires forall x | x in items :: WellFormed(x)
    ensures On(Printed(false, Arr(items), d) + rest, d) == Printed(true, Arr(items), d) + On(rest, d)
    decreases items, 1
  {
    if items == [] {
      EmptyStep('[', ']', rest, d);
      assert ['[', ']'] == "[]";
    } else {
      var inner, end := PrintedItems(false, items, d + 1), "]" + rest;
      Bracketed("[", inner, "", "]", rest);
      assert "" + end == end;
      ItemsSplit(false, items, d + 1, end);
      ItemStarts(false, items[0], d + 1, "");
      PrintedStarts(false, items[0], d + 1);
      OpenStep('[', inner + end, d);
      ItemsScanned(items, d, rest);
      Bracketed("[", PrintedItems(true, items, d + 1), NewLine(d), "]", On(rest, d));
    }
  }

  lemma {:induction false} ObjectScanned(members: seq<Member>, d: nat, rest: Bytes)
    requires forall m | m in members :: WellFormedMember(m)
    ensures On(Printed(false, Obj(members), d) + rest, d) == Printed(true, Obj(members), d) + On(rest, d)
    decreases members, 1
  {
    if members == [] {
      EmptyStep('{', '}', rest, d);
      assert ['{', '}'] == "{}";
    } else {
      var inner, end := PrintedMembers(false, members, d + 1), "}" + rest;
      Bracketed("{", inner, "", "}", rest);
      assert "" + end == end;
      assert WellFormedMember(members[0]);
      MembersSplit(false, members, d + 1, end);
      OpenStep('{', inner + end, d);
      MembersScanned(members, d, rest);
      Bracketed("{", PrintedMembers(true, members, d + 1), NewLine(d), "}", On(rest, d));
    }
  }

  /** After the line break of the first element. */
  lemma {:induction false} ItemsScanned(items: seq<Json>, d: nat, rest: Bytes)
    requires items != [] && forall x | x in items :: WellFormed(x)
    ensures NewLine(d + 1) + On(PrintedItems(false, items, d + 1) + ("]" + rest), d + 1)
         == PrintedItems(true, items, d + 1) + (NewLine(d) + ("]" + On(rest, d)))
    decreases items, 0
  {
    var end, lead := "]" + rest, NewLine(d + 1);
    var first := Printed(true, items[0], d + 1);
    ItemsSplit(false, items, d + 1, end);
    ItemsSplit(true, items, d + 1, NewLine(d) + ("]" + On(rest, d)));
    assert ItemText(false, items[0], d + 1) == Printed(false, items[0], d + 1);
    if |items| == 1 {
      ValueScanned(items[0], d + 1, end);
      CloseStep(']', rest, d);
      assert lead + (first + On(end, d + 1)) == (lead + first) + On(end, d + 1);
    } else {
      var more := PrintedItems(false, items[1..], d + 1) + end;
      ValueScanned(items[0], d + 1, "," + more);
      CommaStep(more, d + 1);
      ItemsScanned(items[1..], d, rest);
      assert lead + (first + On("," + more, d + 1)) == (lead + first) + On("," + more, d + 1);
    }
  }

  lemma MemberScanned(m: Member, d: nat, rest: Bytes)
    requires IsLiteral(m.key)
    requires On(Printed(false, m.value, d) + rest, d) == Printed(true, m.value, d) + On(rest, d)
    ensures NewLine(d) + On(MemberText(false, m, d) + rest, d) == MemberText(true, m, d) + On(rest, d)
  {
    var text := Printed(false, m.value, d) + rest;
    assert MemberText(false, m, d) + rest == m.key + (":" + text);
    TokenCopied(m.key, ":" + text, d);
    ColonStep(text, d);
  }

  lemma {:induction false} MembersScanned(members: seq<Member>, d: nat, rest: Bytes)
    requires members != [] && forall m | m in members :: WellFormedMember(m)
    ensures NewLine(d + 1) + On(PrintedMembers(false, members, d + 1) + ("}" + rest), d + 1)
         == PrintedMembers(true, members, d + 1) + (NewLine(d) + ("}" + On(rest, d)))
    decreases members, 0
  {
    var end := "}" + rest;
    assert WellFormedMember(members[0]);
    MembersSplit(false, members, d + 1, end);
    MembersSplit(true, members, d + 1, NewLine(d) + ("}" + On(rest, d)));
    if |members| == 1 {
      ValueScanned(members[0].value, d + 1, end);
      MemberScanned(members[0], d + 1, end);
      CloseStep('}', rest, d);
    } else {
      var more := PrintedMembers(false, members[1..], d + 1) + end;
      ValueScanned(members[0].value, d + 1, "," + more);
      MemberScanned(members[0], d + 1, "," + more);
      CommaStep(more, d + 1);
      MembersScanned(members[1..], d, rest);
    }
  }

  /** The indented printer writes what one scan over the compact text adds line breaks to. */
  lemma IndentedByScanning(j: Json)
    requires WellFormed(j)
    ensures Reindent(Compact(j), Scan(0, false), Outside) == Indented(j, 0)
  {
    IndentedIsPrinted(j, 0);
    CompactIsPrinted(j, 0);
    ValueScanned(j, 0, "");
    assert Compact(j) + "" == Compact(j) && Indented(j, 0) + "" == Indented(j, 0);
  }
}
