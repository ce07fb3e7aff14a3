// A reader of JSON text, written without the printers, and the proof that it undoes both of them.
module JsonReader {
  import opened Engine
  import opened Json
  import opened Rows

  // ----- reading a string literal -----

  function HexValue(c: char): nat {
    if '0' <= c <= '9' then c as int - '0' as int
    else if 'a' <= c <= 'f' then c as int - 'a' as int + 10
    else 0
  }

  function Unescaped(c: char): char {
    if c == 'n' then '\n' else if c == 'r' then '\r' else if c == 't' then '\t' else c
  }

  function Prepend(c: char, r: Option<(string, Bytes)>): Option<(string, Bytes)> {
    match r
    case None => None
    case Some(p) => Some(([c] + p.0, p.1))
  }

  /** Reads the characters of a string literal up to its closing quote. */
  function ReadString(s: Bytes): Option<(string, Bytes)>
    decreases |s|
  {
    if s == "" then None
    else if s[0] == '\"' then Some(("", s[1..]))
    else if s[0] != '\\' then Prepend(s[0], ReadString(s[1..]))
    else if |s| < 2 then None
    else if s[1] != 'u' then Prepend(Unescaped(s[1]), ReadString(s[2..]))
    else if |s| < 6 then None
    else Prepend((HexValue(s[4]) * 16 + HexValue(s[5])) as char, ReadString(s[6..]))
  }

  lemma HexRead(n: nat)
    requires n < 16
    ensures HexValue(HexDigit(n)) == n && HexDigit(n) != '\n'
  {
  }

  lemma ReadHexPair(hi: char, lo: char, rest: Bytes)
    ensures ReadString("\\u00" + [hi, lo] + rest)
         == Prepend((HexValue(hi) * 16 + HexValue(lo)) as char, ReadString(rest))
  {
    var s := "\\u00" + [hi, lo] + rest;
    assert s[0] == '\\' && s[1] == 'u' && s[4] == hi && s[5] == lo && s[6..] == rest;
  }

  lemma ReadHex(c: char, rest: Bytes)
    requires c < ' ' || c == '<' || c == '>' || c == '&'
    requires c != '\n' && c != '\r' && c != '\t'
    ensures ReadString(EscapeChar(c) + rest) == Prepend(c, ReadString(rest))
  {
    var hi, lo := c as int / 16 % 16, c as int % 16;
    HexRead(hi);
    HexRead(lo);
    ReadHexPair(HexDigit(hi), HexDigit(lo), rest);
    assert hi * 16 + lo == c as int;
  }

  lemma ReadChar(c: char, rest: Bytes)
    ensures ReadString(EscapeChar(c) + rest) == Prepend(c, ReadString(rest))
  {
    var s := EscapeChar(c) + rest;
    if c == '\"' || c == '\\' || c == '\n' || c == '\r' || c == '\t' {
      assert s[0] == '\\' && s[2..] == rest && Unescaped(s[1]) == c;
    } else if c < ' ' || c == '<' || c == '>' || c == '&' {
      ReadHex(c, rest);
    } else {
      assert s[1..] == rest;
    }
  }

  /** Reading undoes escaping, whatever follows the closing quote. */
  lemma {:induction false} ReadEscaped(s: string, rest: Bytes)
    ensures ReadString(Escape(s) + ("\"" + rest)) == Some((s, rest))
  {
    if s == "" {
      assert Escape(s) + ("\"" + rest) == "\"" + rest;
    } else {
      var tail := Escape(s[1..]) + ("\"" + rest);
      assert Escape(s) + ("\"" + rest) == EscapeChar(s[0]) + tail;
      ReadChar(s[0], tail);
      ReadEscaped(s[1..], rest);
      assert [s[0]] + s[1..] == s;
    }
  }

  /** A literal leaves no raw control character and none of the characters that HTML gives a meaning. */
  lemma {:induction false} EscapeSafe(s: string)
    ensures forall c | c in Escape(s) :: Safe(c)
  {
    if s != "" {
      EscapeSafe(s[1..]);
      EscapeCharSafe(s[0]);
    }
  }

  predicate Safe(c: char) {
    c >= ' ' && c != '<' && c != '>' && c != '&'
  }

  /** Two bytes for the characters that have a short escape, six for the others that need one. */
  lemma EscapeCharSafe(c: char)
    ensures forall x | x in EscapeChar(c) :: Safe(x)
    ensures |EscapeChar(c)| == if c in {'\"', '\\', '\n', '\r', '\t'} then 2 else if Safe(c) then 1 else 6
  {
    HexRead(c as int / 16 % 16);
    HexRead(c as int % 16);
  }

  // ----- tokens -----

  predicate IsSpace(c: char) {
    c == ' ' || c == '\n' || c == '\r' || c == '\t'
  }

  /** The characters of numbers and of true, false and null. */
  predicate AtomChar(c: char) {
    '0' <= c <= '9' || 'a' <= c <= 'z' || 'A' <= c <= 'Z' || c == '+' || c == '-' || c == '.'
  }

  /** Characters, escapes included, up to a closing quote that ends the text. */
  predicate LiteralRest(s: Bytes) {
    if s == "" then false
    else if s[0] == '\"' then |s| == 1
    else if s[0] == '\\' then |s| >= 2 && s[1] >= ' ' && LiteralRest(s[2..])
    else s[0] >= ' ' && LiteralRest(s[1..])
  }

  predicate IsLiteral(token: Bytes) {
    token != "" && token[0] == '\"' && LiteralRest(token[1..])
  }

  predicate IsAtom(token: Bytes) {
    token != "" && forall i | 0 <= i < |token| :: AtomChar(token[i])
  }

  /** A tree whose scalars are JSON tokens and whose keys are string literals. */
  predicate WellFormed(j: Json) {
    match j
    case Scalar(token) => IsLiteral(token) || IsAtom(token)
    case Arr(items) => forall x | x in items :: WellFormed(x)
    case Obj(members) => forall m | m in members :: WellFormedMember(m)
    case Unsupported => false
  }

  predicate WellFormedMember(m: Member) {
    IsLiteral(m.key) && WellFormed(m.value)
  }

  function AtomLength(s: Bytes): (n: nat)
    ensures n <= |s|
  {
    if s == "" || !AtomChar(s[0]) then 0 else 1 + AtomLength(s[1..])
  }

  /** How much of s belongs to a literal whose opening quote has been read. */
  function LiteralLength(s: Bytes): (n: Option<nat>)
    ensures n.Some? ==> 0 < n.value <= |s|
  {
    if s == "" then None
    else if s[0] == '\"' then Some(1)
    else
      var k := if s[0] == '\\' then 2 else 1;
      if |s| < k then None
      else match LiteralLength(s[k..])
        case None => None
        case Some(n) => Some(n + k)
  }

  function ReadToken(s: Bytes): (r: Option<(Bytes, Bytes)>)
    ensures r.Some? ==> |r.value.1| < |s|
  {
    if s == "" then None
    else if s[0] == '\"' then
      match LiteralLength(s[1..])
      case None => None
      case Some(n) => Some((s[..n + 1], s[n + 1..]))
    else if AtomLength(s) == 0 then None
    else Some((s[..AtomLength(s)], s[AtomLength(s)..]))
  }

  // ----- values -----

  function Skip(s: Bytes): (r: Bytes)
    ensures |r| <= |s|
  {
    if s != "" && IsSpace(s[0]) then Skip(s[1..]) else s
  }

  predicate Starts(s: Bytes, c: char) {
    s != "" && s[0] == c
  }

  /** Reads one value, skipping white space before it. */
  function ReadValue(s: Bytes): (r: Option<(Json, Bytes)>)
    ensures r.Some? ==> |r.value.1| < |s|
    decreases |s|, 0
  {
    var t := Skip(s);
    if Starts(t, '[') then
      if Starts(Skip(t[1..]), ']') then Some((Arr([]), Skip(t[1..])[1..]))
      else match ReadItems(t[1..])
        case None => None
        case Some(p) => Some((Arr(p.0), p.1))
    else if Starts(t, '{') then
      if Starts(Skip(t[1..]), '}') then Some((Obj([]), Skip(t[1..])[1..]))
      else match ReadMembers(t[1..])
        case None => None
        case Some(p) => Some((Obj(p.0), p.1))
    else match ReadToken(t)
      case None => None
      case Some(p) => Some((Scalar(p.0), p.1))
  }

  /** Reads values separated by commas up to the closing bracket. */
  function ReadItems(s: Bytes): (r: Option<(seq<Json>, Bytes)>)
    ensures r.Some? ==> |r.value.1| < |s|
    decreases |s|, 1
  {
    match ReadValue(s)
    case None => None
    case Some(p) =>
      var t := Skip(p.1);
      if Starts(t, ']') then Some(([p.0], t[1..]))
      else if !Starts(t, ',') then None
      else match ReadItems(t[1..])
        case None => None
        case Some(q) => Some(([p.0] + q.0, q.1))
  }

  /** Reads a key, which must be a literal, its colon and its value. */
  function ReadMember(s: Bytes): (r: Option<(Member, Bytes)>)
    ensures r.Some? ==> |r.value.1| < |s|
    decreases |s|, 1
  {
    var t := Skip(s);
    if !Starts(t, '\"') then None
    else match ReadToken(t)
      case None => None
      case Some(key) =>
        if !Starts(Skip(key.1), ':') then None
        else match ReadValue(Skip(key.1)[1..])
          case None => None
          case Some(p) => Some((Member(key.0, p.0), p.1))
  }

  function ReadMembers(s: Bytes): (r: Option<(seq<Member>, Bytes)>)
    ensures r.Some? ==> |r.value.1| < |s|
    decreases |s|, 2
  {
    match ReadMember(s)
    case None => None
    case Some(p) =>
      var t := Skip(p.1);
      if Starts(t, '}') then Some(([p.0], t[1..]))
      else if !Starts(t, ',') then None
      else match ReadMembers(t[1..])
        case None => None
        case Some(q) => Some(([p.0] + q.0, q.1))
  }

  /** Reads a text that is one value. */
  function ReadJson(s: Bytes): Option<Json> {
    match ReadValue(s)
    case None => None
    case Some(p) => if Skip(p.1) == "" then Some(p.0) else None
  }

  // ----- both printers as one, first element first -----

  /** What stands before an element or a closing bracket at depth d. */
  function Lead(indent: bool, d: nat): Bytes {
    if indent then NewLine(d) else ""
  }

  function Colon(indent: bool): Bytes {
    if indent then ": " else ":"
  }

  function Printed(indent: bool, j: Json, d: nat): Bytes
    decreases j, 1
  {
    match j
    case Scalar(token) => token
    case Arr(items) =>
      if items == [] then "[]" else "[" + (PrintedItems(indent, items, d + 1) + (Lead(indent, d) + "]"))
    case Obj(members) =>
      if members == [] then "{}" else "{" + (PrintedMembers(indent, members, d + 1) + (Lead(indent, d) + "}"))
    case Unsupported => ""
  }

  function ItemText(indent: bool, item: Json, d: nat): Bytes
    decreases item, 2
  {
    Lead(indent, d) + Printed(indent, item, d)
  }

  function PrintedItems(indent: bool, items: seq<Json>, d: nat): Bytes
    decreases items, 0
  {
    if items == [] then ""
    else ItemText(indent, items[0], d) + (if |items| == 1 then "" else "," + PrintedItems(indent, items[1..], d))
  }

  function MemberText(indent: bool, m: Member, d: nat): Bytes
    decreases m, 2
  {
    Lead(indent, d) + (m.key + (Colon(indent) + Printed(indent, m.value, d)))
  }

  function PrintedMembers(indent: bool, members: seq<Member>, d: nat): Bytes
    decreases members, 0
  {
    if members == [] then ""
    else
      MemberText(indent, members[0], d)
      + (if |members| == 1 then "" else "," + PrintedMembers(indent, members[1..], d))
  }

  lemma Regrouped(first: Bytes, middle: Bytes, last: Bytes)
    ensures first + ("," + (middle + ("," + last))) == (first + ("," + middle)) + ("," + last)
  {
  }

  lemma {:induction false} ItemsLast(indent: bool, items: seq<Json>, d: nat)
    requires |items| >= 2
    ensures PrintedItems(indent, items, d)
         == PrintedItems(indent, items[..|items| - 1], d) + ("," + ItemText(indent, items[|items| - 1], d))
  {
    var last, front := items[|items| - 1], items[..|items| - 1];
    var first, end := ItemText(indent, items[0], d), ItemText(indent, last, d);
    if |items| == 2 {
      assert items[1..] == [last] && front == [items[0]];
      assert first + "" == first && end + "" == end;
    } else {
      ItemsLast(indent, items[1..], d);
      assert items[1..][..|items| - 2] == front[1..];
      Regrouped(first, PrintedItems(indent, front[1..], d), end);
    }
  }

  lemma {:induction false} MembersLast(indent: bool, members: seq<Member>, d: nat)
    requires |members| >= 2
    ensures PrintedMembers(indent, members, d)
         == PrintedMembers(indent, members[..|members| - 1], d)
            + ("," + MemberText(indent, members[|members| - 1], d))
  {
    var last, front := members[|members| - 1], members[..|members| - 1];
    var first, end := MemberText(indent, members[0], d), MemberText(indent, last, d);
    if |members| == 2 {
      assert members[1..] == [last] && front == [members[0]];
      assert first + "" == first && end + "" == end;
    } else {
      MembersLast(indent, members[1..], d);
      assert members[1..][..|members| - 2] == front[1..];
      Regrouped(first, PrintedMembers(indent, front[1..], d), end);
    }
  }

  lemma JoinedMember(front: Bytes, lead: Bytes, key: Bytes, colon: Bytes, value: Bytes)
    ensures (front + ",") + lead + key + colon + value == front + ("," + (lead + (key + (colon + value))))
    ensures "" + lead + key + colon + value == (lead + (key + (colon + value))) + ""
    ensures (front + ",") + key + colon + value == front + ("," + ("" + (key + (colon + value))))
    ensures "" + key + colon + value == ("" + (key + (colon + value))) + ""
  {
  }

  lemma {:induction false} IndentedIsPrinted(j: Json, d: nat)
    ensures Indented(j, d) == Printed(true, j, d)
    decreases j, 1
  {
    match j
    case Scalar(_) =>
    case Arr(items) => IndentedItemsPrinted(items, d + 1);
    case Obj(members) => IndentedMembersPrinted(members, d + 1);
    case Unsupported =>
  }

  lemma {:induction false} IndentedItemsPrinted(items: seq<Json>, d: nat)
    ensures IndentedItems(items, d) == PrintedItems(true, items, d)
    decreases items, 0
  {
    if items != [] {
      IndentedIsPrinted(items[|items| - 1], d);
      if |items| > 1 {
        IndentedItemsPrinted(items[..|items| - 1], d);
        ItemsLast(true, items, d);
      }
    }
  }

  lemma {:induction false} IndentedMembersPrinted(members: seq<Member>, d: nat)
    ensures IndentedMembers(members, d) == PrintedMembers(true, members, d)
    decreases members, 0
  {
    if members != [] {
      var m := members[|members| - 1];
      IndentedIsPrinted(m.value, d);
      JoinedMember(IndentedMembers(members[..|members| - 1], d), NewLine(d), m.key, ": ", Indented(m.value, d));
      if |members| > 1 {
        IndentedMembersPrinted(members[..|members| - 1], d);
        MembersLast(true, members, d);
      }
    }
  }

  lemma {:induction false} CompactIsPrinted(j: Json, d: nat)
    ensures Compact(j) == Printed(false, j, d)
    decreases j, 1
  {
    match j
    case Scalar(_) =>
    case Arr(items) => CompactItemsPrinted(items, d + 1);
    case Obj(members) => CompactMembersPrinted(members, d + 1);
    case Unsupported =>
  }

  lemma {:induction false} CompactItemsPrinted(items: seq<Json>, d: nat)
    ensures CompactItems(items) == PrintedItems(false, items, d)
    decreases items, 0
  {
    if items != [] {
      CompactIsPrinted(items[|items| - 1], d);
      if |items| > 1 {
        CompactItemsPrinted(items[..|items| - 1], d);
        ItemsLast(false, items, d);
      }
    }
  }

  lemma {:induction false} CompactMembersPrinted(members: seq<Member>, d: nat)
    ensures CompactMembers(members) == PrintedMembers(false, members, d)
    decreases members, 0
  {
    if members != [] {
      var m := members[|members| - 1];
      CompactIsPrinted(m.value, d);
      JoinedMember(CompactMembers(members[..|members| - 1]), "", m.key, ":", Compact(m.value));
      if |members| > 1 {
        CompactMembersPrinted(members[..|members| - 1], d);
        MembersLast(false, members, d);
      }
    }
  }

  // ----- reading undoes printing -----

  /** Text that cannot continue a token. */
  predicate Delimits(rest: Bytes) {
    rest == "" || !AtomChar(rest[0])
  }

  lemma {:induction false} AtomRead(token: Bytes, rest: Bytes)
    requires (forall i | 0 <= i < |token| :: AtomChar(token[i])) && Delimits(rest)
    ensures AtomLength(token + rest) == |token|
  {
    if token == "" {
      assert token + rest == rest;
    } else {
      assert (token + rest)[1..] == token[1..] + rest;
      AtomRead(token[1..], rest);
    }
  }

  lemma {:induction false} LiteralRead(s: Bytes, rest: Bytes)
    requires LiteralRest(s)
    ensures LiteralLength(s + rest) == Some(|s|)
  {
    if s[0] != '\"' {
      var k := if s[0] == '\\' then 2 else 1;
      assert (s + rest)[k..] == s[k..] + rest;
      LiteralRead(s[k..], rest);
    }
  }

  lemma TokenRead(token: Bytes, rest: Bytes)
    requires IsLiteral(token) || (IsAtom(token) && Delimits(rest))
    ensures ReadToken(token + rest) == Some((token, rest))
  {
    var s := token + rest;
    assert s[..|token|] == token && s[|token|..] == rest;
    if IsLiteral(token) {
      assert s[1..] == token[1..] + rest;
      LiteralRead(token[1..], rest);
    } else {
      AtomRead(token, rest);
      assert AtomChar(s[0]);
    }
  }

  lemma {:induction false} SkipSpaces(lead: Bytes, s: Bytes)
    requires forall i | 0 <= i < |lead| :: IsSpace(lead[i])
    ensures Skip(lead + s) == Skip(s)
  {
    if lead == "" {
      assert lead + s == s;
    } else {
      assert (lead + s)[1..] == lead[1..] + s;
      SkipSpaces(lead[1..], s);
    }
  }

  lemma SkipLead(indent: bool, d: nat, s: Bytes)
    ensures Skip(Lead(indent, d) + s) == Skip(s)
  {
    SkipSpaces(Lead(indent, d), s);
  }

  /** A value starts with a token or an opening bracket, never with white space. */
  lemma PrintedStarts(indent: bool, j: Json, d: nat)
    requires WellFormed(j)
    ensures Printed(indent, j, d) != "" && !IsSpace(Printed(indent, j, d)[0])
    ensures Printed(indent, j, d)[0] != ']' && Printed(indent, j, d)[0] != '}'
    ensures Printed(indent, j, d)[0] == '[' <==> j.Arr?
    ensures Printed(indent, j, d)[0] == '{' <==> j.Obj?
  {
    if j.Scalar? {
      assert IsAtom(j.token) ==> AtomChar(j.token[0]);
    }
  }

  lemma ReadScalar(token: Bytes, rest: Bytes)
    requires WellFormed(Scalar(token)) && Delimits(rest)
    ensures ReadValue(token + rest) == Some((Scalar(token), rest))
  {
    TokenRead(token, rest);
    assert IsAtom(token) ==> AtomChar(token[0]);
    assert Skip(token + rest) == token + rest;
  }

  // The reader's steps, on any text.

  lemma ReadEmpty(rest: Bytes)
    ensures ReadValue("[]" + rest) == Some((Arr([]), rest))
    ensures ReadValue("{}" + rest) == Some((Obj([]), rest))
  {
    var s, t := "[]" + rest, "{}" + rest;
    assert s[1..] == "]" + rest && s[1..][1..] == rest;
    assert t[1..] == "}" + rest && t[1..][1..] == rest;
    assert Skip(s) == s && Skip(t) == t && Skip(s[1..]) == s[1..] && Skip(t[1..]) == t[1..];
  }

  lemma ReadArray(inner: Bytes, items: seq<Json>, rest: Bytes)
    requires ReadItems(inner) == Some((items, rest)) && !Starts(Skip(inner), ']')
    ensures ReadValue("[" + inner) == Some((Arr(items), rest))
  {
    assert Skip("[" + inner) == "[" + inner && ("[" + inner)[1..] == inner;
  }

  lemma ReadObject(inner: Bytes, members: seq<Member>, rest: Bytes)
    requires ReadMembers(inner) == Some((members, rest)) && !Starts(Skip(inner), '}')
    ensures ReadValue("{" + inner) == Some((Obj(members), rest))
  {
    assert Skip("{" + inner) == "{" + inner && ("{" + inner)[1..] == inner;
  }

  lemma ReadLastItem(s: Bytes, j: Json, end: Bytes, rest: Bytes)
    requires ReadValue(s) == Some((j, end)) && Skip(end) == "]" + rest
    ensures ReadItems(s) == Some(([j], rest))
  {
    assert ("]" + rest)[1..] == rest;
  }

  lemma ReadNextItem(s: Bytes, j: Json, more: Bytes, items: seq<Json>, rest: Bytes)
    requires ReadValue(s) == Some((j, "," + more)) && ReadItems(more) == Some((items, rest))
    ensures ReadItems(s) == Some(([j] + items, rest))
  {
    assert Skip("," + more) == "," + more && ("," + more)[1..] == more;
  }

  lemma ReadLastMember(s: Bytes, m: Member, end: Bytes, rest: Bytes)
    requires ReadMember(s) == Some((m, end)) && Skip(end) == "}" + rest
    ensures ReadMembers(s) == Some(([m], rest))
  {
    assert ("}" + rest)[1..] == rest;
  }

  lemma ReadNextMember(s: Bytes, m: Member, more: Bytes, members: seq<Member>, rest: Bytes)
    requires ReadMember(s) == Some((m, "," + more)) && ReadMembers(more) == Some((members, rest))
    ensures ReadMembers(s) == Some(([m] + members, rest))
  {
    assert Skip("," + more) == "," + more && ("," + more)[1..] == more;
  }

  lemma ReadPair(key: Bytes, text: Bytes, j: Json, rest: Bytes)
    requires IsLiteral(key) && ReadValue(text) == Some((j, rest))
    ensures ReadMember(key + (":" + text)) == Some((Member(key, j), rest))
  {
    TokenRead(key, ":" + text);
    assert Skip(key + (":" + text)) == key + (":" + text);
    assert Skip(":" + text) == ":" + text && (":" + text)[1..] == text;
  }

  /** Reading depends only on what follows the white space. */
  lemma ReadAfterSpaces(a: Bytes, b: Bytes)
    requires Skip(a) == Skip(b)
    ensures ReadValue(a) == ReadValue(b) && ReadMember(a) == ReadMember(b)
  {
  }

  // The texts the printers write.

  /** What follows the elements of a bracketed list. */
  function Closing(indent: bool, d: nat, bracket: Bytes, rest: Bytes): Bytes {
    Lead(indent, d) + (bracket + rest)
  }

  lemma ClosingDelimits(indent: bool, d: nat, bracket: Bytes, rest: Bytes)
    requires bracket == "]" || bracket == "}"
    ensures Delimits(Closing(indent, d, bracket, rest))
    ensures Skip(Closing(indent, d, bracket, rest)) == bracket + rest
  {
    SkipLead(indent, d, bracket + rest);
  }

  lemma Bracketed(open: Bytes, inner: Bytes, lead: Bytes, bracket: Bytes, rest: Bytes)
    ensures (open + (inner + (lead + bracket))) + rest == open + (inner + (lead + (bracket + rest)))
  {
  }

  lemma Followed(first: Bytes, more: Bytes, end: Bytes)
    ensures (first + ("," + more)) + end == first + ("," + (more + end))
    ensures (first + "") + end == first + end
  {
  }

  lemma ItemsSplit(indent: bool, items: seq<Json>, d: nat, end: Bytes)
    requires items != []
    ensures PrintedItems(indent, items, d) + end
         == ItemText(indent, items[0], d)
            + (if |items| == 1 then end else "," + (PrintedItems(indent, items[1..], d) + end))
  {
    Followed(ItemText(indent, items[0], d), PrintedItems(indent, items[1..], d), end);
  }

  lemma MembersSplit(indent: bool, members: seq<Member>, d: nat, end: Bytes)
    requires members != []
    ensures PrintedMembers(indent, members, d) + end
         == MemberText(indent, members[0], d)
            + (if |members| == 1 then end else "," + (PrintedMembers(indent, members[1..], d) + end))
  {
    Followed(MemberText(indent, members[0], d), PrintedMembers(indent, members[1..], d), end);
  }

  lemma ItemStarts(indent: bool, j: Json, d: nat, rest: Bytes)
    requires WellFormed(j)
    ensures Skip(ItemText(indent, j, d) + rest) == Printed(indent, j, d) + rest
    ensures !Starts(Skip(ItemText(indent, j, d) + rest), ']')
  {
    var text := Printed(indent, j, d);
    PrintedStarts(indent, j, d);
    assert ItemText(indent, j, d) + rest == Lead(indent, d) + (text + rest);
    SkipLead(indent, d, text + rest);
    assert Skip(text + rest) == text + rest;
  }

  lemma MemberStarts(indent: bool, m: Member, d: nat, rest: Bytes)
    requires IsLiteral(m.key)
    ensures Skip(MemberText(indent, m, d) + rest) == m.key + (Colon(indent) + (Printed(indent, m.value, d) + rest))
    ensures !Starts(Skip(MemberText(indent, m, d) + rest), '}')
  {
    var after := Colon(indent) + (Printed(indent, m.value, d) + rest);
    assert MemberText(indent, m, d) + rest == Lead(indent, d) + (m.key + after);
    SkipLead(indent, d, m.key + after);
    assert Skip(m.key + after) == m.key + after;
  }

  lemma ReadItemText(indent: bool, j: Json, d: nat, rest: Bytes)
    requires WellFormed(j) && ReadValue(Printed(indent, j, d) + rest) == Some((j, rest))
    ensures ReadValue(ItemText(indent, j, d) + rest) == Some((j, rest))
  {
    var text := Printed(indent, j, d) + rest;
    ItemStarts(indent, j, d, rest);
    PrintedStarts(indent, j, d);
    assert Skip(text) == text;
    ReadAfterSpaces(ItemText(indent, j, d) + rest, text);
  }

  lemma ReadColon(indent: bool, key: Bytes, text: Bytes, j: Json, rest: Bytes)
    requires IsLiteral(key) && ReadValue(text) == Some((j, rest))
    ensures ReadMember(key + (Colon(indent) + text)) == Some((Member(key, j), rest))
  {
    var space := if indent then " " else "";
    assert Colon(indent) + text == ":" + (space + text);
    SkipSpaces(space, text);
    ReadAfterSpaces(space + text, text);
    ReadPair(key, space + text, j, rest);
  }

  lemma ReadMemberText(indent: bool, m: Member, d: nat, rest: Bytes)
    requires IsLiteral(m.key) && ReadValue(Printed(indent, m.value, d) + rest) == Some((m.value, rest))
    ensures ReadMember(MemberText(indent, m, d) + rest) == Some((m, rest))
  {
    var text := Printed(indent, m.value, d) + rest;
    var whole := m.key + (Colon(indent) + text);
    MemberStarts(indent, m, d, rest);
    assert Skip(whole) == whole;
    ReadAfterSpaces(MemberText(indent, m, d) + rest, whole);
    ReadColon(indent, m.key, text, m.value, rest);
  }

  /** Reading a printed tree gives it back, whatever the depth and whatever follows it. */
  lemma {:induction false} ReadPrinted(indent: bool, j: Json, d: nat, rest: Bytes)
    requires WellFormed(j) && Delimits(rest)
    ensures ReadValue(Printed(indent, j, d) + rest) == Some((j, rest))
    decreases j, 1
  {
    match j
    case Scalar(token) => ReadScalar(token, rest);
    case Arr(items) => ReadPrintedArray(indent, items, d, rest);
    case Obj(members) => ReadPrintedObject(indent, members, d, rest);
  }

  lemma {:induction false} ReadPrintedArray(indent: bool, items: seq<Json>, d: nat, rest: Bytes)
    requires forall x | x in items :: WellFormed(x)
    ensures ReadValue(Printed(indent, Arr(items), d) + rest) == Some((Arr(items), rest))
    decreases items, 1
  {
    if items == [] {
      ReadEmpty(rest);
    } else {
      var inner, end := PrintedItems(indent, items, d + 1), Closing(indent, d, "]", rest);
      ReadPrintedItems(indent, items, d + 1, d, rest);
      ItemsSplit(indent, items, d + 1, end);
      ItemStarts(indent, items[0], d + 1,
                 if |items| == 1 then end else "," + (PrintedItems(indent, items[1..], d + 1) + end));
      ReadArray(inner + end, items, rest);
      Bracketed("[", inner, Lead(indent, d), "]", rest);
    }
  }

  lemma {:induction false} ReadPrintedObject(indent: bool, members: seq<Member>, d: nat, rest: Bytes)
    requires forall m | m in members :: WellFormedMember(m)
    ensures ReadValue(Printed(indent, Obj(members), d) + rest) == Some((Obj(members), rest))
    decreases members, 1
  {
    if members == [] {
      ReadEmpty(rest);
    } else {
      var inner, end := PrintedMembers(indent, members, d + 1), Closing(indent, d, "}", rest);
      ReadPrintedMembers(indent, members, d + 1, d, rest);
      assert WellFormedMember(members[0]);
      MembersSplit(indent, members, d + 1, end);
      MemberStarts(indent, members[0], d + 1,
                   if |members| == 1 then end else "," + (PrintedMembers(indent, members[1..], d + 1) + end));
      ReadObject(inner + end, members, rest);
      Bracketed("{", inner, Lead(indent, d), "}", rest);
    }
  }

  lemma {:induction false} ReadPrintedItems(indent: bool, items: seq<Json>, d: nat, e: nat, rest: Bytes)
    requires items != [] && forall x | x in items :: WellFormed(x)
    ensures ReadItems(PrintedItems(indent, items, d) + Closing(indent, e, "]", rest)) == Some((items, rest))
    decreases items, 0
  {
    var end := Closing(indent, e, "]", rest);
    ClosingDelimits(indent, e, "]", rest);
    ItemsSplit(indent, items, d, end);
    var whole := PrintedItems(indent, items, d) + end;
    if |items| == 1 {
      ReadPrinted(indent, items[0], d, end);
      ReadItemText(indent, items[0], d, end);
      ReadLastItem(whole, items[0], end, rest);
      assert items == [items[0]];
    } else {
      var more := PrintedItems(indent, items[1..], d) + end;
      ReadPrintedItems(indent, items[1..], d, e, rest);
      ReadPrinted(indent, items[0], d, "," + more);
      ReadItemText(indent, items[0], d, "," + more);
      ReadNextItem(whole, items[0], more, items[1..], rest);
      assert [items[0]] + items[1..] == items;
    }
  }

  predicate ReadsMember(indent: bool, m: Member, d: nat, rest: Bytes) {
    ReadMember(MemberText(indent, m, d) + rest) == Some((m, rest))
  }

  predicate ReadsMembers(indent: bool, members: seq<Member>, d: nat, end: Bytes, rest: Bytes) {
    ReadMembers(PrintedMembers(indent, members, d) + end) == Some((members, rest))
  }

  lemma LastMember(indent: bool, m: Member, d: nat, end: Bytes, rest: Bytes)
    requires ReadsMember(indent, m, d, end) && Skip(end) == "}" + rest
    ensures ReadsMembers(indent, [m], d, end, rest)
  {
    MembersSplit(indent, [m], d, end);
    ReadLastMember(MemberText(indent, m, d) + end, m, end, rest);
  }

  lemma MoreMembers(indent: bool, members: seq<Member>, d: nat, end: Bytes, rest: Bytes)
    requires |members| > 1 && ReadsMembers(indent, members[1..], d, end, rest)
    requires ReadsMember(indent, members[0], d, "," + (PrintedMembers(indent, members[1..], d) + end))
    ensures ReadsMembers(indent, members, d, end, rest)
  {
    var more := PrintedMembers(indent, members[1..], d) + end;
    MembersSplit(indent, members, d, end);
    ReadNextMember(MemberText(indent, members[0], d) + ("," + more), members[0], more, members[1..], rest);
    assert [members[0]] + members[1..] == members;
  }

  lemma {:induction false} ReadPrintedMembers(indent: bool, members: seq<Member>, d: nat, e: nat, rest: Bytes)
    requires members != [] && forall m | m in members :: WellFormedMember(m)
    ensures ReadsMembers(indent, members, d, Closing(indent, e, "}", rest), rest)
    decreases members, 0
  {
    var end := Closing(indent, e, "}", rest);
    ClosingDelimits(indent, e, "}", rest);
    var next := if |members| == 1 then end else "," + (PrintedMembers(indent, members[1..], d) + end);
    assert WellFormedMember(members[0]);
    ReadPrinted(indent, members[0].value, d, next);
    ReadMemberText(indent, members[0], d, next);
    if |members| == 1 {
      LastMember(indent, members[0], d, end, rest);
      assert members == [members[0]];
    } else {
      ReadPrintedMembers(indent, members[1..], d, e, rest);
      MoreMembers(indent, members, d, end, rest);
    }
  }

  /** Both printers write a text from which the tree can be read, token by token. */
  lemma PrintersReadBack(j: Json, d: nat)
    requires WellFormed(j)
    ensures ReadJson(Indented(j, d)) == Some(j)
    ensures ReadJson(Compact(j)) == Some(j)
  {
    IndentedIsPrinted(j, d);
    CompactIsPrinted(j, d);
    ReadPrinted(true, j, d, "");
    ReadPrinted(false, j, d, "");
    assert Indented(j, d) + "" == Indented(j, d) && Compact(j) + "" == Compact(j);
  }
}
