/**
 * The canonical message-signature payload, the publish envelope built around it and its verifier.
 * The MAC is any function of the payload, and the job id any function of the body.
 */
module Signature {
  import opened Engine
  import opened Newlines

  type Int64 = x: int | -0x8000_0000_0000_0000 <= x < 0x8000_0000_0000_0000

  // ----- decimal numbers -----

  function Digit(d: nat): char
    requires d < 10
  {
    ('0' as int + d) as char
  }

  predicate IsDigit(c: char) {
    '0' <= c <= '9'
  }

  function Digits(n: nat): string {
    if n < 10 then [Digit(n)] else Digits(n / 10) + [Digit(n % 10)]
  }

  /** strconv.FormatInt and the %d verb. */
  function Decimal(n: int): string {
    if n < 0 then "-" + Digits(-n) else Digits(n)
  }

  predicate AllDigits(s: string) {
    forall i | 0 <= i < |s| :: IsDigit(s[i])
  }

  function Magnitude(s: string): nat
    requires AllDigits(s)
  {
    if s == [] then 0 else Magnitude(s[..|s| - 1]) * 10 + (s[|s| - 1] as int - '0' as int)
  }

  function InRange(n: int): Option<Int64> {
    if -0x8000_0000_0000_0000 <= n < 0x8000_0000_0000_0000 then Some(n) else None
  }

  /** strconv.ParseInt in base 10: an optional sign, at least one digit, and the 64-bit range. */
  function ParseInt(s: string): Option<Int64> {
    var signed := s != [] && (s[0] == '-' || s[0] == '+');
    var digits := if signed then s[1..] else s;
    if digits == [] || !AllDigits(digits) then None
    else if signed && s[0] == '-' then InRange(0 - Magnitude(digits))
    else InRange(Magnitude(digits))
  }

  lemma {:induction false} DigitsRead(n: nat)
    ensures Digits(n) != [] && AllDigits(Digits(n)) && Magnitude(Digits(n)) == n
    ensures n > 0 ==> Digits(n)[0] != '0'
    ensures n == 0 ==> Digits(n) == "0"
  {
    var s := Digits(n);
    if n < 10 {
      assert s[..|s| - 1] == [];
    } else {
      DigitsRead(n / 10);
      assert s[..|s| - 1] == Digits(n / 10);
    }
  }

  /** s is this sign and these digits, and they denote n. */
  predicate WrittenAs(s: string, sign: string, digits: string, n: int) {
    && s == sign + digits && sign in {"", "-", "+"}
    && digits != "" && AllDigits(digits)
    && n == if sign == "-" then 0 - Magnitude(digits) else Magnitude(digits)
  }

  /** A timestamp is read exactly from an optional sign and digits within 64 bits. */
  lemma ParseIntExactly(s: string, n: Int64)
    ensures ParseInt(s) == Some(n) <==> exists sign, digits :: WrittenAs(s, sign, digits, n)
  {
    if ParseInt(s) == Some(n) {
      if s[0] == '-' || s[0] == '+' {
        assert s == [s[0]] + s[1..];
        assert WrittenAs(s, [s[0]], s[1..], n);
      } else {
        assert WrittenAs(s, "", s, n);
      }
    }
    if sign, digits :| WrittenAs(s, sign, digits, n) {
      if sign == "" {
        assert s == digits;
        assert IsDigit(s[0]);
      } else {
        assert s[1..] == digits;
      }
    }
  }

  lemma {:induction false} ParseUnsigned(s: string)
    requires s != [] && AllDigits(s)
    ensures ParseInt(s) == InRange(Magnitude(s))
  {
    assert IsDigit(s[0]);
  }

  lemma {:induction false} ParseNegative(s: string)
    requires s != [] && AllDigits(s)
    ensures ParseInt("-" + s) == InRange(0 - Magnitude(s))
  {
    assert ("-" + s)[1..] == s;
  }

  lemma {:induction false} ParseDecimal(n: Int64)
    ensures ParseInt(Decimal(n)) == Some(n)
  {
    var m: int := n;
    if m < 0 {
      DigitsRead(-m);
      ParseNegative(Digits(-m));
    } else {
      DigitsRead(m);
      ParseUnsigned(Digits(m));
    }
  }

  /** Everything a formatted number consists of. */
  predicate IsNumeric(c: char) {
    IsDigit(c) || c == '-'
  }

  lemma {:induction false} DecimalNumeric(n: int)
    ensures forall c | c in Decimal(n) :: IsNumeric(c)
    ensures Decimal(n) != "" && (Decimal(n)[0] == '-' <==> n < 0)
  {
    DigitsRead(if n < 0 then -n else n);
  }

  // ----- the payload -----

  /** What a signature binds. */
  datatype Signed = Signed(timestamp: Int64, version: string, tenant: string, job: string,
                           exchange: string, routingKey: string, body: string)

  /** BuildMessageSignaturePayload: six newline-terminated fields, then the body. */
  function Payload(x: Signed): string {
    Break(Decimal(x.timestamp),
         Break(x.version, Break(x.tenant, Break(x.job, Break(x.exchange, Break(x.routingKey, x.body))))))
  }

  /** crypto.BuildSignaturePayload: the body-only payload of older messages. */
  function Legacy(timestamp: Int64, body: string): string {
    Decimal(timestamp) + ['.'] + body
  }

  predicate FieldsPlain(x: Signed) {
    NoNewline(x.version) && NoNewline(x.tenant) && NoNewline(x.job) && NoNewline(x.exchange) && NoNewline(x.routingKey)
  }

  /** Reads a payload back, independently of how it is written. */
  function Decode(s: string): Option<Signed> {
    match Cut(s) case None => None case Some(a) =>
    match ParseInt(a.0) case None => None case Some(timestamp) =>
    match Cut(a.1) case None => None case Some(b) =>
    match Cut(b.1) case None => None case Some(c) =>
    match Cut(c.1) case None => None case Some(d) =>
    match Cut(d.1) case None => None case Some(e) =>
    match Cut(e.1) case None => None case Some(f) =>
    Some(Signed(timestamp, b.0, c.0, d.0, e.0, f.0, f.1))
  }

  lemma DecodesPayload(x: Signed)
    requires FieldsPlain(x)
    ensures Decode(Payload(x)) == Some(x)
  {
    DecimalNumeric(x.timestamp);
    ParseDecimal(x.timestamp);
    var f := Break(x.routingKey, x.body);
    var e := Break(x.exchange, f);
    var d := Break(x.job, e);
    var c := Break(x.tenant, d);
    var b := Break(x.version, c);
    CutBreak(Decimal(x.timestamp), b);
    CutBreak(x.version, c);
    CutBreak(x.tenant, d);
    CutBreak(x.job, e);
    CutBreak(x.exchange, f);
    CutBreak(x.routingKey, x.body);
  }

  /** The payload determines what it was built from exactly when no field contains a newline. */
  lemma DecodeInverts(x: Signed)
    ensures Decode(Payload(x)) == Some(x) <==> FieldsPlain(x)
  {
    if FieldsPlain(x) {
      DecodesPayload(x);
    } else {
      DecodesPlain(Payload(x));
      FieldNewlinesNone(x);
    }
  }

  lemma PayloadInjective(x: Signed, y: Signed)
    requires FieldsPlain(x) && FieldsPlain(y) && Payload(x) == Payload(y)
    ensures x == y
  {
    DecodesPayload(x);
    DecodesPayload(y);
  }

  // ----- which payloads have one reading only -----

  function FieldNewlines(x: Signed): nat {
    NewlineCount(x.version) + NewlineCount(x.tenant) + NewlineCount(x.job)
    + NewlineCount(x.exchange) + NewlineCount(x.routingKey)
  }

  lemma FieldNewlinesNone(x: Signed)
    ensures FieldNewlines(x) == 0 <==> FieldsPlain(x)
  {
    NewlinesNone(x.version);
    NewlinesNone(x.tenant);
    NewlinesNone(x.job);
    NewlinesNone(x.exchange);
    NewlinesNone(x.routingKey);
  }

  lemma DecodesPlain(s: string)
    ensures Decode(s).Some? ==> FieldNewlines(Decode(s).value) == 0
  {
    if Decode(s).Some? {
      var a := Cut(s).value;
      var b := Cut(a.1).value;
      var c := Cut(b.1).value;
      var d := Cut(c.1).value;
      var e := Cut(d.1).value;
      CutPlain(a.1);
      CutPlain(b.1);
      CutPlain(c.1);
      CutPlain(d.1);
      CutPlain(e.1);
      FieldNewlinesNone(Decode(s).value);
    }
  }

  lemma PayloadNewlines(x: Signed)
    ensures NewlineCount(Payload(x)) == 6 + FieldNewlines(x) + NewlineCount(x.body)
  {
    DecimalNumeric(x.timestamp);
    NewlinesNone(Decimal(x.timestamp));
    var f := Break(x.routingKey, x.body);
    var e := Break(x.exchange, f);
    var d := Break(x.job, e);
    var c := Break(x.tenant, d);
    NewlinesBreak(x.routingKey, x.body);
    NewlinesBreak(x.exchange, f);
    NewlinesBreak(x.job, e);
    NewlinesBreak(x.tenant, d);
    NewlinesBreak(x.version, c);
    NewlinesBreak(Decimal(x.timestamp), Break(x.version, c));
  }

  /** Some other message has the same payload. */
  ghost predicate Ambiguous(x: Signed) {
    exists y: Signed :: y != x && Payload(y) == Payload(x)
  }

  /** Moves each newline-terminated field one place forward. */
  function Shifted(x: Signed, line: string, rest: string): Signed {
    Signed(x.timestamp, x.version + ['\n'] + x.tenant, x.job, x.exchange, x.routingKey, line, rest)
  }

  lemma ShiftedSame(x: Signed, line: string, rest: string)
    requires x.body == Break(line, rest)
    ensures Payload(Shifted(x, line, rest)) == Payload(x)
  {
    Regroup(x.version, x.tenant, Break(x.job, Break(x.exchange, Break(x.routingKey, x.body))));
  }

  /** Every payload decodes, to a message with the same payload. */
  lemma DecodesAlways(x: Signed)
    ensures Decode(Payload(x)).Some? && Payload(Decode(Payload(x)).value) == Payload(x)
  {
    var b := Break(x.version, Break(x.tenant, Break(x.job, Break(x.exchange, Break(x.routingKey, x.body)))));
    DecimalNumeric(x.timestamp);
    ParseDecimal(x.timestamp);
    CutBreak(Decimal(x.timestamp), b);
    PayloadNewlines(x);
    NewlinesNone(Decimal(x.timestamp));
    NewlinesBreak(Decimal(x.timestamp), b);
    CutCounts(b);
    var c := Cut(b).value.1;
    CutCounts(c);
    var d := Cut(c).value.1;
    CutCounts(d);
    var e := Cut(d).value.1;
    CutCounts(e);
    CutCounts(Cut(e).value.1);
  }

  /** A message shares its payload with another one exactly when a field or the body contains a newline. */
  lemma AmbiguousExactlyWithNewlines(x: Signed)
    ensures Ambiguous(x) <==> !(FieldsPlain(x) && NoNewline(x.body))
  {
    NewlinesNone(x.body);
    FieldNewlinesNone(x);
    PayloadNewlines(x);
    if FieldsPlain(x) && NoNewline(x.body) {
      forall y: Signed | Payload(y) == Payload(x)
        ensures y == x
      {
        PayloadNewlines(y);
        FieldNewlinesNone(y);
        PayloadInjective(x, y);
      }
    } else if FieldsPlain(x) {
      CutCounts(x.body);
      var p := Cut(x.body).value;
      ShiftedSame(x, p.0, p.1);
      assert !NoNewline(Shifted(x, p.0, p.1).version) by {
        assert Shifted(x, p.0, p.1).version[|x.version|] == '\n';
      }
    } else {
      DecodesAlways(x);
      DecodesPlain(Payload(x));
    }
  }

  // ----- apart from the body-only payload -----

  lemma NumericPrefix(a: string, c: char, b: string, a': string, c': char, b': string)
    requires forall x | x in a :: IsNumeric(x)
    requires forall x | x in a' :: IsNumeric(x)
    requires !IsNumeric(c) && !IsNumeric(c')
    requires a + [c] + b == a' + [c'] + b'
    ensures a == a' && c == c' && b == b'
  {
    var s := a + [c] + b;
    assert s[|a|] == c && s[|a'|] == c';
    assert forall i | 0 <= i < |a| :: s[i] == a[i] && IsNumeric(s[i]);
    assert forall i | 0 <= i < |a'| :: s[i] == a'[i] && IsNumeric(s[i]);
    assert |a| == |a'|;
    assert a == s[..|a|] && a' == s[..|a'|];
    assert b == s[|a| + 1..] && b' == s[|a'| + 1..];
  }

  /** No payload is a body-only payload, whatever the fields contain. */
  lemma NeverLegacy(x: Signed, timestamp: Int64, body: string)
    ensures Payload(x) != Legacy(timestamp, body)
  {
    if Payload(x) == Legacy(timestamp, body) {
      DecimalNumeric(x.timestamp);
      DecimalNumeric(timestamp);
      var rest := Break(x.version, Break(x.tenant, Break(x.job, Break(x.exchange, Break(x.routingKey, x.body)))));
      NumericPrefix(Decimal(x.timestamp), '\n', rest, Decimal(timestamp), '.', body);
    }
  }

  lemma LegacyInjective(timestamp: Int64, body: string, timestamp': Int64, body': string)
    requires Legacy(timestamp, body) == Legacy(timestamp', body')
    ensures timestamp == timestamp' && body == body'
  {
    DecimalNumeric(timestamp);
    DecimalNumeric(timestamp');
    NumericPrefix(Decimal(timestamp), '.', body, Decimal(timestamp'), '.', body');
    ParseDecimal(timestamp);
    ParseDecimal(timestamp');
  }

  // ----- the envelope -----

  datatype Header = Text(s: string) | Long(n: Int64) | Number(k: Int64) | Other

  /** Header names; the six owned by the envelope are pairwise distinct constants. */
  datatype Name = RequestId | RetryCount | TenantId | MessageSignature | Timestamp | Version | Custom(name: string)

  type Table = map<Name, Header>

  datatype Signer = Signer(mac: string -> string, version: string)

  const SECOND := 1_000_000_000
  const FUTURE_SKEW := 30 * SECOND

  /** A header read as a string, empty when absent or of another type. */
  function TextOf(table: Table, n: Name): string {
    if n in table && table[n].Text? then table[n].s else ""
  }

  /** Whole seconds of a clock reading in nanoseconds. */
  function Seconds(now: int): int {
    now / SECOND
  }

  predicate Clock(now: int) {
    -0x8000_0000_0000_0000 <= Seconds(now) < 0x8000_0000_0000_0000
  }

  /** What the envelope for a message signs. */
  function Binding(now: int, version: string, tenant: string, exchange: string, routingKey: string,
                   body: string, jobOf: string -> string): Signed
    requires Clock(now)
  {
    Signed(Seconds(now), version, tenant, jobOf(body), exchange, routingKey, body)
  }

  predicate CustomKept(table: Table, headers: Table, trace: map<string, Header>, n: string) {
    && (Custom(n) in table <==> n in trace || Custom(n) in headers)
    && (Custom(n) in table ==> table[Custom(n)] == if n in trace then trace[n] else headers[Custom(n)])
  }

  predicate Identified(table: Table, reqID: string, tenant: string) {
    && RequestId in table && table[RequestId] == Text(reqID)
    && RetryCount in table && table[RetryCount] == Number(0)
    && (TenantId in table <==> tenant != "")
    && TextOf(table, TenantId) == tenant
  }

  predicate SignatureFree(table: Table) {
    MessageSignature !in table && Timestamp !in table && Version !in table
  }

  /** deleteSecurityOwnedHeaders on a copy of the caller's headers. */
  method DeleteSecurityOwnedHeaders(headers: Table) returns (table: Table)
    ensures table.Keys == set n | n in headers && n.Custom?
    ensures forall n | n in table :: table[n] == headers[n]
  {
    table := headers - {RequestId, RetryCount, TenantId, MessageSignature, Timestamp, Version};
  }

  method SetIdentity(reqID: string, tenant: string, headers: Table) returns (table: Table)
    requires forall n | n in headers :: n.Custom?
    ensures Identified(table, reqID, tenant) && SignatureFree(table)
    ensures forall n: string :: CustomKept(table, headers, map[], n)
  {
    table := headers[RequestId := Text(reqID)];
    table := table[RetryCount := Number(0)];
    if tenant != "" {
      table := table[TenantId := Text(tenant)];
    }
  }

  method InjectTrace(headers: Table, trace: map<string, Header>) returns (table: Table)
    ensures forall n: string :: CustomKept(table, headers, trace, n)
    ensures forall n: Name | !n.Custom? :: n in table <==> n in headers
    ensures forall n: Name | !n.Custom? && n in table :: table[n] == headers[n]
  {
    table := headers + (map n | n in trace :: Custom(n) := trace[n]);
  }

  /** BuildSecurePublishing: copies the caller's headers, takes over the owned ones and signs. */
  method BuildSecurePublishing(reqID: string, tenant: string, exchange: string, routingKey: string, body: string,
                               headers: Table, trace: map<string, Header>, signer: Option<Signer>,
                               enableSigning: bool, now: int, jobOf: string -> string)
    returns (table: Table)
    requires Clock(now)
    ensures forall n: string :: CustomKept(table, headers, trace, n)
    ensures Identified(table, reqID, tenant)
    ensures signer.Some? && enableSigning ==>
              && MessageSignature in table && Timestamp in table && Version in table
              && table[MessageSignature]
                 == Text(signer.value.mac(Payload(Binding(now, signer.value.version, tenant, exchange, routingKey,
                                                          body, jobOf))))
              && table[Timestamp] == Text(Decimal(Seconds(now)))
              && table[Version] == Text(signer.value.version)
    ensures !(signer.Some? && enableSigning) ==> SignatureFree(table)
  {
    var callerHeaders := DeleteSecurityOwnedHeaders(headers);
    var identified := SetIdentity(reqID, tenant, callerHeaders);
    var traced := InjectTrace(identified, trace);
    assert Identified(traced, reqID, tenant) && SignatureFree(traced);
    forall n: string
      ensures CustomKept(traced, headers, trace, n)
    {
      assert CustomKept(identified, callerHeaders, map[], n);
      assert CustomKept(traced, identified, trace, n);
    }
    table := traced;
    if signer.Some? && enableSigning {
      var timestamp := Seconds(now);
      var version := signer.value.version;
      var tenantID := TextOf(traced, TenantId);
      var payload := Payload(Signed(timestamp, version, tenantID, jobOf(body), exchange, routingKey, body));
      table := table[MessageSignature := Text(signer.value.mac(payload))];
      table := table[Timestamp := Text(Decimal(timestamp))];
      table := table[Version := Text(version)];
      assert forall n: string :: CustomKept(traced, headers, trace, n) ==> CustomKept(table, headers, trace, n);
    }
  }

  // ----- verification -----

  datatype Verdict =
    | Accepted
    | NotConfigured
    | MissingHeader(name: Name)
    | BadTimestamp
    | FromFuture
    | Expired
    | UnsupportedVersion
    | Rejected

  datatype Stamp = At(seconds: Int64) | Absent | Malformed

  function StampOf(table: Table): Stamp {
    if Timestamp !in table then Absent else
    match table[Timestamp]
    case Text(s) => (match ParseInt(s) case Some(t) => At(t) case None => Malformed)
    case Long(t) => At(t)
    case Number(t) => At(t)
    case Other => Absent
  }

  /** Nanoseconds since the stamp, saturating like a Go duration. */
  function Age(now: int, seconds: Int64): int {
    var d := now - seconds * SECOND;
    if d < -0x8000_0000_0000_0000 then -0x8000_0000_0000_0000
    else if d > 0x7fff_ffff_ffff_ffff then 0x7fff_ffff_ffff_ffff
    else d
  }

  /** The message is stamped more than thirty seconds ahead of the clock. */
  predicate Ahead(now: int, seconds: int) {
    now - seconds * 1_000_000_000 < -30_000_000_000
  }

  /** The stamp is older than a positive tolerance; the longest duration tolerates every age. */
  predicate Stale(now: int, seconds: int, tolerance: int) {
    0 < tolerance < 0x7fff_ffff_ffff_ffff && now - seconds * 1_000_000_000 > tolerance
  }

  /** The age window in clock readings: nanoseconds now, whole seconds in the stamp. */
  predicate Fresh(now: int, seconds: int, tolerance: int) {
    !Ahead(now, seconds) && !Stale(now, seconds, tolerance)
  }

  /** The duration arithmetic of the checks comes to the window, at every distance. */
  lemma AgeInReadings(now: int, seconds: Int64, tolerance: int)
    ensures Age(now, seconds) < -FUTURE_SKEW <==> Ahead(now, seconds)
    ensures !Ahead(now, seconds) ==>
              (tolerance > 0 && Age(now, seconds) > tolerance <==> Stale(now, seconds, tolerance))
  {
  }

  /** VerifyMessageSignature: header checks in order, then the payload, then the body-only fallback. */
  function Verify(body: string, table: Table, exchange: string, routingKey: string, signer: Option<Signer>,
                  tolerance: int, allowLegacy: bool, now: int, jobOf: string -> string): Verdict
  {
    if signer.None? then NotConfigured
    else if MessageSignature !in table || !table[MessageSignature].Text? then MissingHeader(MessageSignature)
    else match StampOf(table)
      case Absent => MissingHeader(Timestamp)
      case Malformed => BadTimestamp
      case At(t) =>
        if Age(now, t) < -FUTURE_SKEW then FromFuture
        else if tolerance > 0 && Age(now, t) > tolerance then Expired
        else if Version !in table || !table[Version].Text? then MissingHeader(Version)
        else if table[Version].s != signer.value.version then UnsupportedVersion
        else
          var payload := Payload(Presented(t, table, exchange, routingKey, body, jobOf));
          if signer.value.mac(payload) == table[MessageSignature].s then Accepted
          else if allowLegacy && signer.value.mac(Legacy(t, body)) == table[MessageSignature].s then Accepted
          else Rejected
  }

  /** What a received message claims to be. */
  function Presented(t: Int64, table: Table, exchange: string, routingKey: string, body: string,
                     jobOf: string -> string): Signed
  {
    Signed(t, TextOf(table, Version), TextOf(table, TenantId), jobOf(body), exchange, routingKey, body)
  }

  predicate HasText(table: Table, n: Name) {
    n in table && table[n].Text?
  }

  /** The signature header is the MAC of the message as presented, or of its body alone where that is allowed. */
  predicate MacMatches(signer: Signer, table: Table, presented: Signed, allowLegacy: bool) {
    var signature := TextOf(table, MessageSignature);
    || signature == signer.mac(Payload(presented))
    || (allowLegacy && signature == signer.mac(Legacy(presented.timestamp, presented.body)))
  }

  /** Accepted exactly when every header is there, the stamp is fresh, the version is ours and a MAC matches. */
  lemma AcceptsExactly(body: string, table: Table, exchange: string, routingKey: string, signer: Option<Signer>,
                       tolerance: int, allowLegacy: bool, now: int, jobOf: string -> string)
    ensures Verify(body, table, exchange, routingKey, signer, tolerance, allowLegacy, now, jobOf) == Accepted
            <==> && signer.Some? && HasText(table, MessageSignature) && StampOf(table).At?
                 && Fresh(now, StampOf(table).seconds, tolerance)
                 && HasText(table, Version) && table[Version].s == signer.value.version
                 && MacMatches(signer.value, table,
                               Presented(StampOf(table).seconds, table, exchange, routingKey, body, jobOf), allowLegacy)
  {
    if StampOf(table).At? {
      AgeInReadings(now, StampOf(table).seconds, tolerance);
    }
  }

  /** The stamp header is a number, or a text that reads as one. */
  ghost predicate Stamped(table: Table, t: Int64) {
    && Timestamp in table
    && match table[Timestamp]
       case Text(s) => exists sign, digits :: WrittenAs(s, sign, digits, t)
       case Long(n) => n == t
       case Number(n) => n == t
       case Other => false
  }

  lemma StampRead(table: Table, t: Int64)
    ensures StampOf(table) == At(t) <==> Stamped(table, t)
    ensures StampOf(table) == Malformed <==> HasText(table, Timestamp) && forall n: Int64 :: !Stamped(table, n)
  {
    if HasText(table, Timestamp) {
      forall n: Int64
        ensures ParseInt(table[Timestamp].s) == Some(n) <==> Stamped(table, n)
      {
        ParseIntExactly(table[Timestamp].s, n);
      }
      assert StampOf(table).At? ==> Stamped(table, StampOf(table).seconds);
    }
  }

  /** What each refusal says about the message, in the order in which things are checked. */
  lemma RefusalExplained(body: string, table: Table, exchange: string, routingKey: string, signer: Option<Signer>,
                         tolerance: int, allowLegacy: bool, now: int, jobOf: string -> string)
    ensures var v := Verify(body, table, exchange, routingKey, signer, tolerance, allowLegacy, now, jobOf);
            match v
            case Accepted => true
            case NotConfigured => signer.None?
            case MissingHeader(n) => signer.Some? && n in {MessageSignature, Timestamp, Version} && !HasText(table, n)
            case BadTimestamp => HasText(table, Timestamp) && forall t: Int64 :: !Stamped(table, t)
            case FromFuture => exists t: Int64 :: Stamped(table, t) && Ahead(now, t)
            case Expired => exists t: Int64 :: Stamped(table, t) && !Ahead(now, t) && Stale(now, t, tolerance)
            case UnsupportedVersion =>
              HasText(table, Version) && signer.Some? && table[Version].s != signer.value.version
            case Rejected =>
              && signer.Some?
              && exists t: Int64 ::
                   && Stamped(table, t) && Fresh(now, t, tolerance)
                   && !MacMatches(signer.value, table, Presented(t, table, exchange, routingKey, body, jobOf),
                                  allowLegacy)
  {
    if StampOf(table).At? {
      AgeInReadings(now, StampOf(table).seconds, tolerance);
      StampRead(table, StampOf(table).seconds);
    } else {
      StampRead(table, 0);
    }
  }

  /** Publishing and then verifying the same body on the same route: accepted exactly inside the age window. */
  method PublishThenVerify(reqID: string, tenant: string, exchange: string, routingKey: string, body: string,
                           headers: Table, trace: map<string, Header>, signer: Signer, published: int,
                           tolerance: int, allowLegacy: bool, received: int, jobOf: string -> string)
    returns (verdict: Verdict)
    requires Clock(published)
    ensures var since := received - published / 1_000_000_000 * 1_000_000_000;
            verdict == if since < -30_000_000_000 then FromFuture
                       else if 0 < tolerance < 0x7fff_ffff_ffff_ffff && since > tolerance then Expired
                       else Accepted
  {
    var table := BuildSecurePublishing(reqID, tenant, exchange, routingKey, body, headers, trace, Some(signer), true,
                                       published, jobOf);
    ParseDecimal(Seconds(published));
    AgeInReadings(received, Seconds(published), tolerance);
    verdict := Verify(body, table, exchange, routingKey, Some(signer), tolerance, allowLegacy, received, jobOf);
  }

  ghost predicate CollisionFree(mac: string -> string) {
    forall a, b :: mac(a) == mac(b) ==> a == b
  }

  /** The checks that precede the MAC all pass. */
  predicate WellFormed(table: Table, signer: Signer, t: Int64) {
    && MessageSignature in table && table[MessageSignature].Text?
    && StampOf(table) == At(t)
    && Version in table && table[Version] == Text(signer.version)
  }

  /**
   * A message carrying the signature of x is accepted exactly when it is fresh and has x's
   * payload; the body-only fallback changes nothing about that.
   */
  lemma SignatureBindsPayload(x: Signed, body: string, table: Table, exchange: string, routingKey: string,
                              signer: Signer, tolerance: int, allowLegacy: bool, now: int, jobOf: string -> string,
                              t: Int64)
    requires CollisionFree(signer.mac) && WellFormed(table, signer, t)
    requires table[MessageSignature].s == signer.mac(Payload(x))
    ensures Verify(body, table, exchange, routingKey, Some(signer), tolerance, allowLegacy, now, jobOf) == Accepted
            <==> Fresh(now, t, tolerance)
                 && Payload(Presented(t, table, exchange, routingKey, body, jobOf)) == Payload(x)
  {
    NeverLegacy(x, t, body);
    AgeInReadings(now, t, tolerance);
  }

  /** A body-only signature is accepted only through the fallback, and then on any route and tenant. */
  lemma LegacyBindsBodyOnly(stamp: Int64, signedBody: string, body: string, table: Table, exchange: string,
                            routingKey: string, signer: Signer, tolerance: int, allowLegacy: bool, now: int,
                            jobOf: string -> string, t: Int64)
    requires CollisionFree(signer.mac) && WellFormed(table, signer, t)
    requires table[MessageSignature].s == signer.mac(Legacy(stamp, signedBody))
    ensures Verify(body, table, exchange, routingKey, Some(signer), tolerance, allowLegacy, now, jobOf) == Accepted
            <==> allowLegacy && Fresh(now, t, tolerance) && t == stamp && body == signedBody
  {
    NeverLegacy(Presented(t, table, exchange, routingKey, body, jobOf), stamp, signedBody);
    AgeInReadings(now, t, tolerance);
    if Legacy(t, body) == Legacy(stamp, signedBody) {
      LegacyInjective(t, body, stamp, signedBody);
    }
  }
}
