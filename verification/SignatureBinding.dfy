/**
 * What an accepted signature says about the message: which other messages of the same version have
 * its payload, first with the same body on another tenant or route, then with any body.
 */
module SignatureBinding {
  import opened Engine
  import opened Newlines
  import opened Signature

  // ----- the payload after timestamp and version -----

  /** Tenant, job, route and body; the verifier fixes the version itself. */
  predicate RestPlain(x: Signed) {
    NoNewline(x.tenant) && NoNewline(x.job) && NoNewline(x.exchange) && NoNewline(x.routingKey) && NoNewline(x.body)
  }

  /** The payload after timestamp and version. */
  function Suffix(x: Signed): string {
    Break(x.tenant, Break(x.job, Break(x.exchange, Break(x.routingKey, x.body))))
  }

  lemma SameVersionSameSuffix(x: Signed, y: Signed)
    requires x.version == y.version
    ensures Payload(x) == Payload(y) <==> x.timestamp == y.timestamp && Suffix(x) == Suffix(y)
  {
    if Payload(x) == Payload(y) {
      DecimalNumeric(x.timestamp);
      DecimalNumeric(y.timestamp);
      NumericPrefix(Decimal(x.timestamp), '\n', Break(x.version, Suffix(x)),
                    Decimal(y.timestamp), '\n', Break(y.version, Suffix(y)));
      ParseDecimal(x.timestamp);
      ParseDecimal(y.timestamp);
      assert Suffix(x) == Break(x.version, Suffix(x))[|x.version| + 1..];
      assert Suffix(y) == Break(y.version, Suffix(y))[|y.version| + 1..];
    }
  }

  lemma SuffixNewlines(x: Signed)
    ensures NewlineCount(Suffix(x)) == 4 <==> RestPlain(x)
  {
    var e := Break(x.routingKey, x.body);
    var d := Break(x.exchange, e);
    NewlinesBreak(x.routingKey, x.body);
    NewlinesBreak(x.exchange, e);
    NewlinesBreak(x.job, d);
    NewlinesBreak(x.tenant, Break(x.job, d));
    NewlinesNone(x.tenant);
    NewlinesNone(x.job);
    NewlinesNone(x.exchange);
    NewlinesNone(x.routingKey);
    NewlinesNone(x.body);
  }

  lemma PlainSuffixUnique(x: Signed, y: Signed)
    requires RestPlain(x) && Suffix(x) == Suffix(y)
    ensures y == x.(timestamp := y.timestamp, version := y.version)
  {
    SuffixNewlines(x);
    SuffixNewlines(y);
    CutSuffix(x);
    CutSuffix(y);
  }

  /** Cutting a plain suffix four times gives its fields. */
  lemma CutSuffix(x: Signed)
    requires RestPlain(x)
    ensures Cut(Suffix(x)) == Some((x.tenant, Break(x.job, Break(x.exchange, Break(x.routingKey, x.body)))))
    ensures Cut(Break(x.job, Break(x.exchange, Break(x.routingKey, x.body))))
         == Some((x.job, Break(x.exchange, Break(x.routingKey, x.body))))
    ensures Cut(Break(x.exchange, Break(x.routingKey, x.body))) == Some((x.exchange, Break(x.routingKey, x.body)))
    ensures Cut(Break(x.routingKey, x.body)) == Some((x.routingKey, x.body))
  {
    var e := Break(x.routingKey, x.body);
    var d := Break(x.exchange, e);
    CutBreak(x.tenant, Break(x.job, d));
    CutBreak(x.job, d);
    CutBreak(x.exchange, e);
    CutBreak(x.routingKey, x.body);
  }

  /** The same payload and version read with one line of the body moved into the fields. */
  function MovedForward(x: Signed, line: string, rest: string): Signed {
    x.(tenant := x.tenant + ['\n'] + x.job, job := x.exchange, exchange := x.routingKey,
       routingKey := line, body := rest)
  }

  lemma MovedForwardSame(x: Signed, line: string, rest: string)
    requires x.body == Break(line, rest)
    ensures Suffix(MovedForward(x, line, rest)) == Suffix(x)
  {
    Regroup(x.tenant, x.job, Break(x.exchange, Break(x.routingKey, x.body)));
  }

  /** The headers under which y is presented with a given signature. */
  function HeadersFor(y: Signed, signature: string): Table {
    map[MessageSignature := Text(signature), Timestamp := Long(y.timestamp), Version := Text(y.version),
        TenantId := Text(y.tenant)]
  }

  /** The verifier takes the signature of x for y. */
  ghost predicate TakenFor(x: Signed, y: Signed, signer: Signer, jobOf: string -> string) {
    forall tolerance, allowLegacy, now | Fresh(now, x.timestamp, tolerance) ::
      Verify(y.body, HeadersFor(y, signer.mac(Payload(x))), y.exchange, y.routingKey, Some(signer),
             tolerance, allowLegacy, now, jobOf) == Accepted
  }

  /** It does for every message of the same payload whose body yields its job id. */
  lemma SamePayloadTaken(x: Signed, y: Signed, signer: Signer, jobOf: string -> string)
    requires x.version == y.version == signer.version && Payload(x) == Payload(y) && jobOf(y.body) == y.job
    ensures TakenFor(x, y, signer, jobOf)
  {
    SameVersionSameSuffix(x, y);
    var table := HeadersFor(y, signer.mac(Payload(x)));
    assert Presented(y.timestamp, table, y.exchange, y.routingKey, y.body, jobOf) == y;
  }

  // ----- the same body -----

  predicate RoutePlain(x: Signed) {
    NoNewline(x.tenant) && NoNewline(x.job) && NoNewline(x.exchange) && NoNewline(x.routingKey)
  }

  /** The four fields before the body. */
  function Head(x: Signed): string {
    Break(x.tenant, Break(x.job, Break(x.exchange, x.routingKey)))
  }

  lemma SuffixIsHeadAndBody(x: Signed)
    ensures Suffix(x) == Break(Head(x), x.body)
  {
    Regroup(x.tenant, Break(x.job, Break(x.exchange, x.routingKey)), x.body);
    Regroup(x.job, Break(x.exchange, x.routingKey), x.body);
    Regroup(x.exchange, x.routingKey, x.body);
  }

  lemma SameBodySameHead(x: Signed, y: Signed)
    requires x.version == y.version && x.body == y.body
    ensures Payload(x) == Payload(y) <==> x.timestamp == y.timestamp && Head(x) == Head(y)
  {
    SameVersionSameSuffix(x, y);
    SuffixIsHeadAndBody(x);
    SuffixIsHeadAndBody(y);
    if Suffix(x) == Suffix(y) {
      assert |Head(x)| == |Head(y)|;
      assert Head(x) == Suffix(x)[..|Head(x)|] && Head(y) == Suffix(y)[..|Head(y)|];
    }
  }

  lemma PlainHeadUnique(x: Signed, y: Signed)
    requires RoutePlain(x) && Head(x) == Head(y)
    ensures y.tenant == x.tenant && y.job == x.job && y.exchange == x.exchange && y.routingKey == x.routingKey
  {
    var x0, y0 := x.(body := ""), y.(body := "");
    SuffixIsHeadAndBody(x0);
    SuffixIsHeadAndBody(y0);
    PlainSuffixUnique(x0, y0);
  }

  /** The same body and payload with one line break of the fields counted to the next field. */
  function Reassigned(x: Signed): Signed
    requires !RoutePlain(x)
  {
    if !NoNewline(x.tenant) then
      var p := Halves(x.tenant);
      x.(tenant := p.0, job := p.1 + ['\n'] + x.job)
    else if !NoNewline(x.job) then
      var p := Halves(x.job);
      x.(tenant := x.tenant + ['\n'] + p.0, job := p.1)
    else Rerouted(x)
  }

  /** The same tenant, job and body with the exchange and the routing key split elsewhere. */
  function Rerouted(x: Signed): Signed
    requires !NoNewline(x.exchange) || !NoNewline(x.routingKey)
  {
    if !NoNewline(x.exchange) then
      var p := Halves(x.exchange);
      x.(exchange := p.0, routingKey := p.1 + ['\n'] + x.routingKey)
    else
      var p := Halves(x.routingKey);
      x.(exchange := x.exchange + ['\n'] + p.0, routingKey := p.1)
  }

  /** The text before and after the first newline. */
  function Halves(s: string): (p: (string, string))
    requires !NoNewline(s)
    ensures s == Break(p.0, p.1)
  {
    NewlinesNone(s);
    CutCounts(s);
    Cut(s).value
  }

  lemma ReroutedSame(x: Signed)
    requires !NoNewline(x.exchange) || !NoNewline(x.routingKey)
    ensures Rerouted(x) != x && Payload(Rerouted(x)) == Payload(x)
  {
    var y := Rerouted(x);
    if !NoNewline(x.exchange) {
      var p := Halves(x.exchange);
      assert |y.exchange| < |x.exchange|;
      assert Break(y.exchange, y.routingKey) == Break(x.exchange, x.routingKey);
    } else {
      var p := Halves(x.routingKey);
      assert |y.routingKey| < |x.routingKey|;
      assert Break(y.exchange, y.routingKey) == Break(x.exchange, x.routingKey);
    }
    SameBodySameHead(x, y);
  }

  lemma ReassignedSame(x: Signed)
    requires !RoutePlain(x)
    ensures Reassigned(x) != x && Payload(Reassigned(x)) == Payload(x)
  {
    var y, rest := Reassigned(x), Break(x.exchange, x.routingKey);
    if !NoNewline(x.tenant) {
      var p := Halves(x.tenant);
      assert |y.tenant| < |x.tenant|;
      Regroup(p.1, x.job, rest);
      Regroup(p.0, p.1, Break(x.job, rest));
      SameBodySameHead(x, y);
    } else if !NoNewline(x.job) {
      var p := Halves(x.job);
      assert |y.job| < |x.job|;
      Regroup(p.0, p.1, rest);
      Regroup(x.tenant, p.0, Break(p.1, rest));
      SameBodySameHead(x, y);
    } else {
      ReroutedSame(x);
    }
  }

  /** Another message of the same version and body has the same payload. */
  ghost predicate Reassignable(x: Signed) {
    exists y: Signed :: y != x && y.version == x.version && y.body == x.body && Payload(y) == Payload(x)
  }

  /** The payload fixes tenant, job and route of a body exactly when none of them has a newline, whatever the body. */
  lemma ReassignableExactlyWithNewlines(x: Signed)
    ensures Reassignable(x) <==> !RoutePlain(x)
  {
    if RoutePlain(x) {
      forall y: Signed | y.version == x.version && y.body == x.body && Payload(y) == Payload(x)
        ensures y == x
      {
        SameBodySameHead(x, y);
        PlainHeadUnique(x, y);
      }
    } else {
      ReassignedSame(x);
    }
  }

  // ----- the same body at the verifier, which computes the job id from it -----

  /** Another message of the same version, job and body has the same payload. */
  ghost predicate Relocatable(x: Signed) {
    exists y: Signed ::
      y != x && y.version == x.version && y.job == x.job && y.body == x.body && Payload(y) == Payload(x)
  }

  /** After the newline at n of the tenant the head goes on with the job id as a field. */
  predicate RepeatsAt(x: Signed, n: nat) {
    n < |x.tenant| && x.tenant[n] == '\n'
    && Break(x.job, "") <= Break(x.tenant[n + 1..], Break(x.job, Break(x.exchange, x.routingKey)))
  }

  /** Exchange or routing key has a newline, or the tenant has one that the job id follows. */
  predicate RouteAmbiguous(x: Signed) {
    || !NoNewline(x.exchange) || !NoNewline(x.routingKey)
    || exists n :: 0 <= n < |x.tenant| && RepeatsAt(x, n)
  }

  function HeadAfter(x: Signed, n: nat): string
    requires RepeatsAt(x, n)
  {
    Break(x.tenant[n + 1..], Break(x.job, Break(x.exchange, x.routingKey)))[|x.job| + 1..]
  }

  lemma BreakPrefix(field: string, s: string)
    requires Break(field, "") <= s
    ensures s == Break(field, s[|field| + 1..])
  {
    assert s == s[..|field| + 1] + s[|field| + 1..];
  }

  lemma StillBroken(u: string, field: string, e: string, r: string, w: string)
    requires Break(u, Break(field, Break(e, r))) == Break(field, w)
    ensures !NoNewline(w)
  {
    NewlinesBreak(field, w);
    NewlinesBreak(u, Break(field, Break(e, r)));
    NewlinesBreak(field, Break(e, r));
    NewlinesBreak(e, r);
    NewlinesNone(w);
  }

  lemma CutAt(s: string, n: nat)
    requires n < |s| && s[n] == '\n'
    ensures s == s[..n] + ['\n'] + s[n + 1..]
  {
  }

  lemma HeadAfterCuts(x: Signed, n: nat)
    requires RepeatsAt(x, n)
    ensures !NoNewline(HeadAfter(x, n))
    ensures Head(x) == Break(x.tenant[..n], Break(x.job, HeadAfter(x, n)))
  {
    var u, rest := x.tenant[n + 1..], Break(x.job, Break(x.exchange, x.routingKey));
    BreakPrefix(x.job, Break(u, rest));
    StillBroken(u, x.job, x.exchange, x.routingKey, HeadAfter(x, n));
    CutAt(x.tenant, n);
    Regroup(x.tenant[..n], u, rest);
  }

  /** The same job and body with the tenant cut at n. */
  function Relocated(x: Signed, n: nat): Signed
    requires RepeatsAt(x, n)
  {
    HeadAfterCuts(x, n);
    var p := Halves(HeadAfter(x, n));
    x.(tenant := x.tenant[..n], exchange := p.0, routingKey := p.1)
  }

  lemma RelocatedSame(x: Signed, n: nat)
    requires RepeatsAt(x, n)
    ensures Relocated(x, n) != x && Payload(Relocated(x, n)) == Payload(x)
  {
    var y := Relocated(x, n);
    HeadAfterCuts(x, n);
    assert |y.tenant| < |x.tenant|;
    SameBodySameHead(x, y);
  }

  lemma PrefixNewlines(a: string, b: string, c: string)
    requires b == Break(a, c)
    ensures NewlineCount(b) > NewlineCount(a)
  {
    NewlinesBreak(a, c);
  }

  lemma HeadNewlines(x: Signed)
    ensures NewlineCount(Head(x)) == NewlineCount(x.tenant) + NewlineCount(x.job) + NewlineCount(x.exchange)
                                     + NewlineCount(x.routingKey) + 3
  {
    var rest := Break(x.exchange, x.routingKey);
    NewlinesBreak(x.exchange, x.routingKey);
    NewlinesBreak(x.job, rest);
    NewlinesBreak(x.tenant, Break(x.job, rest));
  }

  /** With a plain route, another reading of the head with the same job ends the tenant earlier. */
  lemma ShorterTenant(x: Signed, y: Signed)
    requires NoNewline(x.exchange) && NoNewline(x.routingKey)
    requires y.job == x.job && Head(y) == Head(x)
    ensures |y.tenant| <= |x.tenant|
    ensures |y.tenant| == |x.tenant| ==>
              y.tenant == x.tenant && y.exchange == x.exchange && y.routingKey == x.routingKey
  {
    HeadNewlines(x);
    HeadNewlines(y);
    NewlinesNone(x.exchange);
    NewlinesNone(x.routingKey);
    var h := Head(x);
    assert x.tenant == h[..|x.tenant|] && y.tenant == h[..|y.tenant|];
    if |y.tenant| > |x.tenant| {
      assert h[|x.tenant|] == '\n';
      PrefixNewlines(x.tenant, y.tenant, y.tenant[|x.tenant| + 1..]);
    }
    if |y.tenant| == |x.tenant| {
      var k := |x.tenant| + 1 + |x.job| + 1;
      assert h[k..] == Break(x.exchange, x.routingKey);
      assert h[k..] == Break(y.exchange, y.routingKey);
      NewlinesBreak(x.exchange, x.routingKey);
      NewlinesBreak(y.exchange, y.routingKey);
      NewlinesNone(y.exchange);
      CutBreak(x.exchange, x.routingKey);
      CutBreak(y.exchange, y.routingKey);
    }
  }

  lemma ShorterRepeats(x: Signed, y: Signed)
    requires y.job == x.job && Head(y) == Head(x) && |y.tenant| < |x.tenant|
    ensures RepeatsAt(x, |y.tenant|)
  {
    var n, h := |y.tenant|, Head(x);
    assert h[n] == '\n' && x.tenant[n] == h[n];
    assert h[n + 1..] == Break(y.job, Break(y.exchange, y.routingKey));
    assert h[n + 1..] == Break(x.tenant[n + 1..], Break(x.job, Break(x.exchange, x.routingKey)));
    assert h[n + 1..][..|x.job| + 1] == Break(x.job, "");
  }

  /** Exactly which messages share their payload with another one of the same version, job and body. */
  lemma RelocatableExactly(x: Signed)
    ensures Relocatable(x) <==> RouteAmbiguous(x)
  {
    if !NoNewline(x.exchange) || !NoNewline(x.routingKey) {
      ReroutedSame(x);
    } else if n :| 0 <= n < |x.tenant| && RepeatsAt(x, n) {
      RelocatedSame(x, n);
    } else {
      forall y: Signed | y.version == x.version && y.job == x.job && y.body == x.body && Payload(y) == Payload(x)
        ensures y == x
      {
        SameBodySameHead(x, y);
        ShorterTenant(x, y);
        if |y.tenant| < |x.tenant| {
          ShorterRepeats(x, y);
        }
      }
    }
  }

  /** The other message that such an x is also a signature of. */
  ghost function Elsewhere(x: Signed): Signed
    requires RouteAmbiguous(x)
  {
    if !NoNewline(x.exchange) || !NoNewline(x.routingKey) then Rerouted(x)
    else
      var n :| 0 <= n < |x.tenant| && RepeatsAt(x, n);
      Relocated(x, n)
  }

  /** A newline-free tenant and route are enough. */
  lemma PlainRouteUnambiguous(x: Signed)
    requires NoNewline(x.tenant) && NoNewline(x.exchange) && NoNewline(x.routingKey)
    ensures !RouteAmbiguous(x)
  {
  }

  /**
   * Replaying a body: a message with the body and the signature of x is accepted exactly when it is
   * fresh and is on the tenant and route of x, unless the route of x is ambiguous.
   */
  lemma SameBodyStaysBound(x: Signed, table: Table, exchange: string, routingKey: string, signer: Signer,
                           tolerance: int, allowLegacy: bool, now: int, jobOf: string -> string, t: Int64)
    requires CollisionFree(signer.mac) && WellFormed(table, signer, t)
    requires table[MessageSignature].s == signer.mac(Payload(x))
    requires x.version == signer.version && jobOf(x.body) == x.job && !RouteAmbiguous(x)
    ensures Verify(x.body, table, exchange, routingKey, Some(signer), tolerance, allowLegacy, now, jobOf) == Accepted
            <==> Fresh(now, t, tolerance) && t == x.timestamp && TextOf(table, TenantId) == x.tenant
                 && exchange == x.exchange && routingKey == x.routingKey
  {
    SignatureBindsPayload(x, x.body, table, exchange, routingKey, signer, tolerance, allowLegacy, now, jobOf, t);
    RelocatableExactly(x);
  }

  /** The exception is real: an ambiguous route lets the same body and signature pass on another tenant or route. */
  lemma AmbiguousRouteUnbinds(x: Signed, signer: Signer, jobOf: string -> string)
    requires x.version == signer.version && jobOf(x.body) == x.job && RouteAmbiguous(x)
    ensures var y := Elsewhere(x);
            && y.body == x.body && y.job == x.job
            && (y.tenant != x.tenant || y.exchange != x.exchange || y.routingKey != x.routingKey)
            && TakenFor(x, y, signer, jobOf)
  {
    var y := Elsewhere(x);
    if !NoNewline(x.exchange) || !NoNewline(x.routingKey) {
      ReroutedSame(x);
    } else {
      var n :| 0 <= n < |x.tenant| && RepeatsAt(x, n) && y == Relocated(x, n);
      RelocatedSame(x, n);
    }
    SamePayloadTaken(x, y, signer, jobOf);
  }

  /** The simplest such route: a newline that may end the exchange or belong to either name. */
  lemma SplitRouteTaken(x: Signed, p: string, q: string, r: string, signer: Signer, jobOf: string -> string)
    requires x.version == signer.version && jobOf(x.body) == x.job
    requires x.exchange == Break(p, q) && x.routingKey == r
    ensures TakenFor(x, x.(exchange := p, routingKey := Break(q, r)), signer, jobOf)
  {
    var y := x.(exchange := p, routingKey := Break(q, r));
    Regroup(p, q, r);
    SameBodySameHead(x, y);
    SamePayloadTaken(x, y, signer, jobOf);
  }

  // ----- any body -----

  /** The same payload and version read with the first line break inside the fields ending a field. */
  function MovedBack(x: Signed): Signed
    requires !RoutePlain(x)
  {
    var tail := Break(x.routingKey, x.body);
    if !NoNewline(x.tenant) then
      var p := Halves(x.tenant);
      x.(tenant := p.0, job := p.1, exchange := x.job, routingKey := x.exchange, body := tail)
    else if !NoNewline(x.job) then
      var p := Halves(x.job);
      x.(job := p.0, exchange := p.1, routingKey := x.exchange, body := tail)
    else if !NoNewline(x.exchange) then
      var p := Halves(x.exchange);
      x.(exchange := p.0, routingKey := p.1, body := tail)
    else
      var p := Halves(x.routingKey);
      x.(routingKey := p.0, body := Break(p.1, x.body))
  }

  lemma MovedBackSame(x: Signed)
    requires !RoutePlain(x)
    ensures |MovedBack(x).body| > |x.body| && Suffix(MovedBack(x)) == Suffix(x)
  {
    var tail := Break(x.routingKey, x.body);
    if !NoNewline(x.tenant) {
      var p := Halves(x.tenant);
      Regroup(p.0, p.1, Break(x.job, Break(x.exchange, tail)));
    } else if !NoNewline(x.job) {
      var p := Halves(x.job);
      Regroup(p.0, p.1, Break(x.exchange, tail));
    } else if !NoNewline(x.exchange) {
      var p := Halves(x.exchange);
      Regroup(p.0, p.1, tail);
    } else {
      var p := Halves(x.routingKey);
      Regroup(p.0, p.1, x.body);
    }
  }

  /** Another message, with its own body, that has the payload of x. */
  function OtherReading(x: Signed): Signed
    requires !RestPlain(x)
  {
    if RoutePlain(x) then MovedForward(x, Halves(x.body).0, Halves(x.body).1) else MovedBack(x)
  }

  lemma OtherReadingSame(x: Signed)
    requires !RestPlain(x)
    ensures OtherReading(x).version == x.version && OtherReading(x).body != x.body
    ensures Payload(OtherReading(x)) == Payload(x)
  {
    var y := OtherReading(x);
    if RoutePlain(x) {
      var p := Halves(x.body);
      MovedForwardSame(x, p.0, p.1);
      assert |y.body| < |x.body|;
    } else {
      MovedBackSame(x);
    }
    SameVersionSameSuffix(x, y);
  }

  /** Another message of the same version, with its own body, has the same payload. */
  ghost predicate Rebindable(x: Signed) {
    exists y: Signed :: y.version == x.version && y.body != x.body && Payload(y) == Payload(x)
  }

  /** The payload fixes the body, and so the whole message, exactly when nothing after the version has a newline. */
  lemma RebindableExactlyWithNewlines(x: Signed)
    ensures Rebindable(x) <==> !RestPlain(x)
    ensures RestPlain(x) ==> forall y: Signed | y.version == x.version && Payload(y) == Payload(x) :: y == x
  {
    if RestPlain(x) {
      forall y: Signed | y.version == x.version && Payload(y) == Payload(x)
        ensures y == x
      {
        SameVersionSameSuffix(x, y);
        PlainSuffixUnique(x, y);
      }
    } else {
      OtherReadingSame(x);
    }
  }

  /**
   * What the signature of x is known to say about a message with this body: everything if nothing
   * after the version of x has a newline, and tenant and route if the body is that of x.
   */
  predicate Bound(x: Signed, body: string, signer: Signer, jobOf: string -> string) {
    || (RestPlain(x) && (x.version == signer.version || NoNewline(x.version)))
    || (body == x.body && x.version == signer.version && jobOf(body) == x.job && !RouteAmbiguous(x))
  }

  /**
   * A message carrying the signature of x, on a body for which x is bound, is accepted exactly when
   * it is fresh and presents x itself, whatever its headers contain.
   */
  lemma SignatureBindsEnvelope(x: Signed, body: string, table: Table, exchange: string, routingKey: string,
                               signer: Signer, tolerance: int, allowLegacy: bool, now: int, jobOf: string -> string,
                               t: Int64)
    requires CollisionFree(signer.mac) && WellFormed(table, signer, t)
    requires table[MessageSignature].s == signer.mac(Payload(x))
    requires Bound(x, body, signer, jobOf)
    ensures Verify(body, table, exchange, routingKey, Some(signer), tolerance, allowLegacy, now, jobOf) == Accepted
            <==> Fresh(now, t, tolerance) && Presented(t, table, exchange, routingKey, body, jobOf) == x
  {
    SignatureBindsPayload(x, body, table, exchange, routingKey, signer, tolerance, allowLegacy, now, jobOf, t);
    if RestPlain(x) {
      RebindableExactlyWithNewlines(x);
      AmbiguousExactlyWithNewlines(x);
    }
    if !RouteAmbiguous(x) {
      RelocatableExactly(x);
    }
  }

  /**
   * On another body the hypothesis is needed: if anything after the version of x has a newline, its
   * signature is also taken for OtherReading(x), provided that body yields the job id of the reading.
   */
  lemma NewlinesUnbindEnvelope(x: Signed, signer: Signer, jobOf: string -> string)
    requires x.version == signer.version && !RestPlain(x) && jobOf(OtherReading(x).body) == OtherReading(x).job
    ensures OtherReading(x).body != x.body && TakenFor(x, OtherReading(x), signer, jobOf)
  {
    OtherReadingSame(x);
    SamePayloadTaken(x, OtherReading(x), signer, jobOf);
  }
}
