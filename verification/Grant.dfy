/** Grant tokens: compact JWS (section 7.1 of RFC 7515) signed with an abstract MAC. Strings
    are byte strings here. */
module Grant {
  import opened Model
  import opened Text
  import opened ConstraintAlgebra
  import opened Base64Url

  datatype Claims = Claims(
    issuer: string,
    subject: string,
    audience: string,
    expiresAt: int,
    issuedAt: int,
    jwtID: string,
    action: string,
    resourceType: string,
    resourceID: string,
    decision: DecisionKind,
    policyIDs: seq<string>,
    constraints: Option<Constraints>,
    requestID: string,
    runID: string)

  /** encoding/json on claims, and HMAC-SHA256 under the issuer's key, as unknown functions. */
  datatype Issuer = Issuer(
    name: string,
    defaultTTL: int64,
    encode: Claims -> Option<seq<byte>>,
    decode: seq<byte> -> Option<Claims>,
    mac: string -> seq<byte>)

  datatype GrantRequest = GrantRequest(
    agentID: string, action: string, resourceType: string, resourceID: string, runID: string, decision: Decision)

  // ----- lifetimes

  /** effectiveTTL: time.Duration(seconds) * time.Second is a 64-bit product and wraps. */
  function EffectiveTTL(iss: Issuer, dec: Decision): int64 {
    if dec.constraints.Some? && dec.constraints.value.expiresInSeconds.Some?
       && dec.constraints.value.expiresInSeconds.value > 0
    then Wrap64(dec.constraints.value.expiresInSeconds.value * SECOND)
    else iss.defaultTTL
  }

  /** EffectiveTTLSeconds: truncation toward zero. */
  function EffectiveTTLSeconds(iss: Issuer, dec: Decision): int {
    var ttl: int := EffectiveTTL(iss, dec);
    if ttl >= 0 then ttl / SECOND else -(-ttl / SECOND)
  }

  function ClaimsFor(iss: Issuer, req: GrantRequest, now: int): Claims {
    Claims(iss.name, req.agentID, "", Unix(now + EffectiveTTL(iss, req.decision)), Unix(now),
           req.decision.decisionID, req.action, req.resourceType, req.resourceID, req.decision.kind,
           req.decision.policyIDs, req.decision.constraints, req.decision.requestID, req.runID)
  }

  /** The longest lifetime a time.Duration holds, in whole seconds. */
  const MAX_TTL_SECONDS := 9_223_372_036

  /** A constrained lifetime of s seconds is honoured to the second, at every sub-second phase
      of the clock, if and only if it fits a time.Duration. */
  lemma LifetimeIsExactIff(iss: Issuer, req: GrantRequest, s: int)
    requires req.decision.constraints.Some? && req.decision.constraints.value.expiresInSeconds == Some(s) && s > 0
    ensures (EffectiveTTLSeconds(iss, req.decision) == s
             && forall now :: Lifetime(iss, req, now) == s)
            <==> s <= MAX_TTL_SECONDS
  {
    WrapIsIdentityIff(s * SECOND);
    if s <= MAX_TTL_SECONDS {
      assert EffectiveTTL(iss, req.decision) == s * SECOND;
      forall now
        ensures Lifetime(iss, req, now) == s
      {
        assert (now + s * SECOND) / SECOND == now / SECOND + s;
      }
    }
  }

  function Lifetime(iss: Issuer, req: GrantRequest, now: int): int {
    ClaimsFor(iss, req, now).expiresAt - ClaimsFor(iss, req, now).issuedAt
  }

  /** A number of nanoseconds cut to whole seconds, toward zero. */
  predicate CutToSeconds(nanos: int, seconds: int) {
    if nanos >= 0 then seconds * SECOND <= nanos < (seconds + 1) * SECOND
    else (seconds - 1) * SECOND < nanos <= seconds * SECOND
  }

  /** Without a positive lifetime in its constraints a grant lives for the issuer's default. */
  lemma DefaultLifetime(iss: Issuer, req: GrantRequest, now: int)
    requires var c := req.decision.constraints;
             c.Some? && c.value.expiresInSeconds.Some? ==> c.value.expiresInSeconds.value <= 0
    ensures ClaimsFor(iss, req, now).expiresAt == Unix(now + iss.defaultTTL)
    ensures CutToSeconds(iss.defaultTTL, EffectiveTTLSeconds(iss, req.decision))
  {
  }

  /** A grant never outlives its constraint, not even when the product of seconds and unit
      wraps; and it is still announced for no longer than that. */
  lemma LifetimeNeverExceeds(iss: Issuer, req: GrantRequest, s: int, now: int)
    requires req.decision.constraints.Some? && req.decision.constraints.value.expiresInSeconds == Some(s) && s > 0
    ensures Lifetime(iss, req, now) <= s && EffectiveTTLSeconds(iss, req.decision) <= s
  {
    WrapNeverGrows(s * SECOND);
    var ttl: int := EffectiveTTL(iss, req.decision);
    assert (now + ttl) / SECOND <= (now + s * SECOND) / SECOND == now / SECOND + s;
  }

  /** e is the smallest lifetime any of the rules sets, None when none does. */
  ghost predicate IsSmallestExpiry(matches: seq<Matched>, e: Option<int>) {
    match e
    case None => forall r :: r in matches ==> ExpiryAt(r.rule.constraints) == None
    case Some(s) =>
      && (exists r :: r in matches && ExpiryAt(r.rule.constraints) == Some(s))
      && forall r :: r in matches && ExpiryAt(r.rule.constraints).Some? ==> s <= ExpiryAt(r.rule.constraints).value
  }

  lemma {:induction false} MergedExpiryIsSmallest(matches: seq<Matched>)
    ensures IsSmallestExpiry(matches, MeetAll(RuleBounds(matches)).expires)
  {
    if matches != [] {
      var n := |matches| - 1;
      var init, last := matches[..n], matches[n];
      assert matches == init + [last];
      RuleBoundsSnoc(init, last);
      MergedExpiryIsSmallest(init);
      SmallestExpirySnoc(init, MeetAll(RuleBounds(init)).expires, last, ExpiryAt(last.rule.constraints));
    }
  }

  lemma SmallestExpiryIs(matches: seq<Matched>, e: Option<int>, strictest: Matched, s: int)
    requires IsSmallestExpiry(matches, e)
    requires strictest in matches && ExpiryAt(strictest.rule.constraints) == Some(s)
    requires forall r :: r in matches && ExpiryAt(r.rule.constraints).Some? ==> s <= ExpiryAt(r.rule.constraints).value
    ensures e == Some(s)
  {
  }

  lemma SmallestExpirySnoc(init: seq<Matched>, e: Option<int>, last: Matched, x: Option<int>)
    requires IsSmallestExpiry(init, e) && x == ExpiryAt(last.rule.constraints)
    ensures IsSmallestExpiry(init + [last], MinOption(e, x))
  {
    assert forall r :: r in init + [last] <==> r in init || r == last;
  }

  lemma PolicyTextExpiry(m: map<string, Value>, digits: string, unit: char, n: nat, s: int)
    requires "expiresIn" in m && m["expiresIn"] == Str(digits + [unit])
    requires DigitsValue(digits) == Some(n) && UnitSeconds(unit) != 0
    requires s == n * UnitSeconds(unit) && 0 < s <= MAX_TTL_SECONDS
    ensures ExpiryAt(m) == Some(s)
  {
    assert n <= n * UnitSeconds(unit);
    DurationIsExact(digits, unit, n, "", "");
    assert "" + digits + [unit] + "" == digits + [unit];
  }

  /** From the policy text to the token: a rule that says n seconds, minutes or hours, and is
      the strictest to set a lifetime, yields a grant that expires exactly that many seconds
      after it was issued, whenever that fits a time.Duration. */
  lemma LifetimeFromPolicyText(
    matches: seq<Matched>, strictest: Matched, digits: string, unit: char, n: nat, s: int,
    iss: Issuer, req: GrantRequest, now: int)
    requires strictest in matches && "expiresIn" in strictest.rule.constraints
    requires strictest.rule.constraints["expiresIn"] == Str(digits + [unit])
    requires DigitsValue(digits) == Some(n) && UnitSeconds(unit) != 0
    requires s == n * UnitSeconds(unit) && 0 < s <= MAX_TTL_SECONDS
    requires forall r :: r in matches && ExpiryAt(r.rule.constraints).Some? ==> s <= ExpiryAt(r.rule.constraints).value
    requires req.decision.constraints.Some?
    requires BoundOf(req.decision.constraints.value) == MeetAll(RuleBounds(matches))
    ensures EffectiveTTLSeconds(iss, req.decision) == s
    ensures ClaimsFor(iss, req, now).expiresAt == ClaimsFor(iss, req, now).issuedAt + s
  {
    PolicyTextExpiry(strictest.rule.constraints, digits, unit, n, s);
    MergedExpiryIsSmallest(matches);
    SmallestExpiryIs(matches, MeetAll(RuleBounds(matches)).expires, strictest, s);
    LifetimeIsExactIff(iss, req, s);
    assert Lifetime(iss, req, now) == s;
  }

  lemma RuleTextExpiry(m: map<string, Value>, digits: string, unit: char, n: nat)
    requires ValidConstraints(m) && "expiresIn" in m && m["expiresIn"] == Str(digits + [unit])
    requires DigitsValue(digits) == Some(n) && UnitSeconds(unit) != 0
    ensures ExpiryAt(m).Some? && 0 < ExpiryAt(m).value <= n * UnitSeconds(unit)
  {
    assert ValidEntry("expiresIn", m["expiresIn"]);
    DurationIsExact(digits, unit, n, "", "");
    assert "" + digits + [unit] + "" == digits + [unit];
  }

  /** Whatever the number, a validated rule that says n seconds, minutes or hours keeps every
      grant it contributes to from living longer: overflow only ever shortens. */
  lemma LifetimeNeverExceedsText(
    matches: seq<Matched>, rule: Matched, digits: string, unit: char, n: nat, iss: Issuer, req: GrantRequest, now: int)
    requires forall r :: r in matches ==> ValidConstraints(r.rule.constraints)
    requires rule in matches && "expiresIn" in rule.rule.constraints
    requires rule.rule.constraints["expiresIn"] == Str(digits + [unit])
    requires DigitsValue(digits) == Some(n) && UnitSeconds(unit) != 0
    requires req.decision.constraints.Some?
    requires BoundOf(req.decision.constraints.value) == MeetAll(RuleBounds(matches))
    ensures Lifetime(iss, req, now) <= n * UnitSeconds(unit)
    ensures EffectiveTTLSeconds(iss, req.decision) <= n * UnitSeconds(unit)
  {
    RuleTextExpiry(rule.rule.constraints, digits, unit, n);
    MergedExpiryIsSmallest(matches);
    SmallestExpiryIsPositive(matches, MeetAll(RuleBounds(matches)).expires, rule);
    LifetimeNeverExceeds(iss, req, MeetAll(RuleBounds(matches)).expires.value, now);
  }

  lemma SmallestExpiryIsPositive(matches: seq<Matched>, e: Option<int>, rule: Matched)
    requires IsSmallestExpiry(matches, e) && rule in matches && ExpiryAt(rule.rule.constraints).Some?
    ensures e.Some? && 0 < e.value <= ExpiryAt(rule.rule.constraints).value
  {
  }

  // ----- signing and verifying

  /** strings.Split(s, "."). */
  function SplitDots(s: string): (parts: seq<string>)
    ensures parts != []
  {
    if s == [] then [""]
    else
      var rest := SplitDots(s[1..]);
      if s[0] == '.' then [""] + rest else [[s[0]] + rest[0]] + rest[1..]
  }

  const HEADER := "{\"alg\":\"HS256\",\"typ\":\"JWT\"}"

  function Bytes(s: string): seq<byte> { seq(|s|, i requires 0 <= i < |s| => s[i] as int % 256) }

  function SigningInput(claimsJSON: seq<byte>): string {
    Encode(Bytes(HEADER)) + "." + Encode(claimsJSON)
  }

  function Sign(iss: Issuer, claims: Claims): Option<string> {
    match iss.encode(claims)
    case None => None
    case Some(json) => Some(SigningInput(json) + "." + Encode(iss.mac(SigningInput(json))))
  }

  function IssueScoped(iss: Issuer, req: GrantRequest, now: int): Option<string> {
    Sign(iss, ClaimsFor(iss, req, now))
  }

  function Verify(iss: Issuer, token: string, now: int): Option<Claims> {
    var parts := SplitDots(token);
    if |parts| != 3 then None
    else
      var sig := Decode(parts[2]);
      if sig.None? || iss.mac(parts[0] + "." + parts[1]) != sig.value then None
      else match Decode(parts[1])
        case None => None
        case Some(json) =>
          match iss.decode(json)
          case None => None
          case Some(claims) => if Unix(now) > claims.expiresAt then None else Some(claims)
  }

  predicate DotFree(s: string) { '.' !in s }

  lemma {:induction false} SplitAtDot(a: string, rest: string)
    requires DotFree(a)
    ensures SplitDots(a + "." + rest) == [a] + SplitDots(rest)
  {
    var s := a + "." + rest;
    if a == [] {
      assert s[1..] == rest;
    } else {
      assert a[0] in a;
      SplitAtDot(a[1..], rest);
      assert s[1..] == a[1..] + "." + rest;
      assert [a[0]] + a[1..] == a;
    }
  }

  lemma {:induction false} SplitNoDot(a: string)
    requires DotFree(a)
    ensures SplitDots(a) == [a]
  {
    if a != [] {
      assert a[0] in a;
      SplitNoDot(a[1..]);
      assert [a[0]] + a[1..] == a;
    }
  }

  /** Splitting a compact token finds its three parts, and only they can be glued into it. */
  lemma SplitThree(a: string, b: string, c: string)
    requires DotFree(a) && DotFree(b) && DotFree(c)
    ensures SplitDots(a + "." + b + "." + c) == [a, b, c]
  {
    assert a + "." + b + "." + c == a + "." + (b + "." + c);
    SplitAtDot(a, b + "." + c);
    SplitAtDot(b, c);
    SplitNoDot(c);
  }

  /** The parts of a split hold no dots. */
  lemma {:induction false} PartsAreDotFree(s: string)
    ensures forall p :: p in SplitDots(s) ==> DotFree(p)
  {
    if s != [] {
      PartsAreDotFree(s[1..]);
      var rest := SplitDots(s[1..]);
      assert rest[0] in rest;
      forall p | p in SplitDots(s)
        ensures DotFree(p)
      {
        if s[0] != '.' && p != SplitDots(s)[0] {
          assert p in rest[1..];
        } else if s[0] == '.' && p != "" {
          assert p in rest;
        }
      }
    }
  }

  /** Two signing inputs agree only part by part. */
  lemma SigningInputsAgree(a: string, b: string, c: string, d: string)
    requires DotFree(a) && DotFree(b) && DotFree(c) && DotFree(d)
    requires a + "." + b == c + "." + d
    ensures a == c && b == d
  {
    SplitAtDot(a, b);
    SplitAtDot(c, d);
    SplitNoDot(b);
    SplitNoDot(d);
    var parts := SplitDots(a + "." + b);
    assert parts == [a, b] && parts == [c, d];
    assert parts[0] == a == c && parts[1] == b == d;
  }

  /** Verify undoes sign: a signed token verifies at exactly the instants up to the end of the
      second named by exp (section 4.1.4 of RFC 7519), and yields what the JSON codec yields. */
  lemma VerifyUndoesSign(iss: Issuer, claims: Claims, read: Claims, now: int)
    requires iss.encode(claims).Some? && iss.decode(iss.encode(claims).value) == Some(read)
    ensures Sign(iss, claims).Some?
    ensures Verify(iss, Sign(iss, claims).value, now)
            == if now < (read.expiresAt + 1) * SECOND then Some(read) else None
  {
    var json := iss.encode(claims).value;
    var input := SigningInput(json);
    var head, body, sig := Encode(Bytes(HEADER)), Encode(json), Encode(iss.mac(input));
    EncodeIsClean(Bytes(HEADER));
    EncodeIsClean(json);
    EncodeIsClean(iss.mac(input));
    SplitThree(head, body, sig);
    DecodeOfEncode(json);
    DecodeOfEncode(iss.mac(input));
    assert Unix(now) > read.expiresAt <==> now >= (read.expiresAt + 1) * SECOND;
  }

  /** The header of every signed token says HS256 (section 3.2 of RFC 7518). */
  lemma HeaderSays(iss: Issuer, claims: Claims)
    requires iss.encode(claims).Some?
    ensures var parts := SplitDots(Sign(iss, claims).value);
            |parts| == 3 && Decode(parts[0]) == Some(Bytes("{\"alg\":\"HS256\",\"typ\":\"JWT\"}"))
  {
    var json := iss.encode(claims).value;
    EncodeIsClean(Bytes(HEADER));
    EncodeIsClean(json);
    EncodeIsClean(iss.mac(SigningInput(json)));
    SplitThree(Encode(Bytes(HEADER)), Encode(json), Encode(iss.mac(SigningInput(json))));
    DecodeOfEncode(Bytes(HEADER));
  }

  // ----- what JSON does to claims

  /** allowed_fields is a pointer: an empty intersection points at a nil slice, is written as
      null, and reads back as no pointer. Everything else reads back as it was. */
  function JsonImage(c: Claims): Claims {
    c.(constraints := if c.constraints.Some? then Some(JsonConstraints(c.constraints.value)) else None)
  }

  function JsonConstraints(c: Constraints): Constraints {
    if c.allowedFields == Some([]) then c.(allowedFields := None) else c
  }

  ghost predicate FaithfulCodec(iss: Issuer) {
    forall c :: iss.encode(c).Some? ==> iss.decode(iss.encode(c).value) == Some(JsonImage(c))
  }

  // ----- provenance of a verified token

  /** The MAC cannot be forged: a token passes the MAC check only on an input that was signed. */
  ghost predicate Unforged(iss: Issuer, token: string, issued: seq<Claims>) {
    var parts := SplitDots(token);
    |parts| == 3 && Decode(parts[2]) == Some(iss.mac(parts[0] + "." + parts[1])) ==>
      exists c :: c in issued && iss.encode(c).Some? && parts[0] + "." + parts[1] == SigningInput(iss.encode(c).value)
  }

  /** Every token that verifies carries claims that were issued, whatever line breaks or
      trailing bits were changed in its encoding, and has not expired. */
  lemma VerifiedWasIssued(iss: Issuer, token: string, now: int, issued: seq<Claims>)
    requires FaithfulCodec(iss) && Unforged(iss, token, issued)
    requires Verify(iss, token, now).Some?
    ensures exists c :: c in issued && Verify(iss, token, now) == Some(JsonImage(c)) && Unix(now) <= c.expiresAt
  {
    var parts := SplitDots(token);
    var c :| c in issued && iss.encode(c).Some? && parts[0] + "." + parts[1] == SigningInput(iss.encode(c).value);
    var json := iss.encode(c).value;
    PartsAreDotFree(token);
    EncodeIsClean(Bytes(HEADER));
    EncodeIsClean(json);
    SigningInputsAgree(parts[0], parts[1], Encode(Bytes(HEADER)), Encode(json));
    DecodeOfEncode(json);
  }
}
