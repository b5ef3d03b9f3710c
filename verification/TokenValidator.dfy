/** Runtime tokens against identity bindings: the key-set cache, the binding loop, and the
    consumption of workload proof ids. Signatures, hashes and fetches are unknown functions. */
module TokenValidation {
  import opened Model
  import opened Text
  import Replay

  // ----- key sets

  datatype Key = Key(id: string, algorithm: string, use: string)

  datatype CachedKeys = CachedKeys(keys: seq<Key>, fetchedAt: int)

  const HOUR: int := 3_600_000_000_000

  predicate SupportedKind(kind: string) {
    kind == "oidc_client" || kind == "kubernetes_service_account" || kind == "spiffe" || kind == "wimse"
  }

  function CacheKey(b: IdentityBinding): string { b.kind + "|" + b.issuer + "|" + b.jwksURI }

  function SvidKeys(keys: seq<Key>): seq<Key> {
    if keys == [] then []
    else
      var n := |keys| - 1;
      if keys[n].use == "jwt-svid" then SvidKeys(keys[..n]) + [keys[n]] else SvidKeys(keys[..n])
  }

  /** normalizeJWKSForBinding: an empty set is an error, and a SPIFFE bundle keeps only its
      jwt-svid keys. */
  function Normalize(b: IdentityBinding, keys: seq<Key>): Option<seq<Key>> {
    var kept := if b.kind == "spiffe" then SvidKeys(keys) else keys;
    if kept == [] then None else Some(kept)
  }

  predicate OnlySvid(keys: seq<Key>) { forall k :: k in keys ==> k.use == "jwt-svid" }

  /** Key sets fit for a binding. */
  predicate FitFor(b: IdentityBinding, keys: seq<Key>) {
    keys != [] && (b.kind == "spiffe" ==> OnlySvid(keys))
  }

  /** Every cached set is non-empty, and a set cached under a SPIFFE key holds only jwt-svid keys. */
  ghost predicate CacheSound(cache: map<string, CachedKeys>) {
    forall k :: k in cache ==> cache[k].keys != [] && (HasPrefix(k, "spiffe|") ==> OnlySvid(cache[k].keys))
  }

  lemma {:induction false} SvidKeysAre(keys: seq<Key>)
    ensures forall k :: k in SvidKeys(keys) <==> k in keys && k.use == "jwt-svid"
  {
    if keys != [] {
      SvidKeysAre(keys[..|keys| - 1]);
      assert keys == keys[..|keys| - 1] + [keys[|keys| - 1]];
    }
  }

  /** The supported kinds hold no bar, so cache keys of different kinds differ, whatever the
      issuers and URIs joined behind them. */
  lemma CacheKeyNamesKind(b: IdentityBinding)
    requires SupportedKind(b.kind)
    ensures HasPrefix(CacheKey(b), "spiffe|") <==> b.kind == "spiffe"
  {
    var k := CacheKey(b);
    assert k[0] == b.kind[0];
    if b.kind == "spiffe" {
      assert k == "spiffe" + "|" + b.issuer + "|" + b.jwksURI;
      assert k[..7] == "spiffe|";
    }
  }

  lemma BarSplits(a: string, b: string, c: string, d: string)
    requires '|' !in a && '|' !in c && a + "|" + b == c + "|" + d
    ensures a == c && b == d
  {
    var k := a + "|" + b;
    assert k[|a|] == '|' && k[|c|] == '|';
    assert forall i :: 0 <= i < |a| ==> k[i] == a[i] && a[i] in a;
    assert forall i :: 0 <= i < |c| ==> k[i] == c[i] && c[i] in c;
    assert k[..|a|] == a && k[..|c|] == c && k[|a| + 1..] == b && k[|c| + 1..] == d;
  }

  /** Bindings whose issuers hold no bar share a cache entry exactly when they agree in kind,
      issuer and key-set URI. */
  lemma CacheKeysDiffer(b: IdentityBinding, c: IdentityBinding)
    requires SupportedKind(b.kind) && SupportedKind(c.kind) && '|' !in b.issuer && '|' !in c.issuer
    ensures CacheKey(b) == CacheKey(c) <==> b.kind == c.kind && b.issuer == c.issuer && b.jwksURI == c.jwksURI
  {
    KeyParts(b);
    KeyParts(c);
    if CacheKey(b) == CacheKey(c) {
      BarSplits(b.kind, b.issuer + "|" + b.jwksURI, c.kind, c.issuer + "|" + c.jwksURI);
      BarSplits(b.issuer, b.jwksURI, c.issuer, c.jwksURI);
    }
  }

  lemma KeyParts(b: IdentityBinding)
    requires SupportedKind(b.kind)
    ensures CacheKey(b) == b.kind + "|" + (b.issuer + "|" + b.jwksURI) && '|' !in b.kind
  {
    NoBar(b.kind);
    Regroup(b.kind, "|", b.issuer + "|" + b.jwksURI);
    Regroup(b.kind + "|", b.issuer, "|" + b.jwksURI);
    Regroup(b.kind + "|" + b.issuer, "|", b.jwksURI);
    Regroup(b.issuer, "|", b.jwksURI);
  }

  lemma NoBar(kind: string)
    requires SupportedKind(kind)
    ensures '|' !in kind
  {
  }

  lemma Regroup(a: string, b: string, c: string)
    ensures a + b + c == a + (b + c)
  {
  }

  /** One atomic write to the cache: some binding's fetched set, normalised. */
  datatype Write = Write(binding: IdentityBinding, fetched: seq<Key>, at: int)

  function CacheAfter(writes: seq<Write>): map<string, CachedKeys> {
    if writes == [] then map[]
    else
      var w := writes[|writes| - 1];
      var before := CacheAfter(writes[..|writes| - 1]);
      match Normalize(w.binding, w.fetched)
      case None => before
      case Some(keys) => before[CacheKey(w.binding) := CachedKeys(keys, w.at)]
  }

  lemma WriteKeepsSound(cache: map<string, CachedKeys>, b: IdentityBinding, fetched: seq<Key>, at: int)
    requires CacheSound(cache) && SupportedKind(b.kind) && Normalize(b, fetched).Some?
    ensures FitFor(b, Normalize(b, fetched).value)
    ensures CacheSound(cache[CacheKey(b) := CachedKeys(Normalize(b, fetched).value, at)])
  {
    SvidKeysAre(fetched);
    CacheKeyNamesKind(b);
  }

  lemma HitIsFit(cache: map<string, CachedKeys>, b: IdentityBinding)
    requires CacheSound(cache) && SupportedKind(b.kind) && CacheKey(b) in cache
    ensures FitFor(b, cache[CacheKey(b)].keys)
  {
    CacheKeyNamesKind(b);
  }

  /** Over all runs: however the callers' cache writes interleave, whatever set a binding finds
      cached under its key is non-empty and, for SPIFFE, holds only jwt-svid keys. */
  lemma {:induction false} CachedKeysAreFit(writes: seq<Write>, b: IdentityBinding)
    requires forall w :: w in writes ==> SupportedKind(w.binding.kind)
    requires SupportedKind(b.kind)
    ensures CacheSound(CacheAfter(writes))
    ensures CacheKey(b) in CacheAfter(writes) ==> FitFor(b, CacheAfter(writes)[CacheKey(b)].keys)
  {
    if writes != [] {
      var n := |writes| - 1;
      CachedKeysAreFit(writes[..n], b);
      if Normalize(writes[n].binding, writes[n].fetched).Some? {
        WriteKeepsSound(CacheAfter(writes[..n]), writes[n].binding, writes[n].fetched, writes[n].at);
      }
    }
    if CacheKey(b) in CacheAfter(writes) {
      HitIsFit(CacheAfter(writes), b);
    }
  }

  /** What getJWKS gets from the endpoints it tries in turn: the first set that normalises. */
  function FirstUsable(b: IdentityBinding, fetches: seq<Option<seq<Key>>>): Option<seq<Key>> {
    if fetches == [] then None
    else if fetches[0].Some? && Normalize(b, fetches[0].value).Some? then Normalize(b, fetches[0].value)
    else FirstUsable(b, fetches[1..])
  }

  // ----- tokens

  /** subjectMatches. */
  predicate SubjectMatches(bindingSubject: string, sub: string, azp: string, clientID: string) {
    if HasPrefix(bindingSubject, "client_id:") then
      bindingSubject[10..] == azp || bindingSubject[10..] == clientID
    else
      || bindingSubject == sub
      || (azp != "" && bindingSubject == azp)
      || (clientID != "" && bindingSubject == clientID)
  }

  /** The claims of a token whose signature some matching key verified. standard is
      ValidateWithLeeway for an expected issuer and audience; typ is the single typ header. */
  datatype TokenClaims = TokenClaims(
    expiry: Option<int>,
    audience: seq<string>,
    subject: string,
    azp: string,
    clientID: string,
    typ: string,
    cnfAlg: Option<string>,
    standard: (string, Option<string>) -> bool)

  /** A parsed Workload-Proof-Token; verifies says whether the cnf key does. */
  datatype Proof = Proof(
    signatures: nat,
    alg: string,
    typ: string,
    verifies: bool,
    expiry: Option<int>,
    id: string,
    standard: set<string> -> bool,
    wth: string,
    ath: string,
    tth: string,
    others: nat)

  datatype ProofContext = ProofContext(targetURI: string, accessToken: string)

  /** What one attempt on one binding meets: endpoint answers, signature verification under a
      key set, the proof token, and the clock at its three uses. */
  datatype Attempt = Attempt(
    fetches: seq<Option<seq<Key>>>,
    claims: seq<Key> -> Option<TokenClaims>,
    proof: Option<Proof>,
    cacheNow: int,
    proofNow: int,
    markNow: int)

  /** parses says whether the token is a JWT with an allowed algorithm. */
  datatype Presented = Presented(token: string, parses: bool, context: Option<ProofContext>, hash: string -> string)

  predicate Asymmetric(alg: string) {
    || alg == "RS256" || alg == "RS384" || alg == "RS512"
    || alg == "ES256" || alg == "ES384" || alg == "ES512"
    || alg == "PS256" || alg == "PS384" || alg == "PS512"
    || alg == "EdDSA"
  }

  predicate HasType(typ: string, want: string) { typ == want || typ == "application/" + want }

  function ProofAudiences(b: IdentityBinding, context: Option<ProofContext>): seq<string> {
    var own := if b.audience != "" then [b.audience] else [];
    if context.Some? && context.value.targetURI != "" && context.value.targetURI !in own
    then own + [context.value.targetURI] else own
  }

  function SetOf(s: seq<string>): set<string> { set x | x in s }

  /** tryBinding's checks on the token itself. */
  predicate TokenPasses(b: IdentityBinding, c: TokenClaims) {
    && c.expiry.Some?
    && (b.kind == "spiffe" ==> b.audience != "" && c.audience != [])
    && (b.kind == "wimse" ==> HasType(c.typ, "wit+jwt") && c.cnfAlg.Some? && c.cnfAlg.value != "")
    && c.standard(b.issuer, if b.audience != "" && b.kind != "wimse" then Some(b.audience) else None)
    && SubjectMatches(b.subject, c.subject, c.azp, c.clientID)
  }

  /** validateWIMSEProof's checks before it marks the proof id as used. */
  predicate ProofPasses(b: IdentityBinding, c: TokenClaims, p: Proof, seen: Presented, now: int, lim: Replay.Limits) {
    var access := if seen.context.Some? then seen.context.value.accessToken else "";
    && c.cnfAlg.Some? && Asymmetric(c.cnfAlg.value)
    && p.signatures == 1 && p.alg == c.cnfAlg.value && HasType(p.typ, "wpt+jwt")
    && p.verifies && p.expiry.Some? && p.id != ""
    && p.expiry.value - now <= lim.maxTTL
    && ProofAudiences(b, seen.context) != [] && p.standard(SetOf(ProofAudiences(b, seen.context)))
    && p.wth != "" && p.wth == seen.hash(seen.token)
    && (if access != "" then p.ath != "" && p.ath == seen.hash(access) else p.ath == "")
    && p.tth == "" && p.others == 0
  }

  /** Everything but the replay check. */
  predicate Acceptable(b: IdentityBinding, keys: seq<Key>, at: Attempt, seen: Presented, lim: Replay.Limits) {
    && SupportedKind(b.kind)
    && at.claims(keys).Some?
    && TokenPasses(b, at.claims(keys).value)
    && (b.kind == "wimse" ==>
          at.proof.Some? && ProofPasses(b, at.claims(keys).value, at.proof.value, seen, at.proofNow, lim))
  }

  // ----- what an accepted token looks like

  /** The subject a binding asks for: by the client id alone when it says so, or else the
      token's subject or its client id under either name. */
  ghost predicate SubjectFits(subject: string, c: TokenClaims) {
    if exists n :: subject == "client_id:" + n then
      exists n :: subject == "client_id:" + n && (n == c.azp || n == c.clientID)
    else
      subject == c.subject || (subject == c.azp && c.azp != "") || (subject == c.clientID && c.clientID != "")
  }

  const ALGORITHMS := {"RS256", "RS384", "RS512", "ES256", "ES384", "ES512", "PS256", "PS384", "PS512", "EdDSA"}

  /** The audiences a proof may name: the binding's and the request's own URI. */
  function Audiences(b: IdentityBinding, context: Option<ProofContext>): set<string> {
    {b.audience, if context.Some? then context.value.targetURI else ""} - {""}
  }

  /** A workload proof by the key that the token confirms, fresh, for this request and token. */
  ghost predicate ProofFits(b: IdentityBinding, c: TokenClaims, p: Proof, seen: Presented, now: int,
                            lim: Replay.Limits) {
    && p.signatures == 1 && c.cnfAlg == Some(p.alg) && p.alg in ALGORITHMS
    && p.typ in {"wpt+jwt", "application/wpt+jwt"} && p.verifies
    && p.expiry.Some? && p.expiry.value <= now + lim.maxTTL && p.id != ""
    && Audiences(b, seen.context) != {} && p.standard(Audiences(b, seen.context))
    && p.wth == seen.hash(seen.token) && p.wth != ""
    && (if seen.context.Some? && seen.context.value.accessToken != ""
        then p.ath == seen.hash(seen.context.value.accessToken) && p.ath != ""
        else p.ath == "")
    && p.tth == "" && p.others == 0
  }

  /** The token verifies under the keys, has not run out, is by this binding's issuer for its
      audience and subject, and is of its kind. */
  ghost predicate Credible(b: IdentityBinding, keys: seq<Key>, at: Attempt, seen: Presented, lim: Replay.Limits) {
    && b.kind in {"oidc_client", "kubernetes_service_account", "spiffe", "wimse"}
    && at.claims(keys).Some?
    && var c := at.claims(keys).value;
       && c.expiry.Some? && SubjectFits(b.subject, c)
       && (b.kind == "wimse" || b.audience == "" ==> c.standard(b.issuer, None))
       && (b.kind != "wimse" && b.audience != "" ==> c.standard(b.issuer, Some(b.audience)))
       && (b.kind == "spiffe" ==> b.audience != "" && c.audience != [])
       && (b.kind == "wimse" ==>
             && c.typ in {"wit+jwt", "application/wit+jwt"}
             && at.proof.Some? && ProofFits(b, c, at.proof.value, seen, at.proofNow, lim))
  }

  lemma SubjectFitsIff(subject: string, c: TokenClaims)
    ensures SubjectMatches(subject, c.subject, c.azp, c.clientID) <==> SubjectFits(subject, c)
  {
    if HasPrefix(subject, "client_id:") {
      assert subject == "client_id:" + subject[10..];
    }
  }

  lemma AudiencesAre(b: IdentityBinding, context: Option<ProofContext>)
    ensures SetOf(ProofAudiences(b, context)) == Audiences(b, context)
    ensures ProofAudiences(b, context) == [] <==> Audiences(b, context) == {}
  {
    var own := ProofAudiences(b, context);
    forall a
      ensures a in own <==> a in Audiences(b, context)
    {
    }
    assert own != [] ==> own[0] in Audiences(b, context);
  }

  lemma AsymmetricIff(alg: string)
    ensures Asymmetric(alg) <==> alg in ALGORITHMS
  {
  }

  lemma ProofFitsIff(b: IdentityBinding, c: TokenClaims, p: Proof, seen: Presented, now: int, lim: Replay.Limits)
    ensures ProofPasses(b, c, p, seen, now, lim) <==> ProofFits(b, c, p, seen, now, lim)
  {
    AudiencesAre(b, seen.context);
    AsymmetricIff(p.alg);
    assert "application/" + "wpt+jwt" == "application/wpt+jwt";
  }

  /** tryBinding's checks accept exactly the credible tokens. */
  lemma CredibleIff(b: IdentityBinding, keys: seq<Key>, at: Attempt, seen: Presented, lim: Replay.Limits)
    ensures Acceptable(b, keys, at, seen, lim) <==> Credible(b, keys, at, seen, lim)
  {
    assert "application/" + "wit+jwt" == "application/wit+jwt";
    if at.claims(keys).Some? {
      SubjectFitsIff(b.subject, at.claims(keys).value);
      if at.proof.Some? { ProofFitsIff(b, at.claims(keys).value, at.proof.value, seen, at.proofNow, lim); }
    }
  }

  // ----- what a call does to the validator's two maps

  datatype Memory = Memory(jwks: map<string, CachedKeys>, replay: map<string, int>)

  predicate Fresh(cache: map<string, CachedKeys>, b: IdentityBinding, now: int) {
    CacheKey(b) in cache && now - cache[CacheKey(b)].fetchedAt < HOUR
  }

  /** A set is used for an hour after it was fetched, to the nanosecond. */
  lemma FreshForAnHour(cache: map<string, CachedKeys>, b: IdentityBinding, now: int)
    ensures Fresh(cache, b, now)
            <==> CacheKey(b) in cache && now < cache[CacheKey(b)].fetchedAt + 60 * 60 * SECOND
  {
  }

  /** The key set getJWKS returns, and the cache it leaves. */
  function LookupKeys(cache: map<string, CachedKeys>, b: IdentityBinding, fetches: seq<Option<seq<Key>>>, now: int)
    : Option<seq<Key>>
  {
    if Fresh(cache, b, now) then Some(cache[CacheKey(b)].keys) else FirstUsable(b, fetches)
  }

  function LookupCache(cache: map<string, CachedKeys>, b: IdentityBinding, fetches: seq<Option<seq<Key>>>, now: int)
    : map<string, CachedKeys>
  {
    if Fresh(cache, b, now) || FirstUsable(b, fetches).None? then cache
    else cache[CacheKey(b) := CachedKeys(FirstUsable(b, fetches).value, now)]
  }

  datatype Tried = Tried(ok: bool, keys: seq<Key>, memory: Memory)

  /** tryBinding up to the replay check. */
  function Check(m: Memory, b: IdentityBinding, at: Attempt, seen: Presented, lim: Replay.Limits): Tried {
    if !SupportedKind(b.kind) then Tried(false, [], m)
    else
      var keys := LookupKeys(m.jwks, b, at.fetches, at.cacheNow);
      var m' := m.(jwks := LookupCache(m.jwks, b, at.fetches, at.cacheNow));
      if keys.None? then Tried(false, [], m') else Tried(Acceptable(b, keys.value, at, seen, lim), keys.value, m')
  }

  /** The proof id that an attempt presents for consumption. */
  function ProofKey(at: Attempt, keys: seq<Key>): string
    requires at.claims(keys).Some? && at.proof.Some?
  {
    Replay.KeyOf(at.claims(keys).value.subject, at.proof.value.id)
  }

  function Try(m: Memory, b: IdentityBinding, at: Attempt, seen: Presented, lim: Replay.Limits): Tried {
    var c := Check(m, b, at, seen, lim);
    if !c.ok || b.kind != "wimse" then c
    else
      var key := ProofKey(at, c.keys);
      Tried(!Replay.Refuses(m.replay, key, at.markNow, lim), c.keys,
            c.memory.(replay := Replay.Mark(m.replay, key, at.markNow, at.proof.value.expiry.value, lim)))
  }

  /** The first binding that accepts, if any, and the memory left behind. */
  datatype Validated = Validated(via: Option<nat>, keys: seq<Key>, memory: Memory)

  function ValidateFrom(m: Memory, i: nat, bindings: seq<IdentityBinding>, attempts: seq<Attempt>, seen: Presented,
                        lim: Replay.Limits): Validated
    requires i <= |bindings| == |attempts|
    decreases |bindings| - i
  {
    if i == |bindings| then Validated(None, [], m)
    else
      var t := Try(m, bindings[i], attempts[i], seen, lim);
      if t.ok then Validated(Some(i), t.keys, t.memory)
      else ValidateFrom(t.memory, i + 1, bindings, attempts, seen, lim)
  }

  /** A token that does not parse touches nothing. */
  function Validate(m: Memory, bindings: seq<IdentityBinding>, attempts: seq<Attempt>, seen: Presented,
                    lim: Replay.Limits): Validated
    requires |attempts| == |bindings|
  {
    if seen.parses then ValidateFrom(m, 0, bindings, attempts, seen, lim) else Validated(None, [], m)
  }

  ghost predicate Within(some: map<string, int>, all: map<string, int>) {
    forall k :: k in some ==> k in all && some[k] == all[k]
  }

  lemma {:induction false} LookupIsFit(cache: map<string, CachedKeys>, b: IdentityBinding,
                                       fetches: seq<Option<seq<Key>>>, now: int)
    requires CacheSound(cache) && SupportedKind(b.kind)
    ensures CacheSound(LookupCache(cache, b, fetches, now))
    ensures LookupKeys(cache, b, fetches, now).Some? ==> FitFor(b, LookupKeys(cache, b, fetches, now).value)
  {
    if Fresh(cache, b, now) {
      HitIsFit(cache, b);
    } else if fetches != [] {
      if fetches[0].Some? && Normalize(b, fetches[0].value).Some? {
        WriteKeepsSound(cache, b, fetches[0].value, now);
      } else {
        LookupIsFit(cache, b, fetches[1..], now);
      }
    }
  }

  /** A binding accepts exactly the credible tokens, on a key set fit for it. */
  lemma CheckIsSound(m: Memory, b: IdentityBinding, at: Attempt, seen: Presented, lim: Replay.Limits)
    requires CacheSound(m.jwks)
    ensures var c := Check(m, b, at, seen, lim);
            && CacheSound(c.memory.jwks) && c.memory.replay == m.replay
            && (c.ok ==> FitFor(b, c.keys))
            && (c.ok <==> var keys := LookupKeys(m.jwks, b, at.fetches, at.cacheNow);
                          keys == Some(c.keys) && Credible(b, c.keys, at, seen, lim))
  {
    CredibleIff(b, Check(m, b, at, seen, lim).keys, at, seen, lim);
    if SupportedKind(b.kind) {
      LookupIsFit(m.jwks, b, at.fetches, at.cacheNow);
    }
  }

  /** Between two memories: at most one replay entry was added, exactly when the call succeeded
      through a WIMSE binding, and it was not live before; another is gone only if some attempt
      sampled a time past its expiry plus skew. */
  ghost predicate Consumed(m: Memory, r: Validated, i: nat, bindings: seq<IdentityBinding>, attempts: seq<Attempt>,
                           seen: Presented, lim: Replay.Limits)
    requires |attempts| == |bindings|
  {
    && CacheSound(r.memory.jwks)
    && (r.via.Some? ==>
          && i <= r.via.value < |bindings|
          && FitFor(bindings[r.via.value], r.keys)
          && Credible(bindings[r.via.value], r.keys, attempts[r.via.value], seen, lim))
    && (if r.via.Some? && bindings[r.via.value].kind == "wimse" then
          var at := attempts[r.via.value];
          var key := ProofKey(at, r.keys);
          && key in r.memory.replay && r.memory.replay[key] == at.proof.value.expiry.value
          && Within(r.memory.replay - {key}, m.replay)
          && (key in m.replay ==>
                exists j | i <= j <= r.via.value :: attempts[j].markNow >= m.replay[key] + lim.skew)
        else Within(r.memory.replay, m.replay))
    && (forall k :: k in m.replay && k !in r.memory.replay ==> Expired(m.replay[k], i, attempts, lim))
  }

  ghost predicate Expired(expiry: int, i: nat, attempts: seq<Attempt>, lim: Replay.Limits) {
    exists j | i <= j < |attempts| :: attempts[j].markNow > expiry + lim.skew
  }

  lemma {:induction false} ConsumedFrom(m: Memory, i: nat, bindings: seq<IdentityBinding>, attempts: seq<Attempt>,
                                        seen: Presented, lim: Replay.Limits)
    requires i <= |bindings| == |attempts| && CacheSound(m.jwks)
    ensures Consumed(m, ValidateFrom(m, i, bindings, attempts, seen, lim), i, bindings, attempts, seen, lim)
    decreases |bindings| - i
  {
    if i < |bindings| {
      CheckIsSound(m, bindings[i], attempts[i], seen, lim);
      var t := Try(m, bindings[i], attempts[i], seen, lim);
      forall k | k in m.replay && k !in t.memory.replay
        ensures Expired(m.replay[k], i, attempts, lim)
      {
        assert attempts[i].markNow > m.replay[k] + lim.skew;
      }
      if !t.ok {
        ConsumedFrom(t.memory, i + 1, bindings, attempts, seen, lim);
        var r := ValidateFrom(t.memory, i + 1, bindings, attempts, seen, lim);
        if r.via.Some? && bindings[r.via.value].kind == "wimse" {
          var key := ProofKey(attempts[r.via.value], r.keys);
          if key in m.replay && key !in t.memory.replay {
            assert attempts[i].markNow >= m.replay[key] + lim.skew;
          }
        }
      }
    }
  }

  /** Proof ids are consumed all or nothing: a call adds at most one replay entry, exactly when
      it succeeds through a WIMSE binding, and that entry was not live before; a call that
      fails, or succeeds through another kind of binding, adds none; and what goes has expired. */
  lemma ConsumedAllOrNothing(m: Memory, bindings: seq<IdentityBinding>, attempts: seq<Attempt>, seen: Presented,
                             lim: Replay.Limits)
    requires |bindings| == |attempts| && CacheSound(m.jwks)
    ensures Consumed(m, Validate(m, bindings, attempts, seen, lim), 0, bindings, attempts, seen, lim)
  {
    ConsumedFrom(m, 0, bindings, attempts, seen, lim);
  }

  class TokenValidator {
    var jwksCache: map<string, CachedKeys>
    var wptReplay: map<string, int>
    const limits: Replay.Limits

    constructor (limits: Replay.Limits)
      ensures this.limits == limits && jwksCache == map[] && wptReplay == map[]
    {
      this.limits := limits;
      jwksCache, wptReplay := map[], map[];
    }

    /** markWPTJTI's critical section; now was sampled before the lock. */
    method MarkWPTJTI(subject: string, jti: string, expiresAt: int, now: int) returns (ok: bool)
      modifies this`wptReplay
      ensures wptReplay == Replay.Mark(old(wptReplay), Replay.KeyOf(subject, jti), now, expiresAt, limits)
      ensures ok <==> !Replay.Refuses(old(wptReplay), Replay.KeyOf(subject, jti), now, limits)
    {
      var key := Replay.KeyOf(subject, jti);
      var todo := wptReplay.Keys;
      while todo != {}
        invariant todo <= old(wptReplay.Keys)
        invariant wptReplay == map k | k in old(wptReplay) && (k in todo || now <= old(wptReplay)[k] + limits.skew)
                                     :: old(wptReplay)[k]
      {
        var k :| k in todo;
        todo := todo - {k};
        if now > wptReplay[k] + limits.skew {
          wptReplay := wptReplay - {k};
        }
      }
      assert wptReplay == Replay.Purge(old(wptReplay), now, limits);
      if key in wptReplay && now < wptReplay[key] + limits.skew {
        return false;
      }
      wptReplay := wptReplay[key := expiresAt];
      ok := true;
    }

    /** getJWKS: a set cached less than an hour ago, or the first endpoint's that normalises. */
    method GetJWKS(b: IdentityBinding, fetches: seq<Option<seq<Key>>>, now: int) returns (keys: Option<seq<Key>>)
      modifies this`jwksCache
      ensures keys == LookupKeys(old(jwksCache), b, fetches, now)
      ensures jwksCache == LookupCache(old(jwksCache), b, fetches, now)
    {
      var cacheKey := CacheKey(b);
      if cacheKey in jwksCache && now - jwksCache[cacheKey].fetchedAt < HOUR {
        return Some(jwksCache[cacheKey].keys);
      }
      for i := 0 to |fetches|
        invariant jwksCache == old(jwksCache)
        invariant FirstUsable(b, fetches) == FirstUsable(b, fetches[i..])
      {
        assert fetches[i..][1..] == fetches[i + 1..];
        if fetches[i].Some? {
          var normal := NormalizeKeys(b, fetches[i].value);
          if normal.Some? {
            jwksCache := jwksCache[cacheKey := CachedKeys(normal.value, now)];
            return normal;
          }
        }
      }
      keys := None;
    }

    static method NormalizeKeys(b: IdentityBinding, keys: seq<Key>) returns (kept: Option<seq<Key>>)
      ensures kept == Normalize(b, keys)
    {
      if keys == [] { return None; }
      if b.kind != "spiffe" { return Some(keys); }
      var filtered: seq<Key> := [];
      for i := 0 to |keys|
        invariant filtered == SvidKeys(keys[..i])
      {
        assert keys[..i + 1][..i] == keys[..i];
        if keys[i].use == "jwt-svid" {
          filtered := filtered + [keys[i]];
        }
      }
      assert keys[..|keys|] == keys;
      kept := if filtered == [] then None else Some(filtered);
    }

    /** tryBinding: only a WIMSE binding that passes every other check touches the replay cache. */
    method TryBinding(b: IdentityBinding, at: Attempt, seen: Presented) returns (ok: bool, ghost keys: seq<Key>)
      modifies this`jwksCache, this`wptReplay
      ensures Tried(ok, keys, Memory(jwksCache, wptReplay))
              == Try(Memory(old(jwksCache), old(wptReplay)), b, at, seen, limits)
    {
      keys := [];
      if !SupportedKind(b.kind) { return false, keys; }
      var jwks := GetJWKS(b, at.fetches, at.cacheNow);
      if jwks.None? { return false, keys; }
      keys := jwks.value;
      var claims := at.claims(jwks.value);
      if claims.None? { return false, keys; }
      if !TokenPasses(b, claims.value) { return false, keys; }
      if b.kind == "wimse" {
        if at.proof.None? { return false, keys; }
        if !ProofPasses(b, claims.value, at.proof.value, seen, at.proofNow, limits) { return false, keys; }
        ok := MarkWPTJTI(claims.value.subject, at.proof.value.id, at.proof.value.expiry.value, at.markNow);
      } else {
        ok := true;
      }
    }

    /** ValidateAgainstBindings: the first binding that accepts ends the loop. */
    method ValidateAgainstBindings(bindings: seq<IdentityBinding>, attempts: seq<Attempt>, seen: Presented)
      returns (via: Option<nat>, ghost keys: seq<Key>)
      requires |attempts| == |bindings|
      modifies this`jwksCache, this`wptReplay
      ensures Validated(via, keys, Memory(jwksCache, wptReplay))
              == Validate(Memory(old(jwksCache), old(wptReplay)), bindings, attempts, seen, limits)
    {
      keys := [];
      if !seen.parses { return None, keys; }
      for i := 0 to |bindings|
        invariant ValidateFrom(Memory(old(jwksCache), old(wptReplay)), 0, bindings, attempts, seen, limits)
                  == ValidateFrom(Memory(jwksCache, wptReplay), i, bindings, attempts, seen, limits)
      {
        ghost var tried;
        var ok;
        ok, tried := TryBinding(bindings[i], attempts[i], seen);
        if ok {
          return Some(i), tried;
        }
      }
      via := None;
    }
  }
}
