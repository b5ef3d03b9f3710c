/** The evaluator reads policies as they are meant. */
module Reading {
  import opened Model
  import opened Text
  import opened ConstraintAlgebra
  import opened Rules
  import opened RuleEngine
  import opened Evaluator
  import opened Meaning

  // ----- names and levels

  lemma SomeNamesIff(patterns: seq<string>, name: string)
    ensures AnyCovers(patterns, name) <==> SomeNames(patterns, name)
  {
    forall p
      ensures Covers(p, name) <==> Names(p, name)
    {
      CoversIff(p, name);
    }
    if p :| p in patterns && Covers(p, name) {
      var i :| 0 <= i < |patterns| && patterns[i] == p;
      assert Names(patterns[i], name);
    }
  }

  lemma StrengthIs(s: string, i: int)
    ensures IsStrength(s, i) <==> i >= 0 && AuthStrengthRank(s) == i
  {
  }

  lemma AsStrongIff(s: string, least: string)
    ensures AuthStrengthRank(s) >= AuthStrengthRank(least) >= 0 <==> AsStrong(s, least)
  {
    StrengthIs(s, AuthStrengthRank(s));
    StrengthIs(least, AuthStrengthRank(least));
    if i, j :| IsStrength(s, i) && IsStrength(least, j) && j <= i {
      StrengthIs(s, i);
      StrengthIs(least, j);
    }
  }

  lemma KnownStrength(s: string)
    ensures s in STRENGTHS <==> s != "" && AuthStrengthRank(s) >= 0
  {
    if AuthStrengthRank(s) >= 0 && s != "" {
      StrengthIs(s, AuthStrengthRank(s));
    }
    if s in STRENGTHS {
      var i :| 0 <= i < |STRENGTHS| && STRENGTHS[i] == s;
      StrengthIs(s, i);
    }
  }

  lemma WithinClassIff(c: string, max: string)
    ensures 0 <= ClassificationRank(c) <= ClassificationRank(max) <==> WithinClass(c, max)
    ensures ClassificationRank(max) >= 0 <==> exists i :: IsClass(max, i)
  {
    ClassificationIsBelow(c, max);
    ClassificationIsBelow(max, max);
    if i, j :| 0 <= i <= j < |CLASSIFICATIONS| && CLASSIFICATIONS[i] == c && CLASSIFICATIONS[j] == max {
      assert IsClass(c, i) && IsClass(max, j);
    }
    if i, j :| 0 <= i <= j < |CLASSIFICATIONS| && CLASSIFICATIONS[i] == max && CLASSIFICATIONS[j] == max {
      assert IsClass(max, i);
    }
  }

  lemma PlaceIs(req: Request, e: string)
    ensures e != "" && RequestEnvironment(req) == e <==> TakesPlaceIn(req, e)
    ensures e != "" && RequestResourceOwner(req) == e <==> OwnedBy(req, e)
  {
  }

  // ----- conditions

  lemma ConditionIs(key: string, v: Value, req: Request, env: Env)
    requires key != "timeWindow"
    ensures var verdict := ConditionVerdict(key, v, req, env, []);
            && (verdict == Malformed <==> !WellShaped(key, v))
            && (verdict == Unmet <==> WellShaped(key, v) && !Satisfied(key, v, req))
  {
    ToStringsIs(v);
    ListIsNotEmpty(v);
    if v.Str? {
      PlaceIs(req, v.s);
      KnownStrength(v.s);
      if req.actor.Some? { AsStrongIff(req.actor.value.authStrength, v.s); }
    }
    if key == "actorGroups" && req.actor.Some? && ToStrings(v).Some? {
      GroupsIs(req.actor.value.groups, v);
    }
  }

  lemma GroupsIs(groups: seq<string>, v: Value)
    requires ToStrings(v).Some?
    ensures (exists g :: g in groups && g in ToStrings(v).value) <==> exists i :: 0 <= i < |groups| && In(v, groups[i])
  {
    ToStringsIs(v);
  }

  lemma WindowKeyIs(key: string, raw: Value, env: Env)
    ensures WindowVerdict(key, raw, env) == Malformed <==> !WindowShaped(key, raw, env)
    ensures WindowVerdict(key, raw, env) == Unmet <==> WindowShaped(key, raw, env) && !KeyHolds(key, raw, env)
  {
    ToStringsIs(raw);
    KeyHoldsIff(key, raw, env);
  }

  lemma WindowHasIs(fields: map<string, Value>, env: Env)
    ensures WindowHas(fields, env, Malformed) <==> WindowMalformed(fields, env)
    ensures WindowHas(fields, env, Unmet) <==> WindowUnmet(fields, env)
  {
    forall k | k in fields
      ensures WindowVerdict(k, fields[k], env) == Malformed <==> !WindowShaped(k, fields[k], env)
      ensures WindowVerdict(k, fields[k], env) == Unmet
              <==> WindowShaped(k, fields[k], env) && !KeyHolds(k, fields[k], env)
    {
      WindowKeyIs(k, fields[k], env);
    }
  }

  ghost predicate MalformedAt(key: string, v: Value, env: Env) {
    !WellShaped(key, v) || (key == "timeWindow" && v.Object? && WindowMalformed(v.fields, env))
  }

  ghost predicate UnmetAt(key: string, v: Value, req: Request, env: Env) {
    WellShaped(key, v) && if key == "timeWindow" then WindowUnmet(v.fields, env) else !Satisfied(key, v, req)
  }

  lemma ConditionCanIs(key: string, v: Value, req: Request, env: Env)
    ensures ConditionCan(key, v, req, env, Malformed) <==> MalformedAt(key, v, env)
    ensures ConditionCan(key, v, req, env, Unmet) <==> UnmetAt(key, v, req, env)
  {
    if key == "timeWindow" {
      if v.Object? { WindowHasIs(v.fields, env); }
    } else {
      ConditionIs(key, v, req, env);
    }
  }

  lemma RuleCanIs(rule: Rule, req: Request, env: Env)
    ensures RuleCan(rule, req, env, Malformed) <==> SomeMalformed(rule, env)
    ensures RuleCan(rule, req, env, Unmet) <==> SomeUnmet(rule, req, env)
  {
    forall k | k in rule.conditions
      ensures ConditionCan(k, rule.conditions[k], req, env, Malformed) <==> MalformedAt(k, rule.conditions[k], env)
      ensures ConditionCan(k, rule.conditions[k], req, env, Unmet) <==> UnmetAt(k, rule.conditions[k], req, env)
    {
      ConditionCanIs(k, rule.conditions[k], req, env);
    }
    assert SomeMalformed(rule, env) <==> exists k :: k in rule.conditions && MalformedAt(k, rule.conditions[k], env);
    assert SomeUnmet(rule, req, env) <==> exists k :: k in rule.conditions && UnmetAt(k, rule.conditions[k], req, env);
  }

  /** conditionsMet over a full walk: met exactly when every condition means something and is
      so; unmet or malformed only when some condition is. */
  lemma ConditionsRead(rule: Rule, req: Request, env: Env, order: KeyOrder)
    requires IsKeyOrder(order, rule)
    ensures match ConditionScan(order.conditions, rule, req, env, order.window)
            case Met => !SomeMalformed(rule, env) && !SomeUnmet(rule, req, env)
            case Unmet => SomeUnmet(rule, req, env)
            case Malformed => SomeMalformed(rule, env)
  {
    ConditionsSound(rule, req, env, order);
    RuleCanIs(rule, req, env);
  }

  // ----- resources

  lemma SelectorIs(s: Selector, req: Request)
    ensures ValidResources(Some(s)) <==> SelectorShaped(s)
    ensures ResourceMatches(Some(s), req) <==> Selects(s, req)
  {
    WithinClassIff(if req.resource.Some? then req.resource.value.classification else "", s.classificationMax);
    forall i | 0 <= i < |s.environments|
      ensures KnownEnvironment(s.environments[i]) <==> s.environments[i] in ENVIRONMENTS
    {
      EnvironmentIs(s.environments[i]);
    }
    PlaceIs(req, RequestEnvironment(req));
    PlaceIs(req, RequestResourceOwner(req));
    forall i | 0 <= i < |s.environments|
      ensures s.environments[i] != "" && RequestEnvironment(req) == s.environments[i]
              <==> TakesPlaceIn(req, s.environments[i])
    {
      PlaceIs(req, s.environments[i]);
    }
    forall i | 0 <= i < |s.owners|
      ensures s.owners[i] != "" && RequestResourceOwner(req) == s.owners[i] <==> OwnedBy(req, s.owners[i])
    {
      PlaceIs(req, s.owners[i]);
    }
  }

  lemma EnvironmentIs(e: string)
    ensures KnownEnvironment(e) <==> e in ENVIRONMENTS
  {
    assert ENVIRONMENTS[0] == "development" && ENVIRONMENTS[1] == "staging" && ENVIRONMENTS[2] == "production";
  }

  // ----- constraints and obligations

  lemma EntryIs(key: string, v: Value)
    ensures ValidEntry(key, v) <==> EntryMeans(key, v)
  {
    if PolicyField(key).Some? { WellTypedIff(PolicyField(key).value, v); }
  }

  lemma EntryAllowsIs(key: string, v: Value, a: Access)
    requires ValidEntry(key, v)
    ensures EntryPermits(PolicyField(key).value, v, a) <==> EntryAllows(key, v, a)
  {
  }

  lemma ObligationIs(key: string, v: Value)
    ensures ValidObligation(key, v) <==> ObligationMeans(key, v)
  {
    ListIsNotEmpty(v);
  }

  lemma HonourableIs(rule: Rule)
    ensures ValidConstraints(rule.constraints) && ValidObligations(rule.obligations) <==> Honourable(rule)
  {
    forall k | k in rule.constraints
      ensures ValidEntry(k, rule.constraints[k]) <==> EntryMeans(k, rule.constraints[k])
    {
      EntryIs(k, rule.constraints[k]);
    }
    forall k | k in rule.obligations
      ensures ValidObligation(k, rule.obligations[k]) <==> ObligationMeans(k, rule.obligations[k])
    {
      ObligationIs(k, rule.obligations[k]);
    }
  }

  lemma RuleAllowsIs(rule: Rule, a: Access)
    requires ValidConstraints(rule.constraints)
    ensures EntriesPermit(rule.constraints, a) <==> RuleAllows(rule, a)
  {
    forall k | k in rule.constraints
      ensures EntryPermits(PolicyField(k).value, rule.constraints[k], a) <==> EntryAllows(k, rule.constraints[k], a)
    {
      EntryAllowsIs(k, rule.constraints[k], a);
    }
  }

  // ----- rules

  /** How the evaluator classifies a rule is what the rule means for the request. */
  lemma ClassIs(rule: Rule, req: Request, env: Env)
    ensures Classify(rule, req, env) == Live <==> Applies(rule, req, env)
    ensures Classify(rule, req, env) == Broken <==> Stops(rule, req, env)
    ensures Classify(rule, req, env) == Wavering <==> Wavers(rule, req, env)
  {
    SomeNamesIff(rule.actions, req.action);
    if rule.resources.Some? { SelectorIs(rule.resources.value, req); }
    RuleCanIs(rule, req, env);
    HonourableIs(rule);
  }

  /** A rule without actions is never about a request, one pattern is enough wherever it stands,
      and further patterns change nothing. */
  lemma ActionsOnlyGate(rule: Rule, actions: seq<string>, req: Request, env: Env)
    ensures rule.actions == [] ==> Classify(rule, req, env) == Skipped
    ensures SomeNames(rule.actions, req.action) && SomeNames(actions, req.action) ==>
              Classify(rule.(actions := actions), req, env) == Classify(rule, req, env)
  {
    SomeNamesIff(rule.actions, req.action);
    SomeNamesIff(actions, req.action);
    assert forall v :: RuleCan(rule.(actions := actions), req, env, v) <==> RuleCan(rule, req, env, v);
  }

  // ----- policies

  lemma InFlatten(policies: seq<Policy>, i: int, j: int)
    requires 0 <= i < |policies| && 0 <= j < |policies[i].rules|
    ensures Matched(policies[i].ID(), policies[i].rules[j]) in Flatten(policies)
  {
    var e := Matched(policies[i].ID(), policies[i].rules[j]);
    FlattenMembers(policies, e);
    assert EntriesOf(policies[i])[j] == e;
  }

  lemma FromFlatten(policies: seq<Policy>, e: Matched) returns (i: int, j: int)
    requires e in Flatten(policies)
    ensures 0 <= i < |policies| && 0 <= j < |policies[i].rules| && e.rule == policies[i].rules[j]
  {
    FlattenMembers(policies, e);
    var p :| p in policies && e in EntriesOf(p);
    i :| 0 <= i < |policies| && policies[i] == p;
    j :| 0 <= j < |EntriesOf(p)| && EntriesOf(p)[j] == e;
  }

  lemma EffectIs(policies: seq<Policy>, req: Request, env: Env, effect: Effect)
    ensures SomeApply(policies, req, env, effect)
            <==> exists e :: e in Flatten(policies) && Classify(e.rule, req, env) == Live && e.rule.effect == effect
  {
    if SomeApply(policies, req, env, effect) {
      var i, j :| && 0 <= i < |policies| && 0 <= j < |policies[i].rules|
                  && policies[i].rules[j].effect == effect && Applies(policies[i].rules[j], req, env);
      InFlatten(policies, i, j);
      ClassIs(policies[i].rules[j], req, env);
    }
    if e :| e in Flatten(policies) && Classify(e.rule, req, env) == Live && e.rule.effect == effect {
      var i, j := FromFlatten(policies, e);
      ClassIs(policies[i].rules[j], req, env);
    }
  }

  lemma StopsIs(policies: seq<Policy>, req: Request, env: Env)
    ensures SomeStops(policies, req, env) <==> SomeAre(Flatten(policies), ViewOf(req, env), Broken)
    ensures NoneWavers(policies, req, env) <==> !SomeAre(Flatten(policies), ViewOf(req, env), Wavering)
  {
    forall i, j | 0 <= i < |policies| && 0 <= j < |policies[i].rules|
      ensures Matched(policies[i].ID(), policies[i].rules[j]) in Flatten(policies)
      ensures Classify(policies[i].rules[j], req, env) == Broken <==> Stops(policies[i].rules[j], req, env)
      ensures Classify(policies[i].rules[j], req, env) == Wavering <==> Wavers(policies[i].rules[j], req, env)
    {
      InFlatten(policies, i, j);
      ClassIs(policies[i].rules[j], req, env);
    }
    forall e | e in Flatten(policies)
      ensures exists i, j :: 0 <= i < |policies| && 0 <= j < |policies[i].rules| && e.rule == policies[i].rules[j]
    {
      var i, j := FromFlatten(policies, e);
    }
  }

  lemma ConstrainedIs(policies: seq<Policy>, req: Request, env: Env)
    ensures SomeAllowIsConstrained(policies, req, env)
            <==> exists e :: e in Flatten(policies) && LiveAllow(e, ViewOf(req, env)) && e.rule.constraints != map[]
  {
    if SomeAllowIsConstrained(policies, req, env) {
      var i, j :| && 0 <= i < |policies| && 0 <= j < |policies[i].rules|
                  && policies[i].rules[j].effect == AllowEffect && Applies(policies[i].rules[j], req, env)
                  && policies[i].rules[j].constraints != map[];
      InFlatten(policies, i, j);
      ClassIs(policies[i].rules[j], req, env);
      assert LiveAllow(Matched(policies[i].ID(), policies[i].rules[j]), ViewOf(req, env));
    }
    if e :| e in Flatten(policies) && LiveAllow(e, ViewOf(req, env)) && e.rule.constraints != map[] {
      var i, j := FromFlatten(policies, e);
      ClassIs(policies[i].rules[j], req, env);
    }
  }

  lemma DenyIs(policies: seq<Policy>, req: Request, env: Env)
    ensures (exists e :: e in Flatten(policies) && LiveDeny(e, ViewOf(req, env)))
            <==> || SomeApply(policies, req, env, DenyEffect)
                 || (req.actor == None && SomeApply(policies, req, env, DelegationEffect))
  {
    EffectIs(policies, req, env, DenyEffect);
    EffectIs(policies, req, env, DelegationEffect);
  }

  lemma ApprovalOrAllowIs(policies: seq<Policy>, req: Request, env: Env)
    ensures (exists e :: e in Flatten(policies) && LiveApproval(e, ViewOf(req, env)))
            <==> SomeApply(policies, req, env, ApprovalEffect)
    ensures (exists e :: e in Flatten(policies) && LiveAllow(e, ViewOf(req, env)))
            <==> SomeApply(policies, req, env, AllowEffect)
  {
    EffectIs(policies, req, env, ApprovalEffect);
    EffectIs(policies, req, env, AllowEffect);
  }

  /** The base kind is the kind the policies mean. */
  lemma KindIs(policies: seq<Policy>, req: Request, env: Env)
    ensures BaseKind(Flatten(policies), ViewOf(req, env)) == KindMeant(policies, req, env)
  {
    BrokenIs(policies, req, env);
    DenyIs(policies, req, env);
    ApprovalOrAllowIs(policies, req, env);
    ConstrainedIs(policies, req, env);
    KindFrom(policies, Flatten(policies), ViewOf(req, env), req, env);
  }

  lemma BrokenIs(policies: seq<Policy>, req: Request, env: Env)
    ensures SomeStops(policies, req, env) <==> SomeAre(Flatten(policies), ViewOf(req, env), Broken)
  {
    StopsIs(policies, req, env);
  }

  lemma KindFrom(policies: seq<Policy>, all: seq<Matched>, v: View, req: Request, env: Env)
    requires SomeStops(policies, req, env) <==> SomeAre(all, v, Broken)
    requires (exists e :: e in all && LiveDeny(e, v))
             <==> || SomeApply(policies, req, env, DenyEffect)
                  || (req.actor == None && SomeApply(policies, req, env, DelegationEffect))
    requires (exists e :: e in all && LiveApproval(e, v)) <==> SomeApply(policies, req, env, ApprovalEffect)
    requires (exists e :: e in all && LiveAllow(e, v)) <==> SomeApply(policies, req, env, AllowEffect)
    requires SomeAllowIsConstrained(policies, req, env)
             <==> exists e :: e in all && LiveAllow(e, v) && e.rule.constraints != map[]
    ensures BaseKind(all, v) == KindMeant(policies, req, env)
  {
  }

  /** evaluateRules decides as the policies mean, in every order, unless a rule wavers; and then
      it can only deny besides. */
  lemma RulesRead(policies: seq<Policy>, orders: seq<seq<KeyOrder>>, req: Request, env: Env, dec: Decision)
    requires ArePolicyOrders(orders, policies)
    requires Concludes(ScanPolicies(policies, orders, req, env), dec)
    ensures dec.kind == KindMeant(policies, req, env) || (dec.kind == Deny && !NoneWavers(policies, req, env))
  {
    DecisionIsOrderFree(policies, orders, req, env, dec);
    KindIs(policies, req, env);
    StopsIs(policies, req, env);
  }

  lemma EntryStands(e: Matched, req: Request, env: Env, a: Access)
    ensures var v := ViewOf(req, env);
            && v.classify(e.rule) != Broken && !LiveDeny(e, v) && !LiveApproval(e, v)
            && (LiveAllow(e, v) ==> ValidConstraints(e.rule.constraints) && EntriesPermit(e.rule.constraints, a))
            <==> && !Stops(e.rule, req, env)
                 && (Applies(e.rule, req, env) ==>
                       !Forbids(e.rule, req) && (e.rule.effect == AllowEffect ==> RuleAllows(e.rule, a)))
  {
    ClassIs(e.rule, req, env);
    HonourableIs(e.rule);
    if ValidConstraints(e.rule.constraints) { RuleAllowsIs(e.rule, a); }
  }

  /** What the rules grant is what the policies mean to allow. */
  lemma GrantedIs(policies: seq<Policy>, req: Request, env: Env, a: Access)
    ensures Granted(Flatten(policies), ViewOf(req, env), a) <==> PoliciesAllow(policies, req, env, a)
  {
    ApprovalOrAllowIs(policies, req, env);
    if Granted(Flatten(policies), ViewOf(req, env), a) {
      GrantedIsAllowed(policies, req, env, a);
    }
    if PoliciesAllow(policies, req, env, a) {
      AllowedIsGranted(policies, req, env, a);
    }
  }

  lemma GrantedIsAllowed(policies: seq<Policy>, req: Request, env: Env, a: Access)
    requires Granted(Flatten(policies), ViewOf(req, env), a) && SomeApply(policies, req, env, AllowEffect)
    ensures PoliciesAllow(policies, req, env, a)
  {
    forall i, j | 0 <= i < |policies| && 0 <= j < |policies[i].rules|
      ensures var r := policies[i].rules[j];
              && !Stops(r, req, env)
              && (Applies(r, req, env) ==> !Forbids(r, req) && (r.effect == AllowEffect ==> RuleAllows(r, a)))
    {
      InFlatten(policies, i, j);
      EntryStands(Matched(policies[i].ID(), policies[i].rules[j]), req, env, a);
    }
  }

  lemma AllowedIsGranted(policies: seq<Policy>, req: Request, env: Env, a: Access)
    requires PoliciesAllow(policies, req, env, a)
    requires exists e :: e in Flatten(policies) && LiveAllow(e, ViewOf(req, env))
    ensures Granted(Flatten(policies), ViewOf(req, env), a)
  {
    var v := ViewOf(req, env);
    forall e | e in Flatten(policies)
      ensures && v.classify(e.rule) != Broken && !LiveDeny(e, v) && !LiveApproval(e, v)
              && (LiveAllow(e, v) ==> ValidConstraints(e.rule.constraints) && EntriesPermit(e.rule.constraints, a))
    {
      var i, j := FromFlatten(policies, e);
      EntryStands(e, req, env, a);
    }
  }

  // ----- requests

  lemma DelegationIs(req: Request)
    ensures ("delegation_id" in req.context ==> DelegationCovers(req)) <==> WithinDelegation(req)
  {
    if "delegation_scope" in req.context { ToStringsIs(req.context["delegation_scope"]); }
  }

  lemma AgentMayIs(req: Request, agent: Fetch<Option<Agent>>)
    ensures AgentPasses(req, agent) <==> AgentMay(agent, req)
  {
    if agent.Found? && agent.value.Some? { SomeNamesIff(agent.value.value.capabilities, req.action); }
  }

  lemma AliasIs(key: string)
    ensures GivesSeconds(key) <==> BackendField(key) == Some(ExpiresSeconds)
    ensures key in ALIASES && !GivesSeconds(key) ==>
              BackendField(key).Some? && BackendField(key) == PolicyField(ALIASES[key])
    ensures key !in ALIASES && !GivesSeconds(key) ==> BackendField(key).None?
  {
  }

  lemma BackendEntryIs(key: string, v: Value, a: Access)
    ensures BackendEntry(key, v) <==> BackendMeans(key, v)
    ensures BackendEntry(key, v) ==> (EntryPermits(BackendField(key).value, v, a) <==> BackendAllows(key, v, a))
  {
    AliasIs(key);
    if GivesSeconds(key) {
      WellTypedIff(ExpiresSeconds, v);
    } else if key in ALIASES {
      EntryIs(ALIASES[key], v);
      if ValidEntry(ALIASES[key], v) { EntryAllowsIs(ALIASES[key], v, a); }
    }
  }

  lemma BackendLetsIs(reply: Reply, a: Access)
    ensures BackendGrants(reply, a) <==> BackendLets(reply, a)
  {
    if reply.Result? {
      forall k | k in reply.constraints
        ensures BackendEntry(k, reply.constraints[k]) <==> BackendMeans(k, reply.constraints[k])
        ensures BackendEntry(k, reply.constraints[k]) ==>
                  (EntryPermits(BackendField(k).value, reply.constraints[k], a)
                   <==> BackendAllows(k, reply.constraints[k], a))
      {
        BackendEntryIs(k, reply.constraints[k], a);
      }
    }
  }

  /** The gates before any policy: nothing but deny comes out unless an agent may ask, within its
      delegation, and has a policy. */
  ghost predicate MayBeServed(req: Request, ins: Inputs) {
    AgentMay(ins.agent, req) && WithinDelegation(req) && ins.policies.Found? && ins.policies.value != []
  }

  /** Evaluate lets an access through only for a request that may be served, exactly when the
      backend lets it be, and without one exactly when the policies mean to allow it, unless a
      rule wavers, which can only take it away. */
  lemma EvaluateReads(req: Request, ins: Inputs, dec: Decision, a: Access)
    requires ValidInputs(ins) && Evaluates(req, ins, dec)
    ensures dec.kind != Deny ==> MayBeServed(req, ins)
    ensures ins.backend.Some? && (ins.backend.value.Failure? ==> !ins.backend.value.failOpen) ==>
              (Grants(dec, a) <==> MayBeServed(req, ins) && BackendLets(ins.backend.value, a))
    ensures ins.backend.None? || (ins.backend.value.Failure? && ins.backend.value.failOpen) ==>
              && (Grants(dec, a) ==> MayBeServed(req, ins) && PoliciesAllow(ins.policies.value, req, ins.env, a))
              && (MayBeServed(req, ins) && PoliciesAllow(ins.policies.value, req, ins.env, a) ==>
                    Grants(dec, a) || !NoneWavers(ins.policies.value, req, ins.env))
  {
    AgentMayIs(req, ins.agent);
    DelegationIs(req);
    AllowIsExact(req, ins, dec, a);
    if ins.backend.Some? { BackendLetsIs(ins.backend.value, a); }
    if ins.policies.Found? {
      GrantedIs(ins.policies.value, req, ins.env, a);
      StopsIs(ins.policies.value, req, ins.env);
    }
  }

  /** Capabilities only open the gate: without any every request is denied, one that names the
      action is enough wherever it stands, and further ones never change an answer. */
  lemma CapabilitiesOnlyGate(req: Request, ins: Inputs, agent: Agent, capabilities: seq<string>, dec: Decision)
    requires ValidInputs(ins) && ins.agent == Found(Some(agent))
    ensures agent.capabilities == [] && Evaluates(req, ins, dec) ==> dec.kind == Deny
    ensures SomeNames(agent.capabilities, req.action) && SomeNames(capabilities, req.action) ==>
              (Evaluates(req, ins, dec)
               <==> Evaluates(req, ins.(agent := Found(Some(agent.(capabilities := capabilities)))), dec))
    ensures Evaluates(req, ins, dec) && dec.kind.Grants() ==>
              forall more, after ::
                Evaluates(req, ins.(agent := Found(Some(agent.(capabilities := agent.capabilities + more)))), after)
                ==> after.kind.Grants()
  {
    SomeNamesIff(agent.capabilities, req.action);
    SomeNamesIff(capabilities, req.action);
    forall more, after |
      && Evaluates(req, ins, dec) && dec.kind.Grants()
      && Evaluates(req, ins.(agent := Found(Some(agent.(capabilities := agent.capabilities + more)))), after)
      ensures after.kind.Grants()
    {
      SomeNamesIff(agent.capabilities + more, req.action);
      var i :| 0 <= i < |agent.capabilities| && Names(agent.capabilities[i], req.action);
      assert Names((agent.capabilities + more)[i], req.action);
    }
  }

  // ----- policies and approvals

  lemma MatchesIs(p: Policy, a: Agent)
    ensures p.MatchesAgent(a) <==> IsFor(p.subject, a)
  {
  }

  /** Ids as they are written. */
  lemma IDsAre(p: Policy, a: Agent)
    ensures p.namespace == "finance" && p.name == "readers" ==> p.ID() == "finance/readers"
    ensures a.namespace == "finance" && a.name == "reader" ==> a.ID() == "agent://finance/reader"
  {
    assert "agent://" + "finance" + "/" + "reader" == "agent://finance/reader";
  }

  lemma ApprovalIs(rule: Rule)
    ensures AsksAs(rule.approval, ApprovalOf(rule))
  {
    if rule.approval.Some? { SecondsAre(rule.approval.value.expiresIn); }
  }
}
