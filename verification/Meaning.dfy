/** What policies mean, said once more without the evaluator: a reference to check it against. */
module Meaning {
  import opened Model
  import opened Text
  import opened ConstraintAlgebra
  import opened Rules
  import opened Evaluator

  // ----- names and levels

  /** A pattern names a capability or action: any, exactly this, or all that goes on after
      "prefix.". */
  ghost predicate Names(pattern: string, name: string) {
    || pattern == "*"
    || pattern == name
    || exists prefix, rest :: pattern == prefix + ".*" && name == prefix + "." + rest
  }

  ghost predicate SomeNames(patterns: seq<string>, name: string) {
    exists i :: 0 <= i < |patterns| && Names(patterns[i], name)
  }

  const STRENGTHS := ["none", "password", "mfa", "phishing_resistant_mfa"]

  const ENVIRONMENTS := ["development", "staging", "production"]

  /** Position i of the list, where the empty strength counts as none. */
  predicate IsStrength(s: string, i: int) {
    0 <= i < |STRENGTHS| && (STRENGTHS[i] == s || (i == 0 && s == ""))
  }

  ghost predicate AsStrong(s: string, least: string) {
    exists i, j :: IsStrength(s, i) && IsStrength(least, j) && j <= i
  }

  predicate IsClass(c: string, i: int) { 0 <= i < |CLASSIFICATIONS| && CLASSIFICATIONS[i] == c }

  ghost predicate WithinClass(c: string, max: string) { exists i, j :: IsClass(c, i) && IsClass(max, j) && i <= j }

  // ----- where a request takes place, and whose resource it is about

  predicate Declares(req: Request, key: string, s: string) { key in req.context && req.context[key] == Str(s) }

  /** The environment of the resource, or else the one in the context, is this one. */
  predicate TakesPlaceIn(req: Request, e: string) {
    && e != ""
    && if req.resource.Some? && req.resource.value.environment != "" then req.resource.value.environment == e
       else Declares(req, "environment", e)
  }

  predicate OwnedBy(req: Request, owner: string) {
    && owner != ""
    && if req.resource.Some? && req.resource.value.owner != "" then req.resource.value.owner == owner
       else Declares(req, "resource_owner", owner)
  }

  // ----- conditions

  /** A condition that means something, its window aside. */
  ghost predicate WellShaped(key: string, v: Value) {
    || ((key == "actorRequired" || key == "delegationRequired") && (v == Bool(true) || v == Bool(false)))
    || ((key == "actorType" || key == "actorId" || key == "environment") && v.Str? && v != Str(""))
    || (key == "actorGroups" && IsListing(v) && exists g :: In(v, g))
    || (key == "minAuthStrength" && v.Str? && v.s in STRENGTHS)
    || (key == "timeWindow" && v.Object?)
  }

  ghost predicate Satisfied(key: string, v: Value, req: Request) {
    && (key == "actorRequired" && v == Bool(true) ==> req.actor.Some?)
    && (key == "actorType" ==> req.actor.Some? && v == Str(req.actor.value.kind))
    && (key == "actorId" ==> req.actor.Some? && v == Str(req.actor.value.id))
    && (key == "actorGroups" ==>
          req.actor.Some? && exists i :: 0 <= i < |req.actor.value.groups| && In(v, req.actor.value.groups[i]))
    && (key == "environment" ==> v.Str? && TakesPlaceIn(req, v.s))
    && (key == "minAuthStrength" ==> req.actor.Some? && v.Str? && AsStrong(req.actor.value.authStrength, v.s))
    && (key == "delegationRequired" && v == Bool(true) ==> "delegation_id" in req.context)
  }

  ghost predicate WindowShaped(key: string, raw: Value, env: Env) {
    || ((key == "after" || key == "before") && raw.Str? && env.parseClock(raw.s).Some?)
    || (key == "daysOfWeek" && IsListing(raw))
  }

  /** Some condition, or some key of the window, means nothing. */
  ghost predicate SomeMalformed(rule: Rule, env: Env) {
    exists k :: k in rule.conditions &&
      (!WellShaped(k, rule.conditions[k])
       || (k == "timeWindow" && rule.conditions[k].Object? && WindowMalformed(rule.conditions[k].fields, env)))
  }

  ghost predicate WindowMalformed(fields: map<string, Value>, env: Env) {
    exists w :: w in fields && !WindowShaped(w, fields[w], env)
  }

  /** Some condition, or some key of the window, means something that is not so. */
  ghost predicate SomeUnmet(rule: Rule, req: Request, env: Env) {
    exists k :: k in rule.conditions && WellShaped(k, rule.conditions[k]) &&
      if k == "timeWindow" then WindowUnmet(rule.conditions[k].fields, env) else !Satisfied(k, rule.conditions[k], req)
  }

  ghost predicate WindowUnmet(fields: map<string, Value>, env: Env) {
    exists w :: w in fields && WindowShaped(w, fields[w], env) && !KeyHolds(w, fields[w], env)
  }

  // ----- resources

  ghost predicate SelectorShaped(s: Selector) {
    && (s.classificationMax == "" || exists i :: IsClass(s.classificationMax, i))
    && forall i :: 0 <= i < |s.environments| ==> s.environments[i] in ENVIRONMENTS
  }

  ghost predicate Selects(s: Selector, req: Request) {
    && (s.types == []
        || (req.resource.Some? && exists i :: 0 <= i < |s.types| && s.types[i] == req.resource.value.kind))
    && (s.classificationMax == ""
        || (req.resource.Some? && WithinClass(req.resource.value.classification, s.classificationMax)))
    && (s.environments == [] || exists i :: 0 <= i < |s.environments| && TakesPlaceIn(req, s.environments[i]))
    && (s.owners == [] || exists i :: 0 <= i < |s.owners| && OwnedBy(req, s.owners[i]))
  }

  // ----- constraints and obligations

  ghost predicate EntryMeans(key: string, v: Value) {
    || ((key == "maxRecords" || key == "timeWindowSeconds") && exists n :: Amounts(v, n))
    || (key == "readonly" && (v == Bool(true) || v == Bool(false)))
    || ((key == "redact" || key == "allowedFields") && IsListing(v) && exists f :: In(v, f))
    || (key == "expiresIn" && v.Str? && exists n :: n > 0 && Says(v.s, n))
  }

  ghost predicate EntryAllows(key: string, v: Value, a: Access) {
    && (key == "maxRecords" ==> exists n :: Amounts(v, n) && a.records <= n)
    && (key == "timeWindowSeconds" ==> exists n :: Amounts(v, n) && a.window <= n)
    && (key == "readonly" && v == Bool(true) ==> !a.writes)
    && (key == "redact" ==> forall f :: f in a.exposed ==> !In(v, f))
    && (key == "allowedFields" ==> forall f :: f in a.touched ==> In(v, f))
    && (key == "expiresIn" ==> v.Str? && exists n :: n > 0 && Says(v.s, n) && a.lifetime <= n)
  }

  /** The policy key that each key of an external backend stands for. */
  const ALIASES := map[
    "maxRecords" := "maxRecords", "max_records" := "maxRecords",
    "readonly" := "readonly", "readOnly" := "readonly", "read_only" := "readonly",
    "redact" := "redact", "redactFields" := "redact", "redact_fields" := "redact",
    "timeWindowSeconds" := "timeWindowSeconds", "time_window_seconds" := "timeWindowSeconds",
    "allowedFields" := "allowedFields", "allowed_fields" := "allowedFields",
    "expiresIn" := "expiresIn"]

  /** The two keys that give a lifetime in seconds, which policies do not have. */
  predicate GivesSeconds(key: string) { key == "expiresInSeconds" || key == "expires_in_seconds" }

  ghost predicate BackendMeans(key: string, v: Value) {
    if GivesSeconds(key) then exists n :: Amounts(v, n) else key in ALIASES && EntryMeans(ALIASES[key], v)
  }

  ghost predicate BackendAllows(key: string, v: Value, a: Access) {
    if GivesSeconds(key) then exists n :: Amounts(v, n) && a.lifetime <= n
    else key in ALIASES ==> EntryAllows(ALIASES[key], v, a)
  }

  ghost predicate ObligationMeans(key: string, v: Value) {
    || ((key == "audit" || key == "logFullRequest") && (v == Bool(true) || v == Bool(false)))
    || (key == "notify" && IsListing(v) && exists who :: In(v, who))
  }

  ghost predicate Honourable(rule: Rule) {
    && (forall k :: k in rule.constraints ==> EntryMeans(k, rule.constraints[k]))
    && (forall k :: k in rule.obligations ==> ObligationMeans(k, rule.obligations[k]))
  }

  // ----- rules

  /** The rule is about this request. */
  ghost predicate Concerns(rule: Rule, req: Request) {
    && SomeNames(rule.actions, req.action)
    && (rule.resources.Some? ==> SelectorShaped(rule.resources.value) && Selects(rule.resources.value, req))
  }

  ghost predicate Applies(rule: Rule, req: Request, env: Env) {
    Concerns(rule, req) && !SomeMalformed(rule, env) && !SomeUnmet(rule, req, env) && Honourable(rule)
  }

  /** Whatever order its maps are walked in, the rule stops the evaluation. */
  ghost predicate Stops(rule: Rule, req: Request, env: Env) {
    && SomeNames(rule.actions, req.action)
    && ( || (rule.resources.Some? && !SelectorShaped(rule.resources.value))
         || (Concerns(rule, req) && !SomeUnmet(rule, req, env) && (SomeMalformed(rule, env) || !Honourable(rule))))
  }

  /** It depends on the order whether the rule stops the evaluation or is skipped. */
  ghost predicate Wavers(rule: Rule, req: Request, env: Env) {
    Concerns(rule, req) && SomeUnmet(rule, req, env) && SomeMalformed(rule, env)
  }

  ghost predicate RuleAllows(rule: Rule, a: Access) {
    forall k :: k in rule.constraints ==> EntryAllows(k, rule.constraints[k], a)
  }

  predicate Forbids(rule: Rule, req: Request) {
    || rule.effect == DenyEffect
    || rule.effect == ApprovalEffect
    || (rule.effect == DelegationEffect && req.actor == None)
  }

  // ----- requests

  /** Some rule that applies says yes; no rule stops, denies or asks first; and every rule that
      says yes lets the access be. */
  ghost predicate PoliciesAllow(policies: seq<Policy>, req: Request, env: Env, a: Access) {
    && (exists i, j ::
          && 0 <= i < |policies| && 0 <= j < |policies[i].rules|
          && policies[i].rules[j].effect == AllowEffect && Applies(policies[i].rules[j], req, env))
    && (forall i, j :: 0 <= i < |policies| && 0 <= j < |policies[i].rules| ==>
          var r := policies[i].rules[j];
          && !Stops(r, req, env)
          && (Applies(r, req, env) ==> !Forbids(r, req) && (r.effect == AllowEffect ==> RuleAllows(r, a))))
  }

  ghost predicate SomeStops(policies: seq<Policy>, req: Request, env: Env) {
    exists i, j :: 0 <= i < |policies| && 0 <= j < |policies[i].rules| && Stops(policies[i].rules[j], req, env)
  }

  /** Some rule with this effect applies. */
  ghost predicate SomeApply(policies: seq<Policy>, req: Request, env: Env, effect: Effect) {
    exists i, j ::
      && 0 <= i < |policies| && 0 <= j < |policies[i].rules|
      && policies[i].rules[j].effect == effect && Applies(policies[i].rules[j], req, env)
  }

  ghost predicate SomeAllowIsConstrained(policies: seq<Policy>, req: Request, env: Env) {
    exists i, j ::
      && 0 <= i < |policies| && 0 <= j < |policies[i].rules|
      && policies[i].rules[j].effect == AllowEffect && Applies(policies[i].rules[j], req, env)
      && policies[i].rules[j].constraints != map[]
  }

  /** The kind of decision the policies mean. */
  ghost function KindMeant(policies: seq<Policy>, req: Request, env: Env): DecisionKind {
    if SomeStops(policies, req, env) then Deny
    else if SomeApply(policies, req, env, DenyEffect) then Deny
    else if req.actor == None && SomeApply(policies, req, env, DelegationEffect) then Deny
    else if SomeApply(policies, req, env, ApprovalEffect) then RequireApproval
    else if !SomeApply(policies, req, env, AllowEffect) then Deny
    else if SomeAllowIsConstrained(policies, req, env) then AllowConstrained
    else Allow
  }

  ghost predicate NoneWavers(policies: seq<Policy>, req: Request, env: Env) {
    forall i, j :: 0 <= i < |policies| && 0 <= j < |policies[i].rules| ==> !Wavers(policies[i].rules[j], req, env)
  }

  /** A registered agent, neither revoked nor suspended, with a capability for the action. */
  ghost predicate AgentMay(agent: Fetch<Option<Agent>>, req: Request) {
    && req.agentID != "" && req.action != ""
    && agent.Found? && agent.value.Some?
    && agent.value.value.status.state != Revoked && agent.value.value.status.state != Suspended
    && SomeNames(agent.value.value.capabilities, req.action)
  }

  /** A request made on a delegation stays within its scope. */
  ghost predicate WithinDelegation(req: Request) {
    "delegation_id" in req.context ==>
      && "delegation_scope" in req.context && IsListing(req.context["delegation_scope"])
      && (In(req.context["delegation_scope"], "*") || In(req.context["delegation_scope"], req.action))
  }

  /** A backend that allows, in terms that mean something, and lets the access be. */
  ghost predicate BackendLets(reply: Reply, a: Access) {
    && reply.Result?
    && (reply.kind == Allow || (reply.kind == AllowConstrained && reply.constraints != map[]))
    && forall k :: k in reply.constraints ==>
         BackendMeans(k, reply.constraints[k]) && BackendAllows(k, reply.constraints[k], a)
  }

  /** The policy is for this agent: for all, for it by name, for its type or its namespace. */
  predicate IsFor(s: PolicySubject, a: Agent) {
    || s.allAgents
    || s.agent == "agent://" + a.namespace + "/" + a.name
    || (s.agentType == a.agentType && a.agentType != "")
    || (s.agentNamespace == a.namespace && a.namespace != "")
  }

  /** What a request for approval names. */
  ghost predicate AsksAs(approval: Option<Approval>, ref: Option<ApprovalRef>) {
    match approval
    case None => ref == None
    case Some(x) =>
      && ref.Some? && ref.value.approvers == x.approvers
      && (x.expiresIn == "" ==> ref.value.expiresInSeconds == 0)
      && forall n :: n > 0 && Says(x.expiresIn, n) ==> ref.value.expiresInSeconds == n
  }
}
