/** Evaluate: the gates before the rules, and the external backend path. */
module Evaluator {
  import opened Model
  import opened ConstraintAlgebra
  import opened Rules
  import opened RuleEngine
  import opened Registries

  /** What an external policy backend answered. */
  datatype Reply =
    | Failure(failOpen: bool)
    | NoResult
    | Result(kind: DecisionKind, policyIDs: seq<string>, constraints: map<string, Value>,
             obligations: Option<Obligations>, approval: Option<ApprovalRef>)

  /** Everything one evaluation sees besides the request: the two store lookups, the backend's
      answer when one is configured, the clock, and the walks of the condition maps. */
  datatype Inputs = Inputs(
    agent: Fetch<Option<Agent>>,
    policies: Fetch<seq<Policy>>,
    backend: Option<Reply>,
    env: Env,
    orders: seq<seq<KeyOrder>>,
    decisionID: string)

  ghost predicate ValidInputs(ins: Inputs) {
    ins.policies.Found? ==> ArePolicyOrders(ins.orders, ins.policies.value)
  }

  /** A delegated request must name the action, or "*", in its delegation_scope. */
  predicate DelegationCovers(req: Request) {
    && "delegation_scope" in req.context
    && ToStrings(req.context["delegation_scope"]).Some?
    && var actions := ToStrings(req.context["delegation_scope"]).value;
       "*" in actions || req.action in actions
  }

  predicate AgentPasses(req: Request, agent: Fetch<Option<Agent>>) {
    && req.agentID != "" && req.action != ""
    && agent.Found? && agent.value.Some?
    && !agent.value.value.IsBlocked()
    && AnyCovers(agent.value.value.capabilities, req.action)
  }

  predicate PoliciesPass(req: Request, policies: Fetch<seq<Policy>>) {
    && policies.Found? && policies.value != []
    && ("delegation_id" in req.context ==> DelegationCovers(req))
  }

  predicate UsesBuiltin(backend: Option<Reply>) {
    backend.None? || (backend.value.Failure? && backend.value.failOpen)
  }

  /** A backend's answer that evaluateBackend passes on. */
  predicate Usable(reply: Reply) {
    && reply.Result? && !reply.kind.Unsupported?
    && ValidBackendMap(reply.constraints)
    && (reply.kind == AllowConstrained ==> reply.constraints != map[])
  }

  ghost predicate Refusal(dec: Decision) {
    dec.kind == Deny && dec.constraints.None? && dec.obligations.None? && dec.approval.None?
  }

  ghost predicate BackendConcludes(reply: Reply, dec: Decision) {
    if !Usable(reply) then Refusal(dec)
    else
      && dec.kind == (if reply.kind == Allow && reply.constraints != map[] then AllowConstrained else reply.kind)
      && dec.policyIDs == reply.policyIDs
      && (dec.constraints.None? <==> reply.constraints == map[])
      && (dec.constraints.Some? ==> BoundOf(dec.constraints.value) == MeetAll(BackendBounds(reply.constraints)))
      && dec.obligations == reply.obligations && dec.approval == reply.approval
  }

  /** The decisions Evaluate may return, field lists and policy ids taken as sets. */
  ghost predicate Evaluates(req: Request, ins: Inputs, dec: Decision)
    requires ValidInputs(ins)
  {
    && dec.decisionID == ins.decisionID && dec.requestID == req.requestID
    && if !AgentPasses(req, ins.agent) || !PoliciesPass(req, ins.policies) then Refusal(dec)
       else if UsesBuiltin(ins.backend) then
         Concludes(ScanPolicies(ins.policies.value, ins.orders, req, ins.env), dec)
       else BackendConcludes(ins.backend.value, dec)
  }

  /** Evaluate. */
  method Evaluate(req: Request, ins: Inputs) returns (dec: Decision)
    requires ValidInputs(ins)
    ensures Evaluates(req, ins, dec)
  {
    var base := Decision(ins.decisionID, req.requestID, Deny, [], None, None, None);
    if req.agentID == "" || req.action == "" { return base; }
    if ins.agent.StoreError? { return base; }
    if ins.agent.value.None? { return base; }
    var agent := ins.agent.value.value;
    if agent.status.state == Revoked { return base; }
    if agent.status.state == Suspended { return base; }
    if !AnyCovers(agent.capabilities, req.action) { return base; }
    if ins.policies.StoreError? { return base; }
    var policies := ins.policies.value;
    if policies == [] { return base; }
    if "delegation_id" in req.context && !DelegationCovers(req) { return base; }
    if ins.backend.Some? {
      var reply := ins.backend.value;
      if reply.Failure? && reply.failOpen {
        dec := EvaluateRules(base, req, policies, ins.env, ins.orders);
      } else {
        dec := EvaluateBackend(base, reply);
      }
    } else {
      dec := EvaluateRules(base, req, policies, ins.env, ins.orders);
    }
  }

  /** evaluateBackend, for an answer that is not a fail-open error. */
  method EvaluateBackend(base: Decision, reply: Reply) returns (dec: Decision)
    requires Refusal(base) && base.policyIDs == []
    ensures BackendConcludes(reply, dec)
    ensures dec.decisionID == base.decisionID && dec.requestID == base.requestID
  {
    if reply.Failure? || reply.NoResult? { return base; }
    if reply.kind.Unsupported? { return base; }
    var ok, constraints := ConstraintsFromBackendMap(reply.constraints);
    if !ok { return base.(policyIDs := reply.policyIDs); }
    var kind := reply.kind;
    if kind == Allow && constraints.Some? { kind := AllowConstrained; }
    if kind == AllowConstrained && constraints.None? { return base.(policyIDs := reply.policyIDs); }
    dec := base.(kind := kind, policyIDs := reply.policyIDs, constraints := constraints,
                 obligations := reply.obligations, approval := reply.approval);
  }

  // ----- what an allow means

  /** Whatever the backend answers, Evaluate only returns the six decisions it supports. */
  lemma AlwaysSupported(req: Request, ins: Inputs, dec: Decision)
    requires ValidInputs(ins) && Evaluates(req, ins, dec)
    ensures !dec.kind.Unsupported?
  {
  }

  /** No constraint a backend sends is ever lost: an access it did not intend is not let
      through, and a malformed map lets nothing through. */
  ghost predicate BackendGrants(reply: Reply, a: Access) {
    && Usable(reply) && reply.kind.Grants()
    && forall k :: k in reply.constraints ==> EntryPermits(BackendField(k).value, reply.constraints[k], a)
  }

  lemma BackendAccessIsExact(reply: Reply, dec: Decision, a: Access)
    requires BackendConcludes(reply, dec)
    ensures Grants(dec, a) <==> BackendGrants(reply, a)
  {
    if Usable(reply) {
      var m := reply.constraints;
      MeetAllPermits(BackendBounds(m), a);
      forall k | k in m
        ensures FieldBound(BackendField(k).value, m[k]) in BackendBounds(m)
        ensures Permits(FieldBound(BackendField(k).value, m[k]), a) <==> EntryPermits(BackendField(k).value, m[k], a)
      {
        FieldBoundPermits(BackendField(k).value, m[k], a);
      }
    }
  }

  /** Allow is sound for every backend, and complete: an access is let through only for a
      registered agent neither revoked nor suspended, with a covering capability, a matching
      policy and, for a delegated request, a covering scope; and then exactly when the rules,
      or the backend, grant it. Wavering rules can only take away. */
  lemma AllowIsExact(req: Request, ins: Inputs, dec: Decision, a: Access)
    requires ValidInputs(ins) && Evaluates(req, ins, dec)
    ensures Grants(dec, a) ==> AgentPasses(req, ins.agent) && PoliciesPass(req, ins.policies)
    ensures !UsesBuiltin(ins.backend) ==>
              (Grants(dec, a) <==>
                 AgentPasses(req, ins.agent) && PoliciesPass(req, ins.policies) && BackendGrants(ins.backend.value, a))
    ensures UsesBuiltin(ins.backend) && Grants(dec, a) ==>
              Granted(Flatten(ins.policies.value), ViewOf(req, ins.env), a)
    ensures && UsesBuiltin(ins.backend) && AgentPasses(req, ins.agent) && PoliciesPass(req, ins.policies)
            && Granted(Flatten(ins.policies.value), ViewOf(req, ins.env), a)
            && !SomeAre(Flatten(ins.policies.value), ViewOf(req, ins.env), Wavering)
            ==> Grants(dec, a)
  {
    if AgentPasses(req, ins.agent) && PoliciesPass(req, ins.policies) {
      if UsesBuiltin(ins.backend) {
        AccessIsExact(ins.policies.value, ins.orders, req, ins.env, dec, a);
      } else {
        BackendAccessIsExact(ins.backend.value, dec, a);
      }
    }
  }

  // ----- the state gate

  /** A status changes the answer to an allowed request exactly when it blocks the agent:
      pending review, or any unknown state, passes like active. */
  lemma StateGateIff(req: Request, ins: Inputs, before: Decision, agent: Agent, status: AgentStatus, after: Decision)
    requires ValidInputs(ins) && ins.agent == Found(Some(agent))
    requires Evaluates(req, ins, before) && before.kind.Grants()
    requires Evaluates(req, ins.(agent := Found(Some(agent.(status := status)))), after)
    ensures after.kind.Grants() <==> status.state != Revoked && status.state != Suspended
  {
    assert AnyCovers(agent.(status := status).capabilities, req.action);
  }

  function PlainRule(action: string): Rule { Rule(AllowEffect, [action], None, map[], map[], map[], None) }

  /** Every gate but the state gate passes. */
  predicate MayAsk(req: Request, agent: Agent) {
    && req.agentID != "" && req.action != "" && AnyCovers(agent.capabilities, req.action)
    && ("delegation_id" in req.context ==> DelegationCovers(req))
  }

  /** The simplest case: one policy with one unconditional rule. */
  predicate AsksPlainly(req: Request, agent: Agent, policy: Policy) {
    MayAsk(req, agent) && policy.rules == [PlainRule(req.action)]
  }

  function PlainInputs(agent: Agent, policy: Policy, backend: Option<Reply>, env: Env): Inputs {
    Inputs(Found(Some(agent)), Found([policy]), backend, env, [[KeyOrder([], [])]], "d")
  }

  /** A backend that allows without constraints. */
  function Agreeing(policy: Policy): Reply { Result(Allow, [policy.ID()], map[], None, None) }

  function PlainDecision(req: Request, policy: Policy): Decision {
    Decision("d", req.requestID, Allow, [policy.ID()], None, None, None)
  }

  lemma PlainScan(req: Request, policy: Policy, env: Env)
    requires policy.rules == [PlainRule(req.action)]
    ensures var orders := [[KeyOrder([], [])]];
            && ArePolicyOrders(orders, [policy])
            && ScanPolicies([policy], orders, req, env) == Tally([], [], [Matched(policy.ID(), PlainRule(req.action))])
  {
    var r, orders, m := PlainRule(req.action), [KeyOrder([], [])], Matched(policy.ID(), PlainRule(req.action));
    var entries, outcomes := EntriesOf(policy), Outcomes(EntriesOf(policy), orders, req, env);
    assert IsKeyOrder(orders[0], r);
    assert req.action in r.actions && Covers(req.action, req.action);
    assert RuleOutcome(r, req, env, orders[0]) == Match;
    assert entries == [m] && outcomes == [Match] && entries[..0] == [] && outcomes[..0] == [];
    assert ScanFrom(Tally([], [], []), entries, outcomes, req.actor.None?) == Tally([], [], [] + [m]);
    assert [policy][..0] == [] && [orders][..0] == [];
  }

  lemma PlainConcludes(req: Request, policy: Policy)
    ensures Concludes(Tally([], [], [Matched(policy.ID(), PlainRule(req.action))]), PlainDecision(req, policy))
  {
    var m := Matched(policy.ID(), PlainRule(req.action));
    assert m in [m];
  }

  /** Such a request is allowed whatever the agent's state, pending review included, unless it
      is revoked or suspended. */
  lemma PlainIsAllowedIff(req: Request, agent: Agent, policy: Policy, backend: Option<Reply>, env: Env, dec: Decision)
    requires AsksPlainly(req, agent, policy) && UsesBuiltin(backend)
    requires ValidInputs(PlainInputs(agent, policy, backend, env))
    requires Evaluates(req, PlainInputs(agent, policy, backend, env), dec)
    ensures dec.kind == if agent.status.state == Revoked || agent.status.state == Suspended then Deny else Allow
  {
    PlainScan(req, policy, env);
  }

  lemma PlainEvaluates(req: Request, agent: Agent, policy: Policy, backend: Option<Reply>, env: Env)
    requires AsksPlainly(req, agent, policy) && !agent.IsBlocked()
    requires UsesBuiltin(backend) || backend == Some(Agreeing(policy))
    ensures ValidInputs(PlainInputs(agent, policy, backend, env))
    ensures Evaluates(req, PlainInputs(agent, policy, backend, env), PlainDecision(req, policy))
  {
    PlainScan(req, policy, env);
    PlainConcludes(req, policy);
  }

  /** A concrete agent under review whose request is allowed. */
  lemma PendingIsAllowed(env: Env, dec: Decision)
    requires var agent := Agent("ns", "a", "", ["read"], [], AgentStatus(PendingReview, 0, 0));
             var req := Request("r", agent.ID(), None, "read", None, map[], "");
             var policy := Policy("ns", "p", PolicySubject(agent.ID(), "", "", false), [PlainRule("read")]);
             var ins := PlainInputs(agent, policy, None, env);
             ValidInputs(ins) && Evaluates(req, ins, dec)
    ensures dec.kind == Allow && !Agent("ns", "a", "", ["read"], [], AgentStatus(PendingReview, 0, 0)).IsActive()
  {
    var agent := Agent("ns", "a", "", ["read"], [], AgentStatus(PendingReview, 0, 0));
    var req := Request("r", agent.ID(), None, "read", None, map[], "");
    var policy := Policy("ns", "p", PolicySubject(agent.ID(), "", "", false), [PlainRule("read")]);
    assert Covers(req.action, req.action) && req.action in agent.capabilities;
    PlainIsAllowedIff(req, agent, policy, None, env, dec);
  }

  // ----- the registry behind the lookups

  /** dec is what Evaluate may return on a registry, on whatever lookup it made before. */
  ghost predicate EvaluatesOn(reg: Registry, req: Request, ins: Inputs, dec: Decision) {
    && ValidInputs(ins) && Evaluates(req, ins, dec)
    && (ins.agent.Found? && ins.agent.value.Some? && ins.policies.Found? ==>
          reg.ListsPoliciesFor(ins.agent.value.value, ins.policies.value))
  }

  /** The inputs an evaluation against a registry sees. */
  ghost predicate Reads(reg: Registry, req: Request, ins: Inputs) {
    && ins.agent == Found(reg.GetAgent(req.agentID))
    && (ins.agent.value.Some? ==>
          ins.policies.Found? && reg.ListsPoliciesFor(ins.agent.value.value, ins.policies.value))
  }

  /** Once a request is allowed, applying a policy under a new id never lets through an
      access that was not let through before, whatever the policy says. */
  lemma NewPolicyNeverWidens(reg: Registry, p: Policy, req: Request, ins: Inputs, before: Decision,
                             more: Inputs, after: Decision, a: Access)
    requires p.ID() !in reg.policies
    requires ValidInputs(ins) && Reads(reg, req, ins) && Evaluates(req, ins, before)
    requires ValidInputs(more) && Reads(reg.AddPolicy(p), req, more) && Evaluates(req, more, after)
    requires ins.backend.None? && more.backend.None? && more.env == ins.env
    requires before.kind.Grants()
    ensures Grants(after, a) ==> Grants(before, a)
  {
    assert AgentPasses(req, ins.agent) && PoliciesPass(req, ins.policies);
    if Grants(after, a) {
      var ps, qs := ins.policies.value, more.policies.value;
      var grown := reg.AddPolicy(p);
      forall e | e in Flatten(ps)
        ensures e in Flatten(qs)
      {
        FlattenMembers(ps, e);
        var q :| q in ps && e in EntriesOf(q);
        var id :| id in reg.policies && reg.policies[id] == q && q.MatchesAgent(ins.agent.value.value);
        assert id in grown.policies && grown.policies[id] == q;
        FlattenMembers(qs, e);
      }
      AddingRulesNeverWidens(ps, ins.orders, before, qs, more.orders, after, req, ins.env, a);
    }
  }
}
