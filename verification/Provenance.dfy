/** Where every token that verifies comes from, and what it may be used for. */
module Provenance {
  import opened Model
  import Rules
  import opened RuleEngine
  import opened Registries
  import opened ConstraintAlgebra
  import opened Evaluator
  import opened Sessions
  import opened Grant
  import opened TokenAccess
  import opened ServerRuns
  import opened SessionRuns
  import opened GrantRuns

  ghost function IssuedClaims(issued: seq<Issued>): seq<Claims> {
    seq(|issued|, i requires 0 <= i < |issued| => issued[i].claims)
  }

  /** A verified token speaks for exactly this grant. */
  ghost predicate Speaks(c: Claims, g: Issued) {
    && c == JsonImage(g.claims)
    && c.subject == g.req.agentID && c.action == g.req.action && c.decision == g.dec.kind
    && (g.req.resource.Some? ==> c.resourceType == g.req.resource.value.kind && c.resourceID == g.req.resource.value.id)
  }

  lemma TokenWasIssued(m: Machine, token: string, now: int, issued: seq<Issued>)
    requires FaithfulCodec(m.iss) && Unforged(m.iss, token, IssuedClaims(issued)) && Verify(m.iss, token, now).Some?
    ensures exists g ::
              && g in issued && Verify(m.iss, token, now) == Some(JsonImage(g.claims))
              && Unix(now) <= g.claims.expiresAt
  {
    VerifiedWasIssued(m.iss, token, now, IssuedClaims(issued));
    var c :| c in IssuedClaims(issued) && Verify(m.iss, token, now) == Some(JsonImage(c)) && Unix(now) <= c.expiresAt;
    var i :| 0 <= i < |issued| && IssuedClaims(issued)[i] == c;
    assert issued[i] in issued;
  }

  // ----- what a grant may be used for

  /** Every gate passed, and the rules or the backend granted the access, its fields aside when
      they left none in common. */
  ghost predicate Warrants(g: Issued, a: Access) {
    && AgentPasses(g.req, g.ins.agent) && PoliciesPass(g.req, g.ins.policies)
    && if UsesBuiltin(g.ins.backend) then
         var all, v := Flatten(g.ins.policies.value), ViewOf(g.req, g.ins.env);
         Granted(all, v, Judged(NoCommonLive(all, v), a))
       else
         var reply := g.ins.backend.value;
         Usable(reply) && BackendGrants(reply, Judged(NoCommonEntry(reply.constraints), a))
  }

  lemma TokenStaysWithin(iss: Issuer, g: Issued, a: Access)
    requires EvaluatesOn(g.reg, g.req, g.ins, g.dec) && g.dec.kind.Grants()
    requires g.claims == ClaimsFor(iss, GrantFor(g.req, g.dec), g.at)
    ensures Lets(JsonImage(g.claims), a) ==> Warrants(g, a)
  {
    if UsesBuiltin(g.ins.backend) {
      TokenAccessIsExact(g.ins.policies.value, g.ins.orders, g.req, g.ins.env, g.dec,
                         iss, GrantFor(g.req, g.dec), g.at, a);
    } else {
      BackendTokenIsExact(g.ins.backend.value, g.dec, iss, GrantFor(g.req, g.dec), g.at, a);
    }
  }

  // ----- provenance

  /** g is what the token was issued for, and its whole story is in the run. */
  ghost predicate ProvenBy(actions: seq<Action>, m: Machine, token: string, g: Issued) {
    var w := Run(actions, m);
    && g in w.work.issued && WasIssued(actions, |actions|, g, m)
    && Unix(w.now) <= g.claims.expiresAt
    && Verify(m.iss, token, w.now).Some?
    && var c := Verify(m.iss, token, w.now).value;
       Speaks(c, g) && forall a :: Lets(c, a) ==> Warrants(g, a)
  }

  /** Over every run: a token that verifies was issued in it; its request arrived with a bearer
      that resolved to the verified identity, was looked up as the store held the agent, and
      was decided by Evaluate on the policies of that moment; it speaks for exactly that agent,
      action and resource, lets nothing through that was not granted, and has not expired. */
  lemma GrantProvenance(actions: seq<Action>, m: Machine, token: string)
    requires UsesEvaluator(m) && FaithfulCodec(m.iss)
    requires Unforged(m.iss, token, IssuedClaims(Run(actions, m).work.issued))
    requires Verify(m.iss, token, Run(actions, m).now).Some?
    ensures exists g :: ProvenBy(actions, m, token, g)
  {
    var w := Run(actions, m);
    assert actions[..|actions|] == actions;
    RunKeepsStories(actions, |actions|, m);
    TokenWasIssued(m, token, w.now, w.work.issued);
    var g :| g in w.work.issued && Verify(m.iss, token, w.now) == Some(JsonImage(g.claims))
             && Unix(w.now) <= g.claims.expiresAt;
    assert WasIssued(actions, |actions|, g, m);
    StoryHasSteps(actions, |actions|, g, m);
    forall a
      ensures Lets(JsonImage(g.claims), a) ==> Warrants(g, a)
    {
      TokenStaysWithin(m.iss, g, a);
    }
    assert ProvenBy(actions, m, token, g);
  }

  lemma StoryHasSteps(actions: seq<Action>, n: nat, g: Issued, m: Machine)
    requires UsesEvaluator(m) && n <= |actions| && WasIssued(actions, n, g, m)
    ensures EvaluatesOn(g.reg, g.req, g.ins, g.dec) && g.dec.kind.Grants()
    ensures g.claims == ClaimsFor(m.iss, GrantFor(g.req, g.dec), g.at)
    ensures g.verified.Some? ==> g.req.agentID == g.verified.value
    ensures exists k :: 0 <= k < n && ReceivedAt(actions, k, g.call, g.verified, m)
    ensures exists j :: 0 <= j < n && DecidedAt(actions, j, g.call, g.req, g.reg, g.ins, g.dec, m)
  {
    var l :| 0 <= l < n && WasDecided(actions, l, g.call, g.verified, g.req, g.reg, g.ins, g.dec, m)
             && IssuedAt(actions, l, g, m);
    var j :| 0 <= j < l && WasLookedUp(actions, j, g.call, g.verified, g.req, g.ins.agent, m)
             && DecidedAt(actions, j, g.call, g.req, g.reg, g.ins, g.dec, m);
    var i :| 0 <= i < j && Arrived(actions, i, g.call, g.verified, m)
             && LookedAt(actions, i, g.call, g.verified, g.req, g.ins.agent, m);
    var k :| 0 <= k < i && ReceivedAt(actions, k, g.call, g.verified, m);
  }

  // ----- servers without a backend

  /** The agent passes, and the rules of its policies in the registry grant the access by that
      clock, its fields aside when the rules left none in common. */
  ghost predicate GrantedOn(reg: Registry, env: Rules.Env, req: Request, agent: Agent, a: Access) {
    && AgentPasses(req, Found(Some(agent)))
    && exists policies ::
         && reg.ListsPoliciesFor(agent, policies) && PoliciesPass(req, Found(policies))
         && RulesGrant(policies, ViewOf(req, env), a)
  }

  ghost predicate RulesGrant(policies: seq<Policy>, v: View, a: Access) {
    Granted(Flatten(policies), v, Judged(NoCommonLive(Flatten(policies), v), a))
  }

  lemma WarrantIsOnRules(g: Issued, a: Access)
    requires EvaluatesOn(g.reg, g.req, g.ins, g.dec) && g.ins.backend.None? && Warrants(g, a)
    ensures g.ins.agent.Found? && g.ins.agent.value.Some?
    ensures GrantedOn(g.reg, g.ins.env, g.req, g.ins.agent.value.value, a)
  {
    assert RulesGrant(g.ins.policies.value, ViewOf(g.req, g.ins.env), a);
  }

  /** Without a backend, whatever a verified token lets through was granted by the rules that
      were stored when its decision was reached, within their time windows at that moment. */
  lemma RulesGrantedIt(actions: seq<Action>, m: Machine, token: string, g: Issued, a: Access)
    requires UsesEvaluator(m) && !m.hasBackend && ProvenBy(actions, m, token, g)
    requires Lets(Verify(m.iss, token, Run(actions, m).now).value, a)
    ensures g.ins.agent.Found? && g.ins.agent.value.Some?
    ensures exists j ::
              && 0 <= j < |actions| && actions[j] == Decide(g.call, g.ins, g.dec)
              && var w := At(actions, j, m);
                 GrantedOn(w.reg, Rules.EnvAt(w.now, m.parseClock), g.req, g.ins.agent.value.value, a)
  {
    StoryHasSteps(actions, |actions|, g, m);
    var j :| 0 <= j < |actions| && DecidedAt(actions, j, g.call, g.req, g.reg, g.ins, g.dec, m);
    WarrantIsOnRules(g, a);
  }

  // ----- who vouched for the agent

  /** At step k a request arrived whose bearer vouched for the agent: a JWT of the issuer, or a
      live session that a creation opened for the agent when it was active and had a token
      that passed. */
  ghost predicate VouchedAt(actions: seq<Action>, k: nat, agentID: string, m: Machine)
    requires k < |actions|
  {
    && actions[k].Receive?
    && match actions[k].bearer
       case NoToken => false
       case RawJWT(vouched) => vouched == Some(agentID) && agentID != ""
       case SessionToken(id) => exists o :: OpenedBy(actions, k, id, agentID, o, m)
  }

  lemma BearerVouches(actions: seq<Action>, k: nat, call: nat, verified: Option<string>, m: Machine)
    requires k < |actions| && m.auth && ReceivedAt(actions, k, call, verified, m)
    ensures VouchedAt(actions, k, verified.value, m)
  {
    if actions[k].bearer.SessionToken? {
      SessionIdentity(actions, k, m, actions[k].bearer.id);
    }
  }

  /** With auth on, the subject of every token that verifies was vouched for, in this run. */
  lemma SubjectWasVouched(actions: seq<Action>, m: Machine, token: string, g: Issued)
    requires UsesEvaluator(m) && m.auth && ProvenBy(actions, m, token, g)
    ensures exists k ::
              0 <= k < |actions| && VouchedAt(actions, k, Verify(m.iss, token, Run(actions, m).now).value.subject, m)
  {
    StoryHasSteps(actions, |actions|, g, m);
    var k :| 0 <= k < |actions| && ReceivedAt(actions, k, g.call, g.verified, m);
    BearerVouches(actions, k, g.call, g.verified, m);
  }
}
