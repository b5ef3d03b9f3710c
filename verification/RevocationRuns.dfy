/** Revocation over whole runs. */
module RevocationRuns {
  import opened Model
  import opened Text
  import opened Rules
  import opened Evaluator
  import opened Registries
  import opened Sessions
  import opened TokenValidation
  import Replay
  import opened Grant
  import opened ServerRuns
  import opened GrantRuns
  import opened Provenance

  // ----- revocation

  /** The actions that can bring a blocked agent back. */
  predicate Unblocks(a: Action, id: string) {
    || (a.RegisterAgent? && a.agent.ID() == id && !a.agent.IsBlocked())
    || (a.SetStatus? && a.id == id && a.status.state != Revoked && a.status.state != Suspended)
  }

  /** Only an agent that passes every gate gets an answer other than deny. */
  ghost predicate Gated(m: Machine) {
    forall reg, req, ins, dec :: m.decides(reg, req, ins, dec) && dec.kind != Deny ==> PassesGates(req, ins.agent)
  }

  predicate PassesGates(req: Request, agent: Fetch<Option<Agent>>) {
    agent.Found? && agent.value.Some? && !agent.value.value.IsBlocked() && MayAsk(req, agent.value.value)
  }

  lemma EvaluatorIsGated(m: Machine)
    requires UsesEvaluator(m)
    ensures Gated(m)
  {
    forall reg, req, ins, dec | m.decides(reg, req, ins, dec) && dec.kind != Deny
      ensures PassesGates(req, ins.agent)
    {
      assert Evaluates(req, ins, dec);
    }
  }

  /** A request for the agent that can still get a grant: its lookup passed every gate, or it
      was decided to allow. */
  predicate CanStillGrant(c: Call, id: string) {
    match c
    case Looked(_, req, agent) => req.agentID == id && PassesGates(req, agent)
    case Decided(_, req, _, _, dec) => req.agentID == id && dec.kind.Grants()
    case _ => false
  }

  predicate Pending(w: CallPart, id: string, call: nat) { call in w.calls && CanStillGrant(w.calls[call], id) }

  /** Since w, the agent got no verdict but deny and no grant, pending requests aside. */
  ghost predicate NoNewGrants(w: CallPart, t: CallPart, id: string) {
    && w.issued <= t.issued && w.verdicts <= t.verdicts
    && (forall c :: Pending(t, id, c) ==> Pending(w, id, c))
    && (forall k :: |w.verdicts| <= k < |t.verdicts| && t.verdicts[k].agentID == id ==>
          t.verdicts[k].kind == Deny || Pending(w, id, t.verdicts[k].call))
    && (forall k :: |w.issued| <= k < |t.issued| && t.issued[k].req.agentID == id ==> Pending(w, id, t.issued[k].call))
  }

  /** Since s, the agent got no session, creations that had looked it up before aside. */
  ghost predicate NoNewSessions(s: SessionPart, t: SessionPart, id: string) {
    && s.openings <= t.openings
    && (forall j :: j in t.joins && t.joins[j].agent.ID() == id ==> j in s.joins)
    && (forall k :: |s.openings| <= k < |t.openings| && t.openings[k].join.agent.ID() == id ==>
          t.openings[k].id in s.joins)
  }

  ghost predicate StaysBlocked(reg: Registry, id: string) {
    reg.Blocks(id) && forall k :: k in reg.agents ==> reg.agents[k].ID() == k
  }

  lemma StepStaysBlocked(reg: Registry, a: Action, id: string)
    requires StaysBlocked(reg, id) && !Unblocks(a, id)
    ensures StaysBlocked(StepRegistry(reg, a), id)
  {
  }

  lemma StepNoNewGrants(w: CallPart, t: CallPart, reg: Registry, sessions: map<string, Session>, now: int, a: Action,
                        id: string, m: Machine)
    requires NoNewGrants(w, t, id) && StaysBlocked(reg, id) && Gated(m)
    ensures NoNewGrants(w, StepCalls(t, reg, sessions, now, a, m), id)
  {
  }

  lemma StepNoNewSessions(s: SessionPart, t: SessionPart, reg: Registry, now: int, a: Action, id: string, m: Machine)
    requires NoNewSessions(s, t, id) && StaysBlocked(reg, id)
    ensures NoNewSessions(s, StepSessions(t, reg, now, a, m), id)
  {
  }

  /** Revocation over runs: from a state in which the agent is revoked, suspended or removed,
      and as long as nothing brings it back, every evaluation that looks the agent up denies,
      and no grant and no session is created for it, live sessions notwithstanding, except by
      pending requests and by session creations that had looked it up before. */
  lemma {:induction false} RevocationHolds(w: World, actions: seq<Action>, id: string, m: Machine)
    requires UsesEvaluator(m)
    requires w.reg.Valid() && w.reg.Blocks(id)
    requires forall a :: a in actions ==> !Unblocks(a, id)
    ensures var t := RunFrom(w, actions, m);
            NoNewGrants(w.work, t.work, id) && NoNewSessions(w.sess, t.sess, id) && StaysBlocked(t.reg, id)
  {
    EvaluatorIsGated(m);
    if actions != [] {
      var n := |actions| - 1;
      assert actions[n] in actions && forall a :: a in actions[..n] ==> a in actions;
      RevocationHolds(w, actions[..n], id, m);
      var t := RunFrom(w, actions[..n], m);
      StepStaysBlocked(t.reg, actions[n], id);
      StepNoNewGrants(w.work, t.work, t.reg, t.sess.sessions, t.now, actions[n], id, m);
      StepNoNewSessions(w.sess, t.sess, t.reg, t.now, actions[n], id, m);
    }
  }

  /** A token for a blocked agent that still verifies was issued before the agent was blocked,
      or for a request that was pending then; and it stops verifying after its own expiry. */
  lemma RevokedTokensAreOld(before: seq<Action>, after: seq<Action>, id: string, m: Machine, token: string)
    requires UsesEvaluator(m) && FaithfulCodec(m.iss)
    requires Run(before, m).reg.Blocks(id)
    requires forall a :: a in after ==> !Unblocks(a, id)
    requires Unforged(m.iss, token, IssuedClaims(Run(before + after, m).work.issued))
    requires var v := Verify(m.iss, token, Run(before + after, m).now); v.Some? && v.value.subject == id
    ensures exists g ::
              && ProvenBy(before + after, m, token, g)
              && (g in Run(before, m).work.issued || Pending(Run(before, m).work, id, g.call))
  {
    var w := Run(before, m);
    var t := Run(before + after, m);
    RunAppends(INIT, before, after, m);
    RunKeepsRegistry(before, m);
    RevocationHolds(w, after, id, m);
    GrantProvenance(before + after, m, token);
    var g :| ProvenBy(before + after, m, token, g);
    OldOrPending(w.work, t.work, id, g);
  }

  lemma OldOrPending(w: CallPart, t: CallPart, id: string, g: Issued)
    requires NoNewGrants(w, t, id) && g in t.issued && g.req.agentID == id
    ensures g in w.issued || Pending(w, id, g.call)
  {
    var k :| 0 <= k < |t.issued| && t.issued[k] == g;
    if k < |w.issued| {
      assert w.issued[k] == g;
    }
  }

  // ----- exactly when a grant can still come

  /** These actions bring nothing back, and in them the agent gets a grant. */
  ghost predicate NewGrant(w: World, actions: seq<Action>, id: string, m: Machine) {
    && (forall a :: a in actions ==> !Unblocks(a, id))
    && var t := RunFrom(w, actions, m);
       exists k :: |w.work.issued| <= k < |t.work.issued| && t.work.issued[k].req.agentID == id
  }

  lemma {:induction false} ClearPolicies(w: World, m: Machine) returns (actions: seq<Action>)
    ensures forall a :: a in actions ==> a.DeletePolicy?
    ensures RunFrom(w, actions, m) == w.(reg := w.reg.(policies := map[]))
    decreases |w.reg.policies|
  {
    if w.reg.policies == map[] {
      actions := [];
    } else {
      var id :| id in w.reg.policies;
      var a := DeletePolicy(id);
      var t := Step(w, a, m);
      assert (w.reg.policies - {id}).Keys == w.reg.policies.Keys - {id};
      var rest := ClearPolicies(t, m);
      actions := [a] + rest;
      Snoc(w, [], a, m);
      assert [] + [a] == [a];
      RunAppends(w, [a], rest, m);
    }
  }

  function OpenPolicy(action: string): Policy {
    Policy("ns", "p", PolicySubject("", "", "", true), [PlainRule(action)])
  }

  /** What an evaluation may see on a registry with that one policy. */
  function OpenInputs(agent: Agent, req: Request, now: int, m: Machine): Inputs {
    var policy := OpenPolicy(req.action);
    PlainInputs(agent, policy, if m.hasBackend then Some(Agreeing(policy)) else None, EnvAt(now, m.parseClock))
  }

  lemma OpenDecides(reg: Registry, agent: Agent, req: Request, now: int, m: Machine)
    requires UsesEvaluator(m) && MayAsk(req, agent) && !agent.IsBlocked()
    requires reg.policies == map[OpenPolicy(req.action).ID() := OpenPolicy(req.action)]
    ensures var ins := OpenInputs(agent, req, now, m);
            Fits(ins, now, m) && m.decides(reg, req, ins, PlainDecision(req, OpenPolicy(req.action)))
  {
    var policy := OpenPolicy(req.action);
    var ins := OpenInputs(agent, req, now, m);
    PlainEvaluates(req, agent, policy, ins.backend, ins.env);
    assert reg.policies[policy.ID()] == policy;
    assert reg.ListsPoliciesFor(agent, [policy]);
    assert EvaluatesOn(reg, req, ins, PlainDecision(req, policy));
  }

  lemma IssueGrants(w: World, call: nat, m: Machine)
    requires call in w.work.calls && w.work.calls[call].Decided? && w.work.calls[call].dec.kind.Grants()
    requires forall c :: m.iss.encode(c).Some?
    ensures var t := Step(w, Issue(call), m);
            |t.work.issued| == |w.work.issued| + 1 && t.work.issued[|w.work.issued|].req == w.work.calls[call].req
  {
    var c := w.work.calls[call];
    assert Sign(m.iss, ClaimsFor(m.iss, GrantFor(c.req, c.dec), w.now)).Some?;
  }

  lemma DecideAllows(w: World, call: nat, ins: Inputs, dec: Decision, m: Machine)
    requires call in w.work.calls && w.work.calls[call].Looked? && ins.agent == w.work.calls[call].agent
    requires Fits(ins, w.now, m) && m.decides(w.reg, w.work.calls[call].req, ins, dec)
    ensures var t := Step(w, Decide(call, ins, dec), m);
            && call in t.work.calls && t.work.calls[call].Decided? && t.work.issued == w.work.issued
            && t.work.calls[call].req == w.work.calls[call].req && t.work.calls[call].dec == dec
  {
  }

  /** A request that passed its lookup is granted on a registry with the one open policy. */
  lemma OpenGrants(w: World, call: nat, m: Machine) returns (actions: seq<Action>)
    requires UsesEvaluator(m) && (forall c :: m.iss.encode(c).Some?)
    requires call in w.work.calls && w.work.calls[call].Looked?
    requires PassesGates(w.work.calls[call].req, w.work.calls[call].agent)
    requires var policy := OpenPolicy(w.work.calls[call].req.action); w.reg.policies == map[policy.ID() := policy]
    ensures NewGrant(w, actions, w.work.calls[call].req.agentID, m)
  {
    var c := w.work.calls[call];
    var ins := OpenInputs(c.agent.value.value, c.req, w.now, m);
    var decide := Decide(call, ins, PlainDecision(c.req, OpenPolicy(c.req.action)));
    OpenDecides(w.reg, c.agent.value.value, c.req, w.now, m);
    DecideAllows(w, call, ins, decide.dec, m);
    IssueGrants(Step(w, decide, m), call, m);
    actions := [decide, Issue(call)];
    TwoMore(w, [], decide, Issue(call), m);
    assert [] + actions == actions;
  }

  lemma DecidedGetsGrant(w: World, id: string, call: nat, m: Machine)
    requires (forall c :: m.iss.encode(c).Some?) && Pending(w.work, id, call) && w.work.calls[call].Decided?
    ensures NewGrant(w, [Issue(call)], id, m)
  {
    IssueGrants(w, call, m);
    Snoc(w, [], Issue(call), m);
    assert [] + [Issue(call)] == [Issue(call)];
  }

  lemma NewGrantLater(w: World, first: seq<Action>, last: seq<Action>, id: string, m: Machine)
    requires forall a :: a in first ==> !Unblocks(a, id)
    requires RunFrom(w, first, m).work == w.work && NewGrant(RunFrom(w, first, m), last, id, m)
    ensures NewGrant(w, first + last, id, m)
  {
    RunAppends(w, first, last, m);
  }

  lemma Clearing(w: World, open: Policy, id: string, m: Machine) returns (actions: seq<Action>)
    ensures forall a :: a in actions ==> !Unblocks(a, id)
    ensures RunFrom(w, actions, m) == w.(reg := w.reg.(policies := map[open.ID() := open]))
  {
    var clear := ClearPolicies(w, m);
    Snoc(w, clear, ApplyPolicy(open), m);
    actions := clear + [ApplyPolicy(open)];
  }

  /** A request decided to allow is granted at once; one that passed its lookup is granted once
      the policies have been replaced by one that allows it. */
  lemma PendingGetsGrant(w: World, id: string, call: nat, m: Machine) returns (actions: seq<Action>)
    requires UsesEvaluator(m) && (forall c :: m.iss.encode(c).Some?) && Pending(w.work, id, call)
    ensures NewGrant(w, actions, id, m)
  {
    if w.work.calls[call].Decided? {
      DecidedGetsGrant(w, id, call, m);
      actions := [Issue(call)];
    } else {
      var first := Clearing(w, OpenPolicy(w.work.calls[call].req.action), id, m);
      var last := OpenGrants(RunFrom(w, first, m), call, m);
      NewGrantLater(w, first, last, id, m);
      actions := first + last;
    }
  }

  /** Exactly when a blocked agent can still get a grant, whatever happens short of bringing it
      back: when a request for it is pending. */
  lemma NewGrantIff(w: World, id: string, m: Machine)
    requires UsesEvaluator(m) && (forall c :: m.iss.encode(c).Some?)
    requires w.reg.Valid() && w.reg.Blocks(id)
    ensures (exists actions :: NewGrant(w, actions, id, m)) <==> exists call :: Pending(w.work, id, call)
  {
    if actions :| NewGrant(w, actions, id, m) {
      RevocationHolds(w, actions, id, m);
    }
    if call :| Pending(w.work, id, call) {
      var actions := PendingGetsGrant(w, id, call, m);
    }
  }

  // ----- what was in flight when the revocation landed

  const REVOKED := AgentStatus(Revoked, 0, 0)

  function Arrival(agent: Agent): seq<Action> { [RegisterAgent(agent), Receive(RawJWT(Some(agent.ID())))] }

  function UntilRevoked(agent: Agent, req: Request): seq<Action> {
    Arrival(agent) + [LookUp(0, req, false), SetStatus(agent.ID(), REVOKED)]
  }

  lemma ArrivalIs(agent: Agent, m: Machine) returns (w: World)
    ensures w == Run(Arrival(agent), m)
    ensures w.reg == Registry(map[agent.ID() := agent], map[])
    ensures w.work.calls == map[0 := Received(if m.auth then Some(agent.ID()) else None)] && w.work.issued == []
  {
    TwoMore(INIT, [], RegisterAgent(agent), Receive(RawJWT(Some(agent.ID()))), m);
    assert [] + Arrival(agent) == Arrival(agent);
    assert agent.ID() != "";
    w := Run(Arrival(agent), m);
  }

  lemma PendingAtRevocation(agent: Agent, req: Request, m: Machine) returns (w: World)
    requires MayAsk(req, agent) && req.agentID == agent.ID() && !agent.IsBlocked()
    ensures w == Run(UntilRevoked(agent, req), m) && w.reg.Blocks(agent.ID()) && w.work.issued == []
    ensures Pending(w.work, agent.ID(), 0)
  {
    var v := ArrivalIs(agent, m);
    TwoMore(INIT, Arrival(agent), LookUp(0, req, false), SetStatus(agent.ID(), REVOKED), m);
    w := Run(UntilRevoked(agent, req), m);
  }

  /** A request that looked its agent up just before the revocation still gets a grant after
      it: decision and grant rest on what the lookup saw. */
  lemma GrantAfterRevocation(m: Machine, agent: Agent, req: Request)
    requires UsesEvaluator(m) && forall c :: m.iss.encode(c).Some?
    requires MayAsk(req, agent) && req.agentID == agent.ID() && !agent.IsBlocked()
    ensures var w := Run(UntilRevoked(agent, req), m);
            && w.reg.Blocks(agent.ID()) && w.work.issued == []
            && exists actions :: NewGrant(w, actions, agent.ID(), m)
  {
    var w := PendingAtRevocation(agent, req, m);
    var actions := PendingGetsGrant(w, agent.ID(), 0, m);
  }

  function UntilRevokedInJoin(agent: Agent, seen: Presented): seq<Action> {
    [RegisterAgent(agent), LookUpForSession(agent.ID(), seen)] + [SetStatus(agent.ID(), REVOKED)]
  }

  lemma JoinIsWaiting(agent: Agent, seen: Presented, m: Machine) returns (w: World)
    requires MayOpen(Found(Some(agent))) && seen.parses
    ensures w == Run(UntilRevokedInJoin(agent, seen), m) && w.reg.Blocks(agent.ID()) && w.now == 0
    ensures w.sess.joins == map[0 := Join(agent, 0, seen, Trying(0))]
    ensures w.sess.openings == [] && w.sess.sessions == map[] && w.sess.memory == Memory(map[], map[])
  {
    TwoMore(INIT, [], RegisterAgent(agent), LookUpForSession(agent.ID(), seen), m);
    assert [] + [RegisterAgent(agent), LookUpForSession(agent.ID(), seen)]
        == [RegisterAgent(agent), LookUpForSession(agent.ID(), seen)];
    Snoc(INIT, [RegisterAgent(agent), LookUpForSession(agent.ID(), seen)], SetStatus(agent.ID(), REVOKED), m);
    w := Run(UntilRevokedInJoin(agent, seen), m);
  }

  /** So does a session creation: it opens a session after the revocation, on a token that any
      binding without a replay section accepts. */
  lemma SessionAfterRevocation(m: Machine, agent: Agent, seen: Presented, at: Attempt)
    requires MayOpen(Found(Some(agent))) && seen.parses && agent.bindings[0].kind != "wimse"
    requires at.cacheNow == at.proofNow == at.markNow == 0
    requires Check(Memory(map[], map[]), agent.bindings[0], at, seen, m.limits).ok
    ensures var w := Run(UntilRevokedInJoin(agent, seen), m);
            var after := [TryBinding(0, at), OpenSession(0, "ags")];
            && w.reg.Blocks(agent.ID()) && w.sess.openings == []
            && (forall a :: a in after ==> !Unblocks(a, agent.ID()))
            && var t := RunFrom(w, after, m);
               |t.sess.openings| == 1 && t.sess.openings[0].session.agentID == agent.ID()
  {
    var w := JoinIsWaiting(agent, seen, m);
    var try, open := TryBinding(0, at), OpenSession(0, "ags");
    TwoMore(w, [], try, open, m);
    assert [] + [try, open] == [try, open];
    assert MayTry(w.sess, 0, at, w.now);
  }

  /** Such a token exists. */
  lemma SomeTokenPasses(b: IdentityBinding, seen: Presented, lim: Replay.Limits) returns (at: Attempt)
    requires b.kind == "oidc_client" && !HasPrefix(b.subject, "client_id:")
    ensures at.cacheNow == at.proofNow == at.markNow == 0
    ensures Check(Memory(map[], map[]), b, at, seen, lim).ok
  {
    var claims := TokenClaims(Some(0), [], b.subject, "", "", "", None, (issuer, audience) => true);
    var keys := [Key("k", "RS256", "sig")];
    at := Attempt([Some(keys)], (used: seq<Key>) => Some(claims), None, 0, 0, 0);
    assert Normalize(b, keys) == Some(keys);
    assert FirstUsable(b, at.fetches) == Some(keys);
  }
}
