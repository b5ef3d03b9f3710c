/** The HTTP handlers, each as one uninterrupted call, and how such a call fits a run. */
module Handlers {
  import opened Model
  import Text
  import Rules
  import RuleEngine
  import opened Evaluator
  import opened Registries
  import opened MemoryStore
  import opened Grant
  import opened Metrics
  import opened Audit
  import opened ServerRuns

  datatype GrantRef = GrantRef(grantID: string, token: string, expiresInSeconds: int)

  datatype Response = Response(decision: Decision, grant: Option<GrantRef>)

  /** The grant a decision comes with: only an allow has one, and only if its claims encode. */
  function GrantRefFor(iss: Issuer, req: Request, dec: Decision, at: int): Option<GrantRef> {
    match if dec.kind.Grants() then IssueScoped(iss, GrantFor(req, dec), at) else None
    case None => None
    case Some(token) => Some(GrantRef(dec.decisionID, token, EffectiveTTLSeconds(iss, dec)))
  }

  /** constraintsToAuditMap: the constraints that are set, nothing when none is. */
  function AuditConstraints(c: Option<Constraints>): Option<Constraints> {
    if c == Some(NO_CONSTRAINTS) then None else c
  }

  function EventID(nanos: int): string {
    "evt-" + if nanos >= 0 then Text.Decimal(nanos) else "-" + Text.Decimal(-nanos)
  }

  /** The run that the context names, if it names one. */
  predicate RunsIn(req: Request, runID: string) {
    if "run_id" in req.context && req.context["run_id"].Str? then req.context["run_id"] == Str(runID) else runID == ""
  }

  /** The audit record of an answer: who asked for what, and what came of it. */
  ghost predicate Records(e: Event, req: Request, answer: Response, at: int) {
    && e.timestamp == at && e.decision == answer.decision.kind
    && e.subject == Some(EventSubject(req.agentID, req.instanceID))
    && e.action == req.action && e.requestID == req.requestID
    && (e.actor.Some? <==> req.actor.Some?)
    && (e.actor.Some? ==> e.actor.value == EventActor(req.actor.value.kind, req.actor.value.id))
    && (e.resource.Some? <==> req.resource.Some?)
    && (e.resource.Some? ==>
          var r := req.resource.value; e.resource.value == EventResource(r.kind, r.id, r.classification))
    && RunsIn(req, e.runID)
    && e.constraints == (if answer.decision.constraints == Some(NO_CONSTRAINTS) then None
                         else answer.decision.constraints)
    && e.policyIDs == answer.decision.policyIDs
    && e.grantID == if answer.grant.Some? then answer.grant.value.grantID else ""
  }

  /** What one authorize call meets from outside: the backend's answer when one is configured,
      a fresh decision id, the clock at each reading, whether the sink refuses the event, and
      the time between entry and exit. */
  datatype Met = Met(
    backend: Option<Reply>, decisionID: string, decidedAt: int, issuedAt: int, idAt: int, auditedAt: int, refused: bool,
    took: nat)

  /** Exactly one event was appended, and it records this answer. */
  ghost predicate Logs(before: seq<Event>, after: seq<Event>, req: Request, answer: Response, met: Met) {
    && |after| == |before| + 1 && before <= after
    && Records(after[|before|], req, answer, met.auditedAt)
    && (met.idAt >= 0 ==> after[|before|].eventID == "evt-" + Text.Decimal(met.idAt))
    && (met.idAt < 0 ==> after[|before|].eventID == "evt--" + Text.Decimal(-met.idAt))
  }

  /** The decision is one that Evaluate may reach on this registry with this backend's answer
      and by this clock, and the grant is its. */
  ghost predicate AnswersOn(reg: Registry, req: Request, ins: Inputs, answer: Response, iss: Issuer, met: Met,
                            parseClock: string -> Option<int>) {
    && Reads(reg, req, ins) && EvaluatesOn(reg, req, ins, answer.decision)
    && ins.backend == met.backend && ins.env == Rules.EnvAt(met.decidedAt, parseClock)
    && answer.grant == GrantRefFor(iss, req, answer.decision, met.issuedAt)
  }

  function CountedInvalid(c: Counters, invalid: bool): Counters {
    if invalid then c.(invalid := c.invalid + 1) else c
  }

  /** One authorize request that got the given verdict, or none. */
  function Counted(c: Counters, kind: Option<DecisionKind>): Counters {
    CountedInvalid(c.(requests := c.requests + 1), kind.None?).Record(kind)
  }

  class Server {
    const store: Store
    const iss: Issuer
    const sink: MemorySink
    const metrics: ServerMetrics
    const hasBackend: bool
    const parseClock: string -> Option<int>

    constructor (store: Store, iss: Issuer, sink: MemorySink, metrics: ServerMetrics, hasBackend: bool,
                 parseClock: string -> Option<int>)
      ensures this.store == store && this.iss == iss && this.sink == sink && this.metrics == metrics
      ensures this.hasBackend == hasBackend && this.parseClock == parseClock
    {
      this.store, this.iss, this.sink, this.metrics := store, iss, sink, metrics;
      this.hasBackend, this.parseClock := hasBackend, parseClock;
    }

    predicate Meets(met: Met) { met.backend.Some? <==> hasBackend }

    /** handleAuthorize: body is the decoded request or None, verified the identity that wrap
        put into the context, reg the content of the store. */
    method HandleAuthorize(body: Option<Request>, verified: Option<string>, met: Met, ghost reg: Registry)
      returns (answer: Option<Response>, ghost ins: Inputs)
      requires store.Valid() && reg == store.Contents() && Meets(met)
      modifies metrics, sink
      ensures answer.Some? <==> body.Some?
      ensures metrics.Snapshot()
              == Counted(old(metrics.Snapshot()), if answer.Some? then Some(answer.value.decision.kind) else None)
      ensures metrics.authorizeLatencyNanos == old(metrics.authorizeLatencyNanos) + met.took
      ensures metrics.auditWriteErrors
              == old(metrics.auditWriteErrors) + if answer.Some? && met.refused then 1 else 0
      ensures answer.None? || met.refused ==> sink.events == old(sink.events)
      ensures answer.Some? ==>
                var req := Effective(body.value, verified);
                && AnswersOn(reg, req, ins, answer.value, iss, met, parseClock)
                && (!met.refused ==> Logs(old(sink.events), sink.events, req, answer.value, met))
    {
      metrics.CountRequest();
      answer, ins := Serve(body, verified, met, reg);
      metrics.RecordAuthorize(met.took, if answer.Some? then Some(answer.value.decision.kind) else None);
    }

    /** handleAuthorize between the request count and the deferred record. */
    method Serve(body: Option<Request>, verified: Option<string>, met: Met, ghost reg: Registry)
      returns (answer: Option<Response>, ghost ins: Inputs)
      requires store.Valid() && reg == store.Contents() && Meets(met)
      modifies metrics, sink
      ensures answer.Some? <==> body.Some?
      ensures metrics.Snapshot() == CountedInvalid(old(metrics.Snapshot()), answer.None?)
      ensures metrics.authorizeLatencyNanos == old(metrics.authorizeLatencyNanos)
      ensures metrics.auditWriteErrors
              == old(metrics.auditWriteErrors) + if answer.Some? && met.refused then 1 else 0
      ensures answer.None? || met.refused ==> sink.events == old(sink.events)
      ensures answer.Some? ==>
                var req := Effective(body.value, verified);
                && AnswersOn(reg, req, ins, answer.value, iss, met, parseClock)
                && (!met.refused ==> Logs(old(sink.events), sink.events, req, answer.value, met))
    {
      if body.None? {
        metrics.CountInvalid();
        return None, Inputs(StoreError, StoreError, None, Rules.EnvAt(0, parseClock), [], "");
      }
      var req := Effective(body.value, verified);
      var result;
      result, ins := Answer(req, met, reg);
      EmitAuditEvent(req, result, met);
      answer := Some(result);
    }

    /** The decision of handleAuthorize and its grant. */
    method Answer(req: Request, met: Met, ghost reg: Registry) returns (answer: Response, ghost seen: Inputs)
      requires store.Valid() && reg == store.Contents() && Meets(met)
      ensures AnswersOn(reg, req, seen, answer, iss, met, parseClock)
    {
      var ins := ReadInputs(req, met.backend, Rules.EnvAt(met.decidedAt, parseClock), met.decisionID);
      seen := ins;
      var dec := Evaluate(req, ins);
      var grant := IssueGrant(req, dec, met.issuedAt);
      answer := Response(dec, grant);
    }

    /** What Evaluate reads of the store, and some walk of the condition maps. */
    method ReadInputs(req: Request, backend: Option<Reply>, env: Rules.Env, decisionID: string) returns (ins: Inputs)
      requires store.Valid()
      ensures ValidInputs(ins) && Reads(store.Contents(), req, ins)
      ensures ins.backend == backend && ins.env == env && ins.decisionID == decisionID
    {
      var agent := store.GetAgent(req.agentID);
      if agent == null {
        return Inputs(Found(None), Found([]), backend, env, [], decisionID);
      }
      var policies := store.PoliciesForAgent(agent.Snapshot());
      var orders := WalkPolicies(policies);
      ins := Inputs(Found(Some(agent.Snapshot())), Found(policies), backend, env, orders, decisionID);
    }

    /** The grant part of handleAuthorize. */
    method IssueGrant(req: Request, dec: Decision, at: int) returns (grant: Option<GrantRef>)
      ensures grant == GrantRefFor(iss, req, dec, at)
    {
      if dec.kind != Allow && dec.kind != AllowConstrained { return None; }
      var kind, id := "", "";
      if req.resource.Some? { kind, id := req.resource.value.kind, req.resource.value.id; }
      var runID := Rules.ContextString(req, "run_id");
      var token := IssueScoped(iss, GrantRequest(req.agentID, req.action, kind, id, runID, dec), at);
      if token.None? { return None; }
      grant := Some(GrantRef(dec.decisionID, token.value, EffectiveTTLSeconds(iss, dec)));
    }

    /** emitAuditEvent: the clock is read once for the id and once for the timestamp. */
    method EmitAuditEvent(req: Request, answer: Response, met: Met)
      modifies sink, metrics`auditWriteErrors
      ensures metrics.Snapshot() == old(metrics.Snapshot())
      ensures metrics.authorizeLatencyNanos == old(metrics.authorizeLatencyNanos)
      ensures metrics.auditWriteErrors == old(metrics.auditWriteErrors) + if met.refused then 1 else 0
      ensures if met.refused then sink.events == old(sink.events)
              else Logs(old(sink.events), sink.events, req, answer, met)
    {
      var actor, resource, constraints, grantID := None, None, None, "";
      if req.actor.Some? { actor := Some(EventActor(req.actor.value.kind, req.actor.value.id)); }
      if req.resource.Some? {
        var r := req.resource.value;
        resource := Some(EventResource(r.kind, r.id, r.classification));
      }
      if answer.decision.constraints.Some? { constraints := AuditConstraints(answer.decision.constraints); }
      if answer.grant.Some? { grantID := answer.grant.value.grantID; }
      if met.refused {
        metrics.CountWriteError();
        return;
      }
      sink.Write(Event(EventID(met.idAt), met.auditedAt, answer.decision.kind,
                       Some(EventSubject(req.agentID, req.instanceID)), actor, req.action, resource, constraints,
                       grantID, req.requestID, Rules.ContextString(req, "run_id"), answer.decision.policyIDs));
    }

    /** handleValidateGrant. */
    method HandleValidateGrant(token: string, now: int) returns (claims: Option<Claims>)
      ensures claims == Verify(iss, token, now)
    {
      if token == "" { return None; }
      claims := Verify(iss, token, now);
    }

    /** handleRegisterAgent: a registration that names no state makes the agent active. */
    method HandleRegisterAgent(body: Option<Agent>, now: int) returns (ok: bool)
      requires store.Valid()
      modifies store
      ensures store.Valid()
      ensures ok <==> body.Some? && body.value.name != "" && body.value.namespace != ""
      ensures store.Contents()
              == if !ok then old(store.Contents())
                 else old(store.Contents()).Register(body.value.(status := AgentStatus(
                   if body.value.status.state == Unset then Active else body.value.status.state,
                   now, body.value.status.lastSeenAt)))
    {
      if body.None? { return false; }
      var agent := body.value;
      if agent.name == "" || agent.namespace == "" { return false; }
      var record := new AgentRecord(Registered(agent, now));
      ok := store.RegisterAgent(record);
    }
  }

  function Registered(agent: Agent, now: int): Agent {
    var state := if agent.status.state == Unset then Active else agent.status.state;
    agent.(status := agent.status.(state := state, registeredAt := now))
  }

  // ----- the walks Go makes of a rule's maps

  method WalkKeys(m: map<string, Value>) returns (order: seq<string>)
    ensures IsOrderOf(order, m.Keys)
  {
    order := [];
    var todo := m.Keys;
    while todo != {}
      invariant todo <= m.Keys && Elems(order) == m.Keys - todo
      invariant forall i, j :: 0 <= i < j < |order| ==> order[i] != order[j]
    {
      var k :| k in todo;
      assert k !in Elems(order);
      assert Elems(order + [k]) == Elems(order) + {k};
      order, todo := order + [k], todo - {k};
    }
  }

  method WalkRule(rule: Rule) returns (order: Rules.KeyOrder)
    ensures Rules.IsKeyOrder(order, rule)
  {
    var conditions := WalkKeys(rule.conditions);
    var window := [];
    if Rules.HasWindow(rule) { window := WalkKeys(Rules.WindowOf(rule)); }
    order := Rules.KeyOrder(conditions, window);
  }

  method WalkRules(rules: seq<Rule>) returns (orders: seq<Rules.KeyOrder>)
    ensures |orders| == |rules| && forall i :: 0 <= i < |rules| ==> Rules.IsKeyOrder(orders[i], rules[i])
  {
    orders := [];
    for i := 0 to |rules|
      invariant |orders| == i && forall j :: 0 <= j < i ==> Rules.IsKeyOrder(orders[j], rules[j])
    {
      var order := WalkRule(rules[i]);
      orders := orders + [order];
    }
  }

  method WalkPolicies(policies: seq<Policy>) returns (orders: seq<seq<Rules.KeyOrder>>)
    ensures RuleEngine.ArePolicyOrders(orders, policies)
  {
    orders := [];
    for i := 0 to |policies|
      invariant |orders| == i
      invariant forall j :: 0 <= j < i ==> RuleEngine.AreKeyOrders(orders[j], RuleEngine.EntriesOf(policies[j]))
    {
      var order := WalkRules(policies[i].rules);
      orders := orders + [order];
    }
  }

  // ----- what an answer promises

  /** A granted token is this issuer's and names exactly the verified agent, the action, the
      resource, the run, the decision and its policies and constraints, whenever it verifies;
      and it verifies for less than two seconds longer than the answer says, and from the first
      instant for at least as long, unless its lifetime wraps below zero. */
  lemma GrantRefIsHonest(iss: Issuer, req: Request, dec: Decision, at: int, now: int)
    requires FaithfulCodec(iss) && GrantRefFor(iss, req, dec, at).Some?
    ensures var ref := GrantRefFor(iss, req, dec, at).value;
            var read := Verify(iss, ref.token, now);
            && dec.kind.Grants() && ref.grantID == dec.decisionID
            && (read.Some? ==> Names(read.value, iss, req, dec, at) && now < at + (ref.expiresInSeconds + 2) * SECOND)
            && (EffectiveTTL(iss, dec) >= 0 && now <= at + ref.expiresInSeconds * SECOND ==> read.Some?)
  {
    var claims := ClaimsFor(iss, GrantFor(req, dec), at);
    VerifyUndoesSign(iss, claims, JsonImage(claims), now);
  }

  ghost predicate Names(c: Claims, iss: Issuer, req: Request, dec: Decision, at: int) {
    && c.issuer == iss.name && c.audience == "" && c.issuedAt == Unix(at)
    && c.subject == req.agentID && c.action == req.action && RunsIn(req, c.runID)
    && c.resourceType == (if req.resource.Some? then req.resource.value.kind else "")
    && c.resourceID == (if req.resource.Some? then req.resource.value.id else "")
    && c.jwtID == dec.decisionID && c.requestID == dec.requestID
    && c.decision == dec.kind && c.policyIDs == dec.policyIDs
    && c.constraints == if dec.constraints.Some? then Some(JsonConstraints(dec.constraints.value)) else None
  }

  /** Without a positive lifetime in its constraints, a granted token verifies at exactly the
      instants up to the end of the second in which the issuer's default has passed, and the
      answer announces that default, cut to seconds. */
  lemma DefaultGrantLasts(iss: Issuer, req: Request, dec: Decision, at: int, now: int)
    requires FaithfulCodec(iss) && GrantRefFor(iss, req, dec, at).Some?
    requires dec.constraints.Some? && dec.constraints.value.expiresInSeconds.Some? ==>
               dec.constraints.value.expiresInSeconds.value <= 0
    ensures var ref := GrantRefFor(iss, req, dec, at).value;
            && (Verify(iss, ref.token, now).Some? <==> now < (Unix(at + iss.defaultTTL) + 1) * SECOND)
            && CutToSeconds(iss.defaultTTL, ref.expiresInSeconds)
  {
    var claims := ClaimsFor(iss, GrantFor(req, dec), at);
    DefaultLifetime(iss, GrantFor(req, dec), at);
    VerifyUndoesSign(iss, claims, JsonImage(claims), now);
  }

  /** With a lifetime that fits a duration, it verifies for exactly that many seconds after the
      second of its issue, and the answer announces just that. */
  lemma ConstrainedGrantLasts(iss: Issuer, req: Request, dec: Decision, s: int, at: int, now: int)
    requires FaithfulCodec(iss) && GrantRefFor(iss, req, dec, at).Some?
    requires dec.constraints.Some? && dec.constraints.value.expiresInSeconds == Some(s) && 0 < s <= MAX_TTL_SECONDS
    ensures var ref := GrantRefFor(iss, req, dec, at).value;
            && (Verify(iss, ref.token, now).Some? <==> now < (Unix(at) + s + 1) * SECOND)
            && ref.expiresInSeconds == s
  {
    var claims := ClaimsFor(iss, GrantFor(req, dec), at);
    LifetimeIsExactIff(iss, GrantFor(req, dec), s);
    assert Lifetime(iss, GrantFor(req, dec), at) == s;
    VerifyUndoesSign(iss, claims, JsonImage(claims), now);
  }

  // ----- one call inside a run

  /** An uninterrupted request, as the actions of a run; n numbers the call. */
  function OneCall(n: nat, bearer: Bearer, body: Option<Request>, ins: Inputs, dec: Decision): seq<Action> {
    if body.None? then [Receive(bearer), Reject(n)]
    else [Receive(bearer), LookUp(n, body.value, false)] + [Decide(n, ins, dec), Issue(n)] + [WriteAudit(n), Finish(n)]
  }

  /** The past, one uninterrupted request later. */
  function Later(w: CallPart, verified: Option<string>, req: Request, reg: Registry, ins: Inputs, dec: Decision,
                 now: int, iss: Issuer): CallPart {
    w.(next := w.next + 1, audits := w.audits + 1, counters := Counted(w.counters, Some(dec.kind)),
       verdicts := w.verdicts + [Verdict(w.next, req.agentID, dec.kind)],
       issued := IssuedLater(w.issued, w.next, verified, req, reg, ins, dec, now, iss))
  }

  function IssuedLater(issued: seq<Issued>, n: nat, verified: Option<string>, req: Request, reg: Registry, ins: Inputs,
                       dec: Decision, now: int, iss: Issuer): seq<Issued> {
    if GrantRefFor(iss, req, dec, now).None? then issued
    else issued + [Issued(n, verified, req, reg, ins, dec, now, ClaimsFor(iss, GrantFor(req, dec), now))]
  }

  function VerifiedIn(w: World, bearer: Bearer, m: Machine): Option<string> {
    Verified(w.sess.sessions, w.now, bearer, m.auth)
  }

  /** HandleAuthorize without interruption is a run of the machine: on a registry like its
      store it counts, records and issues the same, and leaves no trace in the calls. */
  lemma HandlerIsARun(w: World, m: Machine, bearer: Bearer, body: Option<Request>, ins: Inputs, dec: Decision)
    requires UsesEvaluator(m) && w.work.next !in w.work.calls
    requires m.auth ==> VerifiedIn(w, bearer, m).Some?
    requires body.Some? ==>
               var req := Effective(body.value, VerifiedIn(w, bearer, m));
               Reads(w.reg, req, ins) && EvaluatesOn(w.reg, req, ins, dec) && Fits(ins, w.now, m)
    ensures RunFrom(w, OneCall(w.work.next, bearer, body, ins, dec), m)
            == w.(work :=
                 if body.None? then w.work.(next := w.work.next + 1, counters := Counted(w.work.counters, None))
                 else Later(w.work, VerifiedIn(w, bearer, m), Effective(body.value, VerifiedIn(w, bearer, m)),
                            w.reg, ins, dec, w.now, m.iss))
  {
    var n := w.work.next;
    var arrived := Arrived(w, m, bearer);
    TwoMore(w, [], Receive(bearer), Reject(n), m);
    if body.None? {
      assert [] + [Receive(bearer), Reject(n)] == OneCall(n, bearer, body, ins, dec);
      assert arrived.work.calls - {n} == w.work.calls;
    } else {
      var req := Effective(body.value, VerifiedIn(w, bearer, m));
      SixSteps(w, Receive(bearer), LookUp(n, body.value, false), Decide(n, ins, dec),
               Issue(n), WriteAudit(n), Finish(n), m);
      Answered(w, arrived, m, VerifiedIn(w, bearer, m), body.value, req, ins, dec);
    }
  }

  /** The five steps after the arrival. */
  lemma Answered(w: World, arrived: World, m: Machine, verified: Option<string>, body: Request, req: Request,
                 ins: Inputs, dec: Decision)
    requires w.work.next !in w.work.calls
    requires arrived == w.(work := w.work.(
               calls := w.work.calls[w.work.next := Received(verified)], next := w.work.next + 1,
               counters := w.work.counters.(requests := w.work.counters.requests + 1)))
    requires req == Effective(body, verified) && Fits(ins, w.now, m) && m.decides(w.reg, req, ins, dec)
    requires ins.agent == Found(w.reg.GetAgent(req.agentID))
    ensures var n := w.work.next;
            var decided := Step(Step(arrived, LookUp(n, body, false), m), Decide(n, ins, dec), m);
            Step(Step(Step(decided, Issue(n), m), WriteAudit(n), m), Finish(n), m)
            == w.(work := Later(w.work, verified, req, w.reg, ins, dec, w.now, m.iss))
  {
    var n := w.work.next;
    var decided := DecidedCall(arrived, m, n, verified, body, req, ins, dec);
    FinishedCall(decided, m, n, verified, req, w.reg, ins, dec);
    LeavesNoTrace(w.work.calls, n, Received(verified), Decided(verified, req, w.reg, ins, dec));
    LaterIs(w.work, decided.work, verified, req, w.reg, ins, dec, w.now, m.iss);
  }

  lemma LaterIs(w: CallPart, d: CallPart, verified: Option<string>, req: Request, reg: Registry, ins: Inputs,
                dec: Decision, now: int, iss: Issuer)
    requires d.calls - {w.next} == w.calls && d.next == w.next + 1 && d.audits == w.audits && d.issued == w.issued
    requires d.counters == w.counters.(requests := w.counters.requests + 1)
    requires d.verdicts == w.verdicts + [Verdict(w.next, req.agentID, dec.kind)]
    ensures Later(w, verified, req, reg, ins, dec, now, iss)
            == d.(calls := d.calls - {w.next}, audits := d.audits + 1, counters := d.counters.Record(Some(dec.kind)),
                  issued := Later(w, verified, req, reg, ins, dec, now, iss).issued)
  {
  }

  lemma LeavesNoTrace<T>(calls: map<nat, T>, n: nat, first: T, second: T)
    requires n !in calls
    ensures calls[n := first][n := second] - {n} == calls
  {
  }

  lemma FourSteps(w: World, a: Action, b: Action, c: Action, d: Action, m: Machine)
    ensures RunFrom(w, [a, b] + [c, d], m) == Step(Step(Step(Step(w, a, m), b, m), c, m), d, m)
  {
    TwoMore(w, [], a, b, m);
    assert [] + [a, b] == [a, b];
    TwoMore(w, [a, b], c, d, m);
  }

  lemma SixSteps(w: World, a: Action, b: Action, c: Action, d: Action, e: Action, f: Action, m: Machine)
    ensures RunFrom(w, [a, b] + [c, d] + [e, f], m)
            == Step(Step(Step(Step(Step(Step(w, a, m), b, m), c, m), d, m), e, m), f, m)
  {
    FourSteps(w, a, b, c, d, m);
    TwoMore(w, [a, b] + [c, d], e, f, m);
  }

  lemma Arrived(w: World, m: Machine, bearer: Bearer) returns (t: World)
    requires m.auth ==> VerifiedIn(w, bearer, m).Some?
    ensures t == Step(w, Receive(bearer), m)
    ensures t == w.(work := w.work.(
                   calls := w.work.calls[w.work.next := Received(VerifiedIn(w, bearer, m))], next := w.work.next + 1,
                   counters := w.work.counters.(requests := w.work.counters.requests + 1)))
  {
    t := Step(w, Receive(bearer), m);
  }

  lemma DecidedCall(w: World, m: Machine, n: nat, verified: Option<string>, body: Request, req: Request, ins: Inputs,
                    dec: Decision) returns (t: World)
    requires n in w.work.calls && w.work.calls[n] == Received(verified)
    requires req == Effective(body, verified) && Fits(ins, w.now, m) && m.decides(w.reg, req, ins, dec)
    requires ins.agent == Found(w.reg.GetAgent(req.agentID))
    ensures t == Step(Step(w, LookUp(n, body, false), m), Decide(n, ins, dec), m)
    ensures t == w.(work := w.work.(calls := w.work.calls[n := Decided(verified, req, w.reg, ins, dec)],
                                    verdicts := w.work.verdicts + [Verdict(n, req.agentID, dec.kind)]))
  {
    var looked := Step(w, LookUp(n, body, false), m);
    assert looked.work == w.work.(calls := w.work.calls[n := Looked(verified, req, ins.agent)]);
    t := Step(looked, Decide(n, ins, dec), m);
    assert looked.work.calls[n := Decided(verified, req, w.reg, ins, dec)]
           == w.work.calls[n := Decided(verified, req, w.reg, ins, dec)];
  }

  /** The three steps after the decision. */
  lemma FinishedCall(t: World, m: Machine, n: nat, verified: Option<string>, req: Request, reg: Registry, ins: Inputs,
                     dec: Decision)
    requires n in t.work.calls && t.work.calls[n] == Decided(verified, req, reg, ins, dec)
    ensures Step(Step(Step(t, Issue(n), m), WriteAudit(n), m), Finish(n), m)
            == t.(work := t.work.(
                 calls := t.work.calls - {n}, audits := t.work.audits + 1,
                 counters := t.work.counters.Record(Some(dec.kind)),
                 issued := IssuedLater(t.work.issued, n, verified, req, reg, ins, dec, t.now, m.iss)))
  {
    var issuing := IssuedCall(t, m, n, verified, req, reg, ins, dec);
    var audited := Step(issuing, WriteAudit(n), m);
    assert audited == issuing.(work := issuing.work.(calls := issuing.work.calls[n := Audited(dec.kind)],
                                                     audits := issuing.work.audits + 1));
    assert audited.work.calls - {n} == t.work.calls - {n};
  }

  lemma IssuedCall(t: World, m: Machine, n: nat, verified: Option<string>, req: Request, reg: Registry, ins: Inputs,
                   dec: Decision) returns (issuing: World)
    requires n in t.work.calls && t.work.calls[n] == Decided(verified, req, reg, ins, dec)
    ensures issuing == Step(t, Issue(n), m)
    ensures issuing
            == t.(work := t.work.(
                 calls := t.work.calls[n := Issuing(dec.kind)],
                 issued := IssuedLater(t.work.issued, n, verified, req, reg, ins, dec, t.now, m.iss)))
  {
    issuing := Step(t, Issue(n), m);
  }
}
