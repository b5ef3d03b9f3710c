/** The server as a state machine: every handler split at the points where another may run.
    A run is any sequence of actions; an action that is not enabled changes nothing. */
module ServerRuns {
  import opened Model
  import Rules
  import opened Evaluator
  import opened Registries
  import opened Sessions
  import opened TokenValidation
  import Replay
  import opened Grant
  import opened Metrics

  /** auth says whether an issuer is configured, hasBackend whether an external backend is; ttl
      is the session lifetime; decides is the relation between a registry, a request, what its
      evaluation saw, and the decision. */
  datatype Machine = Machine(
    auth: bool, ttl: nat, limits: Replay.Limits, iss: Issuer, hasBackend: bool, parseClock: string -> Option<int>,
    decides: (Registry, Request, Inputs, Decision) -> bool)

  /** The decisions are exactly those that Evaluate may reach on the registry of that moment. */
  ghost predicate UsesEvaluator(m: Machine) {
    forall reg, req, ins, dec :: m.decides(reg, req, ins, dec) <==> EvaluatesOn(reg, req, ins, dec)
  }

  ghost function EvaluatingMachine(auth: bool, ttl: nat, limits: Replay.Limits, iss: Issuer, hasBackend: bool,
                                   parseClock: string -> Option<int>): (m: Machine)
    ensures UsesEvaluator(m)
  {
    Machine(auth, ttl, limits, iss, hasBackend, parseClock, (reg, req, ins, dec) => EvaluatesOn(reg, req, ins, dec))
  }

  /** An evaluation at this moment asks the configured backend, if any, and reads the clock. */
  ghost predicate Fits(ins: Inputs, now: int, m: Machine) {
    (ins.backend.Some? <==> m.hasBackend) && ins.env == Rules.EnvAt(now, m.parseClock)
  }

  /** A request's bearer token: a session id, or a JWT with the agent id its issuer vouches for. */
  datatype Bearer = NoToken | SessionToken(id: string) | RawJWT(agentID: Option<string>)

  datatype Action =
    | Tick(elapsed: nat)
    | RegisterAgent(agent: Agent)
    | SetStatus(id: string, status: AgentStatus)
    | DeleteAgent(id: string)
    | ApplyPolicy(policy: Policy)
    | DeletePolicy(id: string)
    | LookUpForSession(id: string, seen: Presented)
    | TryBinding(join: nat, attempt: Attempt)
    | EnterReplay(join: nat)
    | OpenSession(join: nat, sessionID: string)
    | StartRun(sessionID: string, runID: string, purpose: string)
    | Receive(bearer: Bearer)
    | Reject(call: nat)
    | LookUp(call: nat, req: Request, storeFails: bool)
    | Decide(call: nat, ins: Inputs, dec: Decision)
    | Issue(call: nat)
    | WriteAudit(call: nat)
    | Finish(call: nat)

  // ----- the registry

  function StepRegistry(reg: Registry, a: Action): Registry {
    match a
    case RegisterAgent(agent) => reg.Register(agent)
    case SetStatus(id, status) => reg.SetStatus(id, status)
    case DeleteAgent(id) => reg.DeleteAgent(id)
    case ApplyPolicy(p) => reg.AddPolicy(p)
    case DeletePolicy(id) => reg.DeletePolicy(id)
    case _ => reg
  }

  // ----- sessions

  /** A session creation whose agent lookup succeeded, and how far its token validation is. */
  datatype Join = Join(agent: Agent, lookedAt: int, seen: Presented, progress: Progress)

  /** Trying the binding at that position; waiting for the replay section with the clock
      sampled; or accepted, with the position of its section among all, if it had one. */
  datatype Progress =
    | Trying(next: nat)
    | Waiting(next: nat, keys: seq<Key>, attempt: Attempt)
    | Accepted(via: nat, keys: seq<Key>, attempt: Attempt, mark: Option<nat>)

  datatype Opening = Opening(id: nat, session: Session, join: Join)

  /** memory is the token validator's; openings and marks record the past and are read by no
      handler. */
  datatype SessionPart = SessionPart(
    sessions: map<string, Session>, runs: map<string, AgentRun>, memory: Memory, joins: map<nat, Join>, next: nat,
    openings: seq<Opening>, marks: seq<Replay.Entry>)

  /** An attempt reads the clock after the lookup, in this order, and last at this moment. */
  predicate Clocked(j: Join, at: Attempt, now: int) {
    j.lookedAt <= at.cacheNow <= at.proofNow <= at.markNow == now
  }

  predicate MayTry(s: SessionPart, id: nat, at: Attempt, now: int) {
    && id in s.joins && s.joins[id].progress.Trying? && Clocked(s.joins[id], at, now)
    && s.joins[id].progress.next < |s.joins[id].agent.bindings|
  }

  /** tryBinding on the next binding, up to the replay section. */
  function Advance(s: SessionPart, id: nat, at: Attempt, lim: Replay.Limits): SessionPart
    requires id in s.joins && s.joins[id].progress.Trying? && s.joins[id].progress.next < |s.joins[id].agent.bindings|
  {
    var j := s.joins[id];
    var n := j.progress.next;
    var c := Check(s.memory, j.agent.bindings[n], at, j.seen, lim);
    var progress := if !c.ok then Trying(n + 1)
                    else if j.agent.bindings[n].kind == "wimse" then Waiting(n, c.keys, at)
                    else Accepted(n, c.keys, at, None);
    s.(memory := c.memory, joins := s.joins[id := j.(progress := progress)])
  }

  predicate MayEnter(s: SessionPart, id: nat) {
    && id in s.joins && s.joins[id].progress.Waiting?
    && s.joins[id].progress.attempt.claims(s.joins[id].progress.keys).Some?
    && s.joins[id].progress.attempt.proof.Some?
  }

  /** The replay section of one attempt, entered at now. */
  function SectionOf(replay: map<string, int>, at: Attempt, keys: seq<Key>, now: int, lim: Replay.Limits): Replay.Entry
    requires at.claims(keys).Some? && at.proof.Some?
  {
    Replay.Entry(at.claims(keys).value.subject, at.proof.value.id, at.proof.value.expiry.GetOr(0),
                 at.proofNow, at.markNow, now, !Replay.Refuses(replay, ProofKey(at, keys), at.markNow, lim))
  }

  function Enter(s: SessionPart, id: nat, now: int, lim: Replay.Limits): SessionPart
    requires MayEnter(s, id)
  {
    var j := s.joins[id];
    var p := j.progress;
    var e := SectionOf(s.memory.replay, p.attempt, p.keys, now, lim);
    var progress := if e.accepted then Accepted(p.next, p.keys, p.attempt, Some(|s.marks|)) else Trying(p.next + 1);
    s.(memory := s.memory.(replay := Replay.Mark(s.memory.replay, e.Key(), e.sample, e.expiry, lim)),
       joins := s.joins[id := j.(progress := progress)],
       marks := s.marks + [e])
  }

  function StepSessions(s: SessionPart, reg: Registry, now: int, a: Action, m: Machine): SessionPart {
    match a
    case LookUpForSession(id, seen) =>
      if MayOpen(Found(reg.GetAgent(id))) && seen.parses
      then s.(joins := s.joins[s.next := Join(reg.agents[id], now, seen, Trying(0))], next := s.next + 1)
      else s
    case TryBinding(id, attempt) => if MayTry(s, id, attempt, now) then Advance(s, id, attempt, m.limits) else s
    case EnterReplay(id) => if MayEnter(s, id) then Enter(s, id, now, m.limits) else s
    case OpenSession(id, sessionID) =>
      if id in s.joins && s.joins[id].progress.Accepted? && sessionID !in s.sessions
      then
        var session := NewSession(sessionID, s.joins[id].agent, now, m.ttl);
        s.(sessions := s.sessions[sessionID := session], joins := s.joins - {id},
           openings := s.openings + [Opening(id, session, s.joins[id])])
      else s
    case StartRun(sessionID, runID, purpose) =>
      var live := LiveSession(s.sessions, sessionID, now);
      if live.Some? && runID !in s.runs
      then s.(runs := s.runs[runID := AgentRun(runID, live.value.id, live.value.agentID, purpose, now)])
      else s
    case _ => s
  }

  /** resolveIdentity. */
  function Resolve(sessions: map<string, Session>, now: int, b: Bearer): Option<string> {
    match b
    case NoToken => None
    case SessionToken(id) =>
      var s := LiveSession(sessions, id, now);
      if s.Some? then Some(s.value.agentID) else None
    case RawJWT(agentID) => if agentID == Some("") then None else agentID
  }

  /** The identity wrap puts into the context, when it wraps at all. */
  function Verified(sessions: map<string, Session>, now: int, bearer: Bearer, auth: bool): Option<string> {
    if auth then Resolve(sessions, now, bearer) else None
  }

  // ----- authorize requests

  /** Where one authorize request is. verified is the identity that wrap established. */
  datatype Call =
    | Received(verified: Option<string>)
    | Looked(verified: Option<string>, req: Request, agent: Fetch<Option<Agent>>)
    | Decided(verified: Option<string>, req: Request, reg: Registry, ins: Inputs, dec: Decision)
    | Issuing(kind: DecisionKind)
    | Audited(kind: DecisionKind)

  datatype Issued = Issued(call: nat, verified: Option<string>, req: Request, reg: Registry, ins: Inputs, dec: Decision,
                           at: int, claims: Claims)

  datatype Verdict = Verdict(call: nat, agentID: string, kind: DecisionKind)

  /** verdicts, issued and audits record the past; no handler reads them. */
  datatype CallPart = CallPart(
    calls: map<nat, Call>, next: nat, counters: Counters, verdicts: seq<Verdict>, issued: seq<Issued>, audits: nat)

  /** handleAuthorize trusts the verified identity over the one in the request. */
  function Effective(req: Request, verified: Option<string>): Request {
    if verified.Some? then req.(agentID := verified.value) else req
  }

  function GrantFor(req: Request, dec: Decision): GrantRequest {
    GrantRequest(req.agentID, req.action,
                 if req.resource.Some? then req.resource.value.kind else "",
                 if req.resource.Some? then req.resource.value.id else "",
                 Rules.ContextString(req, "run_id"), dec)
  }

  ghost function StepCalls(w: CallPart, reg: Registry, sessions: map<string, Session>, now: int, a: Action, m: Machine)
    : CallPart
  {
    match a
    case Receive(bearer) =>
      var verified := Verified(sessions, now, bearer, m.auth);
      if m.auth && verified.None? then w
      else w.(calls := w.calls[w.next := Received(verified)], next := w.next + 1,
              counters := w.counters.(requests := w.counters.requests + 1))
    case Reject(call) =>
      if call in w.calls && w.calls[call].Received?
      then w.(calls := w.calls - {call}, counters := w.counters.(invalid := w.counters.invalid + 1))
      else w
    case LookUp(call, req, storeFails) =>
      if call in w.calls && w.calls[call].Received?
      then
        var r := Effective(req, w.calls[call].verified);
        var agent := if storeFails then StoreError else Found(reg.GetAgent(r.agentID));
        w.(calls := w.calls[call := Looked(w.calls[call].verified, r, agent)])
      else w
    case Decide(call, ins, dec) =>
      if && call in w.calls && w.calls[call].Looked? && ins.agent == w.calls[call].agent
         && Fits(ins, now, m) && m.decides(reg, w.calls[call].req, ins, dec)
      then
        var c := w.calls[call];
        w.(calls := w.calls[call := Decided(c.verified, c.req, reg, ins, dec)],
           verdicts := w.verdicts + [Verdict(call, c.req.agentID, dec.kind)])
      else w
    case Issue(call) =>
      if call in w.calls && w.calls[call].Decided?
      then
        var c := w.calls[call];
        var claims := ClaimsFor(m.iss, GrantFor(c.req, c.dec), now);
        w.(calls := w.calls[call := Issuing(c.dec.kind)],
           issued := if c.dec.kind.Grants() && Sign(m.iss, claims).Some?
                     then w.issued + [Issued(call, c.verified, c.req, c.reg, c.ins, c.dec, now, claims)]
                     else w.issued)
      else w
    case WriteAudit(call) =>
      if call in w.calls && w.calls[call].Issuing?
      then w.(calls := w.calls[call := Audited(w.calls[call].kind)], audits := w.audits + 1)
      else w
    case Finish(call) =>
      if call in w.calls && w.calls[call].Audited?
      then w.(calls := w.calls - {call}, counters := w.counters.Record(Some(w.calls[call].kind)))
      else w
    case _ => w
  }

  // ----- runs

  datatype World = World(now: int, reg: Registry, sess: SessionPart, work: CallPart)

  const INIT := World(0, Registry(map[], map[]), SessionPart(map[], map[], Memory(map[], map[]), map[], 0, [], []),
                      CallPart(map[], 0, ZERO, [], [], 0))

  ghost function Step(w: World, a: Action, m: Machine): World {
    World(if a.Tick? then w.now + a.elapsed else w.now,
          StepRegistry(w.reg, a),
          StepSessions(w.sess, w.reg, w.now, a, m),
          StepCalls(w.work, w.reg, w.sess.sessions, w.now, a, m))
  }

  ghost function RunFrom(w: World, actions: seq<Action>, m: Machine): World {
    if actions == [] then w
    else Step(RunFrom(w, actions[..|actions| - 1], m), actions[|actions| - 1], m)
  }

  ghost function Run(actions: seq<Action>, m: Machine): World { RunFrom(INIT, actions, m) }

  /** The world after the first n actions. */
  ghost function At(actions: seq<Action>, n: nat, m: Machine): World
    requires n <= |actions|
  {
    Run(actions[..n], m)
  }

  lemma NextIs(actions: seq<Action>, n: nat, m: Machine)
    requires n < |actions|
    ensures At(actions, n + 1, m) == Step(At(actions, n, m), actions[n], m)
  {
    assert actions[..n + 1][..n] == actions[..n];
  }

  lemma Snoc(w: World, actions: seq<Action>, a: Action, m: Machine)
    ensures RunFrom(w, actions + [a], m) == Step(RunFrom(w, actions, m), a, m)
  {
    assert (actions + [a])[..|actions|] == actions;
  }

  lemma TwoMore(w: World, actions: seq<Action>, a: Action, b: Action, m: Machine)
    ensures RunFrom(w, actions + [a, b], m) == Step(Step(RunFrom(w, actions, m), a, m), b, m)
  {
    Snoc(w, actions, a, m);
    Snoc(w, actions + [a], b, m);
    assert actions + [a, b] == actions + [a] + [b];
  }

  lemma {:induction false} RunAppends(w: World, before: seq<Action>, after: seq<Action>, m: Machine)
    ensures RunFrom(w, before + after, m) == RunFrom(RunFrom(w, before, m), after, m)
  {
    if after == [] {
      assert before + after == before;
    } else {
      var n := |after| - 1;
      RunAppends(w, before, after[..n], m);
      assert before + after == before + after[..n] + [after[n]];
      Snoc(w, before + after[..n], after[n], m);
    }
  }

  lemma {:induction false} RunKeepsRegistry(actions: seq<Action>, m: Machine)
    ensures Run(actions, m).reg.Valid()
  {
    if actions != [] {
      RunKeepsRegistry(actions[..|actions| - 1], m);
    }
  }
}
