/** Runtime sessions and the runs created inside them. */
module Sessions {
  import opened Model
  import opened TokenValidation

  datatype Session = Session(id: string, agentID: string, active: bool, createdAt: int, expiresAt: int)

  datatype AgentRun = AgentRun(id: string, sessionID: string, agentID: string, purpose: string, createdAt: int)

  /** GetSession: known, not past its expiry, and active. */
  function LiveSession(sessions: map<string, Session>, id: string, now: int): Option<Session> {
    if id in sessions && now <= sessions[id].expiresAt && sessions[id].active then Some(sessions[id]) else None
  }

  function NewSession(id: string, agent: Agent, now: int, ttl: int): Session {
    Session(id, agent.ID(), true, now, now + ttl)
  }

  /** An agent CreateSession goes on to validate a token for. */
  predicate MayOpen(agent: Fetch<Option<Agent>>) {
    && agent.Found? && agent.value.Some? && agent.value.value.bindings != []
    && (agent.value.value.status.state == Active || agent.value.value.status.state == Unset)
  }

  class Manager {
    var sessions: map<string, Session>
    var runs: map<string, AgentRun>
    const validator: TokenValidator
    const ttl: int

    constructor (validator: TokenValidator, ttl: int)
      ensures sessions == map[] && runs == map[]
      ensures this.validator == validator && this.ttl == if ttl == 0 then 15 * 60 * 1_000_000_000 else ttl
    {
      sessions, runs := map[], map[];
      this.validator := validator;
      this.ttl := if ttl == 0 then 15 * 60 * 1_000_000_000 else ttl;
    }

    /** CreateSession: agent is what the store returned, attempts what validating the token
        against its bindings meets, freshID the random id or None when randomness fails. */
    method CreateSession(agent: Fetch<Option<Agent>>, attempts: seq<Attempt>, seen: Presented,
                         freshID: Option<string>, now: int)
      returns (s: Option<Session>, ghost via: Option<nat>, ghost keys: seq<Key>)
      requires MayOpen(agent) ==> |attempts| == |agent.value.value.bindings|
      modifies this`sessions, validator
      ensures var m := Memory(old(validator.jwksCache), old(validator.wptReplay));
              if !MayOpen(agent) then via == None && Memory(validator.jwksCache, validator.wptReplay) == m
              else Validated(via, keys, Memory(validator.jwksCache, validator.wptReplay))
                   == Validate(m, agent.value.value.bindings, attempts, seen, validator.limits)
      ensures s.Some? <==> via.Some? && freshID.Some?
      ensures s.Some? ==> s.value == Session(freshID.value, agent.value.value.ID(), true, now, now + ttl)
      ensures sessions == if s.Some? then old(sessions)[freshID.value := s.value] else old(sessions)
    {
      s, via, keys := None, None, [];
      if agent.StoreError? || agent.value.None? { return; }
      var a := agent.value.value;
      if !a.IsActive() { return; }
      if a.bindings == [] { return; }
      var accepted;
      accepted, keys := validator.ValidateAgainstBindings(a.bindings, attempts, seen);
      via := accepted;
      if accepted.None? { return; }
      if freshID.None? { return; }
      s := Some(NewSession(freshID.value, a, now, ttl));
      sessions := sessions[freshID.value := s.value];
    }

    /** GetSession. */
    method GetSession(id: string, now: int) returns (s: Option<Session>)
      ensures s.Some? <==> id in sessions && now <= sessions[id].expiresAt && sessions[id].active
      ensures s.Some? ==> s.value == sessions[id]
    {
      if id !in sessions { return None; }
      if now > sessions[id].expiresAt { return None; }
      if !sessions[id].active { return None; }
      s := Some(sessions[id]);
    }

    method CreateRun(sessionID: string, purpose: string, freshID: Option<string>, now: int)
      returns (r: Option<AgentRun>)
      modifies this`runs
      ensures r.Some? <==> LiveSession(sessions, sessionID, now).Some? && freshID.Some?
      ensures r.Some? ==>
                var s := sessions[sessionID]; r.value == AgentRun(freshID.value, s.id, s.agentID, purpose, now)
      ensures runs == if r.Some? then old(runs)[freshID.value := r.value] else old(runs)
    {
      var s := GetSession(sessionID, now);
      if s.None? || freshID.None? { return None; }
      r := Some(AgentRun(freshID.value, s.value.id, s.value.agentID, purpose, now));
      runs := runs[freshID.value := r.value];
    }
  }
}
