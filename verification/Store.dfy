/** The registry of agents and policies as a value. */
module Registries {
  import opened Model

  datatype Registry = Registry(agents: map<string, Agent>, policies: map<string, Policy>) {
    /** Entries sit under their own ids. */
    ghost predicate Valid() {
      && (forall id :: id in agents ==> agents[id].ID() == id)
      && (forall id :: id in policies ==> policies[id].ID() == id)
    }

    function GetAgent(id: string): Option<Agent> {
      if id in agents then Some(agents[id]) else None
    }

    /** PoliciesForAgent may list the matching policies in any order. */
    ghost predicate ListsPoliciesFor(agent: Agent, ps: seq<Policy>) {
      && (forall p :: p in ps <==> exists id :: id in policies && policies[id] == p && p.MatchesAgent(agent))
      && (forall i, j :: 0 <= i < j < |ps| ==> ps[i] != ps[j])
    }

    function Register(a: Agent): Registry { this.(agents := agents[a.ID() := a]) }

    function SetStatus(id: string, status: AgentStatus): Registry {
      if id in agents then this.(agents := agents[id := agents[id].(status := status)]) else this
    }

    function DeleteAgent(id: string): Registry { this.(agents := agents - {id}) }

    function AddPolicy(p: Policy): Registry { this.(policies := policies[p.ID() := p]) }

    function DeletePolicy(id: string): Registry { this.(policies := policies - {id}) }

    /** The agent can be neither evaluated to allow nor given a session. */
    predicate Blocks(id: string) { id !in agents || agents[id].IsBlocked() }
  }
}

/** The in-memory store. Agents are shared records: a status update changes the record that
    earlier lookups handed out. */
module MemoryStore {
  import opened Model
  import opened Registries

  class AgentRecord {
    const namespace: string
    const name: string
    const agentType: string
    const capabilities: seq<string>
    const bindings: seq<IdentityBinding>
    var status: AgentStatus

    constructor (a: Agent)
      ensures Snapshot() == a
    {
      namespace, name, agentType := a.namespace, a.name, a.agentType;
      capabilities, bindings, status := a.capabilities, a.bindings, a.status;
    }

    function ID(): string { AgentURI(namespace, name) }

    function Snapshot(): Agent
      reads this
    {
      Agent(namespace, name, agentType, capabilities, bindings, status)
    }
  }

  class Store {
    var agents: map<string, AgentRecord>
    var policies: map<string, Policy>

    constructor ()
      ensures Valid() && Contents() == Registry(map[], map[])
    {
      agents, policies := map[], map[];
    }

    /** Every record is stored under its own id; so no record is stored twice. */
    ghost predicate Valid()
      reads this
    {
      && (forall id :: id in agents ==> agents[id].ID() == id)
      && (forall id :: id in policies ==> policies[id].ID() == id)
    }

    ghost function Contents(): Registry
      reads this, agents.Values
    {
      Registry(map id | id in agents :: agents[id].Snapshot(), policies)
    }

    method GetAgent(id: string) returns (a: AgentRecord?)
      requires Valid()
      ensures a == null <==> id !in agents
      ensures a != null ==> a == agents[id] && Contents().GetAgent(id) == Some(a.Snapshot())
    {
      a := if id in agents then agents[id] else null;
    }

    method RegisterAgent(agent: AgentRecord?) returns (ok: bool)
      requires Valid()
      modifies this`agents
      ensures Valid() && ok == (agent != null)
      ensures Contents() == if ok then old(Contents()).Register(agent.Snapshot()) else old(Contents())
      ensures ok ==> agents == old(agents)[agent.ID() := agent]
    {
      if agent == null { return false; }
      var id := agent.ID();
      agents := agents[id := agent];
      assert Contents().agents == old(Contents()).agents[id := agent.Snapshot()];
      ok := true;
    }

    /** Mutates the stored record in place: exactly one entry changes, though records are
        shared, because ids are derived from them. */
    method UpdateAgentStatus(agentID: string, status: AgentStatus) returns (ok: bool)
      requires Valid()
      modifies if agentID in agents then {agents[agentID]} else {}
      ensures Valid() && ok == (agentID in agents)
      ensures Contents() == old(Contents()).SetStatus(agentID, status)
    {
      if agentID !in agents { return false; }
      var record := agents[agentID];
      record.status := status;
      forall id | id in agents && id != agentID
        ensures agents[id] != record
      {
        assert agents[id].ID() == id && record.ID() == agentID;
      }
      assert Contents().agents == old(Contents()).SetStatus(agentID, status).agents;
      ok := true;
    }

    method DeleteAgent(agentID: string)
      requires Valid()
      modifies this
      ensures Valid() && Contents() == old(Contents()).DeleteAgent(agentID)
    {
      agents := agents - {agentID};
    }

    method AddPolicy(policy: Option<Policy>) returns (ok: bool)
      requires Valid()
      modifies this
      ensures Valid() && ok == policy.Some?
      ensures Contents() == if ok then old(Contents()).AddPolicy(policy.value) else old(Contents())
    {
      if policy.None? { return false; }
      policies := policies[policy.value.ID() := policy.value];
      ok := true;
    }

    method DeletePolicy(policyID: string)
      requires Valid()
      modifies this
      ensures Valid() && Contents() == old(Contents()).DeletePolicy(policyID)
    {
      policies := policies - {policyID};
    }

    /** Ranges over the policy map, so the order of the answer is arbitrary. */
    method PoliciesForAgent(agent: Agent) returns (matched: seq<Policy>)
      requires Valid()
      ensures Contents().ListsPoliciesFor(agent, matched)
    {
      matched := [];
      var todo := policies.Keys;
      while todo != {}
        invariant todo <= policies.Keys
        invariant forall p :: p in matched <==>
                    exists id :: id in policies && id !in todo && policies[id] == p && p.MatchesAgent(agent)
        invariant forall i, j :: 0 <= i < j < |matched| ==> matched[i] != matched[j]
      {
        var id :| id in todo;
        var p := policies[id];
        todo := todo - {id};
        assert p !in matched by {
          assert forall other :: other in policies && policies[other] == p ==> other == p.ID() == id;
        }
        if p.MatchesAgent(agent) {
          assert forall q :: q in matched + [p] <==> q in matched || q == p;
          matched := matched + [p];
        }
      }
    }
  }
}
