/** The values the policy engine passes around: agents, policies, requests, decisions. */
module Model {
  datatype Option<+T> = None | Some(value: T) {
    function GetOr(default: T): T { if None? then default else value }
  }

  /** What a store lookup returns. */
  datatype Fetch<+T> = StoreError | Found(value: T)

  const MAX_INT64: int := 0x7FFF_FFFF_FFFF_FFFF
  const MIN_INT64: int := -0x8000_0000_0000_0000

  predicate InInt64(n: int) { MIN_INT64 <= n <= MAX_INT64 }

  /** Go's int and int64. */
  type int64 = n: int | InInt64(n)

  /** Two's complement wrap-around. */
  function Wrap64(n: int): int64 {
    (n - MIN_INT64) % 0x1_0000_0000_0000_0000 + MIN_INT64
  }

  lemma WrapIsIdentityIff(n: int)
    ensures Wrap64(n) == n <==> InInt64(n)
  {
  }

  /** It drops a multiple of two to the power of 64. */
  lemma WrapDropsMultiple(n: int) returns (k: int)
    ensures n == Wrap64(n) + k * 18_446_744_073_709_551_616
  {
    k := (n - MIN_INT64) / 0x1_0000_0000_0000_0000;
  }

  lemma WrapNeverGrows(n: nat)
    ensures Wrap64(n) <= n
  {
  }

  /** Times are nanoseconds since the Unix epoch. */
  const SECOND: int := 1_000_000_000

  /** Time.Unix: whole seconds, rounded down. */
  function Unix(nanos: int): int { nanos / SECOND }

  ghost function Elems<T>(s: seq<T>): set<T> { set x | x in s }

  /** order visits every key exactly once: one way a Go range loop may walk a map. */
  ghost predicate IsOrderOf<K>(order: seq<K>, keys: set<K>) {
    && (forall i, j :: 0 <= i < j < |order| ==> order[i] != order[j])
    && Elems(order) == keys
  }

  /** Every finite key set can be walked, and any of its keys can come first. */
  lemma {:induction false} OrderStartingWith<K>(keys: set<K>, first: K) returns (order: seq<K>)
    requires first in keys
    ensures IsOrderOf(order, keys) && order != [] && order[0] == first
    decreases keys
  {
    var rest := SomeOrder(keys - {first});
    order := [first] + rest;
    assert forall k :: k in order <==> k == first || k in rest;
    assert forall k :: k in rest <==> k in Elems(rest);
  }

  lemma {:induction false} SomeOrder<K>(keys: set<K>) returns (order: seq<K>)
    ensures IsOrderOf(order, keys)
    decreases keys
  {
    if keys == {} {
      order := [];
    } else {
      var k :| k in keys;
      var rest := SomeOrder(keys - {k});
      order := rest + [k];
      assert forall x :: x in order <==> x == k || x in rest;
      assert forall x :: x in rest <==> x in Elems(rest);
    }
  }

  /** interface{} as YAML and JSON decoding fill it. */
  datatype Value =
    | Null
    | Bool(b: bool)
    | Int(n: int64)
    | Float(f: real)
    | Str(s: string)
    | Strings(ss: seq<string>)
    | List(items: seq<Value>)
    | Object(fields: map<string, Value>)

  /** toInt: integers as they are, floats truncated toward zero, everything else 0. A float
      outside 64 bits converts to the smallest integer. */
  function ToInt(v: Value): int64 {
    match v
    case Int(n) => n
    case Float(f) =>
      var whole := if f >= 0.0 then f.Floor else -((-f).Floor);
      if InInt64(whole) then whole else MIN_INT64
    case _ => 0
  }

  /** toStringSlice: []string, or []interface{} holding only strings. */
  function ToStrings(v: Value): Option<seq<string>> {
    match v
    case Strings(ss) => Some(ss)
    case List(items) =>
      if forall i :: 0 <= i < |items| ==> items[i].Str?
      then Some(seq(|items|, i requires 0 <= i < |items| && items[i].Str? => items[i].s))
      else None
    case _ => None
  }

  // ----- what a value says

  /** The string is among those the value lists. */
  ghost predicate In(v: Value, s: string) { (v.Strings? && s in v.ss) || (v.List? && Str(s) in v.items) }

  /** A list of strings and of nothing else. */
  ghost predicate IsListing(v: Value) { v.Strings? || (v.List? && forall x :: x in v.items ==> x.Str?) }

  /** The value is this positive number, or a fraction that goes beyond it by less than one. */
  ghost predicate Amounts(v: Value, n: int) {
    && 0 < n <= MAX_INT64
    && ((v.Int? && v.n == n) || (v.Float? && n as real <= v.f < (n + 1) as real))
  }

  lemma ToStringsIs(v: Value)
    ensures ToStrings(v).Some? <==> IsListing(v)
    ensures ToStrings(v).Some? ==> forall s :: s in ToStrings(v).value <==> In(v, s)
  {
    if v.List? && ToStrings(v).Some? {
      forall s
        ensures s in ToStrings(v).value <==> In(v, s)
      {
        if In(v, s) {
          var i :| 0 <= i < |v.items| && v.items[i] == Str(s);
          assert ToStrings(v).value[i] == s;
        }
      }
    }
  }

  lemma ToIntIs(v: Value, n: int)
    requires n > 0
    ensures ToInt(v) == n <==> Amounts(v, n)
  {
  }

  // ----- agents

  datatype AgentState = Unset | Active | Suspended | Revoked | PendingReview | OtherState(text: string)

  datatype AgentStatus = AgentStatus(state: AgentState, registeredAt: int, lastSeenAt: int)

  function AgentURI(namespace: string, name: string): string { "agent://" + namespace + "/" + name }

  datatype IdentityBinding =
    IdentityBinding(kind: string, issuer: string, jwksURI: string, subject: string, audience: string)

  datatype Agent = Agent(
    namespace: string,
    name: string,
    agentType: string,
    capabilities: seq<string>,
    bindings: seq<IdentityBinding>,
    status: AgentStatus)
  {
    function ID(): string { AgentURI(namespace, name) }

    predicate IsActive() { status.state == Active || status.state == Unset }

    /** The two states the evaluator turns away. */
    predicate IsBlocked() { status.state == Revoked || status.state == Suspended }
  }

  // ----- policies

  datatype Effect = AllowEffect | DenyEffect | ApprovalEffect | DelegationEffect | OtherEffect(text: string)

  datatype Selector =
    Selector(types: seq<string>, classificationMax: string, environments: seq<string>, owners: seq<string>)

  datatype Approval = Approval(approvers: seq<string>, expiresIn: string)

  datatype Rule = Rule(
    effect: Effect,
    actions: seq<string>,
    resources: Option<Selector>,
    conditions: map<string, Value>,
    constraints: map<string, Value>,
    obligations: map<string, Value>,
    approval: Option<Approval>)

  /** A rule that applied to the request, with the policy it came from. */
  datatype Matched = Matched(policyID: string, rule: Rule)

  datatype PolicySubject =
    PolicySubject(agent: string, agentType: string, agentNamespace: string, allAgents: bool)

  datatype Policy = Policy(namespace: string, name: string, subject: PolicySubject, rules: seq<Rule>) {
    function ID(): string { namespace + "/" + name }

    predicate MatchesAgent(agent: Agent) {
      || subject.allAgents
      || (subject.agent != "" && subject.agent == agent.ID())
      || (subject.agentType != "" && subject.agentType == agent.agentType)
      || (subject.agentNamespace != "" && subject.agentNamespace == agent.namespace)
    }
  }

  // ----- requests

  datatype Actor = Actor(kind: string, id: string, groups: seq<string>, authStrength: string)

  datatype Resource = Resource(kind: string, id: string, owner: string, classification: string, environment: string)

  /** A nil context and an empty one behave alike everywhere, so both are the empty map. */
  datatype Request = Request(
    requestID: string,
    agentID: string,
    actor: Option<Actor>,
    action: string,
    resource: Option<Resource>,
    context: map<string, Value>,
    instanceID: string)

  // ----- decisions

  datatype DecisionKind =
    | Allow | AllowConstrained | Deny | RequireApproval | RequireDelegation | RequireStepUp
    | Unsupported(text: string)
  {
    predicate Grants() { Allow? || AllowConstrained? }
  }

  datatype Constraints = Constraints(
    maxRecords: Option<int>,
    redactFields: seq<string>,
    readOnly: Option<bool>,
    timeWindowSeconds: Option<int>,
    allowedFields: Option<seq<string>>,
    expiresInSeconds: Option<int>)

  const NO_CONSTRAINTS := Constraints(None, [], None, None, None, None)

  datatype Obligations = Obligations(audit: bool, logFullRequest: bool, notify: seq<string>)

  datatype ApprovalRef = ApprovalRef(approvers: seq<string>, expiresInSeconds: int)

  datatype Decision = Decision(
    decisionID: string,
    requestID: string,
    kind: DecisionKind,
    policyIDs: seq<string>,
    constraints: Option<Constraints>,
    obligations: Option<Obligations>,
    approval: Option<ApprovalRef>)
}
