/** evaluateRules: deny over approval over allow, and a malformed rule denies. */
module RuleEngine {
  import opened Model
  import Text
  import opened ConstraintAlgebra
  import opened Rules

  // ----- the scan, rule by rule

  /** The rules of the policies in the order the nested loops meet them. */
  function Flatten(policies: seq<Policy>): seq<Matched> {
    if policies == [] then []
    else Flatten(policies[..|policies| - 1]) + EntriesOf(policies[|policies| - 1])
  }

  function EntriesOf(p: Policy): (entries: seq<Matched>)
    ensures |entries| == |p.rules|
  {
    seq(|p.rules|, i requires 0 <= i < |p.rules| => Matched(p.ID(), p.rules[i]))
  }

  /** Where the scan is: stopped by a malformed rule, or with the matches so far. */
  datatype Scan = Stopped(policyID: string) | Tally(deny: seq<Matched>, approval: seq<Matched>, allow: seq<Matched>)

  predicate Denies(r: Rule, actorless: bool) {
    r.effect == DenyEffect || (r.effect == DelegationEffect && actorless)
  }

  function Count(t: Scan, e: Matched, actorless: bool): Scan
    requires t.Tally?
  {
    if Denies(e.rule, actorless) then t.(deny := t.deny + [e])
    else if e.rule.effect == ApprovalEffect then t.(approval := t.approval + [e])
    else if e.rule.effect == AllowEffect then t.(allow := t.allow + [e])
    else t
  }

  function ScanStep(t: Scan, e: Matched, outcome: Outcome, actorless: bool): Scan {
    if t.Stopped? then t
    else match outcome
      case Skip => t
      case Fault => Stopped(e.policyID)
      case Match => Count(t, e, actorless)
  }

  /** The scan of some rules from where it stands. */
  function ScanFrom(t: Scan, entries: seq<Matched>, outcomes: seq<Outcome>, actorless: bool): Scan
    requires |outcomes| == |entries|
  {
    if entries == [] then t
    else
      var n := |entries| - 1;
      ScanStep(ScanFrom(t, entries[..n], outcomes[..n], actorless), entries[n], outcomes[n], actorless)
  }

  ghost predicate AreKeyOrders(orders: seq<KeyOrder>, entries: seq<Matched>) {
    && |orders| == |entries|
    && forall i :: 0 <= i < |entries| ==> IsKeyOrder(orders[i], entries[i].rule)
  }

  /** For each policy and each of its rules, the walk of that rule's condition maps. */
  ghost predicate ArePolicyOrders(orders: seq<seq<KeyOrder>>, policies: seq<Policy>) {
    && Shaped(orders, policies)
    && forall i :: 0 <= i < |policies| ==> AreKeyOrders(orders[i], EntriesOf(policies[i]))
  }

  predicate Shaped(orders: seq<seq<KeyOrder>>, policies: seq<Policy>) {
    && |orders| == |policies|
    && forall i :: 0 <= i < |policies| ==> |orders[i]| == |policies[i].rules|
  }

  function Outcomes(entries: seq<Matched>, orders: seq<KeyOrder>, req: Request, env: Env): (outcomes: seq<Outcome>)
    requires |orders| == |entries|
    ensures |outcomes| == |entries|
  {
    seq(|entries|, i requires 0 <= i < |entries| => RuleOutcome(entries[i].rule, req, env, orders[i]))
  }

  ghost function ScanPolicies(policies: seq<Policy>, orders: seq<seq<KeyOrder>>, req: Request, env: Env): Scan
    requires Shaped(orders, policies)
  {
    if policies == [] then Tally([], [], [])
    else
      var n := |policies| - 1;
      ScanFrom(ScanPolicies(policies[..n], orders[..n], req, env),
               EntriesOf(policies[n]), Outcomes(EntriesOf(policies[n]), orders[n], req, env), req.actor.None?)
  }

  // ----- the decision a finished scan calls for

  ghost predicate ListsIDs(ids: seq<string>, matches: seq<Matched>) {
    && (forall id :: id in ids <==> exists m :: m in matches && m.policyID == id)
    && (forall i, j :: 0 <= i < j < |ids| ==> ids[i] != ids[j])
  }

  function ApprovalOf(r: Rule): Option<ApprovalRef> {
    match r.approval
    case None => None
    case Some(a) => Some(ApprovalRef(a.approvers, Text.ParseDurationSeconds(a.expiresIn)))
  }

  function KindOf(t: Scan): DecisionKind {
    if t.Stopped? || t.deny != [] then Deny
    else if t.approval != [] then RequireApproval
    else if t.allow == [] then Deny
    else if forall m :: m in t.allow ==> m.rule.constraints == map[] then Allow
    else AllowConstrained
  }

  /** The decision for a scan, policy ids and field lists taken as sets. */
  ghost predicate Concludes(t: Scan, dec: Decision) {
    && dec.kind == KindOf(t)
    && (if t.Stopped? then dec.policyIDs == [t.policyID]
        else ListsIDs(dec.policyIDs, if t.deny != [] then t.deny else if t.approval != [] then t.approval else t.allow))
    && (if dec.kind.Grants() then
          && (dec.constraints.Some? <==> dec.kind == AllowConstrained)
          && (dec.constraints.Some? ==> BoundOf(dec.constraints.value) == MeetAll(RuleBounds(t.allow)))
          && ObligationsOf(t.allow, dec.obligations)
          && dec.approval.None?
        else
          && dec.constraints.None? && dec.obligations.None?
          && dec.approval == if dec.kind == RequireApproval then ApprovalOf(t.approval[0].rule) else None)
  }

  // ----- the loops

  /** collectPolicyIDs. */
  method CollectPolicyIDs(matches: seq<Matched>) returns (ids: seq<string>)
    ensures ListsIDs(ids, matches)
  {
    var seen: set<string> := {};
    ids := [];
    for i := 0 to |matches|
      invariant forall id :: id in seen <==> id in ids
      invariant ListsIDs(ids, matches[..i])
    {
      assert forall m :: m in matches[..i + 1] <==> m in matches[..i] || m == matches[i];
      if matches[i].policyID !in seen {
        seen := seen + {matches[i].policyID};
        ids := ids + [matches[i].policyID];
      }
    }
    assert matches[..|matches|] == matches;
  }

  /** The checks evaluateRules makes on one rule before it looks at the effect. */
  method EvaluateRule(rule: Rule, req: Request, env: Env, order: KeyOrder) returns (outcome: Outcome)
    requires IsKeyOrder(order, rule)
    ensures outcome == RuleOutcome(rule, req, env, order)
  {
    if !AnyCovers(rule.actions, req.action) { return Skip; }
    if !ValidResources(rule.resources) { return Fault; }
    if !ResourceMatches(rule.resources, req) { return Skip; }
    var cond := ConditionsMet(rule, req, env, order);
    if cond == Malformed { return Fault; }
    if cond == Unmet { return Skip; }
    var ok := ValidateConstraints(rule.constraints);
    if !ok { return Fault; }
    ok := ValidateObligations(rule.obligations);
    if !ok { return Fault; }
    outcome := Match;
  }

  /** The switch on a matching rule's effect. */
  method AddMatch(deny: seq<Matched>, approval: seq<Matched>, allow: seq<Matched>, m: Matched, actorless: bool)
    returns (d: seq<Matched>, p: seq<Matched>, a: seq<Matched>)
    ensures Tally(d, p, a) == Count(Tally(deny, approval, allow), m, actorless)
  {
    d, p, a := deny, approval, allow;
    match m.rule.effect
    case DenyEffect => d := d + [m];
    case ApprovalEffect => p := p + [m];
    case AllowEffect => a := a + [m];
    case DelegationEffect => if actorless { d := d + [m]; }
    case OtherEffect(_) =>
  }

  /** evaluateRules. base carries the decision and request ids. */
  method EvaluateRules(base: Decision, req: Request, policies: seq<Policy>, env: Env, orders: seq<seq<KeyOrder>>)
    returns (dec: Decision)
    requires ArePolicyOrders(orders, policies)
    ensures Concludes(ScanPolicies(policies, orders, req, env), dec)
    ensures dec.decisionID == base.decisionID && dec.requestID == base.requestID
  {
    var blank := Decision(base.decisionID, base.requestID, Deny, [], None, None, None);
    var deny: seq<Matched>, approval: seq<Matched>, allow: seq<Matched> := [], [], [];
    for i := 0 to |policies|
      invariant ScanPolicies(policies[..i], orders[..i], req, env) == Tally(deny, approval, allow)
    {
      assert policies[..i + 1][..i] == policies[..i] && orders[..i + 1][..i] == orders[..i];
      var stopped;
      stopped, deny, approval, allow := ScanPolicy(policies[i], req, env, orders[i], deny, approval, allow);
      if stopped {
        ScanStopsAt(policies, orders, i + 1, req, env);
        return blank.(policyIDs := [policies[i].ID()]);
      }
    }
    assert policies[..|policies|] == policies && orders[..|policies|] == orders;
    dec := Conclude(blank, deny, approval, allow);
  }

  /** evaluateRules' inner loop, over one policy. */
  method ScanPolicy(policy: Policy, req: Request, env: Env, orders: seq<KeyOrder>,
                    deny: seq<Matched>, approval: seq<Matched>, allow: seq<Matched>)
    returns (stopped: bool, d: seq<Matched>, p: seq<Matched>, a: seq<Matched>)
    requires AreKeyOrders(orders, EntriesOf(policy))
    ensures ScanFrom(Tally(deny, approval, allow), EntriesOf(policy), Outcomes(EntriesOf(policy), orders, req, env),
                     req.actor.None?)
            == if stopped then Stopped(policy.ID()) else Tally(d, p, a)
  {
    ghost var start := Tally(deny, approval, allow);
    ghost var entries, outcomes := EntriesOf(policy), Outcomes(EntriesOf(policy), orders, req, env);
    d, p, a := deny, approval, allow;
    for j := 0 to |policy.rules|
      invariant ScanFrom(start, entries[..j], outcomes[..j], req.actor.None?) == Tally(d, p, a)
    {
      var m := Matched(policy.ID(), policy.rules[j]);
      var outcome := EvaluateRule(m.rule, req, env, orders[j]);
      assert entries[..j + 1][..j] == entries[..j] && outcomes[..j + 1][..j] == outcomes[..j];
      assert ScanFrom(start, entries[..j + 1], outcomes[..j + 1], req.actor.None?)
          == ScanStep(Tally(d, p, a), m, outcome, req.actor.None?);
      if outcome == Fault {
        assert entries == entries[..j + 1] + entries[j + 1..] && outcomes == outcomes[..j + 1] + outcomes[j + 1..];
        ScanConcat(start, entries[..j + 1], outcomes[..j + 1], entries[j + 1..], outcomes[j + 1..], req.actor.None?);
        StoppedStays(Stopped(policy.ID()), entries[j + 1..], outcomes[j + 1..], req.actor.None?);
        return true, d, p, a;
      }
      if outcome == Match {
        d, p, a := AddMatch(d, p, a, m, req.actor.None?);
      }
    }
    assert entries[..|policy.rules|] == entries && outcomes[..|policy.rules|] == outcomes;
    stopped := false;
  }

  /** The part of evaluateRules after its loops. */
  method Conclude(blank: Decision, deny: seq<Matched>, approval: seq<Matched>, allow: seq<Matched>)
    returns (dec: Decision)
    requires blank.kind == Deny && blank.policyIDs == []
    requires blank.constraints.None? && blank.obligations.None? && blank.approval.None?
    ensures Concludes(Tally(deny, approval, allow), dec)
    ensures dec.decisionID == blank.decisionID && dec.requestID == blank.requestID
  {
    dec := blank;
    if deny != [] {
      var ids := CollectPolicyIDs(deny);
      dec := dec.(policyIDs := ids);
    } else if approval != [] {
      var ids := CollectPolicyIDs(approval);
      dec := dec.(kind := RequireApproval, policyIDs := ids, approval := ApprovalOf(approval[0].rule));
    } else if allow != [] {
      var ids := CollectPolicyIDs(allow);
      var constraints := MergeConstraints(allow);
      var obligations := MergeObligations(allow);
      dec := dec.(kind := if constraints.Some? then AllowConstrained else Allow,
                  policyIDs := ids, constraints := constraints, obligations := obligations);
    }
  }

  lemma {:induction false} ScanStopsAt(policies: seq<Policy>, orders: seq<seq<KeyOrder>>, k: nat, req: Request,
                                       env: Env)
    requires Shaped(orders, policies) && k <= |policies|
    requires ScanPolicies(policies[..k], orders[..k], req, env).Stopped?
    ensures ScanPolicies(policies, orders, req, env) == ScanPolicies(policies[..k], orders[..k], req, env)
    decreases |policies|
  {
    if k == |policies| {
      assert policies[..k] == policies && orders[..k] == orders;
    } else {
      var n := |policies| - 1;
      assert policies[..n][..k] == policies[..k] && orders[..n][..k] == orders[..k];
      ScanStopsAt(policies[..n], orders[..n], k, req, env);
      StoppedStays(ScanPolicies(policies[..n], orders[..n], req, env),
                   EntriesOf(policies[n]), Outcomes(EntriesOf(policies[n]), orders[n], req, env), req.actor.None?);
    }
  }

  lemma {:induction false} ScanConcat(t: Scan, a: seq<Matched>, aOutcomes: seq<Outcome>,
                                      b: seq<Matched>, bOutcomes: seq<Outcome>, actorless: bool)
    requires |aOutcomes| == |a| && |bOutcomes| == |b|
    ensures ScanFrom(t, a + b, aOutcomes + bOutcomes, actorless)
            == ScanFrom(ScanFrom(t, a, aOutcomes, actorless), b, bOutcomes, actorless)
    decreases b
  {
    if b == [] {
      assert a + b == a && aOutcomes + bOutcomes == aOutcomes;
    } else {
      var n := |b| - 1;
      ScanConcat(t, a, aOutcomes, b[..n], bOutcomes[..n], actorless);
      assert (a + b)[..|a + b| - 1] == a + b[..n];
      assert (aOutcomes + bOutcomes)[..|a + b| - 1] == aOutcomes + bOutcomes[..n];
    }
  }

  lemma {:induction false} StoppedStays(t: Scan, entries: seq<Matched>, outcomes: seq<Outcome>, actorless: bool)
    requires |outcomes| == |entries| && t.Stopped?
    ensures ScanFrom(t, entries, outcomes, actorless) == t
  {
    if entries != [] {
      StoppedStays(t, entries[..|entries| - 1], outcomes[..|entries| - 1], actorless);
    }
  }

  // ----- independently of any order

  /** All that the decision depends on, besides the rules: how each is classified and
      whether the request names an actor. */
  datatype View = View(classify: Rule -> RuleClass, actorless: bool)

  ghost function ViewOf(req: Request, env: Env): View {
    View((r: Rule) => Classify(r, req, env), req.actor.None?)
  }

  ghost predicate LiveDeny(e: Matched, v: View) { v.classify(e.rule) == Live && Denies(e.rule, v.actorless) }

  ghost predicate LiveApproval(e: Matched, v: View) { v.classify(e.rule) == Live && e.rule.effect == ApprovalEffect }

  ghost predicate LiveAllow(e: Matched, v: View) { v.classify(e.rule) == Live && e.rule.effect == AllowEffect }

  ghost predicate SomeAre(entries: seq<Matched>, v: View, c: RuleClass) {
    exists e :: e in entries && v.classify(e.rule) == c
  }

  /** The decision with wavering rules left out of account. It looks only at which rules
      there are, not at their order or number. */
  ghost function BaseKind(entries: seq<Matched>, v: View): DecisionKind {
    if SomeAre(entries, v, Broken) || exists e :: e in entries && LiveDeny(e, v) then Deny
    else if exists e :: e in entries && LiveApproval(e, v) then RequireApproval
    else if !exists e :: e in entries && LiveAllow(e, v) then Deny
    else if forall e :: e in entries && LiveAllow(e, v) ==> e.rule.constraints == map[] then Allow
    else AllowConstrained
  }

  /** e is one of the rules the base decision rests on. */
  ghost predicate Decides(e: Matched, entries: seq<Matched>, v: View) {
    match BaseKind(entries, v)
    case RequireApproval => LiveApproval(e, v)
    case Allow | AllowConstrained => LiveAllow(e, v)
    case _ => LiveDeny(e, v)
  }

  /** The meet of the live allow rules' constraints. */
  ghost function AllowedBound(entries: seq<Matched>, v: View): Bound {
    MeetAll(set e | e in entries && LiveAllow(e, v) :: RuleBound(e.rule.constraints))
  }

  ghost predicate OutcomesFit(entries: seq<Matched>, outcomes: seq<Outcome>, v: View) {
    && |outcomes| == |entries|
    && forall i :: 0 <= i < |entries| ==> OutcomeFits(outcomes[i], v.classify(entries[i].rule))
  }

  /** A stop is the fault of a broken or wavering rule; a tally holds exactly the live
      rules, by effect, and no broken rule was met. */
  ghost predicate Represents(t: Scan, entries: seq<Matched>, v: View) {
    if t.Stopped? then
      exists e :: e in entries && e.policyID == t.policyID && v.classify(e.rule) in {Broken, Wavering}
    else
      && !SomeAre(entries, v, Broken)
      && (forall e :: e in t.deny <==> e in entries && LiveDeny(e, v))
      && (forall e :: e in t.approval <==> e in entries && LiveApproval(e, v))
      && (forall e :: e in t.allow <==> e in entries && LiveAllow(e, v))
  }

  lemma StepSound(t: Scan, init: seq<Matched>, e: Matched, outcome: Outcome, v: View)
    requires Represents(t, init, v) && OutcomeFits(outcome, v.classify(e.rule))
    ensures Represents(ScanStep(t, e, outcome, v.actorless), init + [e], v)
  {
    assert forall x :: x in init + [e] <==> x in init || x == e;
    if t.Tally? && outcome == Fault {
      assert e in init + [e];
    }
  }

  lemma {:induction false} ScanFromSound(t: Scan, init: seq<Matched>, entries: seq<Matched>, outcomes: seq<Outcome>,
                                         v: View)
    requires Represents(t, init, v) && OutcomesFit(entries, outcomes, v)
    ensures Represents(ScanFrom(t, entries, outcomes, v.actorless), init + entries, v)
  {
    if entries == [] {
      assert init + entries == init;
    } else {
      var n := |entries| - 1;
      ScanFromSound(t, init, entries[..n], outcomes[..n], v);
      StepSound(ScanFrom(t, entries[..n], outcomes[..n], v.actorless), init + entries[..n], entries[n], outcomes[n], v);
      assert init + entries == init + entries[..n] + [entries[n]];
    }
  }

  /** The outcomes the walks produce all fit the classes of v. */
  ghost predicate WalksFit(policies: seq<Policy>, orders: seq<seq<KeyOrder>>, req: Request, env: Env, v: View) {
    && ArePolicyOrders(orders, policies)
    && v.actorless == req.actor.None?
    && forall i :: 0 <= i < |policies| ==>
         OutcomesFit(EntriesOf(policies[i]), Outcomes(EntriesOf(policies[i]), orders[i], req, env), v)
  }

  lemma {:induction false} ScanSound(policies: seq<Policy>, orders: seq<seq<KeyOrder>>, req: Request, env: Env, v: View)
    requires WalksFit(policies, orders, req, env, v)
    ensures Represents(ScanPolicies(policies, orders, req, env), Flatten(policies), v)
  {
    if policies != [] {
      var n := |policies| - 1;
      ScanSound(policies[..n], orders[..n], req, env, v);
      ScanFromSound(ScanPolicies(policies[..n], orders[..n], req, env), Flatten(policies[..n]),
                    EntriesOf(policies[n]), Outcomes(EntriesOf(policies[n]), orders[n], req, env), v);
    }
  }

  lemma WalksFitSnoc(policies: seq<Policy>, orders: seq<seq<KeyOrder>>, p: Policy, order: seq<KeyOrder>,
                     req: Request, env: Env, v: View)
    requires WalksFit(policies, orders, req, env, v)
    requires AreKeyOrders(order, EntriesOf(p)) && OutcomesFit(EntriesOf(p), Outcomes(EntriesOf(p), order, req, env), v)
    ensures WalksFit(policies + [p], orders + [order], req, env, v)
  {
  }

  lemma WalksFitClasses(policies: seq<Policy>, orders: seq<seq<KeyOrder>>, req: Request, env: Env)
    requires ArePolicyOrders(orders, policies)
    ensures WalksFit(policies, orders, req, env, ViewOf(req, env))
  {
    forall i, j | 0 <= i < |policies| && 0 <= j < |policies[i].rules|
      ensures OutcomeFits(Outcomes(EntriesOf(policies[i]), orders[i], req, env)[j],
                          Classify(policies[i].rules[j], req, env))
    {
      OutcomeSound(policies[i].rules[j], req, env, orders[i][j]);
    }
  }

  lemma KindWithoutWavering(t: Scan, entries: seq<Matched>, v: View)
    requires Represents(t, entries, v) && !SomeAre(entries, v, Wavering)
    ensures KindOf(t) == BaseKind(entries, v)
  {
    if t.Tally? {
      TallyKind(entries, t, v);
    }
  }

  lemma TallyKind(entries: seq<Matched>, t: Scan, v: View)
    requires t.Tally? && Represents(t, entries, v)
    ensures KindOf(t) == BaseKind(entries, v)
    ensures forall e :: e in entries && Decides(e, entries, v)
              <==> e in (if t.deny != [] then t.deny else if t.approval != [] then t.approval else t.allow)
  {
    if t.deny != [] {
      assert t.deny[0] in t.deny;
    } else if t.approval != [] {
      assert t.approval[0] in t.approval;
    } else if t.allow != [] {
      assert t.allow[0] in t.allow;
    }
    assert t.deny == [] ==> forall e :: e in entries ==> !LiveDeny(e, v);
    assert t.approval == [] ==> forall e :: e in entries ==> !LiveApproval(e, v);
    assert t.allow == [] ==> forall e :: e in entries ==> !LiveAllow(e, v);
  }

  lemma AllowedBoundIs(entries: seq<Matched>, t: Scan, v: View)
    requires t.Tally? && Represents(t, entries, v)
    ensures AllowedBound(entries, v) == MeetAll(RuleBounds(t.allow))
  {
    assert RuleBounds(t.allow) == set e | e in entries && LiveAllow(e, v) :: RuleBound(e.rule.constraints);
  }

  // ----- which approval comes first

  /** e is the first rule of the policy that applies and asks for approval. */
  ghost predicate AsksFirst(p: Policy, e: Matched, v: View) {
    exists i :: FirstApprovalAt(EntriesOf(p), i, v) && EntriesOf(p)[i] == e
  }

  ghost predicate FirstApprovalAt(entries: seq<Matched>, i: int, v: View) {
    && 0 <= i < |entries| && LiveApproval(entries[i], v)
    && forall j :: 0 <= j < i ==> !LiveApproval(entries[j], v)
  }

  ghost function Approvals(entries: seq<Matched>, v: View): seq<Matched> {
    if entries == [] then []
    else
      var n := |entries| - 1;
      Approvals(entries[..n], v) + if LiveApproval(entries[n], v) then [entries[n]] else []
  }

  lemma {:induction false} ApprovalsConcat(a: seq<Matched>, b: seq<Matched>, v: View)
    ensures Approvals(a + b, v) == Approvals(a, v) + Approvals(b, v)
    decreases b
  {
    if b == [] {
      assert a + b == a;
    } else {
      var n := |b| - 1;
      ApprovalsConcat(a, b[..n], v);
      assert (a + b)[..|a + b| - 1] == a + b[..n];
    }
  }

  lemma {:induction false} NoApprovalsIff(entries: seq<Matched>, v: View)
    ensures Approvals(entries, v) == [] <==> forall i :: 0 <= i < |entries| ==> !LiveApproval(entries[i], v)
  {
    if entries != [] {
      NoApprovalsIff(entries[..|entries| - 1], v);
    }
  }

  lemma {:induction false} FirstApprovalIs(entries: seq<Matched>, i: int, v: View)
    requires FirstApprovalAt(entries, i, v)
    ensures Approvals(entries, v) != [] && Approvals(entries, v)[0] == entries[i]
  {
    var n := |entries| - 1;
    if i < n {
      FirstApprovalIs(entries[..n], i, v);
    } else {
      NoApprovalsIff(entries[..n], v);
    }
  }

  lemma {:induction false} SomeApprovalIsFirst(entries: seq<Matched>, v: View)
    requires Approvals(entries, v) != []
    ensures exists i :: FirstApprovalAt(entries, i, v)
  {
    var n := |entries| - 1;
    if Approvals(entries[..n], v) != [] {
      SomeApprovalIsFirst(entries[..n], v);
      var i :| FirstApprovalAt(entries[..n], i, v);
      assert FirstApprovalAt(entries, i, v);
    } else {
      NoApprovalsIff(entries[..n], v);
      assert FirstApprovalAt(entries, n, v);
    }
  }

  lemma AsksFirstIs(p: Policy, v: View)
    ensures forall e :: AsksFirst(p, e, v) <==> Approvals(EntriesOf(p), v) != [] && Approvals(EntriesOf(p), v)[0] == e
  {
    var entries := EntriesOf(p);
    forall i | FirstApprovalAt(entries, i, v)
      ensures Approvals(entries, v) != [] && Approvals(entries, v)[0] == entries[i]
    {
      FirstApprovalIs(entries, i, v);
    }
    if Approvals(entries, v) != [] {
      SomeApprovalIsFirst(entries, v);
    }
  }

  lemma {:induction false} ScanFromApprovals(t: Scan, entries: seq<Matched>, outcomes: seq<Outcome>, v: View)
    requires OutcomesFit(entries, outcomes, v) && ScanFrom(t, entries, outcomes, v.actorless).Tally?
    ensures t.Tally?
    ensures ScanFrom(t, entries, outcomes, v.actorless).approval == t.approval + Approvals(entries, v)
  {
    if entries != [] {
      var n := |entries| - 1;
      ScanFromApprovals(t, entries[..n], outcomes[..n], v);
    }
  }

  /** The scan meets the approvals policy by policy, rule by rule. */
  lemma {:induction false} ScanApprovals(policies: seq<Policy>, orders: seq<seq<KeyOrder>>, req: Request, env: Env,
                                         v: View)
    requires WalksFit(policies, orders, req, env, v) && ScanPolicies(policies, orders, req, env).Tally?
    ensures ScanPolicies(policies, orders, req, env).approval == Approvals(Flatten(policies), v)
  {
    if policies != [] {
      var n := |policies| - 1;
      var entries := EntriesOf(policies[n]);
      ScanFromApprovals(ScanPolicies(policies[..n], orders[..n], req, env), entries,
                        Outcomes(entries, orders[n], req, env), v);
      ScanApprovals(policies[..n], orders[..n], req, env, v);
      ApprovalsConcat(Flatten(policies[..n]), entries, v);
    }
  }

  lemma {:induction false} FirstComesFromSome(policies: seq<Policy>, v: View)
    requires Approvals(Flatten(policies), v) != []
    ensures exists p :: p in policies && AsksFirst(p, Approvals(Flatten(policies), v)[0], v)
  {
    var n := |policies| - 1;
    var init := Flatten(policies[..n]);
    ApprovalsConcat(init, EntriesOf(policies[n]), v);
    AsksFirstIs(policies[n], v);
    if Approvals(init, v) != [] {
      FirstComesFromSome(policies[..n], v);
      var p :| p in policies[..n] && AsksFirst(p, Approvals(init, v)[0], v);
      assert p in policies && AsksFirst(p, Approvals(Flatten(policies), v)[0], v);
    } else {
      assert AsksFirst(policies[n], Approvals(Flatten(policies), v)[0], v);
    }
  }

  // ----- the main results

  /** The order-free reading of evaluateRules. For every order of policies, rules and map
      keys: when no applicable rule wavers, the kind of decision is the base kind; whenever it
      is not deny, and whenever no applicable rule wavers or is broken, the policy ids are
      exactly those of the deciding rules; constraints and obligations are those of the live
      allow rules; and an approval is the first one that some policy asks for. */
  lemma DecisionIsOrderFree(policies: seq<Policy>, orders: seq<seq<KeyOrder>>, req: Request, env: Env, dec: Decision)
    requires ArePolicyOrders(orders, policies)
    requires Concludes(ScanPolicies(policies, orders, req, env), dec)
    ensures var all, v := Flatten(policies), ViewOf(req, env);
            && (!SomeAre(all, v, Wavering) ==> dec.kind == BaseKind(all, v))
            && (dec.kind != Deny ==> dec.kind == BaseKind(all, v))
            && (dec.kind != Deny || (!SomeAre(all, v, Wavering) && !SomeAre(all, v, Broken)) ==>
                  forall id :: id in dec.policyIDs <==>
                    exists e :: e in all && e.policyID == id && Decides(e, all, v))
            && (dec.kind == Deny ==>
                  forall id :: id in dec.policyIDs ==>
                    exists e :: e in all && e.policyID == id
                                && (LiveDeny(e, v) || v.classify(e.rule) in {Broken, Wavering}))
            && (dec.kind.Grants() ==>
                  && AllowedBound(all, v) == (if dec.constraints.Some? then BoundOf(dec.constraints.value) else TOP)
                  && forall ms: seq<Matched> :: (forall e :: e in ms <==> e in all && LiveAllow(e, v)) ==>
                       ObligationsOf(ms, dec.obligations))
            && (dec.kind == RequireApproval ==>
                  exists p, e :: p in policies && AsksFirst(p, e, v) && dec.approval == ApprovalOf(e.rule))
  {
    var all, v := Flatten(policies), ViewOf(req, env);
    var t := ScanPolicies(policies, orders, req, env);
    WalksFitClasses(policies, orders, req, env);
    ScanSound(policies, orders, req, env, v);
    if !SomeAre(all, v, Wavering) {
      KindWithoutWavering(t, all, v);
    }
    if t.Tally? {
      TallyKind(all, t, v);
      AllowedBoundIs(all, t, v);
      if dec.kind == Allow {
        UnconstrainedIsTop(t.allow);
      }
      if dec.kind == RequireApproval {
        ScanApprovals(policies, orders, req, env, v);
        FirstComesFromSome(policies, v);
      }
      forall ms: seq<Matched> | dec.kind.Grants() && forall e :: e in ms <==> e in all && LiveAllow(e, v)
        ensures ObligationsOf(ms, dec.obligations)
      {
        ObligationsOfSameRules(t.allow, ms, dec.obligations);
      }
    }
  }

  lemma ObligationsOfSameRules(a: seq<Matched>, b: seq<Matched>, o: Option<Obligations>)
    requires forall e :: e in a <==> e in b
    requires ObligationsOf(a, o)
    ensures ObligationsOf(b, o)
  {
  }

  lemma UnconstrainedIsTop(matches: seq<Matched>)
    requires forall m :: m in matches ==> m.rule.constraints == map[]
    ensures MeetAll(RuleBounds(matches)) == TOP
  {
    forall r | r in matches
      ensures ValidConstraints(r.rule.constraints)
    {
    }
    MergeIsTopIff(matches);
  }

  /** What a decision lets through. */
  ghost predicate Grants(dec: Decision, a: Access) {
    dec.kind.Grants() && (dec.constraints.Some? ==> Permits(BoundOf(dec.constraints.value), a))
  }

  /** The rules that say yes to an access, and the rules that stand in the way. */
  ghost predicate Granted(entries: seq<Matched>, v: View, a: Access) {
    && (exists e :: e in entries && LiveAllow(e, v))
    && (forall e :: e in entries ==>
          && v.classify(e.rule) != Broken
          && !LiveDeny(e, v)
          && !LiveApproval(e, v)
          && (LiveAllow(e, v) ==> ValidConstraints(e.rule.constraints) && EntriesPermit(e.rule.constraints, a)))
  }

  /** Sound and complete: a decision lets an access through only if some allow rule applies,
      no deny, approval, actor-less delegation or malformed rule does, and every entry of
      every applying allow rule permits the access; and, when no rule wavers, whenever that
      is so. */
  lemma AccessIsExact(policies: seq<Policy>, orders: seq<seq<KeyOrder>>, req: Request, env: Env, dec: Decision,
                      a: Access)
    requires ArePolicyOrders(orders, policies)
    requires Concludes(ScanPolicies(policies, orders, req, env), dec)
    ensures Grants(dec, a) ==> Granted(Flatten(policies), ViewOf(req, env), a)
    ensures !SomeAre(Flatten(policies), ViewOf(req, env), Wavering) && Granted(Flatten(policies), ViewOf(req, env), a)
            ==> Grants(dec, a)
  {
    var all, v := Flatten(policies), ViewOf(req, env);
    var t := ScanPolicies(policies, orders, req, env);
    WalksFitClasses(policies, orders, req, env);
    ScanSound(policies, orders, req, env, v);
    LiveRulesAreValid(all, req, env);
    if t.Tally? {
      forall e | e in t.allow
        ensures ValidConstraints(e.rule.constraints)
      {
        assert LiveAllow(e, v);
      }
      MergeIsExact(t.allow, a);
      if dec.kind == Allow {
        UnconstrainedIsTop(t.allow);
      }
      TallyGrants(t, all, v, dec, a);
    }
  }

  lemma LiveRulesAreValid(entries: seq<Matched>, req: Request, env: Env)
    ensures forall e :: e in entries && LiveAllow(e, ViewOf(req, env)) ==> ValidConstraints(e.rule.constraints)
  {
    forall e | e in entries && LiveAllow(e, ViewOf(req, env))
      ensures ValidConstraints(e.rule.constraints)
    {
      assert Classify(e.rule, req, env) == Live;
    }
  }

  lemma TallyGrants(t: Scan, entries: seq<Matched>, v: View, dec: Decision, a: Access)
    requires t.Tally? && Represents(t, entries, v) && Concludes(t, dec)
    requires forall e :: e in t.allow ==> ValidConstraints(e.rule.constraints)
    requires Permits(MeetAll(RuleBounds(t.allow)), a)
             <==> forall e :: e in t.allow ==> EntriesPermit(e.rule.constraints, a)
    requires dec.kind == Allow ==> MeetAll(RuleBounds(t.allow)) == TOP
    ensures Grants(dec, a) <==> Granted(entries, v, a)
  {
    TallyKind(entries, t, v);
    assert t.deny != [] ==> t.deny[0] in t.deny;
    assert t.approval != [] ==> t.approval[0] in t.approval;
    if Grants(dec, a) {
      assert t.allow[0] in t.allow;
      assert t.deny == [] && t.approval == [];
      assert forall e :: e in entries && LiveDeny(e, v) ==> e in t.deny;
      assert forall e :: e in entries && LiveApproval(e, v) ==> e in t.approval;
    }
    if Granted(entries, v, a) {
      var e :| e in entries && LiveAllow(e, v);
      assert e in t.allow;
      assert forall e :: e in t.deny ==> LiveDeny(e, v);
      assert forall e :: e in t.approval ==> LiveApproval(e, v);
    }
  }

  /** Constraints only become stricter: once a request is allowed, no policies or rules of
      any effect, added anywhere, let through an access that was not let through before. */
  lemma AddingRulesNeverWidens(
    policies: seq<Policy>, orders: seq<seq<KeyOrder>>, before: Decision,
    more: seq<Policy>, moreOrders: seq<seq<KeyOrder>>, after: Decision,
    req: Request, env: Env, a: Access)
    requires ArePolicyOrders(orders, policies) && Concludes(ScanPolicies(policies, orders, req, env), before)
    requires ArePolicyOrders(moreOrders, more) && Concludes(ScanPolicies(more, moreOrders, req, env), after)
    requires forall e :: e in Flatten(policies) ==> e in Flatten(more)
    requires before.kind.Grants()
    ensures Grants(after, a) ==> Grants(before, a)
  {
    var all, v := Flatten(policies), ViewOf(req, env);
    if Grants(after, a) {
      AccessIsExact(more, moreOrders, req, env, after, a);
      var t := ScanPolicies(policies, orders, req, env);
      WalksFitClasses(policies, orders, req, env);
      ScanSound(policies, orders, req, env, v);
      forall e | e in t.allow
        ensures ValidConstraints(e.rule.constraints) && EntriesPermit(e.rule.constraints, a)
      {
        assert e in all && LiveAllow(e, v) && e in Flatten(more);
      }
      MergeIsExact(t.allow, a);
    }
  }

  // ----- when the answer depends on map order

  /** Some order of the policies and of every map yields this kind of decision. */
  ghost predicate PossibleKind(policies: seq<Policy>, req: Request, env: Env, kind: DecisionKind) {
    exists ps, orders ::
      && multiset(ps) == multiset(policies)
      && ArePolicyOrders(orders, ps)
      && KindOf(ScanPolicies(ps, orders, req, env)) == kind
  }

  /** v with every wavering rule settled one way. */
  ghost function Settle(v: View, fault: bool): View {
    var settled := if fault then Broken else Skipped;
    View((r: Rule) => if v.classify(r) == Wavering then settled else v.classify(r), v.actorless)
  }

  lemma SettlingOrder(rule: Rule, req: Request, env: Env, fault: bool) returns (order: KeyOrder)
    ensures IsKeyOrder(order, rule)
    ensures OutcomeFits(RuleOutcome(rule, req, env, order), Settle(ViewOf(req, env), fault).classify(rule))
  {
    var outcome := match Classify(rule, req, env)
      case Skipped => Skip
      case Broken => Fault
      case Wavering => if fault then Fault else Skip
      case Live => Match;
    order := OutcomeComplete(rule, req, env, outcome);
  }

  lemma OutcomesSnoc(entries: seq<Matched>, orders: seq<KeyOrder>, e: Matched, order: KeyOrder, req: Request, env: Env)
    requires |orders| == |entries|
    ensures Outcomes(entries + [e], orders + [order], req, env)
            == Outcomes(entries, orders, req, env) + [RuleOutcome(e.rule, req, env, order)]
  {
  }

  lemma {:induction false} SettlingWalk(entries: seq<Matched>, req: Request, env: Env, fault: bool)
    returns (orders: seq<KeyOrder>)
    ensures AreKeyOrders(orders, entries)
    ensures OutcomesFit(entries, Outcomes(entries, orders, req, env), Settle(ViewOf(req, env), fault))
  {
    if entries == [] {
      orders := [];
    } else {
      var n := |entries| - 1;
      var rest := SettlingWalk(entries[..n], req, env, fault);
      var last := SettlingOrder(entries[n].rule, req, env, fault);
      orders := rest + [last];
      OutcomesSnoc(entries[..n], rest, entries[n], last, req, env);
      assert entries == entries[..n] + [entries[n]];
    }
  }

  lemma {:induction false} SettlingOrders(policies: seq<Policy>, req: Request, env: Env, fault: bool)
    returns (orders: seq<seq<KeyOrder>>)
    ensures WalksFit(policies, orders, req, env, Settle(ViewOf(req, env), fault))
  {
    if policies == [] {
      orders := [];
    } else {
      var n := |policies| - 1;
      var rest := SettlingOrders(policies[..n], req, env, fault);
      var last := SettlingWalk(EntriesOf(policies[n]), req, env, fault);
      orders := rest + [last];
      WalksFitSnoc(policies[..n], rest, policies[n], last, req, env, Settle(ViewOf(req, env), fault));
      assert policies == policies[..n] + [policies[n]];
    }
  }

  lemma {:induction false} FlattenMembers(policies: seq<Policy>, e: Matched)
    ensures e in Flatten(policies) <==> exists p :: p in policies && e in EntriesOf(p)
  {
    if policies != [] {
      var n := |policies| - 1;
      FlattenMembers(policies[..n], e);
      assert policies == policies[..n] + [policies[n]];
    }
  }

  lemma BaseKindOfPermutation(ps: seq<Policy>, policies: seq<Policy>, v: View)
    requires multiset(ps) == multiset(policies)
    ensures forall e :: e in Flatten(ps) <==> e in Flatten(policies)
    ensures BaseKind(Flatten(ps), v) == BaseKind(Flatten(policies), v)
  {
    forall e
      ensures e in Flatten(ps) <==> e in Flatten(policies)
    {
      FlattenMembers(ps, e);
      FlattenMembers(policies, e);
      assert forall p :: p in ps <==> p in multiset(ps);
      assert forall p :: p in policies <==> p in multiset(policies);
    }
  }

  /** Exactly which kinds of decision map order can produce: the base kind, and deny besides
      when an applicable rule wavers. */
  lemma PossibleKindsAre(policies: seq<Policy>, req: Request, env: Env, kind: DecisionKind)
    ensures PossibleKind(policies, req, env, kind)
            <==> || kind == BaseKind(Flatten(policies), ViewOf(req, env))
                 || (kind == Deny && SomeAre(Flatten(policies), ViewOf(req, env), Wavering))
  {
    var all, v := Flatten(policies), ViewOf(req, env);
    if PossibleKind(policies, req, env, kind) {
      var ps, orders :| multiset(ps) == multiset(policies) && ArePolicyOrders(orders, ps)
                        && KindOf(ScanPolicies(ps, orders, req, env)) == kind;
      BaseKindOfPermutation(ps, policies, v);
      WalksFitClasses(ps, orders, req, env);
      ScanSound(ps, orders, req, env, v);
      if ScanPolicies(ps, orders, req, env).Tally? {
        TallyKind(Flatten(ps), ScanPolicies(ps, orders, req, env), v);
      }
    }
    SettledKind(policies, req, env, false);
    if SomeAre(all, v, Wavering) {
      SettledKind(policies, req, env, true);
    }
  }

  lemma SettledKind(policies: seq<Policy>, req: Request, env: Env, fault: bool)
    requires fault ==> SomeAre(Flatten(policies), ViewOf(req, env), Wavering)
    ensures PossibleKind(policies, req, env, if fault then Deny else BaseKind(Flatten(policies), ViewOf(req, env)))
  {
    var all, v := Flatten(policies), ViewOf(req, env);
    var settled := Settle(v, fault);
    var orders := SettlingOrders(policies, req, env, fault);
    ScanSound(policies, orders, req, env, settled);
    SettledBase(all, v, fault);
    KindWithoutWavering(ScanPolicies(policies, orders, req, env), all, settled);
  }

  lemma SettledBase(entries: seq<Matched>, v: View, fault: bool)
    ensures !SomeAre(entries, Settle(v, fault), Wavering)
    ensures BaseKind(entries, Settle(v, fault))
            == if fault && SomeAre(entries, v, Wavering) then Deny else BaseKind(entries, v)
  {
    var s := Settle(v, fault);
    assert forall e :: LiveDeny(e, s) <==> LiveDeny(e, v);
    assert forall e :: LiveApproval(e, s) <==> LiveApproval(e, v);
    assert forall e :: LiveAllow(e, s) <==> LiveAllow(e, v);
    assert SomeAre(entries, s, Broken)
      <==> SomeAre(entries, v, Broken) || (fault && SomeAre(entries, v, Wavering));
  }

  /** The kind of decision is the same for every order if and only if no applicable rule wavers
      or the base kind is deny anyway. */
  lemma KindIsStableIff(policies: seq<Policy>, req: Request, env: Env)
    ensures (forall k1, k2 :: PossibleKind(policies, req, env, k1) && PossibleKind(policies, req, env, k2) ==> k1 == k2)
            <==> || !SomeAre(Flatten(policies), ViewOf(req, env), Wavering)
                 || BaseKind(Flatten(policies), ViewOf(req, env)) == Deny
  {
    var base := BaseKind(Flatten(policies), ViewOf(req, env));
    PossibleKindsAre(policies, req, env, base);
    if SomeAre(Flatten(policies), ViewOf(req, env), Wavering) && base != Deny {
      PossibleKindsAre(policies, req, env, Deny);
    } else {
      forall k1, k2 | PossibleKind(policies, req, env, k1) && PossibleKind(policies, req, env, k2)
        ensures k1 == k2
      {
        PossibleKindsAre(policies, req, env, k1);
        PossibleKindsAre(policies, req, env, k2);
      }
    }
  }

  /** Map order can change the answer: an allow rule beside one whose two conditions are an
      absent actor and an unknown key. */
  lemma OrderCanDecide(env: Env)
    ensures var req := Request("r", "agent://ns/a", None, "read", None, map[], "");
            var plain := Rule(AllowEffect, ["read"], None, map[], map[], map[], None);
            var rules := [plain, plain.(conditions := map["actorRequired" := Bool(true), "region" := Str("eu")])];
            var policies := [Policy("ns", "p", PolicySubject("", "", "", true), rules)];
            PossibleKind(policies, req, env, Allow) && PossibleKind(policies, req, env, Deny)
  {
    var req := Request("r", "agent://ns/a", None, "read", None, map[], "");
    var plain := Rule(AllowEffect, ["read"], None, map[], map[], map[], None);
    var mixed := plain.(conditions := map["actorRequired" := Bool(true), "region" := Str("eu")]);
    var policies := [Policy("ns", "p", PolicySubject("", "", "", true), [plain, mixed])];
    PlainIsLive(plain, req, env);
    MixedWavers(mixed, req, env);
    var id := policies[0].ID();
    assert policies[..0] == [];
    assert Flatten(policies) == [] + EntriesOf(policies[0]) == [Matched(id, plain), Matched(id, mixed)];
    BaseOfTwo(Matched(id, plain), Matched(id, mixed), ViewOf(req, env));
    PossibleKindsAre(policies, req, env, Allow);
    PossibleKindsAre(policies, req, env, Deny);
  }

  lemma BaseOfTwo(plain: Matched, mixed: Matched, v: View)
    requires LiveAllow(plain, v) && plain.rule.constraints == map[] && v.classify(mixed.rule) == Wavering
    ensures BaseKind([plain, mixed], v) == Allow && SomeAre([plain, mixed], v, Wavering)
  {
    var all := [plain, mixed];
    assert plain in all && mixed in all;
  }

  lemma PlainIsLive(r: Rule, req: Request, env: Env)
    requires r.actions == [req.action] && r.resources == None
    requires r.conditions == map[] && r.constraints == map[] && r.obligations == map[]
    ensures Classify(r, req, env) == Live
  {
    assert req.action in r.actions && Covers(req.action, req.action);
  }

  lemma MixedWavers(r: Rule, req: Request, env: Env)
    requires r.actions == [req.action] && r.resources == None && req.actor == None
    requires r.conditions == map["actorRequired" := Bool(true), "region" := Str("eu")]
    ensures Classify(r, req, env) == Wavering
  {
    assert req.action in r.actions && Covers(req.action, req.action);
    assert "actorRequired" in r.conditions && "region" in r.conditions;
    assert r.conditions["actorRequired"] == Bool(true);
    assert ConditionCan("actorRequired", r.conditions["actorRequired"], req, env, Unmet);
    assert ConditionCan("region", r.conditions["region"], req, env, Malformed);
  }
}
