/** Who must approve: what a decision that asks for approval names. */
module ApprovalOrders {
  import opened Model
  import opened ConstraintAlgebra
  import opened Rules
  import opened RuleEngine

  /** Some order of the policies and of every map leads to approval, and attaches this. */
  ghost predicate PossibleApproval(policies: seq<Policy>, req: Request, env: Env, r: Option<ApprovalRef>) {
    exists ps, orders ::
      && multiset(ps) == multiset(policies)
      && ArePolicyOrders(orders, ps)
      && Attaches(ScanPolicies(ps, orders, req, env), r)
  }

  ghost predicate Attaches(t: Scan, r: Option<ApprovalRef>) {
    KindOf(t) == RequireApproval && ApprovalOf(t.approval[0].rule) == r
  }

  /** Some policy asks first for this. */
  ghost predicate Asked(policies: seq<Policy>, v: View, r: Option<ApprovalRef>) {
    exists p, e :: p in policies && AsksFirst(p, e, v) && ApprovalOf(e.rule) == r
  }

  lemma FlattenSnoc(init: seq<Policy>, last: Policy)
    ensures Flatten(init + [last]) == Flatten(init) + EntriesOf(last)
  {
    assert (init + [last])[..|init|] == init;
  }

  lemma {:induction false} FlattenCons(p: Policy, rest: seq<Policy>)
    ensures Flatten([p] + rest) == EntriesOf(p) + Flatten(rest)
    decreases rest
  {
    if rest == [] {
      FlattenSnoc([], p);
      assert [p] + rest == [] + [p];
    } else {
      var init, last := rest[..|rest| - 1], rest[|rest| - 1];
      FlattenCons(p, init);
      FlattenSnoc(init, last);
      FlattenSnoc([p] + init, last);
      assert [p] + rest == [p] + init + [last] && rest == init + [last];
    }
  }

  lemma BringToFront(policies: seq<Policy>, p: Policy) returns (ps: seq<Policy>)
    requires p in policies
    ensures ps != [] && ps[0] == p && multiset(ps) == multiset(policies)
  {
    var k :| 0 <= k < |policies| && policies[k] == p;
    ps := [p] + (policies[..k] + policies[k + 1..]);
    assert policies == policies[..k] + [p] + policies[k + 1..];
  }

  lemma FirstInFront(ps: seq<Policy>, e: Matched, v: View)
    requires ps != [] && AsksFirst(ps[0], e, v)
    ensures Approvals(Flatten(ps), v) != [] && Approvals(Flatten(ps), v)[0] == e
  {
    assert ps == [ps[0]] + ps[1..];
    FlattenCons(ps[0], ps[1..]);
    ApprovalsConcat(EntriesOf(ps[0]), Flatten(ps[1..]), v);
    AsksFirstIs(ps[0], v);
  }

  /** With its policy in front, the rule that asks first is the one the decision names. */
  lemma FrontAsks(ps: seq<Policy>, e: Matched, req: Request, env: Env)
    requires ps != [] && AsksFirst(ps[0], e, ViewOf(req, env))
    requires BaseKind(Flatten(ps), ViewOf(req, env)) == RequireApproval
    ensures PossibleApproval(ps, req, env, ApprovalOf(e.rule))
  {
    var v := ViewOf(req, env);
    var settled := Settle(v, false);
    var orders := SettlingOrders(ps, req, env, false);
    var t := ScanPolicies(ps, orders, req, env);
    ScanSound(ps, orders, req, env, settled);
    SettledBase(Flatten(ps), v, false);
    KindWithoutWavering(t, Flatten(ps), settled);
    ScanApprovals(ps, orders, req, env, settled);
    SettledAsksFirst(ps[0], e, v);
    FirstInFront(ps, e, settled);
    assert Attaches(t, ApprovalOf(e.rule));
  }

  lemma SettledAsksFirst(p: Policy, e: Matched, v: View)
    requires AsksFirst(p, e, v)
    ensures AsksFirst(p, e, Settle(v, false))
  {
    var i :| FirstApprovalAt(EntriesOf(p), i, v) && EntriesOf(p)[i] == e;
    assert forall x :: LiveApproval(x, Settle(v, false)) <==> LiveApproval(x, v);
    assert FirstApprovalAt(EntriesOf(p), i, Settle(v, false));
  }

  lemma OrderIsIrrelevant(ps: seq<Policy>, policies: seq<Policy>, req: Request, env: Env, r: Option<ApprovalRef>)
    requires multiset(ps) == multiset(policies)
    ensures PossibleApproval(ps, req, env, r) ==> PossibleApproval(policies, req, env, r)
  {
  }

  lemma AttachedWasAsked(ps: seq<Policy>, orders: seq<seq<KeyOrder>>, req: Request, env: Env, r: Option<ApprovalRef>)
    requires ArePolicyOrders(orders, ps) && Attaches(ScanPolicies(ps, orders, req, env), r)
    ensures BaseKind(Flatten(ps), ViewOf(req, env)) == RequireApproval && Asked(ps, ViewOf(req, env), r)
  {
    var t, v := ScanPolicies(ps, orders, req, env), ViewOf(req, env);
    WalksFitClasses(ps, orders, req, env);
    ScanSound(ps, orders, req, env, v);
    TallyKind(Flatten(ps), t, v);
    ScanApprovals(ps, orders, req, env, v);
    FirstComesFromSome(ps, v);
  }

  /** Exactly what a decision that asks for approval can name: the approval of the first rule
      that asks for one in some policy, for any policy that does. */
  lemma PossibleApprovalsAre(policies: seq<Policy>, req: Request, env: Env, r: Option<ApprovalRef>)
    ensures PossibleApproval(policies, req, env, r)
            <==> && BaseKind(Flatten(policies), ViewOf(req, env)) == RequireApproval
                 && Asked(policies, ViewOf(req, env), r)
  {
    var v := ViewOf(req, env);
    if PossibleApproval(policies, req, env, r) {
      var ps, orders :| multiset(ps) == multiset(policies) && ArePolicyOrders(orders, ps)
                        && Attaches(ScanPolicies(ps, orders, req, env), r);
      BaseKindOfPermutation(ps, policies, v);
      AttachedWasAsked(ps, orders, req, env, r);
      var p, e :| p in ps && AsksFirst(p, e, v) && ApprovalOf(e.rule) == r;
      assert p in multiset(ps);
    }
    if BaseKind(Flatten(policies), v) == RequireApproval && Asked(policies, v, r) {
      var p, e :| p in policies && AsksFirst(p, e, v) && ApprovalOf(e.rule) == r;
      var ps := BringToFront(policies, p);
      BaseKindOfPermutation(ps, policies, v);
      FrontAsks(ps, e, req, env);
      OrderIsIrrelevant(ps, policies, req, env, r);
    }
  }

  /** The approval is the same for every order if and only if none is asked for, or all
      policies that ask first ask for the same. */
  lemma ApprovalIsStableIff(policies: seq<Policy>, req: Request, env: Env)
    ensures (forall r, s ::
               PossibleApproval(policies, req, env, r) && PossibleApproval(policies, req, env, s) ==> r == s)
            <==> || BaseKind(Flatten(policies), ViewOf(req, env)) != RequireApproval
                 || forall r, s ::
                      Asked(policies, ViewOf(req, env), r) && Asked(policies, ViewOf(req, env), s) ==> r == s
  {
    forall r
      ensures PossibleApproval(policies, req, env, r)
              <==> && BaseKind(Flatten(policies), ViewOf(req, env)) == RequireApproval
                   && Asked(policies, ViewOf(req, env), r)
    {
      PossibleApprovalsAre(policies, req, env, r);
    }
  }

  function ApprovalRule(approver: string): Rule {
    Rule(ApprovalEffect, ["read"], None, map[], map[], map[], Some(Approval([approver], "")))
  }

  lemma ApprovalRuleIsLive(approver: string, req: Request, env: Env)
    requires req.action == "read"
    ensures Classify(ApprovalRule(approver), req, env) == Live
  {
    var r := ApprovalRule(approver);
    assert req.action in r.actions && Covers(req.action, req.action);
  }

  lemma OneRuleAsks(p: Policy, approver: string, req: Request, env: Env)
    requires p.rules == [ApprovalRule(approver)] && req.action == "read"
    ensures EntriesOf(p) == [Matched(p.ID(), ApprovalRule(approver))]
    ensures LiveApproval(EntriesOf(p)[0], ViewOf(req, env)) && AsksFirst(p, EntriesOf(p)[0], ViewOf(req, env))
  {
    ApprovalRuleIsLive(approver, req, env);
    assert FirstApprovalAt(EntriesOf(p), 0, ViewOf(req, env));
  }

  lemma TwoRulesBase(a: Matched, b: Matched, v: View)
    requires LiveApproval(a, v) && LiveApproval(b, v)
    ensures BaseKind([a, b], v) == RequireApproval
  {
    assert a in [a, b];
  }

  lemma EitherMayApprove(p: Policy, q: Policy, first: string, second: string, req: Request, env: Env)
    requires p.rules == [ApprovalRule(first)] && q.rules == [ApprovalRule(second)] && req.action == "read"
    ensures PossibleApproval([p, q], req, env, Some(ApprovalRef([first], 0)))
    ensures PossibleApproval([p, q], req, env, Some(ApprovalRef([second], 0)))
  {
    var a, b := EntriesOf(p)[0], EntriesOf(q)[0];
    OneRuleAsks(p, first, req, env);
    OneRuleAsks(q, second, req, env);
    FlattenSnoc([], p);
    FlattenSnoc([p], q);
    assert [] + [p] == [p] && [p] + [q] == [p, q] && Flatten([p, q]) == [a, b];
    TwoRulesBase(a, b, ViewOf(req, env));
    NamesApprover(p, first);
    NamesApprover(q, second);
    assert p in [p, q] && q in [p, q];
    PossibleApprovalsAre([p, q], req, env, ApprovalOf(a.rule));
    PossibleApprovalsAre([p, q], req, env, ApprovalOf(b.rule));
  }

  /** Two policies, one asking for alice's approval and one for bob's: the order of the
      policies decides who must approve. */
  lemma OrderCanChooseApprover(env: Env)
    ensures var req := Request("r", "agent://ns/a", None, "read", None, map[], "");
            var subject := PolicySubject("", "", "", true);
            var policies := [Policy("ns", "p", subject, [ApprovalRule("alice")]),
                             Policy("ns", "q", subject, [ApprovalRule("bob")])];
            && PossibleApproval(policies, req, env, Some(ApprovalRef(["alice"], 0)))
            && PossibleApproval(policies, req, env, Some(ApprovalRef(["bob"], 0)))
  {
    var subject := PolicySubject("", "", "", true);
    var p, q := Policy("ns", "p", subject, [ApprovalRule("alice")]), Policy("ns", "q", subject, [ApprovalRule("bob")]);
    EitherMayApprove(p, q, "alice", "bob", Request("r", "agent://ns/a", None, "read", None, map[], ""), env);
  }

  lemma NamesApprover(p: Policy, approver: string)
    requires p.rules == [ApprovalRule(approver)]
    ensures ApprovalOf(EntriesOf(p)[0].rule) == Some(ApprovalRef([approver], 0))
  {
  }
}
