/** The authorize counters. */
module Metrics {
  import opened Model

  datatype Counters = Counters(
    requests: nat, invalid: nat, allow: nat, constrained: nat, deny: nat, approval: nat, delegation: nat, stepUp: nat,
    other: nat)
  {
    /** All the decision counters together. */
    function Decisions(): nat { allow + constrained + deny + approval + delegation + stepUp + other }

    /** recordAuthorize for a decision, or for a request that got none. */
    function Record(kind: Option<DecisionKind>): Counters {
      if kind.None? then this
      else match kind.value
        case Allow => this.(allow := allow + 1)
        case AllowConstrained => this.(constrained := constrained + 1)
        case Deny => this.(deny := deny + 1)
        case RequireApproval => this.(approval := approval + 1)
        case RequireDelegation => this.(delegation := delegation + 1)
        case RequireStepUp => this.(stepUp := stepUp + 1)
        case Unsupported(_) => this.(other := other + 1)
    }
  }

  /** The counter a decision has. */
  function CounterOf(c: Counters, kind: DecisionKind): nat {
    if kind == Allow then c.allow
    else if kind == AllowConstrained then c.constrained
    else if kind == Deny then c.deny
    else if kind == RequireApproval then c.approval
    else if kind == RequireDelegation then c.delegation
    else if kind == RequireStepUp then c.stepUp
    else c.other
  }

  /** Every supported decision has its own counter, and recording one moves no other. */
  lemma RecordMovesOne(c: Counters, kind: DecisionKind, other: DecisionKind)
    requires !kind.Unsupported? && !other.Unsupported?
    ensures var after := c.Record(Some(kind));
            && CounterOf(after, other) == CounterOf(c, other) + (if other == kind then 1 else 0)
            && after.requests == c.requests && after.invalid == c.invalid && after.other == c.other
    ensures c.Record(None) == c
  {
  }

  const ZERO := Counters(0, 0, 0, 0, 0, 0, 0, 0, 0)

  class ServerMetrics {
    var authorizeRequests: nat
    var authorizeInvalid: nat
    var authorizeLatencyNanos: nat
    var decisionAllow: nat
    var decisionAllowConstrain: nat
    var decisionDeny: nat
    var decisionApproval: nat
    var decisionDelegation: nat
    var decisionStepUp: nat
    var decisionOther: nat
    var auditWriteErrors: nat

    constructor ()
      ensures Snapshot() == ZERO && authorizeLatencyNanos == 0 && auditWriteErrors == 0
    {
      authorizeRequests, authorizeInvalid, authorizeLatencyNanos := 0, 0, 0;
      decisionAllow, decisionAllowConstrain, decisionDeny, decisionApproval := 0, 0, 0, 0;
      decisionDelegation, decisionStepUp, decisionOther, auditWriteErrors := 0, 0, 0, 0;
    }

    function Snapshot(): Counters
      reads this
    {
      Counters(authorizeRequests, authorizeInvalid, decisionAllow, decisionAllowConstrain, decisionDeny,
               decisionApproval, decisionDelegation, decisionStepUp, decisionOther)
    }

    method CountRequest()
      modifies this
      ensures Snapshot() == old(Snapshot()).(requests := old(Snapshot()).requests + 1)
      ensures authorizeLatencyNanos == old(authorizeLatencyNanos) && auditWriteErrors == old(auditWriteErrors)
    {
      authorizeRequests := authorizeRequests + 1;
    }

    method CountInvalid()
      modifies this
      ensures Snapshot() == old(Snapshot()).(invalid := old(Snapshot()).invalid + 1)
      ensures authorizeLatencyNanos == old(authorizeLatencyNanos) && auditWriteErrors == old(auditWriteErrors)
    {
      authorizeInvalid := authorizeInvalid + 1;
    }

    method CountWriteError()
      modifies this`auditWriteErrors
      ensures Snapshot() == old(Snapshot()) && authorizeLatencyNanos == old(authorizeLatencyNanos)
      ensures auditWriteErrors == old(auditWriteErrors) + 1
    {
      auditWriteErrors := auditWriteErrors + 1;
    }

    /** recordAuthorize. */
    method RecordAuthorize(duration: nat, decision: Option<DecisionKind>)
      modifies this
      ensures Snapshot() == old(Snapshot()).Record(decision)
      ensures authorizeLatencyNanos == old(authorizeLatencyNanos) + duration
      ensures auditWriteErrors == old(auditWriteErrors)
    {
      authorizeLatencyNanos := authorizeLatencyNanos + duration;
      if decision.None? { return; }
      match decision.value
      case Allow => decisionAllow := decisionAllow + 1;
      case AllowConstrained => decisionAllowConstrain := decisionAllowConstrain + 1;
      case Deny => decisionDeny := decisionDeny + 1;
      case RequireApproval => decisionApproval := decisionApproval + 1;
      case RequireDelegation => decisionDelegation := decisionDelegation + 1;
      case RequireStepUp => decisionStepUp := decisionStepUp + 1;
      case Unsupported(_) => decisionOther := decisionOther + 1;
    }
  }
}
