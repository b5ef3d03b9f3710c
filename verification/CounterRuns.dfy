/** The authorize counters over whole runs. */
module CounterRuns {
  import opened Model
  import opened Evaluator
  import opened Registries
  import opened Sessions
  import opened Metrics
  import opened ServerRuns

  // ----- requests in flight

  /** Calls are numbered below next, and their verdicts are among the six decisions. */
  ghost predicate InFlightOK(w: CallPart) {
    forall c :: c in w.calls ==> c < w.next && HasKnownKind(w.calls[c])
  }

  predicate HasKnownKind(c: Call) {
    match c
    case Received(_) => true
    case Looked(_, _, _) => true
    case Decided(_, _, _, _, dec) => !dec.kind.Unsupported?
    case Issuing(kind) => !kind.Unsupported?
    case Audited(kind) => !kind.Unsupported?
  }

  ghost predicate Supported(m: Machine) {
    forall reg, req, ins, dec :: m.decides(reg, req, ins, dec) ==> !dec.kind.Unsupported?
  }

  lemma EvaluatorIsSupported(m: Machine)
    requires UsesEvaluator(m)
    ensures Supported(m)
  {
    forall reg, req, ins, dec | m.decides(reg, req, ins, dec)
      ensures !dec.kind.Unsupported?
    {
      AlwaysSupported(req, ins, dec);
    }
  }

  lemma StepKeepsInFlight(w: CallPart, reg: Registry, sessions: map<string, Session>, now: int, a: Action, m: Machine)
    requires InFlightOK(w) && Supported(m)
    ensures InFlightOK(StepCalls(w, reg, sessions, now, a, m))
  {
  }

  lemma {:induction false} RunFromKeepsInFlight(w: World, actions: seq<Action>, m: Machine)
    requires Supported(m) && InFlightOK(w.work)
    ensures InFlightOK(RunFrom(w, actions, m).work)
  {
    if actions != [] {
      var n := |actions| - 1;
      RunFromKeepsInFlight(w, actions[..n], m);
      var t := RunFrom(w, actions[..n], m);
      StepKeepsInFlight(t.work, t.reg, t.sess.sessions, t.now, actions[n], m);
    }
  }

  // ----- conservation

  ghost function AuditedCalls(calls: map<nat, Call>): set<nat> { set c | c in calls && calls[c].Audited? }

  /** Requests are accounted for one by one, and so are audit writes. */
  ghost predicate Balanced(w: CallPart) {
    && w.counters.requests == w.counters.invalid + w.counters.Decisions() + |w.calls|
    && w.audits == w.counters.Decisions() + |AuditedCalls(w.calls)|
    && w.counters.other == 0
  }

  lemma PutCall(calls: map<nat, Call>, id: nat, c: Call)
    requires id in calls ==> !calls[id].Audited?
    ensures AuditedCalls(calls[id := c]) == AuditedCalls(calls) + if c.Audited? then {id} else {}
    ensures |calls[id := c]| == |calls| + if id in calls then 0 else 1
  {
    PutAudited(calls, id, c);
    PutCounts(calls, id, c);
  }

  lemma PutAudited(calls: map<nat, Call>, id: nat, c: Call)
    requires id in calls ==> !calls[id].Audited?
    ensures AuditedCalls(calls[id := c]) == AuditedCalls(calls) + if c.Audited? then {id} else {}
  {
    var after := AuditedCalls(calls[id := c]);
    forall x
      ensures x in after <==> x in AuditedCalls(calls) || (x == id && c.Audited?)
    {
    }
  }

  lemma PutCounts<T>(calls: map<nat, T>, id: nat, c: T)
    ensures |calls[id := c]| == |calls| + if id in calls then 0 else 1
  {
    assert calls[id := c].Keys == calls.Keys + {id};
  }

  lemma DropCall(calls: map<nat, Call>, id: nat)
    requires id in calls
    ensures AuditedCalls(calls - {id}) == AuditedCalls(calls) - {id}
    ensures |calls - {id}| == |calls| - 1
  {
    assert (calls - {id}).Keys == calls.Keys - {id};
  }

  /** A request that moves on, is audited, or leaves. */
  lemma MoveKeepsBalance(w: CallPart, id: nat, c: Call, audits: nat)
    requires Balanced(w) && id in w.calls && !w.calls[id].Audited?
    requires audits == w.audits + if c.Audited? then 1 else 0
    ensures Balanced(w.(calls := w.calls[id := c], audits := audits))
  {
    PutCall(w.calls, id, c);
    assert id !in AuditedCalls(w.calls);
  }

  lemma FinishKeepsBalance(w: CallPart, id: nat)
    requires Balanced(w) && id in w.calls && w.calls[id].Audited? && !w.calls[id].kind.Unsupported?
    ensures Balanced(w.(calls := w.calls - {id}, counters := w.counters.Record(Some(w.calls[id].kind))))
  {
    DropCall(w.calls, id);
    assert id in AuditedCalls(w.calls);
  }

  lemma EarlyKeepsBalance(w: CallPart, reg: Registry, sessions: map<string, Session>, now: int, a: Action, m: Machine)
    requires Balanced(w) && InFlightOK(w)
    requires a.Receive? || a.Reject? || a.LookUp? || a.Decide?
    ensures Balanced(StepCalls(w, reg, sessions, now, a, m))
  {
    var t := StepCalls(w, reg, sessions, now, a, m);
    match a
    case Receive(_) =>
      if w.next in t.calls { PutCall(w.calls, w.next, t.calls[w.next]); }
    case Reject(c) =>
      if c in w.calls && w.calls[c].Received? { DropCall(w.calls, c); }
    case LookUp(c, _, _) =>
      if c in w.calls && w.calls[c].Received? { MoveKeepsBalance(w, c, t.calls[c], w.audits); }
    case Decide(c, _, _) =>
      if c in w.calls && w.calls[c].Looked? { MoveKeepsBalance(w, c, t.calls[c], w.audits); }
  }

  lemma LateKeepsBalance(w: CallPart, reg: Registry, sessions: map<string, Session>, now: int, a: Action, m: Machine)
    requires Balanced(w) && InFlightOK(w)
    requires a.Issue? || a.WriteAudit? || a.Finish?
    ensures Balanced(StepCalls(w, reg, sessions, now, a, m))
  {
    var t := StepCalls(w, reg, sessions, now, a, m);
    match a
    case Issue(c) =>
      if c in w.calls && w.calls[c].Decided? { MoveKeepsBalance(w, c, t.calls[c], w.audits); }
    case WriteAudit(c) =>
      if c in w.calls && w.calls[c].Issuing? { MoveKeepsBalance(w, c, t.calls[c], w.audits + 1); }
    case Finish(c) =>
      if c in w.calls && w.calls[c].Audited? { FinishKeepsBalance(w, c); }
  }

  lemma StepKeepsBalance(w: CallPart, reg: Registry, sessions: map<string, Session>, now: int, a: Action, m: Machine)
    requires Balanced(w) && InFlightOK(w)
    ensures Balanced(StepCalls(w, reg, sessions, now, a, m))
  {
    if a.Receive? || a.Reject? || a.LookUp? || a.Decide? {
      EarlyKeepsBalance(w, reg, sessions, now, a, m);
    } else if a.Issue? || a.WriteAudit? || a.Finish? {
      LateKeepsBalance(w, reg, sessions, now, a, m);
    }
  }

  lemma IdleIsBalanced(w: CallPart)
    requires w.calls == map[] && w.audits == 0
    requires w.counters.requests == w.counters.invalid == w.counters.Decisions() == 0
    ensures Balanced(w)
  {
    assert AuditedCalls(w.calls) == {};
  }

  lemma {:induction false} RunFromKeepsBalance(w: World, actions: seq<Action>, m: Machine)
    requires Supported(m) && Balanced(w.work) && InFlightOK(w.work)
    ensures Balanced(RunFrom(w, actions, m).work)
  {
    if actions != [] {
      var n := |actions| - 1;
      RunFromKeepsBalance(w, actions[..n], m);
      RunFromKeepsInFlight(w, actions[..n], m);
      var t := RunFrom(w, actions[..n], m);
      StepKeepsBalance(t.work, t.reg, t.sess.sessions, t.now, actions[n], m);
    }
  }

  /** At every step of every interleaving: requests = invalid + decisions + in-flight requests,
      audit writes = decisions + requests between audit and record, and "other" stays 0; so at
      rest audit writes equal decisions. */
  lemma CountersBalance(actions: seq<Action>, m: Machine)
    requires UsesEvaluator(m)
    ensures var w := Run(actions, m).work;
            && w.counters.requests == w.counters.invalid + w.counters.Decisions() + |w.calls|
            && w.audits == w.counters.Decisions() + |AuditedCalls(w.calls)|
            && w.counters.other == 0
            && (w.calls == map[] ==> w.audits == w.counters.Decisions() == w.counters.requests - w.counters.invalid)
  {
    EvaluatorIsSupported(m);
    InitIsBalanced(INIT.work);
    RunFromKeepsBalance(INIT, actions, m);
    AtRest(Run(actions, m).work);
  }

  lemma InitIsBalanced(w: CallPart)
    requires w == INIT.work
    ensures Balanced(w)
  {
    IdleIsBalanced(w);
  }

  lemma AtRest(w: CallPart)
    requires Balanced(w)
    ensures w.calls == map[] ==> w.audits == w.counters.Decisions() == w.counters.requests - w.counters.invalid
  {
    if w.calls == map[] {
      assert AuditedCalls(w.calls) == {};
    }
  }

  // ----- decision by decision

  /** The decision a request in flight has been given, if any. */
  function KindInFlight(c: Call): Option<DecisionKind> {
    match c
    case Decided(_, _, _, _, dec) => Some(dec.kind)
    case Issuing(kind) => Some(kind)
    case Audited(kind) => Some(kind)
    case _ => None
  }

  ghost function InFlight(calls: map<nat, Call>, kind: DecisionKind): set<nat> {
    set c | c in calls && KindInFlight(calls[c]) == Some(kind)
  }

  function Given(verdicts: seq<Verdict>, kind: DecisionKind): nat {
    if verdicts == [] then 0
    else
      var n := |verdicts| - 1;
      Given(verdicts[..n], kind) + if verdicts[n].kind == kind then 1 else 0
  }

  ghost predicate Tallied(w: CallPart, kind: DecisionKind) {
    Given(w.verdicts, kind) == CounterOf(w.counters, kind) + |InFlight(w.calls, kind)|
  }

  lemma PutInFlight(calls: map<nat, Call>, id: nat, c: Call, kind: DecisionKind)
    requires id in calls ==> KindInFlight(calls[id]) == None || KindInFlight(calls[id]) == KindInFlight(c)
    ensures |InFlight(calls[id := c], kind)|
            == |InFlight(calls, kind)|
               + if KindInFlight(c) == Some(kind) && id !in InFlight(calls, kind) then 1 else 0
  {
    var before, after := InFlight(calls, kind), InFlight(calls[id := c], kind);
    forall x
      ensures x in after <==> x in before || (x == id && KindInFlight(c) == Some(kind))
    {
    }
    if KindInFlight(c) == Some(kind) && id !in before {
      assert after == before + {id} && |after| == |before| + 1;
    } else {
      assert after == before;
    }
  }

  lemma DropInFlight(calls: map<nat, Call>, id: nat, kind: DecisionKind)
    requires id in calls
    ensures |InFlight(calls - {id}, kind)|
            == |InFlight(calls, kind)| - if KindInFlight(calls[id]) == Some(kind) then 1 else 0
  {
    var before, after := InFlight(calls, kind), InFlight(calls - {id}, kind);
    assert after == before - {id};
  }

  lemma GivenSnoc(verdicts: seq<Verdict>, v: Verdict, kind: DecisionKind)
    ensures Given(verdicts + [v], kind) == Given(verdicts, kind) + if v.kind == kind then 1 else 0
  {
    assert (verdicts + [v])[..|verdicts|] == verdicts;
  }

  lemma EarlyKeepsTallied(w: CallPart, reg: Registry, sessions: map<string, Session>, now: int, a: Action, m: Machine,
                          kind: DecisionKind)
    requires Tallied(w, kind) && InFlightOK(w) && !kind.Unsupported?
    requires a.Receive? || a.Reject? || a.LookUp?
    ensures Tallied(StepCalls(w, reg, sessions, now, a, m), kind)
  {
    var t := StepCalls(w, reg, sessions, now, a, m);
    match a
    case Receive(_) => if w.next in t.calls { PutInFlight(w.calls, w.next, t.calls[w.next], kind); }
    case Reject(c) => if c in w.calls && w.calls[c].Received? { DropInFlight(w.calls, c, kind); }
    case LookUp(c, _, _) => if c in w.calls && w.calls[c].Received? { PutInFlight(w.calls, c, t.calls[c], kind); }
  }

  lemma DecideKeepsTallied(w: CallPart, reg: Registry, sessions: map<string, Session>, now: int, a: Action, m: Machine,
                           kind: DecisionKind)
    requires Tallied(w, kind) && InFlightOK(w) && !kind.Unsupported? && a.Decide?
    ensures Tallied(StepCalls(w, reg, sessions, now, a, m), kind)
  {
    var t := StepCalls(w, reg, sessions, now, a, m);
    if a.call in w.calls && w.calls[a.call].Looked? && |t.verdicts| > |w.verdicts| {
      PutInFlight(w.calls, a.call, t.calls[a.call], kind);
      GivenSnoc(w.verdicts, t.verdicts[|w.verdicts|], kind);
    }
  }

  lemma LateKeepsTallied(w: CallPart, reg: Registry, sessions: map<string, Session>, now: int, a: Action, m: Machine,
                         kind: DecisionKind)
    requires Tallied(w, kind) && InFlightOK(w) && !kind.Unsupported?
    requires a.Issue? || a.WriteAudit? || a.Finish?
    ensures Tallied(StepCalls(w, reg, sessions, now, a, m), kind)
  {
    var t := StepCalls(w, reg, sessions, now, a, m);
    match a
    case Issue(c) => if c in w.calls && w.calls[c].Decided? { PutInFlight(w.calls, c, t.calls[c], kind); }
    case WriteAudit(c) => if c in w.calls && w.calls[c].Issuing? { PutInFlight(w.calls, c, t.calls[c], kind); }
    case Finish(c) =>
      if c in w.calls && w.calls[c].Audited? {
        DropInFlight(w.calls, c, kind);
        RecordMovesOne(w.counters, w.calls[c].kind, kind);
      }
  }

  lemma {:induction false} RunFromKeepsTallied(w: World, actions: seq<Action>, m: Machine, kind: DecisionKind)
    requires Supported(m) && Tallied(w.work, kind) && InFlightOK(w.work) && !kind.Unsupported?
    ensures Tallied(RunFrom(w, actions, m).work, kind)
  {
    if actions != [] {
      var n := |actions| - 1;
      RunFromKeepsTallied(w, actions[..n], m, kind);
      RunFromKeepsInFlight(w, actions[..n], m);
      var t, a := RunFrom(w, actions[..n], m), actions[n];
      if a.Receive? || a.Reject? || a.LookUp? {
        EarlyKeepsTallied(t.work, t.reg, t.sess.sessions, t.now, a, m, kind);
      } else if a.Decide? {
        DecideKeepsTallied(t.work, t.reg, t.sess.sessions, t.now, a, m, kind);
      } else if a.Issue? || a.WriteAudit? || a.Finish? {
        LateKeepsTallied(t.work, t.reg, t.sess.sessions, t.now, a, m, kind);
      }
    }
  }

  lemma IdleIsTallied(w: CallPart, kind: DecisionKind)
    requires w.calls == map[] && w.verdicts == [] && CounterOf(w.counters, kind) == 0
    ensures Tallied(w, kind)
  {
    assert InFlight(w.calls, kind) == {};
  }

  /** At every step of every interleaving, and for each decision on its own: the verdicts given
      are those its counter shows and those of requests still in flight. */
  lemma EachCounterIsExact(actions: seq<Action>, m: Machine, kind: DecisionKind)
    requires UsesEvaluator(m) && !kind.Unsupported?
    ensures var w := Run(actions, m).work;
            Given(w.verdicts, kind) == CounterOf(w.counters, kind) + |InFlight(w.calls, kind)|
  {
    EvaluatorIsSupported(m);
    IdleIsTallied(INIT.work, kind);
    RunFromKeepsTallied(INIT, actions, m, kind);
  }
}
