/** Sessions over whole runs: who was seen and vouched for, and what each proof opened. */
module SessionRuns {
  import opened Model
  import opened Evaluator
  import opened Registries
  import opened Sessions
  import opened TokenValidation
  import opened ServerRuns

  // ----- what was seen

  /** At step k the creation looked the agent up and the store held exactly this agent. */
  ghost predicate SeesAgentAt(actions: seq<Action>, k: nat, j: Join, m: Machine)
    requires k < |actions|
  {
    var w := At(actions, k, m);
    && actions[k] == LookUpForSession(j.agent.ID(), j.seen) && w.now == j.lookedAt
    && w.reg.GetAgent(j.agent.ID()) == Some(j.agent)
  }

  ghost predicate SawAgent(actions: seq<Action>, n: nat, j: Join, m: Machine)
    requires n <= |actions|
  {
    exists k :: 0 <= k < n && SeesAgentAt(actions, k, j, m)
  }

  ghost predicate AllSaw(actions: seq<Action>, n: nat, s: SessionPart, m: Machine)
    requires n <= |actions|
  {
    && (forall id :: id in s.joins ==> SawAgent(actions, n, s.joins[id], m))
    && (forall o :: o in s.openings ==> SawAgent(actions, n, o.join, m))
  }

  /** A later state of the same creation: same lookup, same token. */
  ghost predicate SameLookup(j: Join, i: Join) {
    j.agent == i.agent && j.lookedAt == i.lookedAt && j.seen == i.seen
  }

  lemma SameLookupSaw(actions: seq<Action>, n: nat, j: Join, i: Join, m: Machine)
    requires n < |actions| && SameLookup(j, i) && SawAgent(actions, n, j, m)
    ensures SawAgent(actions, n + 1, i, m)
  {
    var k :| 0 <= k < n && SeesAgentAt(actions, k, j, m);
    assert SeesAgentAt(actions, k, i, m);
  }

  /** Lookups stay as they are, but for the one this step makes. */
  ghost predicate JoinsFollow(joins: map<nat, Join>, more: map<nat, Join>, reg: Registry, now: int, a: Action) {
    forall id :: id in more ==>
      (id in joins && SameLookup(joins[id], more[id])) || LooksUp(more[id], reg, now, a)
  }

  /** An opening comes from a creation. */
  ghost predicate OpeningsFollow(openings: seq<Opening>, more: seq<Opening>, joins: map<nat, Join>) {
    forall o :: o in more ==> o in openings || exists id :: id in joins && joins[id] == o.join
  }

  ghost predicate LooksUp(j: Join, reg: Registry, now: int, a: Action) {
    a.LookUpForSession? && reg.GetAgent(a.id) == Some(j.agent) && j.lookedAt == now && j.seen == a.seen
  }

  lemma StepLookups(s: SessionPart, reg: Registry, now: int, a: Action, m: Machine)
    ensures var t := StepSessions(s, reg, now, a, m);
            JoinsFollow(s.joins, t.joins, reg, now, a) && OpeningsFollow(s.openings, t.openings, s.joins)
  {
    if a.OpenSession? {
      if a.join in s.joins && s.joins[a.join].progress.Accepted? && a.sessionID !in s.sessions {
        var o := OpenedIs(s, reg, now, a, m);
      }
    } else {
      assert StepSessions(s, reg, now, a, m).openings == s.openings;
    }
  }

  lemma {:induction false} RunSaw(actions: seq<Action>, n: nat, m: Machine)
    requires n <= |actions|
    ensures AllSaw(actions, n, At(actions, n, m).sess, m)
  {
    if n == 0 {
      assert At(actions, 0, m) == INIT;
    } else {
      var w := At(actions, n - 1, m);
      RunSaw(actions, n - 1, m);
      NextIs(actions, n - 1, m);
      RunKeepsRegistry(actions[..n - 1], m);
      WorldSaw(actions, n - 1, w, m);
    }
  }

  lemma WorldSaw(actions: seq<Action>, n: nat, w: World, m: Machine)
    requires n < |actions| && w == At(actions, n, m) && w.reg.Valid() && AllSaw(actions, n, w.sess, m)
    ensures AllSaw(actions, n + 1, Step(w, actions[n], m).sess, m)
  {
    StepLookups(w.sess, w.reg, w.now, actions[n], m);
    StepSaw(actions, n, w, StepSessions(w.sess, w.reg, w.now, actions[n], m), m);
  }

  lemma StepSaw(actions: seq<Action>, n: nat, w: World, t: SessionPart, m: Machine)
    requires n < |actions| && w == At(actions, n, m) && w.reg.Valid() && AllSaw(actions, n, w.sess, m)
    requires JoinsFollow(w.sess.joins, t.joins, w.reg, w.now, actions[n])
    requires OpeningsFollow(w.sess.openings, t.openings, w.sess.joins)
    ensures AllSaw(actions, n + 1, t, m)
  {
    forall id | id in t.joins
      ensures SawAgent(actions, n + 1, t.joins[id], m)
    {
      if id in w.sess.joins && SameLookup(w.sess.joins[id], t.joins[id]) {
        SameLookupSaw(actions, n, w.sess.joins[id], t.joins[id], m);
      } else {
        LookUpSaw(actions, n, w, t.joins[id], m);
      }
    }
    forall o | o in t.openings
      ensures SawAgent(actions, n + 1, o.join, m)
    {
      assert SawAgent(actions, n, o.join, m);
      SameLookupSaw(actions, n, o.join, o.join, m);
    }
  }

  lemma LookUpSaw(actions: seq<Action>, n: nat, w: World, j: Join, m: Machine)
    requires n < |actions| && w == At(actions, n, m) && w.reg.Valid() && LooksUp(j, w.reg, w.now, actions[n])
    ensures SawAgent(actions, n + 1, j, m)
  {
    assert SeesAgentAt(actions, n, j, m);
  }

  // ----- what vouched for it

  /** The token passed every check of one of the agent's bindings, on a key set fit for it. */
  ghost predicate Passes(j: Join, via: nat, keys: seq<Key>, at: Attempt, m: Machine) {
    && via < |j.agent.bindings|
    && FitFor(j.agent.bindings[via], keys)
    && Credible(j.agent.bindings[via], keys, at, j.seen, m.limits)
    && j.lookedAt <= at.cacheNow <= at.proofNow <= at.markNow
  }

  ghost predicate JoinOK(j: Join, now: int, m: Machine) {
    && j.agent.IsActive() && j.lookedAt <= now
    && match j.progress
       case Trying(_) => true
       case Waiting(next, keys, at) =>
         Passes(j, next, keys, at, m) && j.agent.bindings[next].kind == "wimse" && at.markNow <= now
       case Accepted(via, keys, at, mark) =>
         Passes(j, via, keys, at, m) && (j.agent.bindings[via].kind == "wimse" <==> mark.Some?) && at.markNow <= now
  }

  ghost predicate OpeningOK(o: Opening, now: int, m: Machine) {
    && JoinOK(o.join, o.session.createdAt, m) && o.join.progress.Accepted?
    && o.session == Session(o.session.id, o.join.agent.ID(), true, o.session.createdAt, o.session.createdAt + m.ttl)
    && o.session.createdAt <= now
  }

  ghost predicate PendingOK(memory: Memory, joins: map<nat, Join>, now: int, m: Machine) {
    CacheSound(memory.jwks) && forall id :: id in joins ==> JoinOK(joins[id], now, m)
  }

  ghost predicate OpenedOK(openings: seq<Opening>, now: int, m: Machine) {
    forall o :: o in openings ==> OpeningOK(o, now, m)
  }

  ghost predicate StoredOK(sessions: map<string, Session>, openings: seq<Opening>) {
    && (forall id :: id in sessions ==> sessions[id].id == id && exists o :: o in openings && o.session == sessions[id])
    && (forall o :: o in openings ==> o.session.id in sessions && sessions[o.session.id] == o.session)
  }

  ghost predicate RunsOK(sessions: map<string, Session>, runs: map<string, AgentRun>) {
    forall r :: r in runs ==>
      && runs[r].id == r
      && runs[r].sessionID in sessions && sessions[runs[r].sessionID].agentID == runs[r].agentID
  }

  ghost predicate SessionsOK(s: SessionPart, now: int, m: Machine) {
    && PendingOK(s.memory, s.joins, now, m)
    && OpenedOK(s.openings, now, m)
    && StoredOK(s.sessions, s.openings)
    && RunsOK(s.sessions, s.runs)
  }

  lemma AdvanceKeepsPending(s: SessionPart, id: nat, at: Attempt, now: int, m: Machine)
    requires PendingOK(s.memory, s.joins, now, m) && MayTry(s, id, at, now)
    ensures var t := Advance(s, id, at, m.limits); PendingOK(t.memory, t.joins, now, m)
  {
    var j := s.joins[id];
    CheckIsSound(s.memory, j.agent.bindings[j.progress.next], at, j.seen, m.limits);
    assert JoinOK(Advance(s, id, at, m.limits).joins[id], now, m);
  }

  lemma EnterKeepsPending(s: SessionPart, id: nat, now: int, m: Machine)
    requires PendingOK(s.memory, s.joins, now, m) && MayEnter(s, id)
    ensures var t := Enter(s, id, now, m.limits); PendingOK(t.memory, t.joins, now, m)
  {
    assert JoinOK(s.joins[id], now, m);
    assert JoinOK(Enter(s, id, now, m.limits).joins[id], now, m);
  }

  lemma OpenKeepsOpened(openings: seq<Opening>, o: Opening, now: int, m: Machine)
    requires OpenedOK(openings, now, m) && JoinOK(o.join, now, m) && o.join.progress.Accepted?
    requires o.session == NewSession(o.session.id, o.join.agent, now, m.ttl)
    ensures OpenedOK(openings + [o], now, m)
  {
    assert forall x :: x in openings + [o] <==> x in openings || x == o;
  }

  lemma OpenKeepsStored(sessions: map<string, Session>, openings: seq<Opening>, o: Opening)
    requires StoredOK(sessions, openings) && o.session.id !in sessions
    ensures StoredOK(sessions[o.session.id := o.session], openings + [o])
  {
    assert forall x :: x in openings + [o] <==> x in openings || x == o;
  }

  lemma RunsStay(sessions: map<string, Session>, runs: map<string, AgentRun>, session: Session)
    requires RunsOK(sessions, runs) && session.id !in sessions
    ensures RunsOK(sessions[session.id := session], runs)
  {
  }

  lemma OpenedIs(s: SessionPart, reg: Registry, now: int, a: Action, m: Machine) returns (o: Opening)
    requires a.OpenSession? && a.join in s.joins && s.joins[a.join].progress.Accepted? && a.sessionID !in s.sessions
    ensures o == Opening(a.join, NewSession(a.sessionID, s.joins[a.join].agent, now, m.ttl), s.joins[a.join])
    ensures StepSessions(s, reg, now, a, m)
            == s.(sessions := s.sessions[a.sessionID := o.session], joins := s.joins - {a.join},
                  openings := s.openings + [o])
  {
    o := Opening(a.join, NewSession(a.sessionID, s.joins[a.join].agent, now, m.ttl), s.joins[a.join]);
  }

  lemma OpenKeepsSessions(s: SessionPart, reg: Registry, now: int, a: Action, m: Machine)
    requires SessionsOK(s, now, m) && a.OpenSession?
    ensures SessionsOK(StepSessions(s, reg, now, a, m), now, m)
  {
    if a.join in s.joins && s.joins[a.join].progress.Accepted? && a.sessionID !in s.sessions {
      var o := OpenedIs(s, reg, now, a, m);
      OpenKeepsOpened(s.openings, o, now, m);
      OpenKeepsStored(s.sessions, s.openings, o);
      RunsStay(s.sessions, s.runs, o.session);
    }
  }

  lemma ProgressKeepsSessions(s: SessionPart, reg: Registry, now: int, a: Action, m: Machine)
    requires SessionsOK(s, now, m) && (a.LookUpForSession? || a.TryBinding? || a.EnterReplay?)
    ensures SessionsOK(StepSessions(s, reg, now, a, m), now, m)
  {
    if a.TryBinding? && MayTry(s, a.join, a.attempt, now) {
      AdvanceKeepsPending(s, a.join, a.attempt, now, m);
    } else if a.EnterReplay? && MayEnter(s, a.join) {
      EnterKeepsPending(s, a.join, now, m);
    }
  }

  lemma StartKeepsSessions(s: SessionPart, reg: Registry, now: int, a: Action, m: Machine)
    requires SessionsOK(s, now, m) && a.StartRun?
    ensures SessionsOK(StepSessions(s, reg, now, a, m), now, m)
  {
  }

  lemma LaterKeepsSessions(s: SessionPart, now: int, later: int, m: Machine)
    requires SessionsOK(s, now, m) && now <= later
    ensures SessionsOK(s, later, m)
  {
    forall o | o in s.openings
      ensures OpeningOK(o, later, m)
    {
      assert OpeningOK(o, now, m);
    }
    forall id | id in s.joins
      ensures JoinOK(s.joins[id], later, m)
    {
      assert JoinOK(s.joins[id], now, m);
    }
  }

  lemma StepKeepsSessions(s: SessionPart, reg: Registry, now: int, a: Action, m: Machine)
    requires SessionsOK(s, now, m)
    ensures SessionsOK(StepSessions(s, reg, now, a, m), if a.Tick? then now + a.elapsed else now, m)
  {
    if a.OpenSession? {
      OpenKeepsSessions(s, reg, now, a, m);
    } else if a.LookUpForSession? || a.TryBinding? || a.EnterReplay? {
      ProgressKeepsSessions(s, reg, now, a, m);
    } else if a.StartRun? {
      StartKeepsSessions(s, reg, now, a, m);
    } else if a.Tick? {
      LaterKeepsSessions(s, now, now + a.elapsed, m);
    }
  }

  lemma {:induction false} RunKeepsSessions(actions: seq<Action>, m: Machine)
    ensures SessionsOK(Run(actions, m).sess, Run(actions, m).now, m)
  {
    if actions != [] {
      var n := |actions| - 1;
      RunKeepsSessions(actions[..n], m);
      var w := Run(actions[..n], m);
      StepKeepsSessions(w.sess, w.reg, w.now, actions[n], m);
    }
  }

  /** The creation behind a session that resolves to an agent at step n. */
  ghost predicate OpenedBy(actions: seq<Action>, n: nat, id: string, agentID: string, o: Opening, m: Machine)
    requires n <= |actions|
  {
    var w := At(actions, n, m);
    && o in w.sess.openings && o.session.id == id && OpeningOK(o, w.now, m)
    && SawAgent(actions, n, o.join, m) && o.join.agent.ID() == agentID
    && w.now - o.session.createdAt <= m.ttl
  }

  /** Over every run: when a session token resolves to an agent, a session creation no longer
      than ttl ago looked it up when the store held it active, and presented a token that then
      passed every check of one of its bindings, however everything interleaves. */
  lemma SessionIdentity(actions: seq<Action>, n: nat, m: Machine, id: string)
    requires n <= |actions|
    requires var w := At(actions, n, m); Resolve(w.sess.sessions, w.now, SessionToken(id)).Some?
    ensures var w := At(actions, n, m);
            var agentID := Resolve(w.sess.sessions, w.now, SessionToken(id)).value;
            exists o :: OpenedBy(actions, n, id, agentID, o, m)
  {
    var w := At(actions, n, m);
    RunKeepsSessions(actions[..n], m);
    RunSaw(actions, n, m);
    var o :| o in w.sess.openings && o.session == w.sess.sessions[id];
    assert OpeningOK(o, w.now, m);
    assert OpenedBy(actions, n, id, o.join.agent.ID(), o, m);
  }

  /** An opened session resolves to its agent for exactly its lifetime; a JWT of the issuer to
      the agent it names, unless it names none; and nothing else resolves. */
  lemma ResolvesExactly(actions: seq<Action>, m: Machine, bearer: Bearer, agentID: string)
    ensures var w := Run(actions, m);
            Resolve(w.sess.sessions, w.now, bearer) == Some(agentID)
            <==> || (bearer == RawJWT(Some(agentID)) && agentID != "")
                 || exists o ::
                      && o in w.sess.openings && bearer == SessionToken(o.session.id)
                      && agentID == o.join.agent.ID() && w.now <= o.session.createdAt + m.ttl
  {
    var w := Run(actions, m);
    RunKeepsSessions(actions, m);
    forall o | o in w.sess.openings
      ensures OpeningOK(o, w.now, m) && w.sess.sessions[o.session.id] == o.session
    {
    }
    if bearer.SessionToken? && bearer.id in w.sess.sessions {
      var o :| o in w.sess.openings && o.session == w.sess.sessions[bearer.id];
      assert bearer == SessionToken(o.session.id);
    }
  }

  /** Every stored run names a stored session and carries its agent. */
  lemma RunsBelongToSessions(actions: seq<Action>, m: Machine, run: string)
    requires run in Run(actions, m).sess.runs
    ensures var s := Run(actions, m).sess;
            var r := s.runs[run];
            r.id == run && r.sessionID in s.sessions && s.sessions[r.sessionID].agentID == r.agentID
  {
    RunKeepsSessions(actions, m);
  }

  ghost predicate Keeps(s: SessionPart, t: SessionPart) {
    && (forall id :: id in s.sessions ==> id in t.sessions && t.sessions[id] == s.sessions[id])
    && (forall id :: id in s.runs ==> id in t.runs && t.runs[id] == s.runs[id])
  }

  lemma StepKeepsStored(s: SessionPart, reg: Registry, now: int, a: Action, m: Machine)
    ensures Keeps(s, StepSessions(s, reg, now, a, m))
  {
  }

  /** Stored sessions and runs never change. */
  lemma {:induction false} SessionsAreImmutable(w: World, actions: seq<Action>, m: Machine)
    ensures Keeps(w.sess, RunFrom(w, actions, m).sess)
  {
    if actions != [] {
      var n := |actions| - 1;
      SessionsAreImmutable(w, actions[..n], m);
      var t := RunFrom(w, actions[..n], m);
      StepKeepsStored(t.sess, t.reg, t.now, actions[n], m);
    }
  }
}
