/** Workload proofs over whole runs: each is consumed by one session creation. */
module ProofRuns {
  import opened Model
  import opened Registries
  import opened Sessions
  import opened TokenValidation
  import Replay
  import opened ServerRuns
  import opened SessionRuns

  /** The replay section that accepted the creation's proof. */
  function MarkIn(j: Join): Option<nat> { if j.progress.Accepted? then j.progress.mark else None }

  /** That section marked the very proof the creation presented. */
  ghost predicate Holds(j: Join, marks: seq<Replay.Entry>) {
    MarkIn(j).Some? ==>
      var p := j.progress;
      && p.mark.value < |marks| && p.attempt.claims(p.keys).Some? && p.attempt.proof.Some?
      && var e := marks[p.mark.value];
         && e.accepted && e.subject == p.attempt.claims(p.keys).value.subject
         && e.jti == p.attempt.proof.value.id && Some(e.expiry) == p.attempt.proof.value.expiry
  }

  predicate Shares(j: Join, i: Join) { MarkIn(j).Some? && MarkIn(j) == MarkIn(i) }

  ghost predicate JoinsHold(joins: map<nat, Join>, marks: seq<Replay.Entry>) {
    && (forall a :: a in joins ==> Holds(joins[a], marks))
    && (forall a, b :: a in joins && b in joins && Shares(joins[a], joins[b]) ==> a == b)
  }

  ghost predicate OpeningsHold(openings: seq<Opening>, marks: seq<Replay.Entry>) {
    && (forall i :: 0 <= i < |openings| ==>
          && Holds(openings[i].join, marks)
          && (MarkIn(openings[i].join).Some? ==>
                marks[MarkIn(openings[i].join).value].at <= openings[i].session.createdAt))
    && (forall i, j :: 0 <= i < j < |openings| ==> !Shares(openings[i].join, openings[j].join))
  }

  ghost predicate Apart(joins: map<nat, Join>, openings: seq<Opening>) {
    forall a, i :: a in joins && 0 <= i < |openings| ==> !Shares(joins[a], openings[i].join)
  }

  ghost predicate HasHolder(k: nat, joins: map<nat, Join>, openings: seq<Opening>) {
    || (exists a :: a in joins && MarkIn(joins[a]) == Some(k))
    || (exists i :: 0 <= i < |openings| && MarkIn(openings[i].join) == Some(k))
  }

  ghost predicate Covered(joins: map<nat, Join>, openings: seq<Opening>, marks: seq<Replay.Entry>) {
    forall k :: 0 <= k < |marks| && marks[k].accepted ==> HasHolder(k, joins, openings)
  }

  ghost predicate ProofsOK(s: SessionPart, now: int, m: Machine) {
    && Replay.Tracks(s.memory.replay, s.marks, now, m.limits)
    && JoinsHold(s.joins, s.marks) && OpeningsHold(s.openings, s.marks)
    && Apart(s.joins, s.openings) && Covered(s.joins, s.openings, s.marks)
  }

  // ----- the replay section

  lemma SectionIsTimely(s: SessionPart, id: nat, now: int, m: Machine)
    requires SessionsOK(s, now, m) && ProofsOK(s, now, m) && MayEnter(s, id)
    ensures var t := Enter(s, id, now, m.limits); Replay.Tracks(t.memory.replay, t.marks, now, m.limits)
    ensures s.joins[id].progress.attempt.proof.value.expiry.Some?
  {
    var p := s.joins[id].progress;
    assert JoinOK(s.joins[id], now, m);
    var e := SectionOf(s.memory.replay, p.attempt, p.keys, now, m.limits);
    Replay.SectionKeepsTracks(s.memory.replay, s.marks, e, m.limits);
  }

  lemma HoldsLonger(j: Join, marks: seq<Replay.Entry>, e: Replay.Entry)
    requires Holds(j, marks)
    ensures Holds(j, marks + [e]) && MarkIn(j) != Some(|marks|)
  {
  }

  /** Put back at its place: a creation that holds no section, or the newest one. */
  lemma PutKeepsJoins(joins: map<nat, Join>, id: nat, j: Join, marks: seq<Replay.Entry>, more: seq<Replay.Entry>)
    requires JoinsHold(joins, marks) && Holds(j, more)
    requires more == marks || (|more| == |marks| + 1 && more[..|marks|] == marks)
    requires MarkIn(j) == None || (MarkIn(j) == Some(|marks|) && |more| == |marks| + 1)
    ensures JoinsHold(joins[id := j], more)
  {
    if |more| > |marks| {
      assert more == marks + [more[|marks|]];
      forall a | a in joins
        ensures Holds(joins[a], more) && MarkIn(joins[a]) != Some(|marks|)
      {
        HoldsLonger(joins[a], marks, more[|marks|]);
      }
    } else {
      assert more == marks;
    }
  }

  lemma EnterKeepsOpenings(openings: seq<Opening>, marks: seq<Replay.Entry>, e: Replay.Entry)
    requires OpeningsHold(openings, marks)
    ensures OpeningsHold(openings, marks + [e])
    ensures forall i :: 0 <= i < |openings| ==> MarkIn(openings[i].join) != Some(|marks|)
  {
    forall i | 0 <= i < |openings|
      ensures Holds(openings[i].join, marks + [e]) && MarkIn(openings[i].join) != Some(|marks|)
    {
      HoldsLonger(openings[i].join, marks, e);
    }
  }

  lemma PutKeepsCovered(joins: map<nat, Join>, id: nat, j: Join, openings: seq<Opening>, marks: seq<Replay.Entry>)
    requires Covered(joins, openings, marks) && id in joins && MarkIn(joins[id]) == None
    ensures Covered(joins[id := j], openings, marks)
  {
    forall k | 0 <= k < |marks| && marks[k].accepted
      ensures HasHolder(k, joins[id := j], openings)
    {
      assert HasHolder(k, joins, openings);
      if a :| a in joins && MarkIn(joins[a]) == Some(k) {
        assert joins[id := j][a] == joins[a];
      }
    }
  }

  lemma EnterKeepsProofs(s: SessionPart, id: nat, now: int, m: Machine)
    requires SessionsOK(s, now, m) && ProofsOK(s, now, m) && MayEnter(s, id)
    ensures ProofsOK(Enter(s, id, now, m.limits), now, m)
  {
    var t := Enter(s, id, now, m.limits);
    var e := t.marks[|s.marks|];
    SectionIsTimely(s, id, now, m);
    assert t.joins == s.joins[id := t.joins[id]] && t.marks[..|s.marks|] == s.marks && t.openings == s.openings;
    PutKeepsJoins(s.joins, id, t.joins[id], s.marks, t.marks);
    EnterKeepsOpenings(s.openings, s.marks, e);
    PutKeepsCovered(s.joins, id, t.joins[id], s.openings, s.marks);
    forall k | 0 <= k < |t.marks| && t.marks[k].accepted
      ensures HasHolder(k, t.joins, t.openings)
    {
      if k == |s.marks| {
        assert MarkIn(t.joins[id]) == Some(k);
      } else {
        assert t.marks[k] == s.marks[k] && HasHolder(k, t.joins, s.openings);
      }
    }
  }

  lemma AdvanceKeepsProofs(s: SessionPart, id: nat, at: Attempt, now: int, m: Machine)
    requires ProofsOK(s, now, m) && CacheSound(s.memory.jwks) && MayTry(s, id, at, now)
    ensures ProofsOK(Advance(s, id, at, m.limits), now, m)
  {
    var t := Advance(s, id, at, m.limits);
    CheckIsSound(s.memory, s.joins[id].agent.bindings[s.joins[id].progress.next], at, s.joins[id].seen, m.limits);
    assert t.joins == s.joins[id := t.joins[id]];
    PutKeepsJoins(s.joins, id, t.joins[id], s.marks, s.marks);
    PutKeepsCovered(s.joins, id, t.joins[id], s.openings, s.marks);
  }

  // ----- from creation to session

  lemma DropKeepsJoins(joins: map<nat, Join>, id: nat, marks: seq<Replay.Entry>)
    requires JoinsHold(joins, marks)
    ensures JoinsHold(joins - {id}, marks)
  {
  }

  lemma OpenKeepsHolders(joins: map<nat, Join>, id: nat, openings: seq<Opening>, o: Opening, marks: seq<Replay.Entry>,
                         now: int)
    requires JoinsHold(joins, marks) && OpeningsHold(openings, marks) && Apart(joins, openings)
    requires id in joins && o.join == joins[id] && o.session.createdAt == now
    requires forall k :: 0 <= k < |marks| ==> marks[k].at <= now
    ensures OpeningsHold(openings + [o], marks) && Apart(joins - {id}, openings + [o])
  {
  }

  lemma OpenKeepsCovered(joins: map<nat, Join>, id: nat, openings: seq<Opening>, o: Opening, marks: seq<Replay.Entry>)
    requires Covered(joins, openings, marks) && id in joins && o.join == joins[id]
    ensures Covered(joins - {id}, openings + [o], marks)
  {
    var more := openings + [o];
    forall k | 0 <= k < |marks| && marks[k].accepted
      ensures HasHolder(k, joins - {id}, more)
    {
      assert HasHolder(k, joins, openings);
      if i :| 0 <= i < |openings| && MarkIn(openings[i].join) == Some(k) {
        assert more[i] == openings[i];
      } else {
        var a :| a in joins && MarkIn(joins[a]) == Some(k);
        if a == id {
          assert more[|openings|] == o;
        } else {
          assert a in joins - {id} && (joins - {id})[a] == joins[a];
        }
      }
    }
  }

  lemma MarksArePast(s: SessionPart, now: int, m: Machine)
    requires ProofsOK(s, now, m)
    ensures forall k :: 0 <= k < |s.marks| ==> s.marks[k].at <= now
  {
    forall k | 0 <= k < |s.marks|
      ensures s.marks[k].at <= now
    {
      assert Replay.EntryOK(s.marks, k, now, m.limits);
    }
  }

  lemma OpenKeepsProofs(s: SessionPart, reg: Registry, now: int, a: Action, m: Machine)
    requires ProofsOK(s, now, m) && a.OpenSession?
    ensures ProofsOK(StepSessions(s, reg, now, a, m), now, m)
  {
    if a.join in s.joins && s.joins[a.join].progress.Accepted? && a.sessionID !in s.sessions {
      var o := Opening(a.join, NewSession(a.sessionID, s.joins[a.join].agent, now, m.ttl), s.joins[a.join]);
      MarksArePast(s, now, m);
      DropKeepsJoins(s.joins, a.join, s.marks);
      OpenKeepsHolders(s.joins, a.join, s.openings, o, s.marks, now);
      OpenKeepsCovered(s.joins, a.join, s.openings, o, s.marks);
    }
  }

  lemma LookUpKeepsProofs(s: SessionPart, j: Join, now: int, m: Machine)
    requires ProofsOK(s, now, m) && s.next !in s.joins && j.progress.Trying?
    ensures ProofsOK(s.(joins := s.joins[s.next := j], next := s.next + 1), now, m)
  {
    PutKeepsJoins(s.joins, s.next, j, s.marks, s.marks);
    forall k | 0 <= k < |s.marks| && s.marks[k].accepted
      ensures HasHolder(k, s.joins[s.next := j], s.openings)
    {
      assert HasHolder(k, s.joins, s.openings);
      if a :| a in s.joins && MarkIn(s.joins[a]) == Some(k) {
        assert s.joins[s.next := j][a] == s.joins[a];
      }
    }
  }

  // ----- whole runs

  ghost predicate Numbered(s: SessionPart) { forall id :: id in s.joins ==> id < s.next }

  lemma StepKeepsNumbered(s: SessionPart, reg: Registry, now: int, a: Action, m: Machine)
    requires Numbered(s)
    ensures Numbered(StepSessions(s, reg, now, a, m))
  {
  }

  lemma StepKeepsProofs(s: SessionPart, reg: Registry, now: int, a: Action, m: Machine)
    requires SessionsOK(s, now, m) && ProofsOK(s, now, m) && Numbered(s)
    ensures ProofsOK(StepSessions(s, reg, now, a, m), if a.Tick? then now + a.elapsed else now, m)
  {
    if a.OpenSession? {
      OpenKeepsProofs(s, reg, now, a, m);
    } else if a.TryBinding? {
      if MayTry(s, a.join, a.attempt, now) { AdvanceKeepsProofs(s, a.join, a.attempt, now, m); }
    } else if a.EnterReplay? {
      if MayEnter(s, a.join) { EnterKeepsProofs(s, a.join, now, m); }
    } else if a.LookUpForSession? {
      if MayOpen(Found(reg.GetAgent(a.id))) && a.seen.parses {
        LookUpKeepsProofs(s, Join(reg.agents[a.id], now, a.seen, Trying(0)), now, m);
      }
    } else {
      Replay.LaterTracks(s.memory.replay, s.marks, now, if a.Tick? then now + a.elapsed else now, m.limits);
    }
  }

  lemma {:induction false} RunKeepsProofs(actions: seq<Action>, m: Machine)
    ensures ProofsOK(Run(actions, m).sess, Run(actions, m).now, m) && Numbered(Run(actions, m).sess)
  {
    if actions != [] {
      var n := |actions| - 1;
      var w := Run(actions[..n], m);
      RunKeepsProofs(actions[..n], m);
      RunKeepsSessions(actions[..n], m);
      StepKeepsNumbered(w.sess, w.reg, w.now, actions[n], m);
      StepKeepsProofs(w.sess, w.reg, w.now, actions[n], m);
    }
  }

  /** Proof ids are consumed all or nothing, however calls interleave: every section that
      accepted a proof belongs to exactly one creation that a wimse binding accepted with that
      proof, and every such creation has its own section. */
  lemma ProofsAreConsumedOnce(actions: seq<Action>, m: Machine)
    ensures var s := Run(actions, m).sess;
            && JoinsHold(s.joins, s.marks) && OpeningsHold(s.openings, s.marks)
            && Apart(s.joins, s.openings) && Covered(s.joins, s.openings, s.marks)
            && (forall id :: id in s.joins && s.joins[id].progress.Accepted? ==>
                  (MarkIn(s.joins[id]).Some? <==> ByProof(s.joins[id])))
            && (forall o :: o in s.openings ==> (MarkIn(o.join).Some? <==> ByProof(o.join)))
  {
    var w := Run(actions, m);
    RunKeepsProofs(actions, m);
    RunKeepsSessions(actions, m);
    assert forall id :: id in w.sess.joins ==> JoinOK(w.sess.joins[id], w.now, m);
    assert forall o :: o in w.sess.openings ==> OpeningOK(o, w.now, m);
  }

  /** Accepted by a binding that demands a workload proof. */
  predicate ByProof(j: Join) {
    && j.progress.Accepted? && j.progress.via < |j.agent.bindings| && j.agent.bindings[j.progress.via].kind == "wimse"
    && j.progress.attempt.claims(j.progress.keys).Some? && j.progress.attempt.proof.Some?
    && j.progress.attempt.proof.value.expiry.Some?
  }

  function ProofID(j: Join): (string, string)
    requires ByProof(j)
  {
    (j.progress.attempt.claims(j.progress.keys).value.subject, j.progress.attempt.proof.value.id)
  }

  function ProofExpiry(j: Join): int
    requires ByProof(j)
  {
    j.progress.attempt.proof.value.expiry.value
  }

  /** Over every run: one proof, that is one subject and id, opens at most one session before
      its expiry plus skew. */
  lemma OneProofOneSession(actions: seq<Action>, m: Machine, i: nat, j: nat)
    requires i < |Run(actions, m).sess.openings| && j < |Run(actions, m).sess.openings| && i != j
    requires var os := Run(actions, m).sess.openings;
             ByProof(os[i].join) && ByProof(os[j].join) && ProofID(os[i].join) == ProofID(os[j].join)
    ensures var os := Run(actions, m).sess.openings;
            || os[i].session.createdAt >= ProofExpiry(os[j].join) + m.limits.skew
            || os[j].session.createdAt >= ProofExpiry(os[i].join) + m.limits.skew
  {
    var w := Run(actions, m);
    var s := w.sess;
    RunKeepsProofs(actions, m);
    ProofsAreConsumedOnce(actions, m);
    assert s.openings[i] in s.openings && s.openings[j] in s.openings;
    var p, q := MarkIn(s.openings[i].join).value, MarkIn(s.openings[j].join).value;
    assert Holds(s.openings[i].join, s.marks) && Holds(s.openings[j].join, s.marks);
    assert !Shares(s.openings[i].join, s.openings[j].join) || !Shares(s.openings[j].join, s.openings[i].join);
    if p < q {
      Replay.TrackedSafety(s.memory.replay, s.marks, w.now, m.limits, p, q);
    } else {
      Replay.TrackedSafety(s.memory.replay, s.marks, w.now, m.limits, q, p);
    }
  }
}
