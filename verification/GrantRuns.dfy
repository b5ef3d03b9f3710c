/** Grants over whole runs: where every verified token comes from, and what it can do. */
module GrantRuns {
  import opened Model
  import opened Evaluator
  import opened Registries
  import opened Sessions
  import opened Grant
  import opened ServerRuns

  // ----- the steps of one request

  /** At step k the request arrived with a bearer that resolved to this identity. */
  ghost predicate ReceivedAt(actions: seq<Action>, k: nat, call: nat, verified: Option<string>, m: Machine)
    requires k < |actions|
  {
    var w := At(actions, k, m);
    && actions[k].Receive? && w.work.next == call
    && verified == Verified(w.sess.sessions, w.now, actions[k].bearer, m.auth) && (m.auth ==> verified.Some?)
  }

  /** At step i the agent was looked up: the verified one, if any, and as the store held it. */
  ghost predicate LookedAt(actions: seq<Action>, i: nat, call: nat, verified: Option<string>, req: Request,
                           agent: Fetch<Option<Agent>>, m: Machine)
    requires i < |actions|
  {
    && actions[i].LookUp? && actions[i].call == call
    && req == (if verified.Some? then actions[i].req.(agentID := verified.value) else actions[i].req)
    && agent == if actions[i].storeFails then StoreError else Found(At(actions, i, m).reg.GetAgent(req.agentID))
  }

  /** At step j the decision was reached, on the registry, the backend and the clock of that
      moment. */
  ghost predicate DecidedAt(actions: seq<Action>, j: nat, call: nat, req: Request, reg: Registry, ins: Inputs,
                            dec: Decision, m: Machine)
    requires j < |actions|
  {
    && actions[j] == Decide(call, ins, dec) && reg == At(actions, j, m).reg
    && Fits(ins, At(actions, j, m).now, m) && m.decides(reg, req, ins, dec)
  }

  ghost predicate IssuedAt(actions: seq<Action>, l: nat, g: Issued, m: Machine)
    requires l < |actions|
  {
    && actions[l] == Issue(g.call) && g.at == At(actions, l, m).now
    && g.dec.kind.Grants() && g.claims == ClaimsFor(m.iss, GrantFor(g.req, g.dec), g.at)
  }

  ghost predicate Arrived(actions: seq<Action>, n: nat, call: nat, verified: Option<string>, m: Machine)
    requires n <= |actions|
  {
    exists k :: 0 <= k < n && ReceivedAt(actions, k, call, verified, m)
  }

  ghost predicate WasLookedUp(actions: seq<Action>, n: nat, call: nat, verified: Option<string>, req: Request,
                              agent: Fetch<Option<Agent>>, m: Machine)
    requires n <= |actions|
  {
    exists i ::
      && 0 <= i < n && Arrived(actions, i, call, verified, m)
      && LookedAt(actions, i, call, verified, req, agent, m)
  }

  ghost predicate WasDecided(actions: seq<Action>, n: nat, call: nat, verified: Option<string>, req: Request,
                             reg: Registry, ins: Inputs, dec: Decision, m: Machine)
    requires n <= |actions|
  {
    exists j ::
      && 0 <= j < n && WasLookedUp(actions, j, call, verified, req, ins.agent, m)
      && DecidedAt(actions, j, call, req, reg, ins, dec, m)
  }

  /** The whole story of a grant: received, looked up, decided, issued, in this order. */
  ghost predicate WasIssued(actions: seq<Action>, n: nat, g: Issued, m: Machine)
    requires n <= |actions|
  {
    exists l ::
      && 0 <= l < n && WasDecided(actions, l, g.call, g.verified, g.req, g.reg, g.ins, g.dec, m)
      && IssuedAt(actions, l, g, m)
  }

  ghost predicate HasStory(actions: seq<Action>, n: nat, call: nat, c: Call, m: Machine)
    requires n <= |actions|
  {
    match c
    case Received(verified) => Arrived(actions, n, call, verified, m)
    case Looked(verified, req, agent) => WasLookedUp(actions, n, call, verified, req, agent, m)
    case Decided(verified, req, reg, ins, dec) => WasDecided(actions, n, call, verified, req, reg, ins, dec, m)
    case _ => true
  }

  ghost predicate AllHaveStories(actions: seq<Action>, n: nat, m: Machine)
    requires n <= |actions|
  {
    var w := At(actions, n, m).work;
    && (forall c :: c in w.calls ==> HasStory(actions, n, c, w.calls[c], m))
    && (forall g :: g in w.issued ==> WasIssued(actions, n, g, m))
  }

  lemma StoryStays(actions: seq<Action>, n: nat, call: nat, c: Call, m: Machine)
    requires n < |actions| && HasStory(actions, n, call, c, m)
    ensures HasStory(actions, n + 1, call, c, m)
  {
  }

  /** What one step does to one call. */
  lemma StepMakesStory(actions: seq<Action>, n: nat, w: World, call: nat, m: Machine)
    requires n < |actions| && w == At(actions, n, m)
    requires call in w.work.calls ==> HasStory(actions, n, call, w.work.calls[call], m)
    requires call in StepCalls(w.work, w.reg, w.sess.sessions, w.now, actions[n], m).calls
    ensures var t := StepCalls(w.work, w.reg, w.sess.sessions, w.now, actions[n], m);
            HasStory(actions, n + 1, call, t.calls[call], m)
  {
    var a, c := actions[n], StepCalls(w.work, w.reg, w.sess.sessions, w.now, actions[n], m).calls[call];
    if call in w.work.calls && w.work.calls[call] == c {
      StoryStays(actions, n, call, c, m);
    } else if c.Received? {
      assert ReceivedAt(actions, n, call, c.verified, m);
    } else if c.Looked? {
      LookUpMakesStory(actions, n, w, call, c, m);
    } else if c.Decided? {
      DecideMakesStory(actions, n, w, call, c, m);
    }
  }

  lemma LookUpMakesStory(actions: seq<Action>, n: nat, w: World, call: nat, c: Call, m: Machine)
    requires n < |actions| && w == At(actions, n, m) && c.Looked?
    requires call in w.work.calls && HasStory(actions, n, call, w.work.calls[call], m) && w.work.calls[call] != c
    requires call in StepCalls(w.work, w.reg, w.sess.sessions, w.now, actions[n], m).calls
    requires c == StepCalls(w.work, w.reg, w.sess.sessions, w.now, actions[n], m).calls[call]
    ensures HasStory(actions, n + 1, call, c, m)
  {
    assert Arrived(actions, n, call, c.verified, m);
    assert LookedAt(actions, n, call, c.verified, c.req, c.agent, m);
  }

  lemma DecideMakesStory(actions: seq<Action>, n: nat, w: World, call: nat, c: Call, m: Machine)
    requires n < |actions| && w == At(actions, n, m) && c.Decided?
    requires call in w.work.calls && HasStory(actions, n, call, w.work.calls[call], m) && w.work.calls[call] != c
    requires call in StepCalls(w.work, w.reg, w.sess.sessions, w.now, actions[n], m).calls
    requires c == StepCalls(w.work, w.reg, w.sess.sessions, w.now, actions[n], m).calls[call]
    ensures HasStory(actions, n + 1, call, c, m)
  {
    assert WasLookedUp(actions, n, call, c.verified, c.req, c.ins.agent, m);
    assert DecidedAt(actions, n, call, c.req, c.reg, c.ins, c.dec, m);
  }

  lemma StepMakesGrant(actions: seq<Action>, n: nat, w: World, g: Issued, m: Machine)
    requires n < |actions| && w == At(actions, n, m) && AllHaveStories(actions, n, m)
    requires g in StepCalls(w.work, w.reg, w.sess.sessions, w.now, actions[n], m).issued
    ensures WasIssued(actions, n + 1, g, m)
  {
    if g in w.work.issued {
      assert WasIssued(actions, n, g, m);
    } else {
      var c := w.work.calls[g.call];
      assert HasStory(actions, n, g.call, c, m);
      assert IssuedAt(actions, n, g, m);
    }
  }

  /** At every step, every request in flight and every grant has its whole story in the run. */
  lemma {:induction false} RunKeepsStories(actions: seq<Action>, n: nat, m: Machine)
    requires n <= |actions|
    ensures AllHaveStories(actions, n, m)
  {
    if n == 0 {
      assert At(actions, 0, m) == INIT;
    } else {
      var w := At(actions, n - 1, m);
      RunKeepsStories(actions, n - 1, m);
      NextIs(actions, n - 1, m);
      var t := StepCalls(w.work, w.reg, w.sess.sessions, w.now, actions[n - 1], m);
      forall c | c in t.calls
        ensures HasStory(actions, n, c, t.calls[c], m)
      {
        StepMakesStory(actions, n - 1, w, c, m);
      }
      forall g | g in t.issued
        ensures WasIssued(actions, n, g, m)
      {
        StepMakesGrant(actions, n - 1, w, g, m);
      }
    }
  }
}
