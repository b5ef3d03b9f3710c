/** Creating a session without interruption, as a run of the machine. */
module CreationRuns {
  import opened Model
  import opened Registries
  import opened Sessions
  import opened TokenValidation
  import Replay
  import opened ServerRuns

  /** One attempt after the other, each with its replay section; a step that has nothing to do
      does nothing. */
  function Tries(id: nat, attempts: seq<Attempt>): seq<Action> {
    if attempts == [] then [] else [TryBinding(id, attempts[0]), EnterReplay(id)] + Tries(id, attempts[1..])
  }

  /** Where validation from a binding on leaves a creation. */
  ghost predicate Reached(j: Join, t: Join, r: Validated) {
    && t.agent == j.agent && t.lookedAt == j.lookedAt && t.seen == j.seen
    && if r.via.Some?
       then t.progress.Accepted? && t.progress.via == r.via.value && t.progress.keys == r.keys
       else t.progress == Trying(|j.agent.bindings|)
  }

  ghost predicate ReadyAt(w: World, id: nat, i: nat) {
    id in w.sess.joins && w.sess.joins[id].progress == Trying(i) && i <= |w.sess.joins[id].agent.bindings|
  }

  lemma OneBinding(w: World, id: nat, i: nat, at: Attempt, m: Machine) returns (t: World)
    requires ReadyAt(w, id, i) && i < |w.sess.joins[id].agent.bindings| && Clocked(w.sess.joins[id], at, w.now)
    ensures t == Step(Step(w, TryBinding(id, at), m), EnterReplay(id), m)
    ensures var j := w.sess.joins[id];
            var tried := Try(w.sess.memory, j.agent.bindings[i], at, j.seen, m.limits);
            && t.now == w.now && t.sess.memory == tried.memory && id in t.sess.joins
            && (if tried.ok then
                  && t.sess.joins[id] == j.(progress := t.sess.joins[id].progress)
                  && t.sess.joins[id].progress.Accepted? && t.sess.joins[id].progress.via == i
                  && t.sess.joins[id].progress.keys == tried.keys
                else t.sess.joins[id] == j.(progress := Trying(i + 1)))
  {
    var u := Step(w, TryBinding(id, at), m);
    assert u.sess == Advance(w.sess, id, at, m.limits);
    t := Step(u, EnterReplay(id), m);
    var j := w.sess.joins[id];
    var c := Check(w.sess.memory, j.agent.bindings[i], at, j.seen, m.limits);
    if c.ok && j.agent.bindings[i].kind == "wimse" {
      assert MayEnter(u.sess, id);
      assert t.sess == Enter(u.sess, id, w.now, m.limits);
    } else {
      assert !MayEnter(u.sess, id);
    }
  }

  lemma {:induction false} AcceptedStays(w: World, id: nat, attempts: seq<Attempt>, m: Machine)
    requires id in w.sess.joins && w.sess.joins[id].progress.Accepted?
    ensures RunFrom(w, Tries(id, attempts), m) == w
  {
    if attempts != [] {
      var pair := [TryBinding(id, attempts[0]), EnterReplay(id)];
      TwoMore(w, [], pair[0], pair[1], m);
      assert [] + pair == pair;
      RunAppends(w, pair, Tries(id, attempts[1..]), m);
      AcceptedStays(w, id, attempts[1..], m);
    }
  }

  /** Attempts on all remaining bindings in a row do what the validator does in one call: the
      same memory, and acceptance by the same binding on the same keys. */
  lemma {:induction false} ValidationIsARun(w: World, id: nat, i: nat, attempts: seq<Attempt>, m: Machine)
    requires ReadyAt(w, id, i) && |attempts| == |w.sess.joins[id].agent.bindings|
    requires forall k :: i <= k < |attempts| ==> Clocked(w.sess.joins[id], attempts[k], w.now)
    ensures var j := w.sess.joins[id];
            var r := ValidateFrom(w.sess.memory, i, j.agent.bindings, attempts, j.seen, m.limits);
            var t := RunFrom(w, Tries(id, attempts[i..]), m);
            t.sess.memory == r.memory && id in t.sess.joins && Reached(j, t.sess.joins[id], r)
    decreases |attempts| - i
  {
    if i < |attempts| {
      var at := attempts[i];
      var pair := [TryBinding(id, at), EnterReplay(id)];
      var u := OneBinding(w, id, i, at, m);
      TwoMore(w, [], pair[0], pair[1], m);
      assert [] + pair == pair && attempts[i..][1..] == attempts[i + 1..];
      RunAppends(w, pair, Tries(id, attempts[i + 1..]), m);
      if u.sess.joins[id].progress.Accepted? {
        AcceptedStays(u, id, attempts[i + 1..], m);
      } else {
        ValidationIsARun(u, id, i + 1, attempts, m);
      }
    }
  }
}
