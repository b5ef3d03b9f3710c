/** The replay cache for workload proof tokens, under every interleaving of its callers. The
    clock is sampled before the lock is taken, so samples may enter the lock out of order. */
module Replay {
  import opened Model

  /** The allowed clock skew and the longest proof lifetime, in nanoseconds. */
  datatype Limits = Limits(skew: nat, maxTTL: nat)

  function KeyOf(subject: string, jti: string): string { subject + "|" + jti }

  // ----- one critical section

  /** Drops the entries that the sampled time puts strictly past expiry plus skew. */
  function Purge(cache: map<string, int>, now: int, lim: Limits): map<string, int> {
    map k | k in cache && now <= cache[k] + lim.skew :: cache[k]
  }

  predicate Refuses(cache: map<string, int>, key: string, now: int, lim: Limits) {
    key in cache && now < cache[key] + lim.skew
  }

  /** What markWPTJTI leaves in the cache. */
  function Mark(cache: map<string, int>, key: string, now: int, expiry: int, lim: Limits): map<string, int> {
    if Refuses(cache, key, now, lim) then Purge(cache, now, lim) else Purge(cache, now, lim)[key := expiry]
  }

  // ----- runs

  /** A call that passed the proof's own checks, and then maybe sampled the clock. */
  datatype Call =
    | Validated(subject: string, jti: string, expiry: int, validatedAt: int)
    | Sampled(subject: string, jti: string, expiry: int, validatedAt: int, sample: int)

  /** One completed critical section; at is the real time at which it ran. */
  datatype Entry =
    Entry(subject: string, jti: string, expiry: int, validatedAt: int, sample: int, at: int, accepted: bool)
  {
    function Key(): string { KeyOf(subject, jti) }
  }

  datatype State = State(now: int, cache: map<string, int>, calls: map<nat, Call>, history: seq<Entry>)

  datatype Action =
    | Tick(elapsed: nat)
    | Validate(id: nat, subject: string, jti: string, expiry: int)
    | Sample(id: nat)
    | Enter(id: nat)

  const INIT := State(0, map[], map[], [])

  /** One atomic step of some caller; an action that is not enabled changes nothing. */
  function Step(s: State, a: Action, lim: Limits): State {
    match a
    case Tick(elapsed) => s.(now := s.now + elapsed)
    case Validate(id, subject, jti, expiry) =>
      // the proof's exp is at most maxTTL ahead and, with leeway, not past
      if id !in s.calls && expiry - s.now <= lim.maxTTL && s.now - lim.skew <= expiry
      then s.(calls := s.calls[id := Validated(subject, jti, expiry, s.now)])
      else s
    case Sample(id) =>
      if id in s.calls && s.calls[id].Validated?
      then var c := s.calls[id];
           s.(calls := s.calls[id := Sampled(c.subject, c.jti, c.expiry, c.validatedAt, s.now)])
      else s
    case Enter(id) =>
      if id in s.calls && s.calls[id].Sampled?
      then
        var c := s.calls[id];
        var key := KeyOf(c.subject, c.jti);
        s.(cache := Mark(s.cache, key, c.sample, c.expiry, lim),
           calls := s.calls - {id},
           history := s.history + [Entry(c.subject, c.jti, c.expiry, c.validatedAt, c.sample, s.now,
                                         !Refuses(s.cache, key, c.sample, lim))])
      else s
  }

  function Run(actions: seq<Action>, lim: Limits): State {
    if actions == [] then INIT
    else Step(Run(actions[..|actions| - 1], lim), actions[|actions| - 1], lim)
  }

  // ----- the cache as a function of the history

  /** The expiry the cache holds for a key: the latest accepted one, until some critical
      section samples a time past it. */
  function Live(h: seq<Entry>, key: string, lim: Limits): Option<int> {
    if h == [] then None
    else
      var e := h[|h| - 1];
      if e.accepted && e.Key() == key then Some(e.expiry)
      else match Live(h[..|h| - 1], key, lim)
        case None => None
        case Some(expiry) => if e.sample > expiry + lim.skew then None else Some(expiry)
  }

  ghost predicate Timely(c: Call, now: int, lim: Limits) {
    && c.expiry <= c.validatedAt + lim.maxTTL
    && c.validatedAt <= now
    && (c.Sampled? ==> c.validatedAt <= c.sample <= now)
  }

  ghost predicate EntryOK(h: seq<Entry>, i: nat, now: int, lim: Limits)
    requires i < |h|
  {
    var e := h[i];
    && e.expiry <= e.validatedAt + lim.maxTTL && e.validatedAt <= e.sample <= e.at <= now
    && (e.accepted <==> !RefusedAfter(h[..i], e.Key(), e.sample, lim))
  }

  /** The cache is the one its history determines, and so was every answer in it. */
  ghost predicate Tracks(cache: map<string, int>, h: seq<Entry>, now: int, lim: Limits) {
    && (forall i :: 0 <= i < |h| ==> EntryOK(h, i, now, lim))
    && (forall i, j :: 0 <= i < j < |h| ==> h[i].at <= h[j].at)
    && (forall k :: Live(h, k, lim) == if k in cache then Some(cache[k]) else None)
  }

  ghost predicate Inv(s: State, lim: Limits) {
    && (forall id :: id in s.calls ==> Timely(s.calls[id], s.now, lim))
    && Tracks(s.cache, s.history, s.now, lim)
  }

  ghost predicate RefusedAfter(h: seq<Entry>, key: string, sample: int, lim: Limits) {
    Live(h, key, lim).Some? && sample < Live(h, key, lim).value + lim.skew
  }

  /** One critical section, entered at e.at with an earlier sample. */
  lemma SectionKeepsTracks(cache: map<string, int>, h: seq<Entry>, e: Entry, lim: Limits)
    requires Tracks(cache, h, e.at, lim)
    requires e.expiry <= e.validatedAt + lim.maxTTL && e.validatedAt <= e.sample <= e.at
    requires e.accepted <==> !Refuses(cache, e.Key(), e.sample, lim)
    ensures Tracks(Mark(cache, e.Key(), e.sample, e.expiry, lim), h + [e], e.at, lim)
  {
    var t := h + [e];
    assert t[..|h|] == h;
    forall i | 0 <= i < |h|
      ensures EntryOK(t, i, e.at, lim) && t[i].at <= e.at
    {
      assert t[..i] == h[..i];
      assert EntryOK(h, i, e.at, lim);
    }
    assert RefusedAfter(h, e.Key(), e.sample, lim) <==> Refuses(cache, e.Key(), e.sample, lim);
    assert EntryOK(t, |h|, e.at, lim);
    SectionKeepsLive(cache, h, e, lim);
  }

  lemma SectionKeepsLive(cache: map<string, int>, h: seq<Entry>, e: Entry, lim: Limits)
    requires forall k :: Live(h, k, lim) == if k in cache then Some(cache[k]) else None
    requires e.accepted <==> !Refuses(cache, e.Key(), e.sample, lim)
    ensures var after := Mark(cache, e.Key(), e.sample, e.expiry, lim);
            forall k :: Live(h + [e], k, lim) == if k in after then Some(after[k]) else None
  {
    var t, after := h + [e], Mark(cache, e.Key(), e.sample, e.expiry, lim);
    assert t[..|h|] == h && t[|h|] == e;
    forall k
      ensures Live(t, k, lim) == if k in after then Some(after[k]) else None
    {
    }
  }

  lemma LaterTracks(cache: map<string, int>, h: seq<Entry>, now: int, later: int, lim: Limits)
    requires Tracks(cache, h, now, lim) && now <= later
    ensures Tracks(cache, h, later, lim)
  {
    forall i | 0 <= i < |h|
      ensures EntryOK(h, i, later, lim)
    {
      assert EntryOK(h, i, now, lim);
    }
  }

  lemma StepKeepsInv(s: State, a: Action, lim: Limits)
    requires Inv(s, lim)
    ensures Inv(Step(s, a, lim), lim)
  {
    if a.Tick? {
      LaterTracks(s.cache, s.history, s.now, s.now + a.elapsed, lim);
    } else if a.Enter? && a.id in s.calls && s.calls[a.id].Sampled? {
      SectionKeepsTracks(s.cache, s.history, Step(s, a, lim).history[|s.history|], lim);
    }
  }

  lemma {:induction false} RunKeepsInv(actions: seq<Action>, lim: Limits)
    ensures Inv(Run(actions, lim), lim)
  {
    if actions != [] {
      RunKeepsInv(actions[..|actions| - 1], lim);
      StepKeepsInv(Run(actions[..|actions| - 1], lim), actions[|actions| - 1], lim);
    }
  }

  /** h[i] is the latest acceptance of the key, and no critical section after it sampled a
      time past its expiry plus skew. */
  ghost predicate Lives(h: seq<Entry>, key: string, lim: Limits, i: int) {
    && 0 <= i < |h| && h[i].accepted && h[i].Key() == key
    && forall j :: i < j < |h| ==> !(h[j].accepted && h[j].Key() == key) && h[j].sample <= h[i].expiry + lim.skew
  }

  lemma LivesSnoc(h: seq<Entry>, key: string, lim: Limits, i: int)
    requires h != [] && i < |h| - 1
    ensures Lives(h, key, lim, i)
            <==> && Lives(h[..|h| - 1], key, lim, i)
                 && !(h[|h| - 1].accepted && h[|h| - 1].Key() == key)
                 && h[|h| - 1].sample <= h[i].expiry + lim.skew
  {
    var p := h[..|h| - 1];
    assert forall j :: 0 <= j < |p| ==> p[j] == h[j];
  }

  lemma {:induction false} LiveMeans(h: seq<Entry>, key: string, lim: Limits, expiry: int)
    ensures Live(h, key, lim) == Some(expiry) <==> exists i :: Lives(h, key, lim, i) && h[i].expiry == expiry
  {
    if h != [] {
      var n := |h| - 1;
      LiveMeans(h[..n], key, lim, expiry);
      forall i | i < n
        ensures Lives(h, key, lim, i)
                <==> Lives(h[..n], key, lim, i) && !(h[n].accepted && h[n].Key() == key)
                     && h[n].sample <= h[i].expiry + lim.skew
      {
        LivesSnoc(h, key, lim, i);
      }
      if h[n].accepted && h[n].Key() == key {
        assert Lives(h, key, lim, n);
      }
      if i :| Lives(h, key, lim, i) && h[i].expiry == expiry {
        assert i < n ==> h[..n][i] == h[i];
      }
      if i :| Lives(h[..n], key, lim, i) && h[..n][i].expiry == expiry {
        assert h[..n][i] == h[i];
      }
    }
  }

  // ----- the main results

  /** Exactly when a critical section refuses: its key was accepted before, latest with
      expiry e; its own sample is before e + skew; and no critical section in between sampled
      a time past e + skew. */
  lemma RefusedIff(actions: seq<Action>, lim: Limits, j: nat)
    requires j < |Run(actions, lim).history|
    ensures var h := Run(actions, lim).history;
            !h[j].accepted <==>
              exists i :: Lives(h[..j], h[j].Key(), lim, i) && h[j].sample < h[i].expiry + lim.skew
  {
    var s := Run(actions, lim);
    RunKeepsInv(actions, lim);
    TrackedRefusal(s.cache, s.history, s.now, lim, j);
  }

  lemma TrackedRefusal(cache: map<string, int>, h: seq<Entry>, now: int, lim: Limits, j: nat)
    requires Tracks(cache, h, now, lim) && j < |h|
    ensures !h[j].accepted <==>
              exists i :: Lives(h[..j], h[j].Key(), lim, i) && h[j].sample < h[i].expiry + lim.skew
  {
    var p, key := h[..j], h[j].Key();
    assert EntryOK(h, j, now, lim);
    assert forall i :: 0 <= i < j ==> p[i] == h[i];
    if RefusedAfter(p, key, h[j].sample, lim) {
      LiveMeans(p, key, lim, Live(p, key, lim).value);
    }
    if i :| Lives(p, key, lim, i) && h[j].sample < h[i].expiry + lim.skew {
      LiveMeans(p, key, lim, h[i].expiry);
    }
  }

  /** Replay safety: once a proof with expiry e is accepted, no later critical section accepts
      it before real time e + skew, whatever other calls sample, enter or purge in between. */
  lemma ReplaySafety(actions: seq<Action>, lim: Limits, i: nat, j: nat)
    requires i < j < |Run(actions, lim).history|
    requires var h := Run(actions, lim).history;
             h[i].accepted && h[j].accepted && h[i].Key() == h[j].Key()
    ensures var h := Run(actions, lim).history;
            h[j].at >= h[i].expiry + lim.skew
  {
    var s := Run(actions, lim);
    RunKeepsInv(actions, lim);
    TrackedSafety(s.cache, s.history, s.now, lim, i, j);
  }

  lemma {:induction false} TrackedSafety(cache: map<string, int>, h: seq<Entry>, now: int, lim: Limits, i: nat, j: nat)
    requires Tracks(cache, h, now, lim) && i < j < |h|
    requires h[i].accepted && h[j].accepted && h[i].Key() == h[j].Key()
    ensures h[j].at >= h[i].expiry + lim.skew
    decreases j
  {
    assert EntryOK(h, j, now, lim);
    if m :| i < m < j && h[m].accepted && h[m].Key() == h[i].Key() {
      TrackedSafety(cache, h, now, lim, i, m);
    } else {
      assert h[..j][i] == h[i];
      assert forall m :: i < m < j ==> h[..j][m] == h[m] && EntryOK(h, m, now, lim);
      TrackedRefusal(cache, h, now, lim, j);
      assert !(Lives(h[..j], h[j].Key(), lim, i) && h[j].sample < h[i].expiry + lim.skew);
    }
  }

  /** A refusal always has a cause: an earlier acceptance under the same cache key. */
  lemma RefusalHasCause(actions: seq<Action>, lim: Limits, j: nat)
    requires j < |Run(actions, lim).history| && !Run(actions, lim).history[j].accepted
    ensures var h := Run(actions, lim).history;
            exists i :: 0 <= i < j && h[i].accepted && h[i].Key() == h[j].Key()
  {
    var h := Run(actions, lim).history;
    RefusedIff(actions, lim, j);
    var i :| Lives(h[..j], h[j].Key(), lim, i) && h[j].sample < h[i].expiry + lim.skew;
    assert h[..j][i] == h[i];
  }

  /** One subject with its bar is a prefix of the other with its. */
  predicate Overlap(s1: string, s2: string) { s1 + "|" <= s2 + "|" || s2 + "|" <= s1 + "|" }

  /** When no two subjects overlap, an unused id is never refused. */
  lemma UnusedIsNeverRefused(actions: seq<Action>, lim: Limits, j: nat)
    requires j < |Run(actions, lim).history| && !Run(actions, lim).history[j].accepted
    requires var h := Run(actions, lim).history;
             forall e, f :: e in h && f in h && e.subject != f.subject ==> !Overlap(e.subject, f.subject)
    ensures var h := Run(actions, lim).history;
            exists i :: 0 <= i < j && h[i].accepted && h[i].subject == h[j].subject && h[i].jti == h[j].jti
  {
    var h := Run(actions, lim).history;
    RefusalHasCause(actions, lim, j);
    var i :| 0 <= i < j && h[i].accepted && h[i].Key() == h[j].Key();
    assert h[i] in h && h[j] in h;
    SubjectsOverlapIff(h[i].subject, h[j].subject);
    assert h[i].Key()[|h[i].subject| + 1..] == h[i].jti && h[j].Key()[|h[j].subject| + 1..] == h[j].jti;
  }

  /** Ids of two subjects can collide exactly when the subjects overlap. */
  lemma SubjectsOverlapIff(s1: string, s2: string)
    ensures (exists j1, j2 :: KeyOf(s1, j1) == KeyOf(s2, j2)) <==> Overlap(s1, s2)
  {
    if j1, j2 :| KeyOf(s1, j1) == KeyOf(s2, j2) {
      var k := KeyOf(s1, j1);
      assert s1 + "|" == k[..|s1| + 1] && s2 + "|" == k[..|s2| + 1];
    }
    if s1 + "|" <= s2 + "|" {
      ExtendKey(s1, s2, "");
    } else if s2 + "|" <= s1 + "|" {
      ExtendKey(s2, s1, "");
    }
  }

  function Extension(s1: string, s2: string, jti: string): string
    requires s1 + "|" <= s2 + "|"
  {
    (s2 + "|")[|s1| + 1..] + jti
  }

  lemma ExtendKey(s1: string, s2: string, jti: string)
    requires s1 + "|" <= s2 + "|"
    ensures KeyOf(s1, Extension(s1, s2, jti)) == KeyOf(s2, jti)
  {
    assert s2 + "|" == (s1 + "|") + (s2 + "|")[|s1| + 1..];
  }

  /** After a critical section sampled at t, every entry still cached, the section's own aside,
      comes from an acceptance no earlier than t - (maxTTL + skew). */
  lemma RemainingAreRecent(actions: seq<Action>, lim: Limits, key: string)
    requires var s := Run(actions, lim);
             s.history != [] && key in s.cache && key != s.history[|s.history| - 1].Key()
    ensures var h := Run(actions, lim).history;
            exists i :: Lives(h, key, lim, i) && h[i].at >= h[|h| - 1].sample - (lim.maxTTL + lim.skew)
  {
    var s := Run(actions, lim);
    var h := s.history;
    RunKeepsInv(actions, lim);
    LiveMeans(h, key, lim, s.cache[key]);
    var i :| Lives(h, key, lim, i) && h[i].expiry == s.cache[key];
    assert EntryOK(h, i, s.now, lim);
    assert h[|h| - 1].sample <= h[i].expiry + lim.skew;
  }

  // ----- two runs

  function OneCall(id: nat, subject: string, jti: string, expiry: int): seq<Action> {
    [Validate(id, subject, jti, expiry), Sample(id), Enter(id)]
  }

  lemma Snoc(actions: seq<Action>, a: Action, lim: Limits)
    ensures Run(actions + [a], lim) == Step(Run(actions, lim), a, lim)
  {
    assert (actions + [a])[..|actions|] == actions;
  }

  lemma LeavesNoTrace<T>(calls: map<nat, T>, id: nat, first: T, second: T)
    requires id !in calls
    ensures calls[id := first][id := second] - {id} == calls
  {
  }

  lemma CallRuns(actions: seq<Action>, id: nat, subject: string, jti: string, expiry: int, lim: Limits)
    requires var s := Run(actions, lim);
             id !in s.calls && expiry - s.now <= lim.maxTTL && s.now - lim.skew <= expiry
    ensures var s := Run(actions, lim);
            var key := KeyOf(subject, jti);
            Run(actions + OneCall(id, subject, jti, expiry), lim)
            == s.(cache := Mark(s.cache, key, s.now, expiry, lim),
                  history := s.history + [Entry(subject, jti, expiry, s.now, s.now, s.now,
                                                !Refuses(s.cache, key, s.now, lim))])
  {
    var s := Run(actions, lim);
    var a, b, c := Validate(id, subject, jti, expiry), Sample(id), Enter(id);
    Snoc(actions, a, lim);
    Snoc(actions + [a], b, lim);
    Snoc(actions + [a] + [b], c, lim);
    assert actions + OneCall(id, subject, jti, expiry) == actions + [a] + [b] + [c];
    LeavesNoTrace(s.calls, id, Validated(subject, jti, expiry, s.now), Sampled(subject, jti, expiry, s.now, s.now));
  }

  /** Acceptance is not once and for all: at exactly expiry plus skew the proof still passes its
      own checks, and the cache no longer refuses it. */
  lemma AcceptedAgainAtTheBoundary(lim: Limits)
    ensures var h := Run(OneCall(1, "s", "j", 0) + [Tick(lim.skew)] + OneCall(2, "s", "j", 0), lim).history;
            |h| == 2 && h[0].accepted && h[1].accepted && h[0].Key() == h[1].Key() && h[0].expiry == h[1].expiry
  {
    var first := OneCall(1, "s", "j", 0);
    CallRuns([], 1, "s", "j", 0, lim);
    assert [] + first == first;
    Snoc(first, Tick(lim.skew), lim);
    CallRuns(first + [Tick(lim.skew)], 2, "s", "j", 0, lim);
  }

  /** When two subjects overlap, an id that was never used can be refused. */
  lemma UnusedIsRefused(s1: string, s2: string, lim: Limits)
    requires s1 != s2 && s1 + "|" <= s2 + "|" && lim.maxTTL + lim.skew > 0
    ensures var jti := Extension(s1, s2, "x");
            var h := Run(OneCall(1, s2, "x", lim.maxTTL) + OneCall(2, s1, jti, lim.maxTTL), lim).history;
            |h| == 2 && h[0].subject == s2 && h[1].subject == s1 && h[0].accepted && !h[1].accepted
  {
    var first := OneCall(1, s2, "x", lim.maxTTL);
    CallRuns([], 1, s2, "x", lim.maxTTL, lim);
    assert [] + first == first;
    ExtendKey(s1, s2, "x");
    CallRuns(first, 2, s1, Extension(s1, s2, "x"), lim.maxTTL, lim);
  }
}
