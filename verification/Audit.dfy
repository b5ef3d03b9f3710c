/** The in-memory audit sink: filter, newest first, one page at a time. */
module Audit {
  import opened Model

  const DEFAULT_LIMIT := 100
  const MAX_LIMIT := 200

  datatype EventSubject = EventSubject(agentID: string, instanceID: string)

  datatype EventActor = EventActor(kind: string, id: string)

  datatype EventResource = EventResource(kind: string, id: string, classification: string)

  datatype Event = Event(
    eventID: string,
    timestamp: int,
    decision: DecisionKind,
    subject: Option<EventSubject>,
    actor: Option<EventActor>,
    action: string,
    resource: Option<EventResource>,
    constraints: Option<Constraints>,
    grantID: string,
    requestID: string,
    runID: string,
    policyIDs: seq<string>)

  /** Empty strings and None mean no filter; None stands for Go's zero time. */
  datatype Query = Query(
    agentID: string, actorID: string, action: string, decision: Option<DecisionKind>, requestID: string, runID: string,
    resourceType: string, resourceID: string, from: Option<int>, to: Option<int>, limit: int, offset: int)
  {
    function Normalize(): Query {
      var limit' := if limit <= 0 then DEFAULT_LIMIT else limit;
      this.(limit := if limit' > MAX_LIMIT then MAX_LIMIT else limit', offset := if offset < 0 then 0 else offset)
    }

    predicate Matches(e: Event) {
      && (agentID != "" ==> e.subject.Some? && e.subject.value.agentID == agentID)
      && (actorID != "" ==> e.actor.Some? && e.actor.value.id == actorID)
      && (action != "" ==> e.action == action)
      && (decision.Some? ==> e.decision == decision.value)
      && (requestID != "" ==> e.requestID == requestID)
      && (runID != "" ==> e.runID == runID)
      && (resourceType != "" ==> e.resource.Some? && e.resource.value.kind == resourceType)
      && (resourceID != "" ==> e.resource.Some? && e.resource.value.id == resourceID)
      && (from.Some? ==> e.timestamp >= from.value)
      && (to.Some? ==> e.timestamp <= to.value)
    }
  }

  const ANY := Query("", "", "", None, "", "", "", "", None, None, 0, 0)

  /** Each filter on its own: without one everything matches, and it asks for exactly one field. */
  lemma FilterMeans(q: Query, e: Event)
    ensures ANY.(limit := q.limit, offset := q.offset).Matches(e)
    ensures ANY.(agentID := q.agentID).Matches(e)
            <==> q.agentID == "" || exists s :: e.subject == Some(s) && s.agentID == q.agentID
    ensures ANY.(actorID := q.actorID).Matches(e)
            <==> q.actorID == "" || exists s :: e.actor == Some(s) && s.id == q.actorID
    ensures ANY.(action := q.action).Matches(e) <==> q.action == "" || q.action == e.action
    ensures ANY.(decision := q.decision).Matches(e) <==> q.decision == None || q.decision == Some(e.decision)
    ensures ANY.(requestID := q.requestID).Matches(e) <==> q.requestID == "" || q.requestID == e.requestID
    ensures ANY.(runID := q.runID).Matches(e) <==> q.runID == "" || q.runID == e.runID
    ensures ANY.(resourceType := q.resourceType).Matches(e)
            <==> q.resourceType == "" || exists r :: e.resource == Some(r) && r.kind == q.resourceType
    ensures ANY.(resourceID := q.resourceID).Matches(e)
            <==> q.resourceID == "" || exists r :: e.resource == Some(r) && r.id == q.resourceID
    ensures ANY.(from := q.from).Matches(e) <==> forall t :: q.from == Some(t) ==> t <= e.timestamp
    ensures ANY.(to := q.to).Matches(e) <==> forall t :: q.to == Some(t) ==> e.timestamp <= t
  {
  }

  /** Filters combine: an event matches exactly when it matches each of them alone. */
  lemma FiltersCombine(q: Query, e: Event)
    ensures q.Matches(e)
            <==> && ANY.(agentID := q.agentID).Matches(e) && ANY.(actorID := q.actorID).Matches(e)
                 && ANY.(action := q.action).Matches(e) && ANY.(decision := q.decision).Matches(e)
                 && ANY.(requestID := q.requestID).Matches(e) && ANY.(runID := q.runID).Matches(e)
                 && ANY.(resourceType := q.resourceType).Matches(e) && ANY.(resourceID := q.resourceID).Matches(e)
                 && ANY.(from := q.from).Matches(e) && ANY.(to := q.to).Matches(e)
  {
  }

  /** A page holds the asked number of events from 1 to 200, 100 when none is asked for and 200
      when more are; a negative offset is no offset. */
  lemma NormalizeMeans(q: Query)
    ensures 1 <= q.limit <= 200 ==> q.Normalize().limit == q.limit
    ensures q.limit <= 0 ==> q.Normalize().limit == 100
    ensures q.limit > 200 ==> q.Normalize().limit == 200
    ensures q.offset >= 0 ==> q.Normalize().offset == q.offset
    ensures q.offset < 0 ==> q.Normalize().offset == 0
    ensures q.Normalize() == q.(limit := q.Normalize().limit, offset := q.Normalize().offset)
  {
  }

  /** The matching events, latest written first. */
  function NewestWritten(log: seq<Event>, q: Query): seq<Event> {
    if log == [] then []
    else
      var n := |log| - 1;
      (if q.Matches(log[n]) then [log[n]] else []) + NewestWritten(log[..n], q)
  }

  // ----- stable sorting, newest timestamp first

  function Insert(s: seq<Event>, e: Event): seq<Event> {
    if s == [] || s[|s| - 1].timestamp >= e.timestamp then s + [e]
    else Insert(s[..|s| - 1], e) + [s[|s| - 1]]
  }

  function SortDesc(s: seq<Event>): seq<Event> {
    if s == [] then [] else Insert(SortDesc(s[..|s| - 1]), s[|s| - 1])
  }

  ghost predicate Descending(s: seq<Event>) {
    forall i, j :: 0 <= i < j < |s| ==> s[i].timestamp >= s[j].timestamp
  }

  /** The events at one time, in order. */
  function At(s: seq<Event>, time: int): seq<Event> {
    if s == [] then []
    else
      var n := |s| - 1;
      At(s[..n], time) + if s[n].timestamp == time then [s[n]] else []
  }

  /** What sort.SliceStable promises: sorted, and each time's events as they were. */
  ghost predicate IsStableSort(s: seq<Event>, sorted: seq<Event>) {
    Descending(sorted) && forall time :: At(sorted, time) == At(s, time)
  }

  lemma {:induction false} InsertIsDescending(s: seq<Event>, e: Event)
    requires Descending(s)
    ensures Descending(Insert(s, e))
    ensures forall x :: x in Insert(s, e) ==> x in s || x == e
  {
    if s != [] && s[|s| - 1].timestamp < e.timestamp {
      var n := |s| - 1;
      InsertIsDescending(s[..n], e);
      var t := Insert(s[..n], e);
      forall i | 0 <= i < |t|
        ensures t[i].timestamp >= s[n].timestamp
      {
        assert t[i] in t;
      }
    }
  }

  lemma AtSnoc(s: seq<Event>, e: Event, time: int)
    ensures At(s + [e], time) == At(s, time) + if e.timestamp == time then [e] else []
  {
    assert (s + [e])[..|s|] == s;
  }

  lemma {:induction false} InsertIsStable(s: seq<Event>, e: Event, time: int)
    ensures At(Insert(s, e), time) == At(s, time) + if e.timestamp == time then [e] else []
  {
    if s == [] || s[|s| - 1].timestamp >= e.timestamp {
      AtSnoc(s, e, time);
    } else {
      var n := |s| - 1;
      var before := At(s[..n], time);
      var last, added := if s[n].timestamp == time then [s[n]] else [], if e.timestamp == time then [e] else [];
      InsertIsStable(s[..n], e, time);
      AtSnoc(Insert(s[..n], e), s[n], time);
      assert last == [] || added == [];
      assert before + added + last == before + last + added;
    }
  }

  lemma {:induction false} SortDescIsStable(s: seq<Event>)
    ensures IsStableSort(s, SortDesc(s))
  {
    if s == [] {
      forall time
        ensures At(SortDesc(s), time) == At(s, time)
      {
      }
    } else {
      var n := |s| - 1;
      SortDescIsStable(s[..n]);
      var t := SortDesc(s[..n]);
      InsertIsDescending(t, s[n]);
      forall time
        ensures At(Insert(t, s[n]), time) == At(s, time)
      {
        InsertIsStable(t, s[n], time);
      }
    }
  }

  /** A stable sort has only one possible answer, so nothing rests on the algorithm. */
  lemma {:induction false} StableSortIsUnique(a: seq<Event>, b: seq<Event>)
    requires Descending(a) && Descending(b)
    requires forall time :: At(a, time) == At(b, time)
    ensures a == b
    decreases |a|
  {
    if a != [] {
      var n, m := |a| - 1, |b| - 1;
      LastTimesAgree(a, b);
      LastsAgree(a, b);
      forall time
        ensures At(a[..n], time) == At(b[..m], time)
      {
        DropLast(a, b, time);
      }
      StableSortIsUnique(a[..n], b[..m]);
      assert a == a[..n] + [a[n]] && b == b[..m] + [b[m]];
    } else if b != [] {
      LastTimesAgree(b, a);
    }
  }

  lemma LastTimesAgree(a: seq<Event>, b: seq<Event>)
    requires a != [] && Descending(a) && Descending(b)
    requires forall time :: At(a, time) == At(b, time)
    ensures b != [] && a[|a| - 1].timestamp == b[|b| - 1].timestamp
  {
    if b == [] || a[|a| - 1].timestamp < b[|b| - 1].timestamp {
      LastIsAt(a, b);
    } else if b[|b| - 1].timestamp < a[|a| - 1].timestamp {
      LastIsAt(b, a);
    }
  }

  lemma LastsAgree(a: seq<Event>, b: seq<Event>)
    requires a != [] && b != [] && a[|a| - 1].timestamp == b[|b| - 1].timestamp
    requires At(a, a[|a| - 1].timestamp) == At(b, a[|a| - 1].timestamp)
    ensures a[|a| - 1] == b[|b| - 1]
  {
    var x := At(a, a[|a| - 1].timestamp);
    assert x[|x| - 1] == a[|a| - 1];
  }

  lemma DropLast(a: seq<Event>, b: seq<Event>, time: int)
    requires a != [] && b != [] && a[|a| - 1] == b[|b| - 1] && At(a, time) == At(b, time)
    ensures At(a[..|a| - 1], time) == At(b[..|b| - 1], time)
  {
    var x, y := At(a[..|a| - 1], time), At(b[..|b| - 1], time);
    var last := if a[|a| - 1].timestamp == time then [a[|a| - 1]] else [];
    assert x + last == y + last;
    assert (x + last)[..|x|] == x && (y + last)[..|y|] == y;
  }

  /** a ends at a time b never reaches, so they differ at that time. */
  lemma LastIsAt(a: seq<Event>, b: seq<Event>)
    requires a != [] && Descending(b)
    requires b == [] || a[|a| - 1].timestamp < b[|b| - 1].timestamp
    ensures At(a, a[|a| - 1].timestamp) != At(b, a[|a| - 1].timestamp)
  {
    NoneAt(b, a[|a| - 1].timestamp);
    EndsAt(a);
  }

  lemma EndsAt(s: seq<Event>)
    requires s != []
    ensures At(s, s[|s| - 1].timestamp) != []
  {
  }

  lemma {:induction false} NoneAt(s: seq<Event>, time: int)
    requires forall i :: 0 <= i < |s| ==> s[i].timestamp != time
    ensures At(s, time) == []
  {
    if s != [] {
      NoneAt(s[..|s| - 1], time);
    }
  }

  // ----- the answer and its pages

  function Answer(log: seq<Event>, q: Query): seq<Event> { SortDesc(NewestWritten(log, q)) }

  function Page(log: seq<Event>, q: Query): seq<Event> {
    var (all, n) := (Answer(log, q), q.Normalize());
    if n.offset >= |all| then []
    else all[n.offset..if n.offset + n.limit > |all| then |all| else n.offset + n.limit]
  }

  /** Where page k starts. */
  function Start(limit: nat, k: nat): nat { if k == 0 then 0 else Start(limit, k - 1) + limit }

  /** The first k pages in a row. */
  function Pages(log: seq<Event>, q: Query, limit: nat, k: nat): seq<Event> {
    Concat((j: nat) => Page(log, q.(offset := Start(limit, j))), k)
  }

  function Concat<T>(part: nat -> seq<T>, k: nat): seq<T> {
    if k == 0 then [] else Concat(part, k - 1) + part(k - 1)
  }

  lemma {:induction false} StartIsMultiple(limit: nat, k: nat)
    ensures Start(limit, k) == k * limit
  {
    if k > 0 {
      StartIsMultiple(limit, k - 1);
    }
  }

  lemma {:induction false} AtKeepsCount(s: seq<Event>, e: Event)
    ensures multiset(At(s, e.timestamp))[e] == multiset(s)[e]
  {
    if s != [] {
      AtKeepsCount(s[..|s| - 1], e);
      assert s == s[..|s| - 1] + [s[|s| - 1]];
    }
  }

  lemma StableSortKeepsEvents(s: seq<Event>, sorted: seq<Event>)
    requires IsStableSort(s, sorted)
    ensures multiset(sorted) == multiset(s) && |sorted| == |s|
  {
    forall e
      ensures multiset(sorted)[e] == multiset(s)[e]
    {
      AtKeepsCount(s, e);
      AtKeepsCount(sorted, e);
    }
    assert multiset(sorted) == multiset(s);
    assert |sorted| == |multiset(sorted)| && |s| == |multiset(s)|;
  }

  lemma {:induction false} NewestWrittenCounts(log: seq<Event>, q: Query, e: Event)
    ensures multiset(NewestWritten(log, q))[e] == if q.Matches(e) then multiset(log)[e] else 0
  {
    if log != [] {
      NewestWrittenCounts(log[..|log| - 1], q, e);
      assert log == log[..|log| - 1] + [log[|log| - 1]];
    }
  }

  /** The answer holds exactly the matching events, each as often as it was written, newest
      timestamp first and, at one time, latest written first. */
  lemma AnswerIsExact(log: seq<Event>, q: Query)
    ensures Descending(Answer(log, q))
    ensures forall e :: multiset(Answer(log, q))[e] == if q.Matches(e) then multiset(log)[e] else 0
    ensures forall time :: At(Answer(log, q), time) == At(NewestWritten(log, q), time)
  {
    var s := NewestWritten(log, q);
    SortDescIsStable(s);
    StableSortKeepsEvents(s, SortDesc(s));
    forall e
      ensures multiset(Answer(log, q))[e] == if q.Matches(e) then multiset(log)[e] else 0
    {
      NewestWrittenCounts(log, q, e);
    }
  }

  function UpTo<T>(s: seq<T>, end: nat): seq<T> { if end >= |s| then s else s[..end] }

  function Slice<T>(s: seq<T>, offset: nat, n: nat): seq<T> {
    if offset >= |s| then [] else s[offset..if offset + n > |s| then |s| else offset + n]
  }

  function Slices<T>(s: seq<T>, n: nat, k: nat): seq<T> {
    if k == 0 then [] else Slices(s, n, k - 1) + Slice(s, Start(n, k - 1), n)
  }

  lemma {:induction false} SlicesJoin<T>(s: seq<T>, n: nat, k: nat)
    ensures Slices(s, n, k) == UpTo(s, Start(n, k))
  {
    if k > 0 {
      SlicesJoin(s, n, k - 1);
    }
  }

  lemma PageIsSlice(log: seq<Event>, q: Query, offset: nat, limit: nat)
    requires limit == q.Normalize().limit
    ensures Page(log, q.(offset := offset)) == Slice(Answer(log, q), offset, limit)
  {
    SameFilterSameAnswer(log, q, q.(offset := offset));
  }

  lemma {:induction false} ConcatIsSlices<T>(part: nat -> seq<T>, all: seq<T>, limit: nat, k: nat)
    requires forall j: nat {:trigger part(j)} :: j < k ==> part(j) == Slice(all, Start(limit, j), limit)
    ensures Concat(part, k) == Slices(all, limit, k)
  {
    if k > 0 {
      ConcatIsSlices(part, all, limit, k - 1);
    }
  }

  /** Paging partitions the answer: whatever limit is asked for, pages at multiples of the
      normalised limit concatenate to a growing prefix of the answer, and to all of it once
      they cover it; so no event is lost or repeated between pages. */
  lemma PagesPartition(log: seq<Event>, q: Query, limit: nat, k: nat)
    requires limit == q.Normalize().limit
    ensures 1 <= limit <= MAX_LIMIT
    ensures Pages(log, q, limit, k) == UpTo(Answer(log, q), k * limit)
  {
    var page := (j: nat) => Page(log, q.(offset := Start(limit, j)));
    forall j: nat | j < k
      ensures page(j) == Slice(Answer(log, q), Start(limit, j), limit)
    {
      PageIsSlice(log, q, Start(limit, j), limit);
    }
    ConcatIsSlices(page, Answer(log, q), limit, k);
    assert Pages(log, q, limit, k) == Concat(page, k);
    SlicesJoin(Answer(log, q), limit, k);
    StartIsMultiple(limit, k);
  }

  lemma {:induction false} SameFilterSameAnswer(log: seq<Event>, q: Query, p: Query)
    requires p == q.(offset := p.offset)
    ensures NewestWritten(log, p) == NewestWritten(log, q) && Answer(log, p) == Answer(log, q)
  {
    if log != [] {
      SameFilterSameAnswer(log[..|log| - 1], q, p);
    }
  }

  // ----- the sink

  class MemorySink {
    var events: seq<Event>

    constructor ()
      ensures events == []
    {
      events := [];
    }

    method Write(e: Event)
      modifies this`events
      ensures events == old(events) + [e]
    {
      events := events + [e];
    }

    /** Query; the context is done once it has been polled that many times, if ever. */
    method Query(q0: Query, doneAfter: Option<nat>) returns (result: Option<seq<Event>>)
      ensures result == if doneAfter.Some? && doneAfter.value < |events| then None else Some(Page(events, q0))
    {
      var q := q0.Normalize();
      var collected := Collect(q, doneAfter);
      if collected.None? { return None; }
      SameAnswerNormalized(events, q0);
      var matched := SortDesc(collected.value);
      if q.offset >= |matched| { return Some([]); }
      var end := q.offset + q.limit;
      if end > |matched| { end := |matched|; }
      result := Some(matched[q.offset..end]);
    }

    /** Query's loop, from the latest event back. */
    method Collect(q: Query, doneAfter: Option<nat>) returns (matched: Option<seq<Event>>)
      ensures matched == if doneAfter.Some? && doneAfter.value < |events| then None else Some(NewestWritten(events, q))
    {
      var found: seq<Event> := [];
      var i := |events|;
      assert events[..i] == events;
      while i > 0
        invariant 0 <= i <= |events|
        invariant doneAfter.Some? ==> |events| - i <= doneAfter.value
        invariant NewestWritten(events, q) == found + NewestWritten(events[..i], q)
      {
        if doneAfter.Some? && |events| - i == doneAfter.value { return None; }
        i := i - 1;
        NewestWrittenStep(events, q, i, found);
        if q.Matches(events[i]) {
          found := found + [events[i]];
        }
      }
      assert events[..0] == [] && found + [] == found;
      matched := Some(found);
    }
  }

  lemma NewestWrittenStep(log: seq<Event>, q: Query, i: nat, found: seq<Event>)
    requires i < |log|
    ensures found + NewestWritten(log[..i + 1], q)
            == (if q.Matches(log[i]) then found + [log[i]] else found) + NewestWritten(log[..i], q)
  {
    var upTo := log[..i + 1];
    assert upTo[..i] == log[..i] && upTo[i] == log[i];
  }

  lemma {:induction false} SameAnswerNormalized(log: seq<Event>, q: Query)
    ensures NewestWritten(log, q.Normalize()) == NewestWritten(log, q)
  {
    if log != [] {
      SameAnswerNormalized(log[..|log| - 1], q);
    }
  }
}
