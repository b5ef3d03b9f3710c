/** What a grant token lets through, once its constraints have been written and read back. */
module TokenAccess {
  import opened Model
  import opened ConstraintAlgebra
  import opened Rules
  import opened RuleEngine
  import opened Evaluator
  import opened Grant

  // ----- constraints that went through a token

  /** The least access that touches these fields. */
  function Probe(touched: set<string>): Access { Access(0, false, {}, touched, 0, 0) }

  ghost predicate MayTouch(b: Bound, f: string) { Permits(b, Probe({f})) }

  ghost predicate NoField(b: Bound) { forall f :: !MayTouch(b, f) }

  /** What an access comes to under constraints that went through a token: its fields are no
      longer looked at when no field was left allowed. */
  function Judged(blind: bool, a: Access): Access { if blind then a.(touched := {}) else a }

  lemma NoFieldMeansEmpty(b: Bound)
    requires Permits(b, Probe({}))
    ensures NoField(b) <==> b.fields == Some({})
  {
    if b.fields.None? {
      assert MayTouch(b, "");
    } else if b.fields.value != {} {
      var f :| f in b.fields.value;
      assert MayTouch(b, f);
    } else {
      forall f
        ensures !MayTouch(b, f)
      {
        assert f in Probe({f}).touched;
      }
    }
  }

  lemma ReadBackPermits(c: Constraints, blind: bool, a: Access)
    requires Permits(BoundOf(c), Probe({})) && (blind <==> NoField(BoundOf(c)))
    ensures Permits(BoundOf(JsonConstraints(c)), a) <==> Permits(BoundOf(c), Judged(blind, a))
  {
    NoFieldMeansEmpty(BoundOf(c));
    if c.allowedFields.Some? && c.allowedFields.value != [] {
      assert c.allowedFields.value[0] in BoundOf(c).fields.value;
    }
  }

  // ----- which rules leave no field

  /** The rule has an allowedFields list without this field. */
  ghost predicate Excludes(r: Matched, f: string) {
    "allowedFields" in r.rule.constraints && !In(r.rule.constraints["allowedFields"], f)
  }

  /** Some rules list allowed fields, and no field is on all their lists. */
  ghost predicate NoCommonField(matches: seq<Matched>) {
    forall f :: SomeExclude(matches, f)
  }

  ghost predicate SomeExclude(matches: seq<Matched>, f: string) {
    exists r :: r in matches && Excludes(r, f)
  }

  lemma FieldPermitsProbe(field: Field, v: Value, touched: set<string>)
    requires WellTyped(field, v)
    ensures EntryPermits(field, v, Probe(touched)) <==> (field == Fields ==> forall f :: f in touched ==> In(v, f))
  {
    WellTypedIff(field, v);
  }

  lemma FieldsKeys(key: string)
    ensures PolicyField(key) == Some(Fields) <==> key == "allowedFields"
    ensures BackendField(key) == Some(Fields) <==> key == "allowedFields" || key == "allowed_fields"
  {
  }

  lemma RulePermitsProbe(r: Matched, touched: set<string>)
    requires ValidConstraints(r.rule.constraints)
    ensures EntriesPermit(r.rule.constraints, Probe(touched)) <==> forall f :: f in touched ==> !Excludes(r, f)
  {
    var m := r.rule.constraints;
    forall k | k in m
      ensures EntryPermits(PolicyField(k).value, m[k], Probe(touched))
              <==> (k == "allowedFields" ==> forall f :: f in touched ==> In(m[k], f))
    {
      assert ValidEntry(k, m[k]);
      FieldsKeys(k);
      FieldPermitsProbe(PolicyField(k).value, m[k], touched);
    }
  }

  lemma MergedProbe(matches: seq<Matched>, b: Bound, touched: set<string>)
    requires forall r :: r in matches ==> ValidConstraints(r.rule.constraints)
    requires b == MeetAll(RuleBounds(matches))
    ensures Permits(b, Probe(touched)) <==> forall r, f :: r in matches && f in touched ==> !Excludes(r, f)
  {
    MergeIsExact(matches, Probe(touched));
    forall r | r in matches
      ensures EntriesPermit(r.rule.constraints, Probe(touched)) <==> forall f :: f in touched ==> !Excludes(r, f)
    {
      RulePermitsProbe(r, touched);
    }
  }

  lemma NoFieldIff(matches: seq<Matched>, b: Bound)
    requires forall r :: r in matches ==> ValidConstraints(r.rule.constraints)
    requires b == MeetAll(RuleBounds(matches))
    ensures Permits(b, Probe({}))
    ensures NoField(b) <==> NoCommonField(matches)
  {
    MergedProbe(matches, b, {});
    forall f
      ensures MayTouch(b, f) <==> !SomeExclude(matches, f)
    {
      MergedProbe(matches, b, {f});
    }
  }

  /** For merged validated rules: constraints read back from a token never narrow, and permit
      something more if and only if rules list allowed fields and no field is on all lists. */
  lemma TokenWidensIff(matches: seq<Matched>, c: Constraints)
    requires forall r :: r in matches ==> ValidConstraints(r.rule.constraints)
    requires BoundOf(c) == MeetAll(RuleBounds(matches))
    ensures forall a :: Permits(BoundOf(c), a) ==> Permits(BoundOf(JsonConstraints(c)), a)
    ensures (exists a :: Permits(BoundOf(JsonConstraints(c)), a) && !Permits(BoundOf(c), a)) <==> NoCommonField(matches)
  {
    NoFieldIff(matches, BoundOf(c));
    WidensIff(c, NoCommonField(matches));
  }

  lemma WidensIff(c: Constraints, blind: bool)
    requires Permits(BoundOf(c), Probe({})) && (blind <==> NoField(BoundOf(c)))
    ensures forall a :: Permits(BoundOf(c), a) ==> Permits(BoundOf(JsonConstraints(c)), a)
    ensures (exists a :: Permits(BoundOf(JsonConstraints(c)), a) && !Permits(BoundOf(c), a)) <==> blind
  {
    var b, w := BoundOf(c), BoundOf(JsonConstraints(c));
    forall a
      ensures Permits(w, a) <==> Permits(b, Judged(blind, a))
    {
      ReadBackPermits(c, blind, a);
    }
    if blind {
      assert Judged(blind, Probe({""})) == Probe({});
      assert !MayTouch(b, "") && Permits(w, Probe({""}));
    }
  }

  predicate ListsOnly(r: Matched, field: string) {
    r.rule.constraints == map["allowedFields" := Strings([field])]
  }

  lemma ListsOnlyExcludes(r: Matched, field: string)
    requires ListsOnly(r, field)
    ensures ValidConstraints(r.rule.constraints)
    ensures forall f :: Excludes(r, f) <==> f != field
  {
    assert r.rule.constraints["allowedFields"] == Strings([field]);
  }

  /** Two lists without a common field: the token lets any field be touched, the decision
      none. */
  lemma DisjointListsWiden(matches: seq<Matched>, c: Constraints)
    requires |matches| == 2 && ListsOnly(matches[0], "a") && ListsOnly(matches[1], "b")
    requires BoundOf(c) == MeetAll(RuleBounds(matches))
    ensures forall f :: MayTouch(BoundOf(JsonConstraints(c)), f) && !MayTouch(BoundOf(c), f)
  {
    ListsOnlyExcludes(matches[0], "a");
    ListsOnlyExcludes(matches[1], "b");
    forall f
      ensures SomeExclude(matches, f)
    {
      assert Excludes(matches[0], f) || Excludes(matches[1], f);
    }
    NoFieldIff(matches, BoundOf(c));
    NothingLeftWidens(c);
  }

  lemma NothingLeftWidens(c: Constraints)
    requires Permits(BoundOf(c), Probe({})) && NoField(BoundOf(c))
    ensures forall f :: MayTouch(BoundOf(JsonConstraints(c)), f) && !MayTouch(BoundOf(c), f)
  {
    forall f
      ensures MayTouch(BoundOf(JsonConstraints(c)), f)
    {
      ReadBackPermits(c, true, Probe({f}));
      assert Judged(true, Probe({f})) == Probe({});
    }
  }

  // ----- tokens against rules and backends

  /** What a token lets through when its claims are taken at their word. */
  ghost predicate Lets(c: Claims, a: Access) {
    c.decision.Grants() && (c.constraints.Some? ==> Permits(BoundOf(c.constraints.value), a))
  }

  ghost predicate NoCommonLive(entries: seq<Matched>, v: View) {
    forall f :: SomeLiveExclude(entries, v, f)
  }

  ghost predicate SomeLiveExclude(entries: seq<Matched>, v: View, f: string) {
    exists e :: e in entries && LiveAllow(e, v) && Excludes(e, f)
  }

  /** A token lets an access through exactly as the decision it was issued for does, its
      fields aside when the decision left none. */
  lemma TokenLets(iss: Issuer, req: GrantRequest, at: int, blind: bool, a: Access)
    requires req.decision.constraints.Some? ==>
               var b := BoundOf(req.decision.constraints.value); Permits(b, Probe({})) && (blind <==> NoField(b))
    requires req.decision.constraints.None? ==> !blind
    ensures Lets(JsonImage(ClaimsFor(iss, req, at)), a) <==> Grants(req.decision, Judged(blind, a))
  {
    if req.decision.constraints.Some? {
      ReadBackPermits(req.decision.constraints.value, blind, a);
    }
  }

  lemma TallyIsBlind(t: Scan, entries: seq<Matched>, v: View, dec: Decision)
    requires t.Tally? && Represents(t, entries, v) && Concludes(t, dec) && dec.kind.Grants()
    requires forall e :: e in t.allow ==> ValidConstraints(e.rule.constraints)
    ensures dec.constraints.None? ==> !NoCommonLive(entries, v)
    ensures dec.constraints.Some? ==>
              var b := BoundOf(dec.constraints.value);
              Permits(b, Probe({})) && (NoCommonLive(entries, v) <==> NoField(b))
  {
    assert forall f :: SomeLiveExclude(entries, v, f) <==> SomeExclude(t.allow, f);
    if dec.constraints.Some? {
      NoFieldIff(t.allow, BoundOf(dec.constraints.value));
    } else {
      assert !SomeLiveExclude(entries, v, "");
    }
  }

  /** From the rules to the token: it lets an access through only if an allow rule applied,
      nothing stood in the way and every entry of every applying allow rule permits the
      access, its fields aside exactly when the lists of allowed fields had none in common;
      and, without wavering rules, always then. */
  lemma TokenAccessIsExact(
    policies: seq<Policy>, orders: seq<seq<KeyOrder>>, req: Request, env: Env, dec: Decision,
    iss: Issuer, greq: GrantRequest, at: int, a: Access)
    requires ArePolicyOrders(orders, policies) && Concludes(ScanPolicies(policies, orders, req, env), dec)
    requires greq.decision == dec
    ensures var all, v := Flatten(policies), ViewOf(req, env);
            var judged := Judged(NoCommonLive(all, v), a);
            && (Lets(JsonImage(ClaimsFor(iss, greq, at)), a) ==> Granted(all, v, judged))
            && (!SomeAre(all, v, Wavering) && Granted(all, v, judged) ==> Lets(JsonImage(ClaimsFor(iss, greq, at)), a))
  {
    var all, v := Flatten(policies), ViewOf(req, env);
    var blind := NoCommonLive(all, v);
    AccessIsExact(policies, orders, req, env, dec, Judged(blind, a));
    if dec.kind.Grants() {
      var t := ScanPolicies(policies, orders, req, env);
      WalksFitClasses(policies, orders, req, env);
      ScanSound(policies, orders, req, env, v);
      LiveRulesAreValid(all, req, env);
      TallyIsBlind(t, all, v, dec);
      TokenLets(iss, greq, at, blind, a);
    }
  }

  /** Some entries of the backend's map list allowed fields, and no field is on all lists. */
  ghost predicate NoCommonEntry(m: map<string, Value>) {
    forall f :: SomeEntryExcludes(m, f)
  }

  ghost predicate SomeEntryExcludes(m: map<string, Value>, f: string) {
    exists k :: k in m && ExcludesEntry(k, m[k], f)
  }

  ghost predicate ExcludesEntry(key: string, v: Value, f: string) {
    (key == "allowedFields" || key == "allowed_fields") && !In(v, f)
  }

  lemma BackendPermitsProbe(m: map<string, Value>, b: Bound, touched: set<string>)
    requires ValidBackendMap(m) && b == MeetAll(BackendBounds(m))
    ensures Permits(b, Probe(touched)) <==> forall k, f :: k in m && f in touched ==> !ExcludesEntry(k, m[k], f)
  {
    MeetAllPermits(BackendBounds(m), Probe(touched));
    forall k | k in m
      ensures FieldBound(BackendField(k).value, m[k]) in BackendBounds(m)
      ensures Permits(FieldBound(BackendField(k).value, m[k]), Probe(touched))
              <==> forall f :: f in touched ==> !ExcludesEntry(k, m[k], f)
    {
      FieldsKeys(k);
      FieldPermitsProbe(BackendField(k).value, m[k], touched);
      FieldBoundPermits(BackendField(k).value, m[k], Probe(touched));
    }
  }

  lemma BackendIsBlind(m: map<string, Value>, b: Bound)
    requires ValidBackendMap(m) && b == MeetAll(BackendBounds(m))
    ensures Permits(b, Probe({})) && (NoCommonEntry(m) <==> NoField(b))
  {
    BackendPermitsProbe(m, b, {});
    forall f
      ensures MayTouch(b, f) <==> !SomeEntryExcludes(m, f)
    {
      BackendPermitsProbe(m, b, {f});
    }
  }

  /** The same for a decision of an external backend. */
  lemma BackendTokenIsExact(reply: Reply, dec: Decision, iss: Issuer, greq: GrantRequest, at: int, a: Access)
    requires BackendConcludes(reply, dec) && greq.decision == dec && Usable(reply)
    ensures Lets(JsonImage(ClaimsFor(iss, greq, at)), a)
            <==> BackendGrants(reply, Judged(NoCommonEntry(reply.constraints), a))
  {
    var blind := NoCommonEntry(reply.constraints);
    if dec.constraints.Some? {
      BackendIsBlind(reply.constraints, BoundOf(dec.constraints.value));
    } else {
      assert !SomeEntryExcludes(reply.constraints, "");
    }
    TokenLets(iss, greq, at, blind, a);
    BackendAccessIsExact(reply, dec, Judged(blind, a));
  }
}
