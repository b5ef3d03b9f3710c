/** Constraint reading and merging: the strictest of every matching allow rule wins. */
module ConstraintAlgebra {
  import opened Model
  import opened Text

  // ----- what a set of constraints means

  /** Constraints with their field lists taken as sets. */
  datatype Bound = Bound(
    records: Option<int>,
    readOnly: Option<bool>,
    redact: set<string>,
    window: Option<int>,
    fields: Option<set<string>>,
    expires: Option<int>)

  const TOP := Bound(None, None, {}, None, None, None)

  ghost function BoundOf(c: Constraints): Bound {
    Bound(c.maxRecords, c.readOnly, Elems(c.redactFields), c.timeWindowSeconds,
          FieldSet(c.allowedFields),
          c.expiresInSeconds)
  }

  /** One use of a grant at the protected resource. */
  datatype Access = Access(
    records: nat,
    writes: bool,
    exposed: set<string>,
    touched: set<string>,
    window: nat,
    lifetime: nat)

  ghost predicate Permits(b: Bound, a: Access) {
    && (b.records.Some? ==> a.records <= b.records.value)
    && (b.readOnly == Some(true) ==> !a.writes)
    && b.redact !! a.exposed
    && (b.window.Some? ==> a.window <= b.window.value)
    && (b.fields.Some? ==> a.touched <= b.fields.value)
    && (b.expires.Some? ==> a.lifetime <= b.expires.value)
  }

  function MinOption(x: Option<int>, y: Option<int>): Option<int> {
    if x.None? then y else if y.None? || x.value <= y.value then x else y
  }

  function Meet(x: Bound, y: Bound): Bound {
    Bound(
      MinOption(x.records, y.records),
      if x.readOnly.None? then y.readOnly
      else if y.readOnly.None? then x.readOnly
      else Some(x.readOnly.value || y.readOnly.value),
      x.redact + y.redact,
      MinOption(x.window, y.window),
      if x.fields.None? then y.fields
      else if y.fields.None? then x.fields
      else Some(x.fields.value * y.fields.value),
      MinOption(x.expires, y.expires))
  }

  /** The meet of any number of bounds, in no particular order. */
  ghost function MeetAll(bounds: set<Bound>): Bound {
    if bounds == {} then TOP
    else
      var b :| b in bounds;
      Meet(MeetAll(bounds - {b}), b)
  }

  lemma MeetIsSemilattice(x: Bound, y: Bound, z: Bound)
    ensures Meet(x, y) == Meet(y, x)
    ensures Meet(Meet(x, y), z) == Meet(x, Meet(y, z))
    ensures Meet(x, x) == x && Meet(TOP, x) == x
  {
    assert x.redact + y.redact == y.redact + x.redact && x.redact + x.redact == x.redact;
    assert x.redact + y.redact + z.redact == x.redact + (y.redact + z.redact) && {} + x.redact == x.redact;
    if x.fields.Some? {
      assert x.fields.value * x.fields.value == x.fields.value;
      if y.fields.Some? {
        assert x.fields.value * y.fields.value == y.fields.value * x.fields.value;
        if z.fields.Some? {
          assert x.fields.value * y.fields.value * z.fields.value == x.fields.value * (y.fields.value * z.fields.value);
        }
      }
    }
  }

  lemma {:induction false} MeetAllTake(bounds: set<Bound>, b: Bound)
    requires b in bounds
    ensures MeetAll(bounds) == Meet(MeetAll(bounds - {b}), b)
    decreases bounds
  {
    var c :| c in bounds && MeetAll(bounds) == Meet(MeetAll(bounds - {c}), c);
    if c != b {
      MeetAllTake(bounds - {c}, b);
      MeetAllTake(bounds - {b}, c);
      assert bounds - {c} - {b} == bounds - {b} - {c};
      var rest := MeetAll(bounds - {b} - {c});
      MeetIsSemilattice(rest, b, c);
      MeetIsSemilattice(rest, c, b);
      MeetIsSemilattice(b, c, rest);
    }
  }

  lemma MeetAllAdd(bounds: set<Bound>, b: Bound)
    ensures MeetAll(bounds + {b}) == Meet(MeetAll(bounds), b)
  {
    if b in bounds {
      assert bounds + {b} == bounds;
      MeetAllTake(bounds, b);
      MeetIsSemilattice(MeetAll(bounds - {b}), b, b);
      MeetIsSemilattice(b, b, b);
    } else {
      assert bounds + {b} - {b} == bounds;
      MeetAllTake(bounds + {b}, b);
    }
  }

  /** Merging two groups and then the results is merging everything once: grouping, order
      and repetition of rules do not matter. */
  lemma {:induction false} MeetAllUnion(left: set<Bound>, right: set<Bound>)
    ensures MeetAll(left + right) == Meet(MeetAll(left), MeetAll(right))
    decreases right
  {
    if right == {} {
      assert left + right == left;
      MeetIsSemilattice(MeetAll(left), TOP, TOP);
    } else {
      var b :| b in right;
      var less := right - {b};
      MeetAllUnion(left, less);
      MeetAllAdd(left + less, b);
      MeetAllAdd(less, b);
      assert left + less + {b} == left + right && less + {b} == right;
      MeetIsSemilattice(MeetAll(left), MeetAll(less), b);
    }
  }

  /** The meet permits exactly what every member permits. */
  lemma {:induction false} MeetAllPermits(bounds: set<Bound>, a: Access)
    ensures Permits(MeetAll(bounds), a) <==> forall b :: b in bounds ==> Permits(b, a)
    decreases bounds
  {
    if bounds != {} {
      var b :| b in bounds;
      MeetAllTake(bounds, b);
      MeetAllPermits(bounds - {b}, a);
    }
  }

  // ----- reading one entry

  datatype Field = Records | ReadOnly | Redact | Window | Fields | ExpiresIn | ExpiresSeconds

  /** The keys validateConstraints accepts in a policy rule. */
  function PolicyField(key: string): Option<Field> {
    if key == "readonly" then Some(ReadOnly)
    else if key == "maxRecords" then Some(Records)
    else if key == "timeWindowSeconds" then Some(Window)
    else if key == "redact" then Some(Redact)
    else if key == "allowedFields" then Some(Fields)
    else if key == "expiresIn" then Some(ExpiresIn)
    else None
  }

  /** The keys, aliases included, that an external backend may use. */
  function BackendField(key: string): Option<Field> {
    if key == "maxRecords" || key == "max_records" then Some(Records)
    else if key == "readonly" || key == "readOnly" || key == "read_only" then Some(ReadOnly)
    else if key == "redact" || key == "redactFields" || key == "redact_fields" then Some(Redact)
    else if key == "timeWindowSeconds" || key == "time_window_seconds" then Some(Window)
    else if key == "allowedFields" || key == "allowed_fields" then Some(Fields)
    else if key == "expiresIn" then Some(ExpiresIn)
    else if key == "expiresInSeconds" || key == "expires_in_seconds" then Some(ExpiresSeconds)
    else None
  }

  predicate WellTyped(field: Field, v: Value) {
    match field
    case Records | Window | ExpiresSeconds => ToInt(v) > 0
    case ReadOnly => v.Bool?
    case Redact | Fields => ToStrings(v).Some? && ToStrings(v).value != []
    case ExpiresIn => v.Str? && ParseDurationSeconds(v.s) > 0
  }

  predicate ValidEntry(key: string, v: Value) {
    PolicyField(key).Some? && WellTyped(PolicyField(key).value, v)
  }

  predicate ValidConstraints(m: map<string, Value>) {
    forall k :: k in m ==> ValidEntry(k, m[k])
  }

  predicate BackendEntry(key: string, v: Value) {
    BackendField(key).Some? && WellTyped(BackendField(key).value, v)
  }

  predicate ValidBackendMap(m: map<string, Value>) {
    forall k :: k in m ==> BackendEntry(k, m[k])
  }

  /** An entry that can be enforced, by what its value says. */
  ghost predicate Enforceable(field: Field, v: Value) {
    match field
    case Records | Window | ExpiresSeconds => exists n :: Amounts(v, n)
    case ReadOnly => v == Bool(true) || v == Bool(false)
    case Redact | Fields => IsListing(v) && exists f :: In(v, f)
    case ExpiresIn => v.Str? && exists n :: n > 0 && Says(v.s, n)
  }

  lemma ListIsNotEmpty(v: Value)
    ensures ToStrings(v).Some? && ToStrings(v).value != [] <==> IsListing(v) && exists f :: In(v, f)
  {
    ToStringsIs(v);
    if ToStrings(v).Some? && ToStrings(v).value != [] {
      assert In(v, ToStrings(v).value[0]);
    }
  }

  lemma AmountIs(v: Value)
    ensures ToInt(v) > 0 <==> exists n :: Amounts(v, n)
    ensures ToInt(v) > 0 ==> forall n :: Amounts(v, n) <==> n == ToInt(v)
  {
    forall n | n > 0
      ensures ToInt(v) == n <==> Amounts(v, n)
    {
      ToIntIs(v, n);
    }
    if ToInt(v) > 0 {
      assert Amounts(v, ToInt(v));
    }
  }

  lemma SecondsAre(text: string)
    ensures ParseDurationSeconds(text) > 0 <==> exists n :: n > 0 && Says(text, n)
    ensures ParseDurationSeconds(text) > 0 ==> forall n :: n > 0 && Says(text, n) <==> n == ParseDurationSeconds(text)
  {
    forall n | n > 0
      ensures ParseDurationSeconds(text) == n <==> Says(text, n)
    {
      DurationReads(text, n);
    }
    if ParseDurationSeconds(text) > 0 {
      assert Says(text, ParseDurationSeconds(text));
    }
  }

  lemma WellTypedIff(field: Field, v: Value)
    ensures WellTyped(field, v) <==> Enforceable(field, v)
  {
    AmountIs(v);
    ListIsNotEmpty(v);
    if v.Str? { SecondsAre(v.s); }
  }

  /** What one well-typed entry asks of an access, read on its own. */
  ghost predicate EntryPermits(field: Field, v: Value, a: Access)
    requires WellTyped(field, v)
  {
    match field
    case Records => exists n :: Amounts(v, n) && a.records <= n
    case ReadOnly => v == Bool(true) ==> !a.writes
    case Redact => forall f :: In(v, f) ==> f !in a.exposed
    case Window => exists n :: Amounts(v, n) && a.window <= n
    case Fields => forall f :: f in a.touched ==> In(v, f)
    case ExpiresIn => exists n :: n > 0 && Says(v.s, n) && a.lifetime <= n
    case ExpiresSeconds => exists n :: Amounts(v, n) && a.lifetime <= n
  }

  ghost function FieldBound(field: Field, v: Value): Bound
    requires WellTyped(field, v)
  {
    match field
    case Records => TOP.(records := Some(ToInt(v)))
    case ReadOnly => TOP.(readOnly := Some(v.b))
    case Redact => TOP.(redact := Elems(ToStrings(v).value))
    case Window => TOP.(window := Some(ToInt(v)))
    case Fields => TOP.(fields := Some(Elems(ToStrings(v).value)))
    case ExpiresIn => TOP.(expires := Some(ParseDurationSeconds(v.s)))
    case ExpiresSeconds => TOP.(expires := Some(ToInt(v)))
  }

  // ----- one rule's constraint map

  function PositiveInt(m: map<string, Value>, key: string): Option<int> {
    if key in m && ToInt(m[key]) > 0 then Some(ToInt(m[key])) else None
  }

  function StringsAt(m: map<string, Value>, key: string): Option<seq<string>> {
    if key in m then ToStrings(m[key]) else None
  }

  function ReadOnlyAt(m: map<string, Value>): Option<bool> {
    if "readonly" in m then Some(m["readonly"] == Bool(true)) else None
  }

  function ExpiryAt(m: map<string, Value>): Option<int> {
    if "expiresIn" in m && m["expiresIn"].Str? && ParseDurationSeconds(m["expiresIn"].s) > 0
    then Some(ParseDurationSeconds(m["expiresIn"].s)) else None
  }

  ghost function FieldSet(fields: Option<seq<string>>): Option<set<string>> {
    if fields.Some? then Some(Elems(fields.value)) else None
  }

  /** mergeConstraints' reading of a single rule, invalid entries dropped as it drops them. */
  ghost function RuleBound(m: map<string, Value>): Bound {
    Bound(
      PositiveInt(m, "maxRecords"),
      ReadOnlyAt(m),
      if StringsAt(m, "redact").Some? then Elems(StringsAt(m, "redact").value) else {},
      PositiveInt(m, "timeWindowSeconds"),
      FieldSet(StringsAt(m, "allowedFields")),
      ExpiryAt(m))
  }

  /** What it reads of any rule, validated or not: positive numbers, lists of strings, and the
      texts of durations, as the values say them; everything else not at all. */
  lemma RuleBoundReads(m: map<string, Value>)
    ensures var b := RuleBound(m);
            && (forall n :: b.records == Some(n) <==> "maxRecords" in m && Amounts(m["maxRecords"], n))
            && (forall n :: b.window == Some(n) <==> "timeWindowSeconds" in m && Amounts(m["timeWindowSeconds"], n))
            && (forall n :: b.expires == Some(n) <==>
                  "expiresIn" in m && m["expiresIn"].Str? && n > 0 && Says(m["expiresIn"].s, n))
            && (b.readOnly.Some? <==> "readonly" in m)
            && (b.readOnly == Some(true) <==> "readonly" in m && m["readonly"] == Bool(true))
            && (forall f :: f in b.redact <==> "redact" in m && IsListing(m["redact"]) && In(m["redact"], f))
            && (b.fields.Some? <==> "allowedFields" in m && IsListing(m["allowedFields"]))
            && (b.fields.Some? ==> forall f :: f in b.fields.value <==> In(m["allowedFields"], f))
  {
    if "maxRecords" in m { AmountIs(m["maxRecords"]); }
    if "timeWindowSeconds" in m { AmountIs(m["timeWindowSeconds"]); }
    if "expiresIn" in m && m["expiresIn"].Str? { SecondsAre(m["expiresIn"].s); }
    if "redact" in m { ToStringsIs(m["redact"]); }
    if "allowedFields" in m { ToStringsIs(m["allowedFields"]); }
  }

  ghost function RuleBounds(matches: seq<Matched>): set<Bound> {
    set r | r in matches :: RuleBound(r.rule.constraints)
  }

  ghost function EntryBounds(m: map<string, Value>): set<Bound>
    requires ValidConstraints(m)
  {
    set k | k in m :: FieldBound(PolicyField(k).value, m[k])
  }

  ghost function BackendBounds(m: map<string, Value>): set<Bound>
    requires ValidBackendMap(m)
  {
    set k | k in m :: FieldBound(BackendField(k).value, m[k])
  }

  /** One entry more: the rule's bound meets the entry's. */
  lemma RuleBoundTake(m: map<string, Value>, k: string)
    requires ValidConstraints(m) && k in m
    ensures RuleBound(m) == Meet(RuleBound(m - {k}), FieldBound(PolicyField(k).value, m[k]))
  {
    KeyLengths();
    var less := m - {k};
    assert forall x :: x in less <==> x in m && x != k;
    var r := RuleBound(less);
    assert r.redact + {} == r.redact;
    match PolicyField(k).value
    case Records => assert k == "maxRecords"; assert RuleBound(m) == r.(records := Some(ToInt(m[k])));
    case ReadOnly => assert k == "readonly";
    case Redact => assert k == "redact";
    case Window => assert k == "timeWindowSeconds";
    case Fields => assert k == "allowedFields";
    case ExpiresIn => assert k == "expiresIn";
  }

  /** The six keys are told apart by their lengths. */
  lemma KeyLengths()
    ensures |"redact"| == 6 && |"readonly"| == 8 && |"expiresIn"| == 9
    ensures |"maxRecords"| == 10 && |"allowedFields"| == 13 && |"timeWindowSeconds"| == 17
  {
  }

  lemma {:induction false} RuleBoundIsMeet(m: map<string, Value>)
    requires ValidConstraints(m)
    ensures RuleBound(m) == MeetAll(EntryBounds(m))
    decreases m.Keys
  {
    if m != map[] {
      var k :| k in m;
      var less := m - {k};
      RuleBoundTake(m, k);
      RuleBoundIsMeet(less);
      EntryBoundsTake(m, k);
      MeetAllAdd(EntryBounds(less), FieldBound(PolicyField(k).value, m[k]));
    }
  }

  lemma EntryBoundsTake(m: map<string, Value>, k: string)
    requires ValidConstraints(m) && k in m
    ensures EntryBounds(m) == EntryBounds(m - {k}) + {FieldBound(PolicyField(k).value, m[k])}
  {
    assert forall x :: x in m - {k} <==> x in m && x != k;
  }

  /** An access that every entry of one rule permits, each entry read on its own. */
  ghost predicate EntriesPermit(m: map<string, Value>, a: Access)
    requires ValidConstraints(m)
  {
    forall k :: k in m ==> EntryPermits(PolicyField(k).value, m[k], a)
  }

  lemma FieldBoundPermits(field: Field, v: Value, a: Access)
    requires WellTyped(field, v)
    ensures Permits(FieldBound(field, v), a) <==> EntryPermits(field, v, a)
  {
    var b := FieldBound(field, v);
    match field
    case Records | Window | ExpiresSeconds => AmountIs(v);
    case ReadOnly =>
    case ExpiresIn => SecondsAre(v.s);
    case Redact =>
      ToStringsIs(v);
      assert forall f :: f in b.redact <==> f in ToStrings(v).value;
    case Fields =>
      ToStringsIs(v);
      assert forall f :: f in b.fields.value <==> f in ToStrings(v).value;
  }

  lemma RuleBoundPermits(m: map<string, Value>, a: Access)
    requires ValidConstraints(m)
    ensures Permits(RuleBound(m), a) <==> EntriesPermit(m, a)
  {
    RuleBoundIsMeet(m);
    var bounds := EntryBounds(m);
    MeetAllPermits(bounds, a);
    forall k | k in m
      ensures FieldBound(PolicyField(k).value, m[k]) in bounds
      ensures Permits(FieldBound(PolicyField(k).value, m[k]), a) <==> EntryPermits(PolicyField(k).value, m[k], a)
    {
      FieldBoundPermits(PolicyField(k).value, m[k], a);
    }
  }

  /** Strictest wins, exactly: the merged constraints of validated rules permit an access
      if and only if every entry of every rule does. */
  lemma MergeIsExact(matches: seq<Matched>, a: Access)
    requires forall r :: r in matches ==> ValidConstraints(r.rule.constraints)
    ensures Permits(MeetAll(RuleBounds(matches)), a)
            <==> forall r :: r in matches ==> EntriesPermit(r.rule.constraints, a)
  {
    MeetAllPermits(RuleBounds(matches), a);
    forall r | r in matches
      ensures RuleBound(r.rule.constraints) in RuleBounds(matches)
      ensures Permits(RuleBound(r.rule.constraints), a) <==> EntriesPermit(r.rule.constraints, a)
    {
      RuleBoundPermits(r.rule.constraints, a);
    }
  }

  /** What the merged lists hold: a field is redacted exactly when some rule redacts it, and
      allowed exactly when every rule that lists allowed fields lists it. */
  lemma MergedListsAre(matches: seq<Matched>, c: Constraints, f: string)
    requires forall r :: r in matches ==> ValidConstraints(r.rule.constraints)
    requires BoundOf(c) == MeetAll(RuleBounds(matches))
    ensures f in c.redactFields <==> exists r :: r in matches && Lists(r, "redact", f)
    ensures c.allowedFields.Some? <==> exists r :: r in matches && "allowedFields" in r.rule.constraints
    ensures c.allowedFields.Some? ==>
              (f in c.allowedFields.value
               <==> forall r :: r in matches && "allowedFields" in r.rule.constraints ==> Lists(r, "allowedFields", f))
  {
    BoundListsAre(matches, f);
    assert f in c.redactFields <==> f in BoundOf(c).redact;
  }

  lemma {:induction false} BoundListsAre(matches: seq<Matched>, f: string)
    requires forall r :: r in matches ==> ValidConstraints(r.rule.constraints)
    ensures var b := MeetAll(RuleBounds(matches));
            && (f in b.redact <==> exists r :: r in matches && Lists(r, "redact", f))
            && (b.fields.Some? <==> exists r :: r in matches && "allowedFields" in r.rule.constraints)
            && (b.fields.Some? ==>
                  (f in b.fields.value
                   <==> forall r ::
                          r in matches && "allowedFields" in r.rule.constraints ==> Lists(r, "allowedFields", f)))
  {
    if matches != [] {
      var init, last := matches[..|matches| - 1], matches[|matches| - 1];
      assert matches == init + [last];
      assert forall r :: r in matches <==> r in init || r == last;
      BoundListsAre(init, f);
      RuleBoundsSnoc(init, last);
      RuleListsAre(last, f);
    }
  }

  ghost predicate Lists(r: Matched, key: string, f: string) {
    key in r.rule.constraints && In(r.rule.constraints[key], f)
  }

  lemma RuleListsAre(r: Matched, f: string)
    requires ValidConstraints(r.rule.constraints)
    ensures var b := RuleBound(r.rule.constraints);
            && (f in b.redact <==> Lists(r, "redact", f))
            && (b.fields.Some? <==> "allowedFields" in r.rule.constraints)
            && (b.fields.Some? ==> (f in b.fields.value <==> Lists(r, "allowedFields", f)))
  {
    var m := r.rule.constraints;
    if "redact" in m {
      assert ValidEntry("redact", m["redact"]);
      ToStringsIs(m["redact"]);
    }
    if "allowedFields" in m {
      assert ValidEntry("allowedFields", m["allowedFields"]);
      ToStringsIs(m["allowedFields"]);
    }
  }

  /** More rules never permit more. */
  lemma MergeOnlyNarrows(fewer: seq<Matched>, more: seq<Matched>, a: Access)
    requires Elems(fewer) <= Elems(more)
    requires Permits(MeetAll(RuleBounds(more)), a)
    ensures Permits(MeetAll(RuleBounds(fewer)), a)
  {
    MeetAllPermits(RuleBounds(more), a);
    MeetAllPermits(RuleBounds(fewer), a);
    forall b | b in RuleBounds(fewer)
      ensures b in RuleBounds(more)
    {
      var r :| r in fewer && b == RuleBound(r.rule.constraints);
      assert r in Elems(fewer);
    }
  }

  /** A validated rule is unconstrained exactly when it has no constraint entries, so the
      merged result is absent exactly when the merged bound is the top one. */
  lemma {:induction false} MergeIsTopIff(matches: seq<Matched>)
    requires forall r :: r in matches ==> ValidConstraints(r.rule.constraints)
    ensures MeetAll(RuleBounds(matches)) == TOP <==> forall r :: r in matches ==> r.rule.constraints == map[]
  {
    if matches != [] {
      var last := matches[|matches| - 1];
      var init := matches[..|matches| - 1];
      MergeIsTopIff(init);
      RuleBoundsSnoc(init, last);
      assert matches == init + [last];
      assert RuleBound(last.rule.constraints) == TOP <==> last.rule.constraints == map[] by {
        NonEmptyIsNotTop(last.rule.constraints);
      }
      MeetIsTopIff(MeetAll(RuleBounds(init)), RuleBound(last.rule.constraints));
    }
  }

  lemma NonEmptyIsNotTop(m: map<string, Value>)
    requires ValidConstraints(m)
    ensures RuleBound(m) == TOP <==> m == map[]
  {
    if m != map[] {
      var k :| k in m;
      RuleBoundTake(m, k);
      var b := FieldBound(PolicyField(k).value, m[k]);
      FieldBoundIsNotTop(PolicyField(k).value, m[k]);
      MeetIsTopIff(RuleBound(m - {k}), b);
    }
  }

  lemma FieldBoundIsNotTop(field: Field, v: Value)
    requires WellTyped(field, v)
    ensures FieldBound(field, v) != TOP
  {
    if field == Redact {
      assert ToStrings(v).value[0] in FieldBound(field, v).redact;
    }
  }

  lemma MeetIsTopIff(x: Bound, y: Bound)
    ensures Meet(x, y) == TOP <==> x == TOP && y == TOP
  {
    if Meet(x, y) == TOP {
      assert x.redact <= x.redact + y.redact && y.redact <= x.redact + y.redact;
    }
  }

  lemma RuleBoundsSnoc(init: seq<Matched>, last: Matched)
    ensures RuleBounds(init + [last]) == RuleBounds(init) + {RuleBound(last.rule.constraints)}
    ensures MeetAll(RuleBounds(init + [last])) == Meet(MeetAll(RuleBounds(init)), RuleBound(last.rule.constraints))
  {
    var all := init + [last];
    assert forall r :: r in all <==> r in init || r == last;
    assert RuleBounds(all) == RuleBounds(init) + {RuleBound(last.rule.constraints)};
    MeetAllAdd(RuleBounds(init), RuleBound(last.rule.constraints));
  }

  /** On a map validateConstraints accepts, the backend reader sees the same fields and so
      the same bound, whatever order either reader walks the keys in. */
  lemma ReadersAgree(m: map<string, Value>)
    requires ValidConstraints(m)
    ensures ValidBackendMap(m) && MeetAll(BackendBounds(m)) == RuleBound(m)
  {
    forall k | k in m
      ensures BackendField(k) == PolicyField(k)
    {
      assert ValidEntry(k, m[k]);
      SameField(k);
    }
    assert BackendBounds(m) == EntryBounds(m);
    RuleBoundIsMeet(m);
  }

  lemma SameField(key: string)
    requires PolicyField(key).Some?
    ensures BackendField(key) == PolicyField(key)
  {
  }

  // ----- the loops

  /** a followed by the strings of b not seen before, in order. */
  method UnionStrings(a: seq<string>, b: seq<string>) returns (result: seq<string>)
    ensures a <= result
    ensures Elems(result) == Elems(a) + Elems(b)
    ensures forall i, j :: 0 <= i < j < |result| && |a| <= j ==> result[i] != result[j]
  {
    var seen := set s | s in a;
    result := a;
    for i := 0 to |b|
      invariant a <= result
      invariant seen == Elems(result) == Elems(a) + Elems(b[..i])
      invariant forall i, j :: 0 <= i < j < |result| && |a| <= j ==> result[i] != result[j]
    {
      if b[i] !in seen {
        result := result + [b[i]];
        seen := seen + {b[i]};
      }
      assert b[..i + 1] == b[..i] + [b[i]];
    }
    assert b[..|b|] == b;
  }

  /** The strings of a that are also in b, each once, in a's order. */
  method IntersectStrings(a: seq<string>, b: seq<string>) returns (result: seq<string>)
    ensures Elems(result) == Elems(a) * Elems(b)
    ensures forall i, j :: 0 <= i < j < |result| ==> result[i] != result[j]
  {
    var inB := set s | s in b;
    var seen: set<string> := {};
    result := [];
    for i := 0 to |a|
      invariant seen == Elems(result) == Elems(a[..i]) * Elems(b)
      invariant forall i, j :: 0 <= i < j < |result| ==> result[i] != result[j]
    {
      if a[i] in inB && a[i] !in seen {
        result := result + [a[i]];
        seen := seen + {a[i]};
      }
      assert a[..i + 1] == a[..i] + [a[i]];
    }
    assert a[..|a|] == a;
  }

  /** mergeConstraints: one pass over the matching allow rules. */
  method MergeConstraints(matches: seq<Matched>) returns (merged: Option<Constraints>)
    ensures merged.None? <==> forall r :: r in matches ==> r.rule.constraints == map[]
    ensures merged.Some? ==> BoundOf(merged.value) == MeetAll(RuleBounds(matches))
  {
    var hasConstraints := false;
    var c := NO_CONSTRAINTS;
    assert BoundOf(c) == TOP;
    for i := 0 to |matches|
      invariant hasConstraints <==> exists r :: r in matches[..i] && r.rule.constraints != map[]
      invariant BoundOf(c) == MeetAll(RuleBounds(matches[..i]))
    {
      var m := matches[i].rule.constraints;
      assert matches[..i + 1] == matches[..i] + [matches[i]];
      RuleBoundsSnoc(matches[..i], matches[i]);
      if m == map[] {
        MeetIsSemilattice(BoundOf(c), TOP, TOP);
        MeetIsSemilattice(TOP, BoundOf(c), TOP);
        continue;
      }
      hasConstraints := true;
      c := MergeRule(c, m);
    }
    assert matches[..|matches|] == matches;
    merged := if hasConstraints then Some(c) else None;
  }

  /** The body of mergeConstraints' loop. */
  method MergeRule(acc: Constraints, m: map<string, Value>) returns (c: Constraints)
    ensures BoundOf(c) == Meet(BoundOf(acc), RuleBound(m))
  {
    var maxRecords := Smaller(acc.maxRecords, PositiveInt(m, "maxRecords"));
    var timeWindow := Smaller(acc.timeWindowSeconds, PositiveInt(m, "timeWindowSeconds"));
    var expires := Smaller(acc.expiresInSeconds, ExpiryAt(m));
    c := MergeLists(acc, ReadOnlyAt(m), StringsAt(m, "redact"), StringsAt(m, "allowedFields"));
    c := c.(maxRecords := maxRecords, timeWindowSeconds := timeWindow, expiresInSeconds := expires);
  }

  /** Replaces the value kept so far only by a strictly smaller one. */
  method Smaller(kept: Option<int>, v: Option<int>) returns (r: Option<int>)
    ensures r == MinOption(kept, v)
  {
    r := kept;
    if v.Some? && (r.None? || v.value < r.value) {
      r := v;
    }
  }

  method MergeLists(acc: Constraints, readOnly: Option<bool>, redact: Option<seq<string>>, allowed: Option<seq<string>>)
    returns (c: Constraints)
    ensures BoundOf(c) == Meet(BoundOf(acc),
              TOP.(readOnly := readOnly, fields := FieldSet(allowed),
                   redact := if redact.Some? then Elems(redact.value) else {}))
  {
    c := acc;
    if readOnly.Some? && readOnly.value {
      c := c.(readOnly := Some(true));
    } else if readOnly.Some? && c.readOnly.None? {
      c := c.(readOnly := Some(false));
    }
    if redact.Some? {
      var fields := UnionStrings(c.redactFields, redact.value);
      c := c.(redactFields := fields);
    }
    if allowed.Some? {
      c := NarrowFields(c, allowed.value);
    }
    assert Elems(c.redactFields) == Elems(acc.redactFields) + if redact.Some? then Elems(redact.value) else {};
    assert FieldSet(c.allowedFields) == Meet(BoundOf(acc), TOP.(fields := FieldSet(allowed))).fields;
  }

  /** The first field list is taken as it is; every later one is intersected. */
  method NarrowFields(acc: Constraints, fields: seq<string>) returns (c: Constraints)
    ensures FieldSet(c.allowedFields) == Meet(BoundOf(acc), TOP.(fields := Some(Elems(fields)))).fields
    ensures c == acc.(allowedFields := c.allowedFields)
  {
    var kept := fields;
    if acc.allowedFields.Some? {
      kept := IntersectStrings(acc.allowedFields.value, fields);
    }
    c := acc.(allowedFields := Some(kept));
  }

  /** validateConstraints: stops at the first entry the evaluator cannot enforce. */
  method ValidateConstraints(m: map<string, Value>) returns (ok: bool)
    ensures ok <==> ValidConstraints(m)
  {
    var todo := m.Keys;
    while todo != {}
      invariant todo <= m.Keys
      invariant forall k :: k in m && k !in todo ==> ValidEntry(k, m[k])
    {
      var key :| key in todo;
      if !ValidEntry(key, m[key]) { return false; }
      todo := todo - {key};
    }
    ok := true;
  }

  /** constraintsFromBackendMap: walks the map in whatever order it comes. */
  method ConstraintsFromBackendMap(m: map<string, Value>) returns (ok: bool, result: Option<Constraints>)
    ensures ok <==> ValidBackendMap(m)
    ensures ok ==> (result.None? <==> m == map[])
    ensures ok && result.Some? ==> BoundOf(result.value) == MeetAll(BackendBounds(m))
  {
    if m == map[] { return true, None; }
    var c := NO_CONSTRAINTS;
    var todo := m.Keys;
    ghost var done: map<string, Value> := map[];
    assert BoundOf(c) == TOP;
    while todo != {}
      invariant todo <= m.Keys
      invariant done == m - todo
      invariant ValidBackendMap(done)
      invariant BoundOf(c) == MeetAll(BackendBounds(done))
    {
      var key :| key in todo;
      if !BackendEntry(key, m[key]) { return false, None; }
      c := ApplyEntry(c, BackendField(key).value, m[key]);
      todo := todo - {key};
      BackendBoundsPut(done, key, m[key]);
      done := done[key := m[key]];
    }
    assert done == m;
    return true, Some(c);
  }

  lemma BackendBoundsPut(m: map<string, Value>, k: string, v: Value)
    requires ValidBackendMap(m) && k !in m && BackendEntry(k, v)
    ensures ValidBackendMap(m[k := v])
    ensures MeetAll(BackendBounds(m[k := v])) == Meet(MeetAll(BackendBounds(m)), FieldBound(BackendField(k).value, v))
  {
    var b := FieldBound(BackendField(k).value, v);
    assert BackendBounds(m[k := v]) == BackendBounds(m) + {b};
    MeetAllAdd(BackendBounds(m), b);
  }

  /** One case of constraintsFromBackendMap's switch. */
  method ApplyEntry(acc: Constraints, field: Field, v: Value) returns (c: Constraints)
    requires WellTyped(field, v)
    ensures BoundOf(c) == Meet(BoundOf(acc), FieldBound(field, v))
  {
    c := acc;
    match field
    case Records =>
      if c.maxRecords.None? || ToInt(v) < c.maxRecords.value {
        c := c.(maxRecords := Some(ToInt(v)));
      }
    case ReadOnly =>
      if v.b {
        c := c.(readOnly := Some(true));
      } else if c.readOnly.None? {
        c := c.(readOnly := Some(false));
      }
    case Redact =>
      var fields := UnionStrings(c.redactFields, ToStrings(v).value);
      c := c.(redactFields := fields);
    case Window =>
      if c.timeWindowSeconds.None? || ToInt(v) < c.timeWindowSeconds.value {
        c := c.(timeWindowSeconds := Some(ToInt(v)));
      }
    case Fields =>
      c := NarrowFields(c, ToStrings(v).value);
      assert BoundOf(acc).redact + {} == BoundOf(acc).redact;
    case ExpiresIn =>
      var seconds := ParseDurationSeconds(v.s);
      if c.expiresInSeconds.None? || seconds < c.expiresInSeconds.value {
        c := c.(expiresInSeconds := Some(seconds));
      }
    case ExpiresSeconds =>
      if c.expiresInSeconds.None? || ToInt(v) < c.expiresInSeconds.value {
        c := c.(expiresInSeconds := Some(ToInt(v)));
      }
  }

  // ----- obligations

  predicate ValidObligation(key: string, v: Value) {
    if key == "audit" || key == "logFullRequest" then v.Bool?
    else key == "notify" && ToStrings(v).Some? && ToStrings(v).value != []
  }

  predicate ValidObligations(m: map<string, Value>) {
    forall k :: k in m ==> ValidObligation(k, m[k])
  }

  predicate Asks(r: Matched, key: string) {
    key in r.rule.obligations && r.rule.obligations[key] == Bool(true)
  }

  ghost predicate Notifies(r: Matched, who: string) {
    "notify" in r.rule.obligations && IsListing(r.rule.obligations["notify"]) && In(r.rule.obligations["notify"], who)
  }

  /** What the merged obligations of some rules are, with the notify list as a set. */
  ghost predicate ObligationsOf(matches: seq<Matched>, o: Option<Obligations>) {
    && (o.None? <==> forall r :: r in matches ==> r.rule.obligations == map[])
    && (o.Some? ==> Gathers(matches, o.value))
  }

  ghost predicate HasEntry(m: map<string, Value>, key: string, v: Value) { key in m && m[key] == v }

  ghost predicate Gathers(matches: seq<Matched>, o: Obligations) {
    && (o.audit <==> exists r :: r in matches && HasEntry(r.rule.obligations, "audit", Bool(true)))
    && (o.logFullRequest <==> exists r :: r in matches && HasEntry(r.rule.obligations, "logFullRequest", Bool(true)))
    && (forall who :: who in o.notify <==> exists r :: r in matches && Notifies(r, who))
  }

  /** mergeObligations: flags are or-ed, notify lists unioned. */
  method MergeObligations(matches: seq<Matched>) returns (merged: Option<Obligations>)
    ensures ObligationsOf(matches, merged)
  {
    var hasObligations := false;
    var o := Obligations(false, false, []);
    for i := 0 to |matches|
      invariant hasObligations <==> exists r :: r in matches[..i] && r.rule.obligations != map[]
      invariant Gathers(matches[..i], o)
    {
      var r := matches[i];
      assert matches[..i + 1] == matches[..i] + [r];
      ghost var before := o;
      if r.rule.obligations != map[] {
        hasObligations := true;
        o := AddObligations(o, r);
      }
      GathersSnoc(matches[..i], before, r, o);
    }
    assert matches[..|matches|] == matches;
    merged := if hasObligations then Some(o) else None;
  }

  ghost predicate Adds(before: Obligations, r: Matched, after: Obligations) {
    && (after.audit <==> before.audit || HasEntry(r.rule.obligations, "audit", Bool(true)))
    && (after.logFullRequest <==> before.logFullRequest || HasEntry(r.rule.obligations, "logFullRequest", Bool(true)))
    && (forall who :: who in after.notify <==> who in before.notify || Notifies(r, who))
  }

  lemma GathersSnoc(init: seq<Matched>, before: Obligations, r: Matched, after: Obligations)
    requires Gathers(init, before) && Adds(before, r, after)
    ensures Gathers(init + [r], after)
  {
    assert forall x :: x in init + [r] <==> x in init || x == r;
  }

  /** The body of mergeObligations' loop. */
  method AddObligations(before: Obligations, r: Matched) returns (o: Obligations)
    ensures Adds(before, r, o)
  {
    o := before;
    if Asks(r, "audit") {
      o := o.(audit := true);
    }
    if Asks(r, "logFullRequest") {
      o := o.(logFullRequest := true);
    }
    if StringsAt(r.rule.obligations, "notify").Some? {
      var added := StringsAt(r.rule.obligations, "notify").value;
      ToStringsIs(r.rule.obligations["notify"]);
      var notify := UnionStrings(before.notify, added);
      assert forall who :: who in notify <==> who in Elems(notify);
      assert forall who :: who in notify <==> who in before.notify || who in added;
      o := o.(notify := notify);
    } else if "notify" in r.rule.obligations {
      ToStringsIs(r.rule.obligations["notify"]);
    }
  }

  /** validateObligations: stops at the first entry that cannot be honoured. */
  method ValidateObligations(m: map<string, Value>) returns (ok: bool)
    ensures ok <==> ValidObligations(m)
  {
    var todo := m.Keys;
    while todo != {}
      invariant todo <= m.Keys
      invariant forall k :: k in m && k !in todo ==> ValidObligation(k, m[k])
    {
      var key :| key in todo;
      if !ValidObligation(key, m[key]) { return false; }
      todo := todo - {key};
    }
    ok := true;
  }
}
