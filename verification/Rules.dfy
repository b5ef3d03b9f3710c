/** Rule matching: which rules of the policies apply to a request, and what each one says. */
module Rules {
  import opened Model
  import opened Text
  import opened ConstraintAlgebra

  // ----- actions and resources

  /** A capability or action pattern covers a name exactly, as "*", or as "prefix.*". */
  predicate Covers(pattern: string, action: string) {
    || pattern == "*"
    || pattern == action
    || (HasSuffix(pattern, ".*") && HasPrefix(action, pattern[..|pattern| - 2] + "."))
  }

  predicate AnyCovers(patterns: seq<string>, action: string) {
    exists p :: p in patterns && Covers(p, action)
  }

  function ClassificationRank(c: string): int {
    if c == "public" then 0
    else if c == "internal" then 1
    else if c == "confidential" then 2
    else if c == "restricted" then 3
    else -1
  }

  function AuthStrengthRank(s: string): int {
    if s == "" || s == "none" then 0
    else if s == "password" then 1
    else if s == "mfa" then 2
    else if s == "phishing_resistant_mfa" then 3
    else -1
  }

  function ContextString(req: Request, key: string): string {
    if key in req.context && req.context[key].Str? then req.context[key].s else ""
  }

  function RequestEnvironment(req: Request): string {
    if req.resource.Some? && req.resource.value.environment != "" then req.resource.value.environment
    else ContextString(req, "environment")
  }

  function RequestResourceOwner(req: Request): string {
    if req.resource.Some? && req.resource.value.owner != "" then req.resource.value.owner
    else ContextString(req, "resource_owner")
  }

  predicate KnownEnvironment(env: string) {
    env == "development" || env == "staging" || env == "production"
  }

  predicate ValidResources(selector: Option<Selector>) {
    selector.Some? ==>
      && (selector.value.classificationMax == "" || ClassificationRank(selector.value.classificationMax) >= 0)
      && forall e :: e in selector.value.environments ==> KnownEnvironment(e)
  }

  predicate ResourceMatches(selector: Option<Selector>, req: Request) {
    selector.Some? ==>
      var s := selector.value;
      && (s.types != [] ==> req.resource.Some? && req.resource.value.kind in s.types)
      && (s.classificationMax != "" ==>
            && req.resource.Some?
            && 0 <= ClassificationRank(req.resource.value.classification) <= ClassificationRank(s.classificationMax))
      && (s.environments != [] ==> RequestEnvironment(req) != "" && RequestEnvironment(req) in s.environments)
      && (s.owners != [] ==> RequestResourceOwner(req) != "" && RequestResourceOwner(req) in s.owners)
  }

  // ----- conditions

  /** The clock one evaluation sees, and the reading of HH:MM[:SS] strings as seconds of
      the day. */
  datatype Env = Env(secondOfDay: int, weekday: string, parseClock: string -> Option<int>)

  const WEEKDAYS := ["thu", "fri", "sat", "sun", "mon", "tue", "wed"]

  /** The UTC clock at a number of nanoseconds since the Unix epoch, a Thursday. */
  function EnvAt(now: int, parseClock: string -> Option<int>): Env {
    var seconds := Unix(now);
    Env(seconds % 86_400, WEEKDAYS[seconds / 86_400 % 7], parseClock)
  }

  const DAY: int := 24 * 60 * 60 * SECOND

  /** The clock shows hours, minutes and seconds of the day. */
  lemma ClockShows(now: int, day: int, hour: nat, minute: nat, second: nat, rest: nat, parse: string -> Option<int>)
    requires hour < 24 && minute < 60 && second < 60 && rest < 1_000_000_000
    requires now == day * DAY + ((hour * 60 + minute) * 60 + second) * 1_000_000_000 + rest
    ensures EnvAt(now, parse).secondOfDay == hour * 3600 + minute * 60 + second
    ensures EnvAt(now, parse).weekday == EnvAt(day * DAY, parse).weekday
    ensures EnvAt(now, parse).parseClock == parse
  {
    WholeSeconds(now, day, (hour * 60 + minute) * 60 + second, rest);
    WholeSeconds(day * DAY, day, 0, 0);
  }

  predicate Follows(day: string, next: string) {
    || (day == "mon" && next == "tue") || (day == "tue" && next == "wed") || (day == "wed" && next == "thu")
    || (day == "thu" && next == "fri") || (day == "fri" && next == "sat") || (day == "sat" && next == "sun")
    || (day == "sun" && next == "mon")
  }

  /** The epoch was a Thursday, and day follows day. */
  lemma DaysFollow(day: int, parse: string -> Option<int>)
    ensures EnvAt(0, parse).weekday == "thu"
    ensures Follows(EnvAt(day * DAY, parse).weekday, EnvAt((day + 1) * DAY, parse).weekday)
  {
    WholeSeconds(0, 0, 0, 0);
    WholeSeconds(day * DAY, day, 0, 0);
    WholeSeconds((day + 1) * DAY, day + 1, 0, 0);
    NextInWeek(day % 7);
    assert (day + 1) % 7 == (day % 7 + 1) % 7;
  }

  lemma NextInWeek(i: int)
    requires 0 <= i < 7
    ensures Follows(WEEKDAYS[i], WEEKDAYS[(i + 1) % 7])
  {
  }

  lemma WholeSeconds(now: int, day: int, ofDay: nat, rest: nat)
    requires ofDay < 86_400 && rest < 1_000_000_000 && now == day * DAY + ofDay * 1_000_000_000 + rest
    ensures Unix(now) == day * 86_400 + ofDay
    ensures Unix(now) % 86_400 == ofDay && Unix(now) / 86_400 == day
  {
  }

  datatype Verdict = Met | Unmet | Malformed

  /** One key of a timeWindow object. */
  function WindowVerdict(key: string, raw: Value, env: Env): Verdict {
    if key == "after" || key == "before" then
      if !raw.Str? then Malformed
      else match env.parseClock(raw.s)
        case None => Malformed
        case Some(target) =>
          if (if key == "after" then env.secondOfDay < target else env.secondOfDay > target) then Unmet else Met
    else if key == "daysOfWeek" then
      match ToStrings(raw)
      case None => Malformed
      case Some(days) => if env.weekday in days then Met else Unmet
    else Malformed
  }

  /** timeWindowMatches, its range loop walking the keys in the given order: the first key
      that is unmet or malformed ends it. */
  function WindowScan(order: seq<string>, fields: map<string, Value>, env: Env): Verdict {
    if order == [] then Met
    else
      var v := if order[0] in fields then WindowVerdict(order[0], fields[order[0]], env) else Met;
      if v != Met then v else WindowScan(order[1..], fields, env)
  }

  function WantString(v: Value, met: string -> bool): Verdict {
    if !v.Str? || v.s == "" then Malformed else if met(v.s) then Met else Unmet
  }

  /** One key of a rule's conditions. */
  function ConditionVerdict(key: string, v: Value, req: Request, env: Env, windowOrder: seq<string>): Verdict {
    if key == "actorRequired" then
      if !v.Bool? then Malformed else if v.b && req.actor.None? then Unmet else Met
    else if key == "actorType" then
      WantString(v, expected => req.actor.Some? && req.actor.value.kind == expected)
    else if key == "actorId" then
      WantString(v, expected => req.actor.Some? && req.actor.value.id == expected)
    else if key == "actorGroups" then
      match ToStrings(v)
      case None => Malformed
      case Some(groups) =>
        if groups == [] then Malformed
        else if req.actor.Some? && exists g :: g in req.actor.value.groups && g in groups then Met else Unmet
    else if key == "environment" then
      WantString(v, expected => RequestEnvironment(req) == expected)
    else if key == "minAuthStrength" then
      if v.Str? && v.s != "" && AuthStrengthRank(v.s) < 0 then Malformed
      else WantString(v, expected =>
        req.actor.Some? && AuthStrengthRank(req.actor.value.authStrength) >= AuthStrengthRank(expected))
    else if key == "timeWindow" then
      if !v.Object? then Malformed else WindowScan(windowOrder, v.fields, env)
    else if key == "delegationRequired" then
      if !v.Bool? then Malformed else if v.b && "delegation_id" !in req.context then Unmet else Met
    else Malformed
  }

  /** The orders in which one evaluation of one rule walks its two maps. */
  datatype KeyOrder = KeyOrder(conditions: seq<string>, window: seq<string>)

  ghost predicate IsKeyOrder(order: KeyOrder, rule: Rule) {
    && IsOrderOf(order.conditions, rule.conditions.Keys)
    && (HasWindow(rule) ==> IsOrderOf(order.window, WindowOf(rule).Keys))
  }

  predicate HasWindow(rule: Rule) {
    "timeWindow" in rule.conditions && rule.conditions["timeWindow"].Object?
  }

  function WindowOf(rule: Rule): map<string, Value>
    requires HasWindow(rule)
  {
    rule.conditions["timeWindow"].fields
  }

  /** conditionsMet: the first condition in the order that is unmet or malformed ends it. */
  function ConditionScan(keys: seq<string>, rule: Rule, req: Request, env: Env, window: seq<string>): Verdict {
    if keys == [] then Met
    else
      var v := if keys[0] in rule.conditions
               then ConditionVerdict(keys[0], rule.conditions[keys[0]], req, env, window) else Met;
      if v != Met then v else ConditionScan(keys[1..], rule, req, env, window)
  }

  // ----- conditions, independently of any order

  ghost predicate WindowHas(fields: map<string, Value>, env: Env, v: Verdict) {
    exists k :: k in fields && WindowVerdict(k, fields[k], env) == v
  }

  /** Whether some order makes this one condition come out as v, which is not Met. */
  ghost predicate ConditionCan(key: string, val: Value, req: Request, env: Env, v: Verdict) {
    if key == "timeWindow" && val.Object? then WindowHas(val.fields, env, v)
    else ConditionVerdict(key, val, req, env, []) == v
  }

  /** Some condition of the rule can come out as v. */
  ghost predicate RuleCan(rule: Rule, req: Request, env: Env, v: Verdict) {
    exists k :: k in rule.conditions && ConditionCan(k, rule.conditions[k], req, env, v)
  }

  lemma {:induction false} WindowScanSound(order: seq<string>, fields: map<string, Value>, env: Env)
    ensures var v := WindowScan(order, fields, env);
            if v == Met
            then forall k :: k in order && k in fields ==> WindowVerdict(k, fields[k], env) == Met
            else WindowHas(fields, env, v)
  {
    if order != [] {
      WindowScanSound(order[1..], fields, env);
      assert order == [order[0]] + order[1..];
    }
  }

  /** Once its window is walked in full, a condition yields v only if it can. */
  lemma ConditionVerdictSound(key: string, rule: Rule, req: Request, env: Env, order: KeyOrder)
    requires key in rule.conditions && IsKeyOrder(order, rule)
    ensures var v := ConditionVerdict(key, rule.conditions[key], req, env, order.window);
            if v == Met
            then !ConditionCan(key, rule.conditions[key], req, env, Unmet)
                 && !ConditionCan(key, rule.conditions[key], req, env, Malformed)
            else ConditionCan(key, rule.conditions[key], req, env, v)
  {
    if key == "timeWindow" && HasWindow(rule) {
      WindowScanSound(order.window, WindowOf(rule), env);
      forall k | k in WindowOf(rule)
        ensures k in order.window
      {
        assert k in Elems(order.window);
      }
    }
  }

  lemma {:induction false} ConditionScanSound(keys: seq<string>, rule: Rule, req: Request, env: Env, order: KeyOrder)
    requires IsKeyOrder(order, rule)
    requires forall k :: k in keys ==> k in rule.conditions
    ensures var v := ConditionScan(keys, rule, req, env, order.window);
            if v == Met
            then forall k :: k in keys ==>
                   && !ConditionCan(k, rule.conditions[k], req, env, Unmet)
                   && !ConditionCan(k, rule.conditions[k], req, env, Malformed)
            else exists k :: k in keys && ConditionCan(k, rule.conditions[k], req, env, v)
  {
    if keys != [] {
      ConditionVerdictSound(keys[0], rule, req, env, order);
      ConditionScanSound(keys[1..], rule, req, env, order);
      assert keys == [keys[0]] + keys[1..];
    }
  }

  /** conditionsMet over a full walk: met exactly when no condition can fail, and otherwise
      a failure some condition can produce. */
  lemma ConditionsSound(rule: Rule, req: Request, env: Env, order: KeyOrder)
    requires IsKeyOrder(order, rule)
    ensures var v := ConditionScan(order.conditions, rule, req, env, order.window);
            if v == Met then !RuleCan(rule, req, env, Unmet) && !RuleCan(rule, req, env, Malformed)
            else RuleCan(rule, req, env, v)
  {
    forall k
      ensures k in order.conditions <==> k in rule.conditions
    {
      assert k in order.conditions <==> k in Elems(order.conditions);
    }
    ConditionScanSound(order.conditions, rule, req, env, order);
  }

  /** Every failure some condition can produce is what conditionsMet returns for some walk:
      the answer of a rule with both kinds of failure depends on Go's map order. */
  lemma ConditionsComplete(rule: Rule, req: Request, env: Env, v: Verdict) returns (order: KeyOrder)
    requires v != Met && RuleCan(rule, req, env, v)
    ensures IsKeyOrder(order, rule)
    ensures ConditionScan(order.conditions, rule, req, env, order.window) == v
  {
    var k :| k in rule.conditions && ConditionCan(k, rule.conditions[k], req, env, v);
    var conditions := OrderStartingWith(rule.conditions.Keys, k);
    var window := WindowOrder(k, rule, req, env, v);
    order := KeyOrder(conditions, window);
  }

  /** A walk of the rule's window, if any, under which the condition comes out as it can. */
  lemma WindowOrder(k: string, rule: Rule, req: Request, env: Env, v: Verdict) returns (window: seq<string>)
    requires v != Met && k in rule.conditions && ConditionCan(k, rule.conditions[k], req, env, v)
    ensures HasWindow(rule) ==> IsOrderOf(window, WindowOf(rule).Keys)
    ensures ConditionVerdict(k, rule.conditions[k], req, env, window) == v
  {
    if !HasWindow(rule) {
      window := [];
    } else if k == "timeWindow" {
      var w :| w in WindowOf(rule) && WindowVerdict(w, WindowOf(rule)[w], env) == v;
      window := OrderStartingWith(WindowOf(rule).Keys, w);
    } else {
      window := SomeOrder(WindowOf(rule).Keys);
    }
  }

  // ----- what patterns, levels and windows mean

  /** A pattern covers a name exactly when it is "*", the name itself, or "p.*" for a name
      that starts with "p.". */
  lemma CoversIff(pattern: string, action: string)
    ensures Covers(pattern, action)
            <==> || pattern == "*" || pattern == action
                 || exists prefix, rest :: pattern == prefix + ".*" && action == prefix + "." + rest
  {
    if HasSuffix(pattern, ".*") && HasPrefix(action, pattern[..|pattern| - 2] + ".") {
      var prefix := pattern[..|pattern| - 2];
      assert pattern == prefix + ".*" && action == prefix + "." + action[|prefix| + 1..];
    }
    if prefix, rest :| pattern == prefix + ".*" && action == prefix + "." + rest {
      assert pattern[..|pattern| - 2] == prefix;
    }
  }

  const CLASSIFICATIONS := ["public", "internal", "confidential", "restricted"]

  /** A classification is accepted under a maximum exactly when both are known and it comes
      no later in the list. */
  lemma ClassificationIsBelow(c: string, max: string)
    ensures 0 <= ClassificationRank(c) <= ClassificationRank(max)
            <==> exists i, j :: 0 <= i <= j < |CLASSIFICATIONS| && CLASSIFICATIONS[i] == c && CLASSIFICATIONS[j] == max
  {
    var r, q := ClassificationRank(c), ClassificationRank(max);
    assert r >= 0 ==> CLASSIFICATIONS[r] == c;
    assert q >= 0 ==> CLASSIFICATIONS[q] == max;
  }

  /** Inside the window: every key is an after not past the time of day, a before not passed
      by it, or a list of days with today's. */
  ghost predicate InWindow(fields: map<string, Value>, env: Env) {
    forall k :: k in fields ==> KeyHolds(k, fields[k], env)
  }

  ghost predicate KeyHolds(key: string, raw: Value, env: Env) {
    || (key == "after" && raw.Str? && exists t :: env.parseClock(raw.s) == Some(t) && t <= env.secondOfDay)
    || (key == "before" && raw.Str? && exists t :: env.parseClock(raw.s) == Some(t) && env.secondOfDay <= t)
    || (key == "daysOfWeek" && IsListing(raw) && In(raw, env.weekday))
  }

  lemma KeyHoldsIff(key: string, raw: Value, env: Env)
    ensures WindowVerdict(key, raw, env) == Met <==> KeyHolds(key, raw, env)
  {
    ToStringsIs(raw);
    if raw.Str? && env.parseClock(raw.s).Some? {
      var t := env.parseClock(raw.s).value;
      assert env.parseClock(raw.s) == Some(t);
    }
  }

  /** However the loop walks the window's keys, it is met exactly inside the window. */
  lemma WindowIsInterval(order: seq<string>, fields: map<string, Value>, env: Env)
    requires IsOrderOf(order, fields.Keys)
    ensures WindowScan(order, fields, env) == Met <==> InWindow(fields, env)
  {
    WindowScanSound(order, fields, env);
    forall k | k in fields
      ensures k in order
      ensures WindowVerdict(k, fields[k], env) == Met <==> KeyHolds(k, fields[k], env)
    {
      assert k in Elems(order);
      KeyHoldsIff(k, fields[k], env);
    }
  }

  // ----- one rule against one request

  datatype Outcome = Skip | Fault | Match

  /** What evaluateRules does with one rule. */
  function RuleOutcome(rule: Rule, req: Request, env: Env, order: KeyOrder): Outcome {
    if !AnyCovers(rule.actions, req.action) then Skip
    else if !ValidResources(rule.resources) then Fault
    else if !ResourceMatches(rule.resources, req) then Skip
    else match ConditionScan(order.conditions, rule, req, env, order.window)
      case Malformed => Fault
      case Unmet => Skip
      case Met => if ValidConstraints(rule.constraints) && ValidObligations(rule.obligations) then Match else Fault
  }

  /** The order-free classification. Wavering rules have an unmet and a malformed condition,
      so they are skipped or fail the evaluation depending on map order. */
  datatype RuleClass = Skipped | Broken | Wavering | Live

  ghost function Classify(rule: Rule, req: Request, env: Env): RuleClass {
    if !AnyCovers(rule.actions, req.action) then Skipped
    else if !ValidResources(rule.resources) then Broken
    else if !ResourceMatches(rule.resources, req) then Skipped
    else if RuleCan(rule, req, env, Malformed) then
      if RuleCan(rule, req, env, Unmet) then Wavering else Broken
    else if RuleCan(rule, req, env, Unmet) then Skipped
    else if ValidConstraints(rule.constraints) && ValidObligations(rule.obligations) then Live
    else Broken
  }

  ghost predicate OutcomeFits(outcome: Outcome, c: RuleClass) {
    match c
    case Skipped => outcome == Skip
    case Broken => outcome == Fault
    case Wavering => outcome == Skip || outcome == Fault
    case Live => outcome == Match
  }

  lemma OutcomeSound(rule: Rule, req: Request, env: Env, order: KeyOrder)
    requires IsKeyOrder(order, rule)
    ensures OutcomeFits(RuleOutcome(rule, req, env, order), Classify(rule, req, env))
  {
    ConditionsSound(rule, req, env, order);
  }

  /** Every outcome that fits the class happens for some walk. */
  lemma OutcomeComplete(rule: Rule, req: Request, env: Env, outcome: Outcome) returns (order: KeyOrder)
    requires OutcomeFits(outcome, Classify(rule, req, env))
    ensures IsKeyOrder(order, rule) && RuleOutcome(rule, req, env, order) == outcome
  {
    if Classify(rule, req, env) == Wavering {
      order := ConditionsComplete(rule, req, env, if outcome == Skip then Unmet else Malformed);
    } else {
      var conditions := SomeOrder(rule.conditions.Keys);
      var window: seq<string> := [];
      if HasWindow(rule) { window := SomeOrder(WindowOf(rule).Keys); }
      order := KeyOrder(conditions, window);
      OutcomeSound(rule, req, env, order);
    }
  }

  // ----- the loops

  /** timeWindowMatches. */
  method TimeWindowMatches(fields: map<string, Value>, env: Env, order: seq<string>) returns (v: Verdict)
    requires IsOrderOf(order, fields.Keys)
    ensures v == WindowScan(order, fields, env)
  {
    for i := 0 to |order|
      invariant WindowScan(order, fields, env) == WindowScan(order[i..], fields, env)
    {
      assert order[i] in Elems(order);
      assert order[i..][1..] == order[i + 1..];
      v := WindowVerdict(order[i], fields[order[i]], env);
      if v != Met { return; }
    }
    v := Met;
  }

  /** conditionsMet. */
  method ConditionsMet(rule: Rule, req: Request, env: Env, order: KeyOrder) returns (v: Verdict)
    requires IsKeyOrder(order, rule)
    ensures v == ConditionScan(order.conditions, rule, req, env, order.window)
  {
    var keys := order.conditions;
    for i := 0 to |keys|
      invariant ConditionScan(keys, rule, req, env, order.window)
                == ConditionScan(keys[i..], rule, req, env, order.window)
    {
      assert keys[i] in Elems(keys);
      assert keys[i..][1..] == keys[i + 1..];
      if keys[i] == "timeWindow" && rule.conditions[keys[i]].Object? {
        v := TimeWindowMatches(rule.conditions[keys[i]].fields, env, order.window);
      } else {
        v := ConditionVerdict(keys[i], rule.conditions[keys[i]], req, env, order.window);
      }
      if v != Met { return; }
    }
    v := Met;
  }
}
