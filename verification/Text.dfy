/** Strings and 64-bit integers as the engine's Go code uses them. */
module Text {
  import opened Model

  predicate HasPrefix(s: string, prefix: string) { prefix <= s }

  predicate HasSuffix(s: string, suffix: string) {
    |suffix| <= |s| && s[|s| - |suffix|..] == suffix
  }

  predicate IsDigit(c: char) { '0' <= c <= '9' }

  /** unicode.IsSpace, which strings.TrimSpace strips. */
  predicate IsSpace(c: char) {
    || c == ' ' || '\t' <= c <= '\r' || c == '\U{85}' || c == '\U{a0}' || c == '\U{1680}'
    || '\U{2000}' <= c <= '\U{200a}' || '\U{2028}' <= c <= '\U{2029}'
    || c == '\U{202f}' || c == '\U{205f}' || c == '\U{3000}'
  }

  function TrimLeft(s: string): string {
    if s != [] && IsSpace(s[0]) then TrimLeft(s[1..]) else s
  }

  function TrimRight(s: string): string {
    if s != [] && IsSpace(s[|s| - 1]) then TrimRight(s[..|s| - 1]) else s
  }

  function TrimSpace(s: string): string { TrimRight(TrimLeft(s)) }

  /** The value of a non-empty run of decimal digits. */
  function DigitsValue(s: string): Option<nat> {
    if s == [] || !IsDigit(s[|s| - 1]) then None
    else
      var d := s[|s| - 1] as int - '0' as int;
      if |s| == 1 then Some(d)
      else match DigitsValue(s[..|s| - 1])
        case Some(v) => Some(10 * v + d)
        case None => None
  }

  /** strconv.Atoi: an optional sign, decimal digits, and a value that fits 64 bits. */
  function Atoi(s: string): Option<int64> {
    var signed := s != [] && (s[0] == '-' || s[0] == '+');
    match DigitsValue(if signed then s[1..] else s)
    case None => None
    case Some(v) =>
      var n := if signed && s[0] == '-' then -(v as int) else v as int;
      if InInt64(n) then Some(n) else None
  }

  /** parseDurationSeconds: "90s", "15m" or "24h" to seconds, 0 when unparseable. The
      products are 64-bit and wrap. */
  function ParseDurationSeconds(raw: string): int64 {
    var s := TrimSpace(raw);
    if s == [] then 0 else ParseTrimmed(s[..|s| - 1], UnitSeconds(s[|s| - 1]))
  }

  function ParseTrimmed(count: string, unit: nat): int64 {
    if unit == 0 then 0
    else match Atoi(count)
      case Some(n) => Wrap64(n * unit)
      case None => 0
  }

  /** The seconds in one unit, 0 for a character that names no unit. */
  function UnitSeconds(c: char): nat {
    if c == 's' then 1 else if c == 'm' then 60 else if c == 'h' then 3600 else 0
  }

  /** The usual decimal rendering of a natural number. */
  function Decimal(n: nat): string {
    if n < 10 then [(n + '0' as int) as char]
    else Decimal(n / 10) + [(n % 10 + '0' as int) as char]
  }

  lemma {:induction false} DecimalHasValue(n: nat)
    ensures DigitsValue(Decimal(n)) == Some(n)
  {
    if n >= 10 {
      DecimalHasValue(n / 10);
      assert Decimal(n)[..|Decimal(n)| - 1] == Decimal(n / 10);
      assert Decimal(n / 10) != [];
    }
  }

  lemma {:induction false} DigitsAreDigits(s: string)
    requires DigitsValue(s).Some?
    ensures forall c :: c in s ==> IsDigit(c)
  {
    if |s| > 1 {
      DigitsAreDigits(s[..|s| - 1]);
      assert s == s[..|s| - 1] + [s[|s| - 1]];
    }
  }

  lemma AtoiOfDigits(digits: string, n: nat)
    requires DigitsValue(digits) == Some(n)
    ensures Atoi(digits) == if n <= MAX_INT64 then Some(n) else None
  {
    DigitsAreDigits(digits);
    assert digits[0] in digits;
  }

  /** For digits of value n and a unit s, m or h, with any white space around: the parse is
      exactly n units when and only when that many seconds fit 64 bits; a count that does not
      fit reads as 0, and a product that does not wraps. It never comes out as more. */
  lemma DurationIsExact(digits: string, unit: char, n: nat, before: string, after: string)
    requires DigitsValue(digits) == Some(n)
    requires UnitSeconds(unit) != 0
    requires forall c :: c in before + after ==> IsSpace(c)
    ensures var text := before + digits + [unit] + after;
            && ParseDurationSeconds(text) == (if n <= MAX_INT64 then Wrap64(n * UnitSeconds(unit)) else 0)
            && (ParseDurationSeconds(text) == n * UnitSeconds(unit) <==> n * UnitSeconds(unit) <= MAX_INT64)
            && ParseDurationSeconds(text) <= n * UnitSeconds(unit)
  {
    var core := digits + [unit];
    TrimSpaceFinds(before, core, after) by {
      DigitsAreDigits(digits);
      assert digits[0] in digits;
    }
    assert before + digits + [unit] + after == before + core + after;
    assert core[..|core| - 1] == digits;
    AtoiOfDigits(digits, n);
    WrapIsIdentityIff(n * UnitSeconds(unit));
    assert n <= n * UnitSeconds(unit);
    WrapNeverGrows(n * UnitSeconds(unit));
  }

  lemma TrimSpaceFinds(before: string, core: string, after: string)
    requires forall c :: c in before + after ==> IsSpace(c)
    requires core != [] && !IsSpace(core[0]) && !IsSpace(core[|core| - 1])
    ensures TrimSpace(before + core + after) == core
  {
    assert before + core + after == before + (core + after);
    TrimLeftDrops(before, core + after);
    TrimRightDrops(core, after);
  }

  lemma {:induction false} TrimLeftDrops(space: string, s: string)
    requires forall c :: c in space ==> IsSpace(c)
    requires s != [] && !IsSpace(s[0])
    ensures TrimLeft(space + s) == s
  {
    if space == [] {
      assert space + s == s;
    } else {
      assert (space + s)[1..] == space[1..] + s;
      TrimLeftDrops(space[1..], s);
    }
  }

  lemma {:induction false} TrimRightDrops(s: string, space: string)
    requires forall c :: c in space ==> IsSpace(c)
    requires s != [] && !IsSpace(s[|s| - 1])
    ensures TrimRight(s + space) == s
  {
    if space == [] {
      assert s + space == s;
    } else {
      assert (s + space)[..|s + space| - 1] == s + space[..|space| - 1];
      TrimRightDrops(s, space[..|space| - 1]);
    }
  }

  // ----- what a duration text says

  function Pow10(k: nat): nat { if k == 0 then 1 else 10 * Pow10(k - 1) }

  /** The number that decimal digits stand for, each by its place. */
  function Positional(s: string): int {
    if s == [] then 0 else (s[0] as int - '0' as int) * Pow10(|s| - 1) + Positional(s[1..])
  }

  lemma {:induction false} PositionalSnoc(s: string, c: char)
    ensures Positional(s + [c]) == 10 * Positional(s) + (c as int - '0' as int)
  {
    if s == [] {
      assert s + [c] == [c] && [c][1..] == [];
      assert Positional([c]) == (c as int - '0' as int) * Pow10(0) + Positional([]);
    } else {
      PositionalSnoc(s[1..], c);
      assert (s + [c])[1..] == s[1..] + [c];
      var d, p := s[0] as int - '0' as int, Pow10(|s| - 1);
      assert Pow10(|s|) == 10 * p && d * (10 * p) == 10 * (d * p);
    }
  }

  ghost predicate AllDigits(s: string) { s != [] && forall c :: c in s ==> '0' <= c <= '9' }

  lemma {:induction false} DigitsValueIs(s: string)
    ensures DigitsValue(s).Some? <==> AllDigits(s)
    ensures AllDigits(s) ==> DigitsValue(s).value == Positional(s)
  {
    if |s| == 1 {
      PositionalSnoc([], s[0]);
      assert s == [] + [s[0]] && s[0] in s;
    } else if |s| > 1 {
      var init, last := s[..|s| - 1], s[|s| - 1];
      assert s == init + [last];
      DigitsValueIs(init);
      PositionalSnoc(init, last);
      assert last in s && forall c :: c in init ==> c in s;
    }
  }

  /** A whole number as strconv.Atoi accepts it: digits, maybe signed, within 64 bits. */
  ghost predicate Written(s: string, n: int) {
    && MIN_INT64 <= n <= MAX_INT64
    && (|| (AllDigits(s) && n == Positional(s))
        || (s != [] && s[0] == '+' && AllDigits(s[1..]) && n == Positional(s[1..]))
        || (s != [] && s[0] == '-' && AllDigits(s[1..]) && n == -Positional(s[1..])))
  }

  lemma AtoiIs(s: string, n: int)
    ensures (Atoi(s).Some? && Atoi(s).value == n) <==> Written(s, n)
  {
    DigitsValueIs(s);
    if s != [] {
      assert s[0] in s;
      DigitsValueIs(s[1..]);
    }
  }

  /** The white space of Unicode. */
  const WHITE_SPACE := "\t\n\U{b}\U{c}\r \U{85}\U{a0}\U{1680}\U{2000}\U{2001}\U{2002}\U{2003}\U{2004}\U{2005}"
                       + "\U{2006}\U{2007}\U{2008}\U{2009}\U{200a}\U{2028}\U{2029}\U{202f}\U{205f}\U{3000}"

  lemma IsSpaceIs(c: char)
    ensures IsSpace(c) <==> c in WHITE_SPACE
  {
    if '\t' <= c <= '\r' {
      assert WHITE_SPACE[c as int - '\t' as int] == c;
    } else if '\U{2000}' <= c <= '\U{200a}' {
      assert WHITE_SPACE[9 + c as int - '\U{2000}' as int] == c;
    } else if IsSpace(c) {
      assert WHITE_SPACE[5] == ' ' && WHITE_SPACE[6] == '\U{85}' && WHITE_SPACE[7] == '\U{a0}';
      assert WHITE_SPACE[8] == '\U{1680}' && WHITE_SPACE[20] == '\U{2028}' && WHITE_SPACE[21] == '\U{2029}';
      assert WHITE_SPACE[22] == '\U{202f}' && WHITE_SPACE[23] == '\U{205f}' && WHITE_SPACE[24] == '\U{3000}';
    }
  }

  ghost predicate Spaces(s: string) { forall c :: c in s ==> c in WHITE_SPACE }

  lemma SpacesAre(s: string)
    ensures Spaces(s) <==> forall c :: c in s ==> IsSpace(c)
  {
    forall c
      ensures IsSpace(c) <==> c in WHITE_SPACE
    {
      IsSpaceIs(c);
    }
  }

  /** A written number and a unit: s for seconds, m for minutes, h for hours. */
  ghost predicate CountAndUnit(core: string, count: int, seconds: int) {
    && core != [] && Written(core[..|core| - 1], count)
    && ( || (core[|core| - 1] == 's' && seconds == Wrap64(count))
         || (core[|core| - 1] == 'm' && seconds == Wrap64(60 * count))
         || (core[|core| - 1] == 'h' && seconds == Wrap64(3600 * count)))
  }

  /** The text says this many seconds, white space around aside, up to 64-bit wrap-around. */
  ghost predicate Says(text: string, seconds: int) {
    exists before, core, after, count ::
      && text == before + core + after && Spaces(before) && Spaces(after)
      && CountAndUnit(core, count, seconds)
  }

  lemma {:induction false} TrimLeftSplits(s: string) returns (before: string)
    ensures s == before + TrimLeft(s) && forall c :: c in before ==> IsSpace(c)
    ensures TrimLeft(s) == [] || !IsSpace(TrimLeft(s)[0])
  {
    if s != [] && IsSpace(s[0]) {
      var rest := TrimLeftSplits(s[1..]);
      before := [s[0]] + rest;
      assert s == [s[0]] + s[1..];
    } else {
      before := "";
    }
  }

  lemma {:induction false} TrimRightSplits(s: string) returns (after: string)
    ensures s == TrimRight(s) + after && forall c :: c in after ==> IsSpace(c)
    decreases |s|
  {
    if s != [] && IsSpace(s[|s| - 1]) {
      var rest := TrimRightSplits(s[..|s| - 1]);
      after := rest + [s[|s| - 1]];
      assert s == s[..|s| - 1] + [s[|s| - 1]];
    } else {
      after := "";
    }
  }

  lemma CountIsNotSpace(core: string, count: int, seconds: int)
    requires CountAndUnit(core, count, seconds)
    ensures !IsSpace(core[0]) && !IsSpace(core[|core| - 1])
  {
    var digits := core[..|core| - 1];
    assert digits[0] == core[0] && digits[0] in digits;
  }

  lemma SaidIsRead(before: string, core: string, after: string, count: int, seconds: int)
    requires Spaces(before) && Spaces(after) && CountAndUnit(core, count, seconds)
    ensures ParseDurationSeconds(before + core + after) == seconds
  {
    CountIsNotSpace(core, count, seconds);
    SpacesAre(before);
    SpacesAre(after);
    TrimSpaceFinds(before, core, after);
    AtoiIs(core[..|core| - 1], count);
  }

  lemma ReadIsSaid(text: string)
    requires ParseDurationSeconds(text) > 0
    ensures Says(text, ParseDurationSeconds(text))
  {
    var before := TrimLeftSplits(text);
    var after := TrimRightSplits(TrimLeft(text));
    var core := TrimSpace(text);
    var count: int := Atoi(core[..|core| - 1]).value;
    AtoiIs(core[..|core| - 1], count);
    SpacesAre(before);
    SpacesAre(after);
    assert text == before + core + after;
    assert CountAndUnit(core, count, ParseDurationSeconds(text));
  }

  /** Exactly the texts that say a positive number of seconds are read, and as that number. */
  lemma DurationReads(text: string, seconds: int)
    requires seconds > 0
    ensures ParseDurationSeconds(text) == seconds <==> Says(text, seconds)
  {
    if Says(text, seconds) {
      var before, core, after, count :| text == before + core + after && Spaces(before) && Spaces(after)
                                        && CountAndUnit(core, count, seconds);
      SaidIsRead(before, core, after, count, seconds);
    }
    if ParseDurationSeconds(text) == seconds {
      ReadIsSaid(text);
    }
  }
}
