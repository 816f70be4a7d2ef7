/** `parse_duration` and `format_duration` of the bot's entry module: the mute
    length a moderator types ("30m", "2ч", "1 день") and its Russian rendering.
    A duration is a whole number of seconds. */
module Duration {
  import opened Wrappers
  import opened PyStr

  datatype TimeUnit = Minutes | Hours | Days | Weeks

  function UnitSeconds(u: TimeUnit): nat {
    match u
    case Minutes => 60
    case Hours => 3600
    case Days => 86400
    case Weeks => 604800
  }

  /** The suffix table, in the order the parser tries it: English first, then
      Russian. */
  const UNITS: seq<(string, TimeUnit)> := [
    ("m", Minutes), ("min", Minutes), ("mins", Minutes), ("minute", Minutes), ("minutes", Minutes),
    ("h", Hours), ("hr", Hours), ("hrs", Hours), ("hour", Hours), ("hours", Hours),
    ("d", Days), ("day", Days), ("days", Days),
    ("w", Weeks), ("wk", Weeks), ("wks", Weeks), ("week", Weeks), ("weeks", Weeks),
    ("мин", Minutes), ("минута", Minutes), ("минуты", Minutes), ("минут", Minutes),
    ("ч", Hours), ("час", Hours), ("часа", Hours), ("часов", Hours),
    ("д", Days), ("день", Days), ("дня", Days), ("дней", Days),
    ("н", Weeks), ("неделя", Weeks), ("недели", Weeks), ("недель", Weeks)
  ]

  /** The mute length used when no duration is given: five minutes. */
  const DEFAULT_MUTE_SECONDS: nat := 5 * 60

  /** A timedelta holds at most 999999999 days; building a longer one raises
      OverflowError. */
  const MAX_DAYS: nat := 999999999

  datatype DurationError =
    | InvalidDuration   // the ValueError the parser raises
    | Overflow          // the OverflowError of the timedelta constructor

  function Scaled(value: int, u: TimeUnit): (r: Result<nat, DurationError>)
    requires value > 0
    ensures r.Ok? ==> r.value > 0 && r.value % 60 == 0
  {
    var seconds := value * UnitSeconds(u);
    if seconds / 86400 > MAX_DAYS then Err(Overflow) else Ok(seconds)
  }

  /** The text left of a matched suffix must be a positive integer. */
  function ParseAmount(prefix: string, u: TimeUnit): (r: Result<nat, DurationError>)
    ensures r.Ok? ==> r.value > 0 && r.value % 60 == 0
  {
    match ParseInt(Strip(prefix))
    case None => Err(InvalidDuration)
    case Some(v) => if v <= 0 then Err(InvalidDuration) else Scaled(v, u)
  }

  /** No suffix matched: the whole text is a count of minutes. */
  function ParseBare(s: string): (r: Result<nat, DurationError>)
    ensures r.Ok? ==> r.value > 0 && r.value % 60 == 0
  {
    match ParseInt(s)
    case None => Err(InvalidDuration)
    case Some(v) => if v <= 0 then Err(InvalidDuration) else Scaled(v, Minutes)
  }

  /** The suffix loop: the first entry `s` ends with decides, whether or not
      the text before it is a number. */
  function MatchUnits(s: string, table: seq<(string, TimeUnit)>): (r: Result<nat, DurationError>)
    ensures r.Ok? ==> r.value > 0 && r.value % 60 == 0
  {
    if table == [] then ParseBare(s)
    else if EndsWith(s, table[0].0) then ParseAmount(s[..|s| - |table[0].0|], table[0].1)
    else MatchUnits(s, table[1..])
  }

  /** `parse_duration`; `None` is Python's None. The result, when there is
      one, is a positive whole number of minutes. */
  function ParseDuration(input: Option<string>): (r: Result<nat, DurationError>)
    ensures r.Ok? ==> r.value > 0 && r.value % 60 == 0
  {
    if input.None? || input.value == "" then Ok(DEFAULT_MUTE_SECONDS)
    else MatchUnits(Lower(Strip(input.value)), UNITS)
  }

  // ---------------------------------------------------------------------
  // The suffix table: its entries and their order

  predicate IsUnitLetter(c: char) {
    ('a' <= c <= 'z') || ('\U{430}' <= c <= '\U{44F}')
  }

  /** Every suffix is a non-empty run of lower-case letters. */
  lemma UnitsAreWords()
    ensures forall i :: 0 <= i < |UNITS| ==> |UNITS[i].0| > 0
    ensures forall i, k :: 0 <= i < |UNITS| && 0 <= k < |UNITS[i].0| ==> IsUnitLetter(UNITS[i].0[k])
  {
  }

  /** A cheap witness that `b` does not end `a`: `b` is longer, or one of its
      last three characters differs from the character of `a` it would meet. */
  predicate Unshadowed(a: string, b: string) {
    || |b| > |a|
    || (|b| >= 1 && a[|a| - 1] != b[|b| - 1])
    || (|b| >= 2 && a[|a| - 2] != b[|b| - 2])
    || (|b| >= 3 && a[|a| - 3] != b[|b| - 3])
  }

  lemma UnitsUnshadowedEnglish()
    ensures forall i, j :: 0 <= i < j < 18 ==> Unshadowed(UNITS[j].0, UNITS[i].0)
  {
  }

  lemma UnitsUnshadowedRussianMinutesHours()
    ensures forall i, j :: 0 <= i < j < |UNITS| && 18 <= j < 26 ==> Unshadowed(UNITS[j].0, UNITS[i].0)
  {
  }

  lemma UnitsUnshadowedRussianDays()
    ensures forall i, j :: 0 <= i < j < |UNITS| && 26 <= j < 30 ==> Unshadowed(UNITS[j].0, UNITS[i].0)
  {
  }

  lemma UnitsUnshadowedRussianWeeks()
    ensures forall i, j :: 0 <= i < j < |UNITS| && 30 <= j ==> Unshadowed(UNITS[j].0, UNITS[i].0)
  {
  }

  /** Suppose `b` is made of unit letters and does not shadow `a`. Then `b`
      does not end `p + a` when `p` ends in something other than a letter. */
  lemma UnshadowedAfter(p: string, a: string, b: string)
    requires Unshadowed(a, b)
    requires p != [] && !IsUnitLetter(p[|p| - 1])
    requires forall k :: 0 <= k < |b| ==> IsUnitLetter(b[k])
    ensures !EndsWith(p + a, b)
  {
    var s := p + a;
    EndsWithChars(s, b);
    if |b| > |a| {
      var k := |b| - |a| - 1;
      assert IsUnitLetter(b[k]);
      assert s[|s| - |b| + k] == p[|p| - 1];
    }
  }

  /** No entry of the table is shadowed by an earlier one: after a number (and
      an optional space) every suffix is matched by its own entry first. */
  lemma {:induction false} UnitsNoShadowing(p: string, i: nat)
    requires i < |UNITS|
    requires p != [] && !IsUnitLetter(p[|p| - 1])
    ensures forall j :: 0 <= j < i ==> !EndsWith(p + UNITS[i].0, UNITS[j].0)
  {
    UnitsAreWords();
    UnitsUnshadowedEnglish();
    UnitsUnshadowedRussianMinutesHours();
    UnitsUnshadowedRussianDays();
    UnitsUnshadowedRussianWeeks();
    forall j | 0 <= j < i ensures !EndsWith(p + UNITS[i].0, UNITS[j].0) {
      UnshadowedAfter(p, UNITS[i].0, UNITS[j].0);
    }
  }

  // ---------------------------------------------------------------------
  // The first-match search

  /** The first entry that `s` ends with decides the outcome; later entries
      are never consulted, even when the text before the match is not a
      number. */
  lemma {:induction false} MatchUnitsAt(s: string, table: seq<(string, TimeUnit)>, i: nat)
    requires i < |table| && EndsWith(s, table[i].0)
    requires forall j :: 0 <= j < i ==> !EndsWith(s, table[j].0)
    ensures MatchUnits(s, table) == ParseAmount(s[..|s| - |table[i].0|], table[i].1)
  {
    if i > 0 {
      assert !EndsWith(s, table[0].0);
      MatchUnitsAt(s, table[1..], i - 1);
    }
  }

  /** When no entry matches, the whole text is read as a count of minutes. */
  lemma {:induction false} MatchUnitsNone(s: string, table: seq<(string, TimeUnit)>)
    requires forall j :: 0 <= j < |table| ==> !EndsWith(s, table[j].0)
    ensures MatchUnits(s, table) == ParseBare(s)
  {
    if table != [] {
      assert !EndsWith(s, table[0].0);
      MatchUnitsNone(s, table[1..]);
    }
  }

  lemma UnitWordAt(i: nat)
    requires i < |UNITS|
    ensures UNITS[i].0 != [] && forall k :: 0 <= k < |UNITS[i].0| ==> IsUnitLetter(UNITS[i].0[k])
  {
    UnitsAreWords();
  }

  /** No suffix ends in the letter "у". */
  lemma UnitLastLetter(i: nat)
    requires i < |UNITS|
    ensures UNITS[i].0 != [] && UNITS[i].0[|UNITS[i].0| - 1] != '\U{443}'
  {
  }

  predicate AlreadyLower(s: string) {
    forall k :: 0 <= k < |s| ==> LowerChar(s[k]) == s[k]
  }

  lemma IntToStringIsLower(n: int)
    ensures AlreadyLower(IntToString(n))
  {
    var s := IntToString(n);
    if n < 0 {
      assert forall k :: 1 <= k < |s| ==> s[k] == NatToString(-n)[k - 1];
    }
  }

  lemma {:induction false} StripTrailingSpace(s: string)
    requires s != [] && !IsSpace(s[0]) && !IsSpace(s[|s| - 1])
    ensures Strip(s + " ") == s
  {
    var t := s + " ";
    assert TrimLeft(t) == t;
    assert t[..|t| - 1] == s;
    assert TrimRight(t) == TrimRight(s);
  }

  lemma AlreadyLowerConcat(a: string, b: string)
    requires AlreadyLower(a) && AlreadyLower(b)
    ensures AlreadyLower(a + b)
  {
    var s := a + b;
    forall k | 0 <= k < |s| ensures LowerChar(s[k]) == s[k] {
      if k < |a| { assert s[k] == a[k]; } else { assert s[k] == b[k - |a|]; }
    }
  }

  /** A number, an optional space and a table suffix: stripping and
      lower-casing leave the text as it is. */
  lemma NumberWithUnitIsNormal(n: int, gap: string, u: string)
    requires gap == "" || gap == " "
    requires u != [] && forall k :: 0 <= k < |u| ==> IsUnitLetter(u[k])
    ensures Lower(Strip(IntToString(n) + gap + u)) == IntToString(n) + gap + u
  {
    var d := IntToString(n);
    var p := d + gap;
    var s := p + u;
    assert s[0] == d[0] && s[|s| - 1] == u[|u| - 1];
    assert !IsSpace(s[0]) && !IsSpace(s[|s| - 1]);
    StripKeeps(s);
    IntToStringIsLower(n);
    assert AlreadyLower(gap);
    AlreadyLowerConcat(d, gap);
    assert AlreadyLower(u);
    AlreadyLowerConcat(p, u);
    LowerKeeps(s);
  }

  /** The text before the suffix is read back as the number. */
  lemma AmountOfNumber(n: int, gap: string, u: TimeUnit)
    requires gap == "" || gap == " "
    ensures ParseAmount(IntToString(n) + gap, u) == if n <= 0 then Err(InvalidDuration) else Scaled(n, u)
  {
    var d := IntToString(n);
    if gap == "" {
      assert d + gap == d;
      StripKeeps(d);
    } else {
      StripTrailingSpace(d);
    }
    assert Strip(d + gap) == d;
    ParseIntOfIntToString(n);
    assert ParseInt(Strip(d + gap)) == Some(n);
  }

  /** `n` followed by a table suffix, with `gap` (nothing or one space)
      between them, parses as `n` of that suffix's unit when `n` is positive,
      and is rejected otherwise. */
  lemma ParseNumberWithUnit(n: int, gap: string, i: nat)
    requires i < |UNITS| && (gap == "" || gap == " ")
    ensures ParseDuration(Some(IntToString(n) + gap + UNITS[i].0))
            == if n <= 0 then Err(InvalidDuration) else Scaled(n, UNITS[i].1)
  {
    var p := IntToString(n) + gap;
    var u := UNITS[i].0;
    var s := p + u;
    UnitWordAt(i);
    NumberWithUnitIsNormal(n, gap, u);
    NumberEndsOutsideUnits(n, gap);
    UnitsNoShadowing(p, i);
    SplitAtSuffix(p, u);
    ParseFirstMatch(s, i);
    AmountOfNumber(n, gap, UNITS[i].1);
  }

  lemma SplitAtSuffix(p: string, u: string)
    ensures EndsWith(p + u, u) && (p + u)[..|p + u| - |u|] == p
  {
    assert (p + u)[|p + u| - |u|..] == u;
  }

  /** A number followed by nothing or a space ends in a digit or a space,
      never in a letter a suffix could end with. */
  lemma NumberEndsOutsideUnits(n: int, gap: string)
    requires gap == "" || gap == " "
    ensures var p := IntToString(n) + gap; p != [] && !IsUnitLetter(p[|p| - 1])
  {
  }

  /** Text that stripping and lower-casing leave alone is decided by the
      first suffix it ends with. */
  lemma ParseFirstMatch(s: string, i: nat)
    requires i < |UNITS| && s != "" && Lower(Strip(s)) == s
    requires EndsWith(s, UNITS[i].0)
    requires forall j :: 0 <= j < i ==> !EndsWith(s, UNITS[j].0)
    ensures ParseDuration(Some(s)) == ParseAmount(s[..|s| - |UNITS[i].0|], UNITS[i].1)
  {
    MatchUnitsAt(s, UNITS, i);
  }

  lemma NoUnitEndsWithDigit(s: string)
    requires s != [] && IsDigit(s[|s| - 1])
    ensures forall j :: 0 <= j < |UNITS| ==> !EndsWith(s, UNITS[j].0)
  {
    forall j | 0 <= j < |UNITS| ensures !EndsWith(s, UNITS[j].0) {
      var u := UNITS[j].0;
      UnitWordAt(j);
      EndsWithChars(s, u);
      assert IsUnitLetter(u[|u| - 1]);
    }
  }

  /** A bare integer is a count of minutes; zero and negative counts are
      rejected. */
  lemma ParseBareNumber(n: int)
    ensures ParseDuration(Some(IntToString(n)))
            == if n <= 0 then Err(InvalidDuration) else Scaled(n, Minutes)
  {
    var s := IntToString(n);
    StripKeeps(s);
    IntToStringIsLower(n);
    LowerKeeps(s);
    NoUnitEndsWithDigit(s);
    ParseNormalBare(s);
    ParseIntOfIntToString(n);
    assert ParseBare(s) == if n <= 0 then Err(InvalidDuration) else Scaled(n, Minutes);
  }

  /** Text that stripping and lower-casing leave alone, and that no suffix
      ends, is read as a bare count of minutes. */
  lemma ParseNormalBare(s: string)
    requires s != "" && Lower(Strip(s)) == s
    requires forall j :: 0 <= j < |UNITS| ==> !EndsWith(s, UNITS[j].0)
    ensures ParseDuration(Some(s)) == ParseBare(s)
  {
    MatchUnitsNone(s, UNITS);
  }

  /** No text, or None, means the default five minutes; text made only of
      whitespace passes that test and is then rejected. */
  lemma ParseEmptyOrBlank(s: string)
    requires forall k :: 0 <= k < |s| ==> IsSpace(s[k])
    ensures ParseDuration(None) == Ok(DEFAULT_MUTE_SECONDS)
    ensures ParseDuration(Some(s)) == if s == "" then Ok(DEFAULT_MUTE_SECONDS) else Err(InvalidDuration)
  {
    if s != "" {
      StripAllSpace(s);
      assert Lower(Strip(s)) == "";
      UnitsAreWords();
      MatchUnitsNone("", UNITS);
      ParseIntAllSpace("");
    }
  }

  // ---------------------------------------------------------------------
  // format_duration

  /** The grammatical number a Russian count word takes. */
  datatype PluralForm = One | Few | Many

  /** The rule `format_duration` applies to seconds, minutes and hours: the
      singular only for exactly 1, the paucal for 2 to 4 and for counts above
      20 ending in 2, 3 or 4. */
  function ShortForm(n: int): PluralForm {
    if n == 1 then One
    else if 2 <= n <= 4 || (n > 20 && 2 <= n % 10 <= 4) then Few
    else Many
  }

  /** The rule it applies to days, which is the full Russian rule: the
      singular after a last digit 1 except 11, the paucal after a last digit
      2 to 4 except 12 to 14. */
  function DayForm(n: nat): PluralForm {
    if n % 10 == 1 && n % 100 != 11 then One
    else if 2 <= n % 10 <= 4 && (n % 100 < 10 || n % 100 >= 20) then Few
    else Many
  }

  datatype Span = SecondSpan | MinuteSpan | HourSpan | DaySpan

  function Word(span: Span, form: PluralForm): string {
    match (span, form)
    case (SecondSpan, One) => "секунду"
    case (SecondSpan, Few) => "секунды"
    case (SecondSpan, Many) => "секунд"
    case (MinuteSpan, One) => "минуту"
    case (MinuteSpan, Few) => "минуты"
    case (MinuteSpan, Many) => "минут"
    case (HourSpan, One) => "час"
    case (HourSpan, Few) => "часа"
    case (HourSpan, Many) => "часов"
    case (DaySpan, One) => "день"
    case (DaySpan, Few) => "дня"
    case (DaySpan, Many) => "дней"
  }

  /** The count and the word, separated by one space. */
  function Phrase(n: int, word: string): string {
    IntToString(n) + " " + word
  }

  /** `format_duration` of a whole number of seconds: the largest of seconds,
      minutes, hours or days that fits, counted by floor division. */
  function FormatDuration(total: int): string {
    if total < 60 then Phrase(total, Word(SecondSpan, ShortForm(total)))
    else if total < 3600 then
      var m := total / 60; Phrase(m, Word(MinuteSpan, ShortForm(m)))
    else if total < 86400 then
      var h := total / 3600; Phrase(h, Word(HourSpan, ShortForm(h)))
    else
      var d := total / 86400; Phrase(d, Word(DaySpan, DayForm(d)))
  }

  /** The unit `format_duration` counts a duration of `total` seconds in, for
      durations of a minute or more. */
  function SpanSeconds(total: int): nat {
    if total < 3600 then 60 else if total < 86400 then 3600 else 86400
  }

  /** Exactly one of each unit takes the singular. */
  lemma FormatSingulars()
    ensures FormatDuration(1) == "1 секунду"
    ensures FormatDuration(60) == "1 минуту"
    ensures FormatDuration(3600) == "1 час"
    ensures FormatDuration(86400) == "1 день"
  {
  }

  /** One second short of the next unit, the count is in the smaller unit. */
  lemma FormatBucketEdges()
    ensures FormatDuration(59) == "59 секунд"
    ensures FormatDuration(3599) == "59 минут"
    ensures FormatDuration(86399) == "23 часа"
  {
  }

  /** The short rule puts 21 minutes in the plural; the day rule puts 21
      days in the singular. */
  lemma FormatTwentyOne()
    ensures FormatDuration(21 * 60) == "21 минут"
    ensures FormatDuration(21 * 86400) == "21 день"
  {
  }

  /** Below 100 the rule for seconds, minutes and hours differs from the day
      rule exactly at 21, 31, ..., 91, which it puts in the plural where the
      full rule takes the singular. */
  lemma ShortFormVersusDayForm(n: nat)
    requires n < 100
    ensures ShortForm(n) != DayForm(n) <==> n > 20 && n % 10 == 1
    ensures ShortForm(n) != DayForm(n) ==> ShortForm(n) == Many && DayForm(n) == One
  {
  }

  /** `ParseNumberWithUnit` for a rendered phrase, the count and the word
      separated by one space. */
  lemma ParsePhrase(s: string, n: int, i: nat)
    requires i < |UNITS| && s == Phrase(n, UNITS[i].0)
    ensures ParseDuration(Some(s)) == if n <= 0 then Err(InvalidDuration) else Scaled(n, UNITS[i].1)
  {
    ParseNumberWithUnit(n, " ", i);
  }

  lemma FormatParseMinutes(total: int)
    requires 120 <= total < 3600
    ensures ParseDuration(Some(FormatDuration(total))) == Ok(total - total % 60)
  {
    var m := total / 60;
    assert Scaled(m, Minutes) == Ok(total - total % 60);
    if ShortForm(m) == Few {
      assert UNITS[20] == ("минуты", Minutes);
      ParsePhrase(FormatDuration(total), m, 20);
    } else {
      assert UNITS[21] == ("минут", Minutes);
      ParsePhrase(FormatDuration(total), m, 21);
    }
  }

  lemma FormatParseHours(total: int)
    requires 3600 <= total < 86400
    ensures ParseDuration(Some(FormatDuration(total))) == Ok(total - total % 3600)
  {
    var h := total / 3600;
    assert Scaled(h, Hours) == Ok(total - total % 3600);
    match ShortForm(h)
    case One =>
      assert UNITS[23] == ("час", Hours);
      ParsePhrase(FormatDuration(total), h, 23);
    case Few =>
      assert UNITS[24] == ("часа", Hours);
      ParsePhrase(FormatDuration(total), h, 24);
    case Many =>
      assert UNITS[25] == ("часов", Hours);
      ParsePhrase(FormatDuration(total), h, 25);
  }

  lemma FormatParseDays(total: int)
    requires total >= 86400
    ensures ParseDuration(Some(FormatDuration(total)))
            == if total / 86400 > MAX_DAYS then Err(Overflow) else Ok(total - total % 86400)
  {
    var d := total / 86400;
    assert Scaled(d, Days) == if d > MAX_DAYS then Err(Overflow) else Ok(total - total % 86400);
    match DayForm(d)
    case One =>
      assert UNITS[27] == ("день", Days);
      ParsePhrase(FormatDuration(total), d, 27);
    case Few =>
      assert UNITS[28] == ("дня", Days);
      ParsePhrase(FormatDuration(total), d, 28);
    case Many =>
      assert UNITS[29] == ("дней", Days);
      ParsePhrase(FormatDuration(total), d, 29);
  }

  /** A duration cut down to whole units of the bucket `format_duration`
      counts it in; days beyond what a timedelta holds overflow. */
  function Truncated(total: int): Result<nat, DurationError>
    requires total >= 60
  {
    if total / 86400 > MAX_DAYS then Err(Overflow) else Ok(total - total % SpanSeconds(total))
  }

  /** The rendering of a duration of two minutes or more parses back to the
      duration truncated to its bucket. */
  lemma FormatParseRoundTrip(total: int)
    requires total >= 120
    ensures ParseDuration(Some(FormatDuration(total))) == Truncated(total)
  {
    if total < 3600 {
      assert Truncated(total) == Ok(total - total % 60);
      FormatParseMinutes(total);
    } else if total < 86400 {
      assert Truncated(total) == Ok(total - total % 3600);
      FormatParseHours(total);
    } else {
      assert Truncated(total) == if total / 86400 > MAX_DAYS then Err(Overflow) else Ok(total - total % 86400);
      FormatParseDays(total);
    }
  }

  lemma NoUnitEndsWith(s: string)
    requires s != [] && s[|s| - 1] == '\U{443}'
    ensures forall j :: 0 <= j < |UNITS| ==> !EndsWith(s, UNITS[j].0)
  {
    forall j | 0 <= j < |UNITS| ensures !EndsWith(s, UNITS[j].0) {
      EndsWithChars(s, UNITS[j].0);
      UnitLastLetter(j);
    }
  }

  /** A "1 " followed by a word ending in "у" ends in no suffix of the table
      and is not a number. */
  lemma OneMinuteText(s: string)
    requires |s| >= 2 && s[0] == '1' && s[1] == ' ' && s[|s| - 1] == '\U{443}' && AlreadyLower(s)
    ensures ParseDuration(Some(s)) == Err(InvalidDuration)
  {
    StripKeeps(s);
    LowerKeeps(s);
    NoUnitEndsWith(s);
    ParseNormalBare(s);
    assert !IsDigitBody(s) by { assert !IsDigit(s[1]) && s[1] != '_'; }
    assert ParseInt(s) == None;
  }

  /** Between one and two minutes the rendering is "1 минуту", whose word is
      not in the suffix table, so it does not parse back. */
  lemma OneMinuteDoesNotReparse(total: int)
    requires 60 <= total < 120
    ensures FormatDuration(total) == "1 минуту"
    ensures ParseDuration(Some(FormatDuration(total))) == Err(InvalidDuration)
  {
    var s := FormatDuration(total);
    assert s == "1 минуту";
    assert s[0] == '1' && s[1] == ' ' && s[|s| - 1] == '\U{443}' && AlreadyLower(s);
    OneMinuteText(s);
  }
}
