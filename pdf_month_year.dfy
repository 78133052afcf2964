/**
 * `_extract_month_year`: the month and year of a report read off the text of its pages. The
 * month comes from a Hebrew month name (as written, or reversed the way some PDF text layers
 * store right-to-left text), else from a numeric `MM/YY`; the year from digits next to the
 * word for "year", else from any `20xx`, else from that `MM/YY`.
 */
module PdfMonthYear {
  import opened Wrappers
  import opened Text
  import opened Patterns

  /** MONTH_MAP in its insertion order; March has two spellings. */
  const MonthMap: seq<(string, nat)> := [
    ("ינואר", 1), ("פברואר", 2), ("מרץ", 3), ("מארס", 3), ("אפריל", 4), ("מאי", 5), ("יוני", 6),
    ("יולי", 7), ("אוגוסט", 8), ("ספטמבר", 9), ("אוקטובר", 10), ("נובמבר", 11), ("דצמבר", 12)
  ]

  lemma MonthNumbers()
    ensures |MonthMap| == 13
    ensures forall k :: 0 <= k < |MonthMap| ==> 1 <= MonthMap[k].1 <= 12
  {
  }

  // ---------------------------------------------------------------- month names

  /**
   * The key entry `k` is looked up by: the name itself, or (for MONTH_MAP_REVERSED, built from
   * MONTH_MAP in the same order) the name read backwards.
   */
  function KeyOf(k: nat, reversed: bool): string
    requires k < |MonthMap|
  {
    if reversed then Reverse(MonthMap[k].0) else MonthMap[k].0
  }

  /** The first entry at or after `i` whose key occurs in `text`: what the loop with `break` finds. */
  function FirstMonthFrom(text: string, reversed: bool, i: nat): (r: Option<nat>)
    requires i <= |MonthMap|
    ensures r.Some? ==> i <= r.value < |MonthMap| && Contains(text, KeyOf(r.value, reversed))
    ensures r.Some? ==> forall j :: i <= j < r.value ==> !Contains(text, KeyOf(j, reversed))
    decreases |MonthMap| - i
  {
    if i == |MonthMap| then None
    else if Contains(text, KeyOf(i, reversed)) then Some(i)
    else FirstMonthFrom(text, reversed, i + 1)
  }

  /** Nothing is found exactly when no key from `i` on occurs. */
  lemma {:induction false} FirstMonthNone(text: string, reversed: bool, i: nat)
    requires i <= |MonthMap|
    ensures FirstMonthFrom(text, reversed, i).None? <==> forall j :: i <= j < |MonthMap| ==> !Contains(text, KeyOf(j, reversed))
    decreases |MonthMap| - i
  {
    if i < |MonthMap| && !Contains(text, KeyOf(i, reversed)) {
      FirstMonthNone(text, reversed, i + 1);
    }
  }

  /** The entry the two name loops settle on: a name as written wins over a reversed one. */
  function NamedMonth(text: string): (r: Option<nat>)
    ensures r.Some? ==> r.value < |MonthMap|
  {
    match FirstMonthFrom(text, false, 0)
    case Some(k) => Some(k)
    case None => FirstMonthFrom(text, true, 0)
  }

  /** The two name loops of `_extract_month_year`. */
  method FindMonthByName(lowered: string) returns (month: Option<nat>, monthHe: Option<string>)
    ensures NamedMonth(lowered).None? ==> month.None? && monthHe.None?
    ensures NamedMonth(lowered).Some? ==>
              month == Some(MonthMap[NamedMonth(lowered).value].1)
              && monthHe == Some(MonthMap[NamedMonth(lowered).value].0)
  {
    month, monthHe := None, None;
    var i := 0;
    while i < |MonthMap|
      invariant i <= |MonthMap|
      invariant month.None? && monthHe.None?
      invariant FirstMonthFrom(lowered, false, 0) == FirstMonthFrom(lowered, false, i)
    {
      var (name, number) := MonthMap[i];
      if Contains(lowered, name) {
        month, monthHe := Some(number), Some(name);
        break;
      }
      i := i + 1;
    }
    if month.None? {
      i := 0;
      while i < |MonthMap|
        invariant i <= |MonthMap|
        invariant month.None? && monthHe.None?
        invariant FirstMonthFrom(lowered, true, 0) == FirstMonthFrom(lowered, true, i)
      {
        var (name, number) := MonthMap[i];
        var reversedName := Reverse(name);
        if Contains(lowered, reversedName) {
          month, monthHe := Some(number), Some(name);
          break;
        }
        i := i + 1;
      }
    }
  }

  // ---------------------------------------------------------------- the year patterns

  /** `(?:שנה|הנש)` at `k`: the word for "year", as written or reversed. */
  predicate YearWordAt(s: string, k: nat) {
    k + 3 <= |s| && s[k + 1] == 'נ' && ((s[k] == 'ש' && s[k + 2] == 'ה') || (s[k] == 'ה' && s[k + 2] == 'ש'))
  }

  /** `\s*` from `i`. */
  function SkipSpaces(s: string, i: nat): (r: nat)
    requires i <= |s|
    ensures i <= r <= |s|
    ensures forall j :: i <= j < r ==> IsSpace(s[j])
    ensures r < |s| ==> !IsSpace(s[r])
    decreases |s| - i
  {
    if i < |s| && IsSpace(s[i]) then SkipSpaces(s, i + 1) else i
  }

  /**
   * `\s*[:\-]?\s*` from `i`. Spaces and the two separators are disjoint, so the greedy reading
   * is the only one and no backtracking changes where the next token starts.
   */
  function Separator(s: string, i: nat): (r: nat)
    requires i <= |s|
    ensures i <= r <= |s|
  {
    var a := SkipSpaces(s, i);
    if a < |s| && (s[a] == ':' || s[a] == '-') then SkipSpaces(s, a + 1) else a
  }

  /** A match of a year pattern: the span of its `(\d{2,4})` group and where the match ends. */
  datatype YearHit = YearHit(group: Span, end: nat)

  predicate ValidHit(s: string, k: nat, h: YearHit) {
    && k <= h.group.start < h.group.end <= h.end <= |s| && k < h.end
    && 2 <= h.group.end - h.group.start <= 4
    && AllDigits(s[h.group.start..h.group.end])
  }

  /** `(?:שנה|הנש)\s*[:\-]?\s*(\d{2,4})` at `k`; the digits are taken greedily, up to four. */
  function WordThenYear(s: string, k: nat): (r: Option<YearHit>)
    ensures r.Some? ==> ValidHit(s, k, r.value)
  {
    if !YearWordAt(s, k) then None
    else
      var j := Separator(s, k + 3);
      var n := DigitRun(s, j, 4);
      if n < 2 then None else Some(YearHit(Span(j, j + n), j + n))
  }

  /**
   * `(\d{2,4})\s*[:\-]?\s*(?:שנה|הנש)` at `k`. Giving digits back never helps: the character
   * after a shorter group is a digit, which neither the separator nor the word can start with,
   * so only the longest group can match.
   */
  function YearThenWord(s: string, k: nat): (r: Option<YearHit>)
    ensures r.Some? ==> ValidHit(s, k, r.value)
  {
    if k > |s| then None
    else
      var n := DigitRun(s, k, 4);
      if n < 2 then None
      else
        var j := Separator(s, k + n);
        if YearWordAt(s, j) then Some(YearHit(Span(k, k + n), j + 3)) else None
  }

  /**
   * The two year patterns, in the order they are tried: the year word before the digits,
   * `(?:שנה|הנש)\s*[:\-]?\s*(\d{2,4})`, then the digits before the year word.
   */
  datatype YearPattern = WordFirst | DigitsFirst

  const YearPatterns: seq<YearPattern> := [WordFirst, DigitsFirst]

  /** The given year pattern at `k`. */
  function YearPatternAt(s: string, pattern: YearPattern, k: nat): (r: Option<YearHit>)
    ensures r.Some? ==> ValidHit(s, k, r.value)
  {
    match pattern
    case WordFirst => WordThenYear(s, k)
    case DigitsFirst => YearThenWord(s, k)
  }

  function YearPatternEnd(s: string, pattern: YearPattern, k: nat): Option<nat> {
    match YearPatternAt(s, pattern, k)
    case None => None
    case Some(h) => Some(h.end)
  }

  predicate YearDigits(raw: string) { 2 <= |raw| <= 4 && AllDigits(raw) }

  /** The `(\d{2,4})` group of each of the matches `ms`. */
  function GroupsOf(s: string, pattern: YearPattern, ms: seq<Span>): (r: seq<string>)
    requires forall i :: 0 <= i < |ms| ==> YearPatternAt(s, pattern, ms[i].start).Some?
    ensures |r| == |ms|
    ensures forall i :: 0 <= i < |r| ==> YearDigits(r[i])
  {
    if ms == [] then []
    else
      var h := YearPatternAt(s, pattern, ms[|ms| - 1].start).value;
      GroupsOf(s, pattern, ms[..|ms| - 1]) + [s[h.group.start..h.group.end]]
  }

  /** `match.group(1)` of every `re.finditer` match of a year pattern, in order. */
  function YearGroups(s: string, pattern: YearPattern): (r: seq<string>)
    ensures forall i :: 0 <= i < |r| ==> YearDigits(r[i])
  {
    var ms := FindAll(s, k => YearPatternEnd(s, pattern, k));
    assert forall i :: 0 <= i < |ms| ==> YearPatternAt(s, pattern, ms[i].start).Some? by {
      forall i | 0 <= i < |ms| ensures YearPatternAt(s, pattern, ms[i].start).Some? {
        assert YearPatternEnd(s, pattern, ms[i].start).Some?;
      }
    }
    GroupsOf(s, pattern, ms)
  }

  /** `int(raw)` for four digits, `2000 + int(raw)` for two or three. */
  function YearValue(raw: string): nat
    requires AllDigits(raw)
  {
    if |raw| == 4 then DigitsValue(raw) else 2000 + DigitsValue(raw)
  }

  predicate PlausibleYear(v: nat) { 2000 <= v <= 2100 }

  /** The values of `raws` that fall in 2000..2100, in order. */
  function ValidYears(raws: seq<string>): (r: seq<nat>)
    requires forall i :: 0 <= i < |raws| ==> YearDigits(raws[i])
    ensures forall i :: 0 <= i < |r| ==> PlausibleYear(r[i])
    ensures |r| <= |raws|
  {
    if raws == [] then []
    else
      assert YearDigits(raws[|raws| - 1]);
      var v := YearValue(raws[|raws| - 1]);
      ValidYears(raws[..|raws| - 1]) + (if PlausibleYear(v) then [v] else [])
  }

  /** The years the first `n` of the two patterns contribute, pattern by pattern. */
  function YearsOfPatterns(s: string, n: nat): (r: seq<nat>)
    requires n <= 2
    ensures forall i :: 0 <= i < |r| ==> PlausibleYear(r[i])
  {
    if n == 0 then [] else YearsOfPatterns(s, n - 1) + ValidYears(YearGroups(s, YearPatterns[n - 1]))
  }

  /** `year_candidates`: the first pattern's years, then the second's. */
  function YearCandidates(s: string): (r: seq<nat>)
    ensures forall i :: 0 <= i < |r| ==> PlausibleYear(r[i])
  {
    YearsOfPatterns(s, 2)
  }

  /** The inner loop over one pattern's matches. */
  method CollectYears(candidates: seq<nat>, raws: seq<string>) returns (candidates': seq<nat>)
    requires forall i :: 0 <= i < |raws| ==> YearDigits(raws[i])
    ensures candidates' == candidates + ValidYears(raws)
  {
    candidates' := candidates;
    for i := 0 to |raws|
      invariant candidates' == candidates + ValidYears(raws[..i])
    {
      assert raws[..i + 1][..i] == raws[..i];
      var raw := raws[i];
      var value := if |raw| == 4 then DigitsValue(raw) else 2000 + DigitsValue(raw);
      if 2000 <= value <= 2100 {
        candidates' := candidates' + [value];
      }
    }
    assert raws[..|raws|] == raws;
  }

  /** The loop over the two year patterns, `YearPatterns`, in order. */
  method FindYearCandidates(lowered: string) returns (candidates: seq<nat>)
    ensures candidates == YearCandidates(lowered)
  {
    candidates := [];
    for p := 0 to 2
      invariant candidates == YearsOfPatterns(lowered, p)
    {
      candidates := CollectYears(candidates, YearGroups(lowered, YearPatterns[p]));
    }
  }

  /** `\b(20\d{2})\b` at `k`. */
  function TwentyAt(s: string, k: nat): Option<nat> {
    if k + 4 <= |s| && Boundary(s, k) && s[k] == '2' && s[k + 1] == '0' && IsDigit(s[k + 2]) && IsDigit(s[k + 3])
       && Boundary(s, k + 4)
    then Some(k + 4)
    else None
  }

  /** A `20xx` found by `TwentyAt` reads as a year from 2000 to 2099. */
  lemma TwentyValue(t: string)
    requires |t| == 4 && t[0] == '2' && t[1] == '0' && IsDigit(t[2]) && IsDigit(t[3])
    ensures AllDigits(t) && 2000 <= DigitsValue(t) <= 2099
  {
    var t3 := t[..3];
    assert t3[..2] == t[..2];
    DigitsValueShort(t[..2]);
  }

  /** The fallback `re.search(r"\b(20\d{2})\b", lowered)`. */
  function TwentyYear(s: string): (r: Option<nat>)
    ensures r.Some? ==> 2000 <= r.value <= 2099
  {
    match Search(s, k => TwentyAt(s, k))
    case None => None
    case Some(sp) =>
      var t := s[sp.start..sp.end];
      TwentyValue(t);
      Some(DigitsValue(t))
  }

  /** The year before the numeric fallback: the first candidate, else a `20xx`. */
  function WordYear(s: string): (r: Option<nat>)
    ensures r.Some? ==> PlausibleYear(r.value)
  {
    var candidates := YearCandidates(s);
    if candidates != [] then Some(candidates[0]) else TwentyYear(s)
  }

  // ---------------------------------------------------------------- the numeric month

  /** `[./](\d{2})\b` at `j`. */
  predicate MonthTail(s: string, j: nat) {
    j + 3 <= |s| && (s[j] == '.' || s[j] == '/') && IsDigit(s[j + 1]) && IsDigit(s[j + 2]) && Boundary(s, j + 3)
  }

  /** A numeric month match: the month group's span, its two-digit year and the end of the match. */
  datatype MonthHit = MonthHit(month: Span, end: nat)

  /**
   * `\b(1[0-2]|0?[1-9])[./](\d{2})\b` at `k`: `1[0-2]` is tried first; `0?[1-9]` reads `0d`
   * when a zero is followed by a non-zero digit and a single digit otherwise.
   */
  function MonthNumberAt(s: string, k: nat): (r: Option<MonthHit>)
    ensures r.Some? ==> k < r.value.month.end && r.value.end == r.value.month.end + 3 <= |s|
    ensures r.Some? ==> r.value.month.start == k && MonthTail(s, r.value.month.end)
  {
    if k >= |s| || !Boundary(s, k) then None
    else if k + 1 < |s| && s[k] == '1' && InRange(s[k + 1], '0', '2') && MonthTail(s, k + 2) then
      Some(MonthHit(Span(k, k + 2), k + 5))
    else if k + 1 < |s| && s[k] == '0' && InRange(s[k + 1], '1', '9') && MonthTail(s, k + 2) then
      Some(MonthHit(Span(k, k + 2), k + 5))
    else if InRange(s[k], '1', '9') && MonthTail(s, k + 1) then
      Some(MonthHit(Span(k, k + 1), k + 4))
    else None
  }

  function MonthNumberEnd(s: string, k: nat): Option<nat> {
    match MonthNumberAt(s, k)
    case None => None
    case Some(h) => Some(h.end)
  }

  /** A matched month group reads as 1 to 12. */
  lemma MonthGroupValue(s: string, k: nat)
    requires MonthNumberAt(s, k).Some?
    ensures var g := MonthNumberAt(s, k).value.month;
            AllDigits(s[g.start..g.end]) && 1 <= DigitsValue(s[g.start..g.end]) <= 12
  {
    var g := MonthNumberAt(s, k).value.month;
    var t := s[g.start..g.end];
    assert t[0] == s[k];
    if |t| == 2 { assert t[1] == s[k + 1]; }
    DigitsValueShort(t);
  }

  /** `re.search(r"\b(1[0-2]|0?[1-9])[./](\d{2})\b", lowered)` as (month, two-digit year). */
  function NumericMonth(s: string): (r: Option<(nat, nat)>)
    ensures r.Some? ==> 1 <= r.value.0 <= 12 && r.value.1 < 100
  {
    match Search(s, k => MonthNumberEnd(s, k))
    case None => None
    case Some(sp) =>
      var h := MonthNumberAt(s, sp.start).value;
      MonthGroupValue(s, sp.start);
      var yy := s[h.month.end + 1..h.end];
      DigitsValueShort(yy);
      Some((DigitsValue(s[h.month.start..h.month.end]), DigitsValue(yy)))
  }

  // ---------------------------------------------------------------- month and year

  /** The result as a value: month, year and the Hebrew name the month was found by. */
  datatype MonthYear = MonthYear(month: Option<nat>, year: Option<nat>, monthHe: Option<string>)

  /**
   * How the findings combine: a named month comes with its spelling; otherwise a numeric
   * `MM/YY` gives the month, and its year only when no year was found.
   */
  function Combine(named: Option<nat>, year: Option<nat>, numeric: Option<(nat, nat)>): MonthYear
    requires named.Some? ==> named.value < |MonthMap|
  {
    match named
    case Some(k) => MonthYear(Some(MonthMap[k].1), year, Some(MonthMap[k].0))
    case None =>
      match numeric
      case None => MonthYear(None, year, None)
      case Some((m, yy)) => if year.None? then MonthYear(Some(m), Some(2000 + yy), None) else MonthYear(Some(m), year, None)
  }

  /** `_extract_month_year` on the text as a whole. */
  function MonthYearSpec(text: string): MonthYear {
    var lowered := Lower(CleanText(text));
    Combine(NamedMonth(lowered), WordYear(lowered), NumericMonth(lowered))
  }

  /** The year search: the first candidate, else the `20xx` fallback. */
  method FindYear(lowered: string) returns (year: Option<nat>)
    ensures year == WordYear(lowered)
  {
    var candidates := FindYearCandidates(lowered);
    if candidates != [] {
      year := Some(candidates[0]);
    } else {
      year := FindTwenty(lowered);
    }
  }

  /** The `20xx` fallback of the year search. */
  method FindTwenty(lowered: string) returns (year: Option<nat>)
    ensures year == TwentyYear(lowered)
  {
    year := None;
    var found := Search(lowered, k => TwentyAt(lowered, k));
    if found.Some? {
      var digits := lowered[found.value.start..found.value.end];
      TwentyValue(digits);
      year := Some(DigitsValue(digits));
    }
  }

  /** The numeric fallback, taken when no month name was found. */
  method NumericStep(lowered: string, named: Option<nat>, month: Option<nat>, year: Option<nat>, monthHe: Option<string>)
    returns (month': Option<nat>, year': Option<nat>)
    requires named.Some? ==> named.value < |MonthMap|
    requires named.None? ==> month.None? && monthHe.None?
    requires named.Some? ==> month == Some(MonthMap[named.value].1) && monthHe == Some(MonthMap[named.value].0)
    ensures MonthYear(month', year', monthHe) == Combine(named, year, NumericMonth(lowered))
  {
    month', year' := month, year;
    if month.None? {
      var monthMatch := NumericMonth(lowered);
      if monthMatch.Some? && year.None? {
        month' := Some(monthMatch.value.0);
        year' := Some(2000 + monthMatch.value.1);
      } else if monthMatch.Some? {
        month' := Some(monthMatch.value.0);
      }
    }
  }

  /** `_extract_month_year`. */
  method ExtractMonthYear(text: string) returns (month: Option<nat>, year: Option<nat>, monthHe: Option<string>)
    ensures MonthYear(month, year, monthHe) == MonthYearSpec(text)
  {
    var cleaned := CleanText(text);
    var lowered := Lower(cleaned);
    month, monthHe := FindMonthByName(lowered);
    year := FindYear(lowered);
    month, year := NumericStep(lowered, NamedMonth(lowered), month, year, monthHe);
  }

  // ---------------------------------------------------------------- properties

  /**
   * The month is from 1 to 12, the year from 2000 to 2100, and a Hebrew name comes back only
   * with the month it names.
   */
  lemma MonthYearRanges(text: string)
    ensures var r := MonthYearSpec(text);
            && (r.month.Some? ==> 1 <= r.month.value <= 12)
            && (r.year.Some? ==> PlausibleYear(r.year.value))
            && (r.monthHe.Some? ==> r.month.Some? && exists k :: 0 <= k < |MonthMap| && MonthMap[k] == (r.monthHe.value, r.month.value))
  {
    var lowered := Lower(CleanText(text));
    CombineRanges(NamedMonth(lowered), WordYear(lowered), NumericMonth(lowered));
  }

  lemma CombineRanges(named: Option<nat>, year: Option<nat>, numeric: Option<(nat, nat)>)
    requires named.Some? ==> named.value < |MonthMap|
    requires year.Some? ==> PlausibleYear(year.value)
    requires numeric.Some? ==> 1 <= numeric.value.0 <= 12 && numeric.value.1 < 100
    ensures var r := Combine(named, year, numeric);
            && (r.month.Some? ==> 1 <= r.month.value <= 12)
            && (r.year.Some? ==> PlausibleYear(r.year.value))
            && (r.monthHe.Some? ==> r.month.Some? && exists k :: 0 <= k < |MonthMap| && MonthMap[k] == (r.monthHe.value, r.month.value))
  {
    MonthNumbers();
    if named.Some? {
      var k := named.value;
      assert MonthMap[k] == (MonthMap[k].0, MonthMap[k].1);
    }
  }

  /**
   * A month name in the text decides the month: the first name of MONTH_MAP's order that occurs
   * as written, or, when none does, the first that occurs reversed; its Hebrew spelling comes back.
   */
  lemma NameDecidesMonth(text: string, k: nat)
    requires k < |MonthMap|
    requires var lowered := Lower(CleanText(text));
             Contains(lowered, MonthMap[k].0) || Contains(lowered, Reverse(MonthMap[k].0))
    ensures var lowered := Lower(CleanText(text));
            var r := MonthYearSpec(text);
            && r.monthHe.Some? && r.month.Some?
            && (Contains(lowered, r.monthHe.value) || Contains(lowered, Reverse(r.monthHe.value)))
            && (exists j :: 0 <= j < |MonthMap| && MonthMap[j] == (r.monthHe.value, r.month.value))
            && (Contains(lowered, MonthMap[k].0) ==> Contains(lowered, r.monthHe.value))
  {
    var lowered := Lower(CleanText(text));
    if Contains(lowered, MonthMap[k].0) {
      assert KeyOf(k, false) == MonthMap[k].0;
      FirstMonthNone(lowered, false, 0);
    } else {
      assert KeyOf(k, true) == Reverse(MonthMap[k].0);
      FirstMonthNone(lowered, false, 0);
      FirstMonthNone(lowered, true, 0);
    }
  }

  /**
   * Without a month name, a numeric `MM/YY` gives the month and, only when no year was found
   * otherwise, the year (`MonthYearSpec` combines the findings with `Combine`).
   */
  lemma NumericFallback(year: Option<nat>, numeric: Option<(nat, nat)>)
    ensures var r := Combine(None, year, numeric);
            && r.monthHe.None?
            && (numeric.None? ==> r.month.None? && r.year == year)
            && (numeric.Some? ==> r.month == Some(numeric.value.0))
            && (numeric.Some? && year.None? ==> r.year == Some(2000 + numeric.value.1))
            && (year.Some? ==> r.year == year)
  {
  }

  /** A year next to the word for "year" wins: the first such plausible year, first pattern first. */
  lemma FirstCandidateWins(text: string)
    requires YearCandidates(Lower(CleanText(text))) != []
    ensures MonthYearSpec(text).year == Some(YearCandidates(Lower(CleanText(text)))[0])
  {
  }
}
