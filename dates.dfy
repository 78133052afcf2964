/**
 * Calendar dates: the model of `pd.to_datetime(raw, dayfirst=True)` used on DATE_RE tokens,
 * `_normalize_date`, `_extract_day`, `_extract_day_from_cell` and `_build_date`.
 */
module Dates {
  import opened Wrappers
  import opened Text
  import opened Patterns

  datatype Date = Date(day: nat, month: nat, year: nat)

  /** The years a pandas `Timestamp` can hold (whole years only). */
  const MinYear: nat := 1678
  const MaxYear: nat := 2261

  predicate IsLeap(y: nat) { y % 4 == 0 && (y % 100 != 0 || y % 400 == 0) }

  function DaysInMonth(m: nat, y: nat): nat {
    if m == 2 then (if IsLeap(y) then 29 else 28)
    else if m == 4 || m == 6 || m == 9 || m == 11 then 30
    else 31
  }

  predicate ValidDate(d: Date) {
    1 <= d.month <= 12 && 1 <= d.day <= DaysInMonth(d.month, d.year) && MinYear <= d.year <= MaxYear
  }

  /** The digit groups of a whole `D{1,2}[./-]M{1,2}[./-]Y{2,4}` text. */
  function DateGroups(raw: string): (r: Option<(string, string, string)>)
    ensures r.Some? ==> AllDigits(r.value.0) && AllDigits(r.value.1) && AllDigits(r.value.2)
    ensures r.Some? ==> 1 <= |r.value.0| <= 2 && 1 <= |r.value.1| <= 2 && 2 <= |r.value.2| <= 4
  {
    var d := DigitRun(raw, 0, 2);
    if d == 0 || d >= |raw| || !IsDateSep(raw[d]) then None
    else
      var m := DigitRun(raw, d + 1, 2);
      var l := d + 1 + m;
      if m == 0 || l >= |raw| || !IsDateSep(raw[l]) then None
      else
        var y := DigitRun(raw, l + 1, 4);
        if y < 2 || l + 1 + y != |raw| then None
        else Some((raw[..d], raw[d + 1..l], raw[l + 1..]))
  }

  /**
   * `pd.to_datetime(raw, dayfirst=True)` on a DATE_RE token: the first number is the day unless
   * it is at most 12 while the second exceeds 12 (then the two swap); a two-digit year is
   * 2000 + yy; a first number above 31, a three-digit year or an impossible calendar date raise.
   */
  function ToDatetimeDayFirst(raw: string): (r: Option<Date>)
    ensures r.Some? ==> ValidDate(r.value)
  {
    match DateGroups(raw)
    case None => None
    case Some((a, b, c)) =>
      var x := DigitsValue(a);
      var y := DigitsValue(b);
      if x > 31 || |c| == 3 then None
      else
        var dm := if x > 12 || y <= 12 then (x, y) else (y, x);
        var year := if |c| == 2 then 2000 + DigitsValue(c) else DigitsValue(c);
        var dt := Date(dm.0, dm.1, year);
        if ValidDate(dt) then Some(dt) else None
  }

  /** `strftime` with `%d<sep>%m<sep>%Y`. */
  function FormatDateSep(d: Date, sep: char): string {
    Pad2(d.day) + [sep] + Pad2(d.month) + [sep] + NatToString(d.year)
  }

  /** `strftime("%d.%m.%Y")`. */
  function FormatDate(d: Date): string { FormatDateSep(d, '.') }

  /** The day, month and year written as `DD.MM.YYYY`, read back (the inverse of formatting). */
  function ParseCanonical(s: string): Option<Date> {
    if |s| == 10 && s[2] == '.' && s[5] == '.' && AllDigits(s[..2]) && AllDigits(s[3..5]) && AllDigits(s[6..])
    then Some(Date(DigitsValue(s[..2]), DigitsValue(s[3..5]), DigitsValue(s[6..])))
    else None
  }

  /** `DD.MM.YYYY` built from numbers, the way `_build_date` and `raw_to_local_df` write it. */
  function JoinDate(day: nat, month: nat, year: nat): string {
    Pad2(day) + "." + Pad2(month) + "." + NatToString(year)
  }

  /** A day and month below 100 and a four-digit year come back out of what JoinDate writes. */
  lemma JoinDateParses(day: nat, month: nat, year: nat)
    requires day < 100 && month < 100 && 1000 <= year < 10000
    ensures ParseCanonical(JoinDate(day, month, year)) == Some(Date(day, month, year))
  {
    var s := JoinDate(day, month, year);
    Pad2Value(day);
    Pad2Value(month);
    NatToStringValue(year);
    NatToStringLength(year);
    assert s[..2] == Pad2(day);
    assert s[3..5] == Pad2(month);
    assert s[6..] == NatToString(year);
  }

  /** `_normalize_date`: the first DATE_RE token, re-formatted when it parses, else returned as is. */
  function NormalizeDate(v: string): (r: string)
    ensures r == "" <==> DateToken(v).None?
  {
    match DateToken(v)
    case None => ""
    case Some(raw) =>
      match ToDatetimeDayFirst(raw)
      case Some(d) => FormatDate(d)
      case None => raw
  }

  /** A parsed token is written as a valid `DD.MM.YYYY` that reads back as the parsed date. */
  lemma NormalizeDateCanonical(v: string)
    requires DateToken(v).Some? && ToDatetimeDayFirst(DateToken(v).value).Some?
    ensures ParseCanonical(NormalizeDate(v)) == Some(ToDatetimeDayFirst(DateToken(v).value).value)
    ensures ValidDate(ParseCanonical(NormalizeDate(v)).value)
  {
    var d := ToDatetimeDayFirst(DateToken(v).value).value;
    JoinDateParses(d.day, d.month, d.year);
  }

  /** The parser reads back every valid date that FormatDate writes. */
  lemma FormatDateRoundTrip(d: Date)
    requires ValidDate(d)
    ensures ToDatetimeDayFirst(FormatDate(d)) == Some(d)
  {
    var a, b, c := Pad2(d.day), Pad2(d.month), NatToString(d.year);
    Pad2Value(d.day);
    Pad2Value(d.month);
    NatToStringValue(d.year);
    NatToStringLength(d.year);
    DateGroupsOfParts(FormatDate(d), a, b, c);
    DayFirstOfGroups(FormatDate(d), a, b, c, d);
  }

  /** `DD.MM.YYYY` splits into its three digit groups. */
  lemma DateGroupsOfParts(s: string, a: string, b: string, c: string)
    requires s == a + ['.'] + b + ['.'] + c
    requires AllDigits(a) && AllDigits(b) && AllDigits(c) && |a| == 2 && |b| == 2 && |c| == 4
    ensures DateGroups(s) == Some((a, b, c))
  {
    assert forall k :: 0 <= k < 2 ==> s[k] == a[k];
    assert forall k :: 3 <= k < 5 ==> s[k] == b[k - 3];
    assert forall k :: 6 <= k < 10 ==> s[k] == c[k - 6];
    DigitRunAll(s, 0, 2);
    DigitRunAll(s, 3, 2);
    DigitRunAll(s, 6, 4);
    assert s[..2] == a && s[3..5] == b && s[6..] == c;
  }

  /** A run of `cap` digits is read whole. */
  lemma {:induction false} DigitRunAll(s: string, i: nat, cap: nat)
    requires i + cap <= |s| && forall k :: i <= k < i + cap ==> IsDigit(s[k])
    ensures DigitRun(s, i, cap) == cap
    decreases cap
  {
    if cap > 0 {
      DigitRunAll(s, i + 1, cap - 1);
    }
  }

  /** Groups holding a valid date's day, month and four-digit year parse as that date. */
  lemma DayFirstOfGroups(s: string, a: string, b: string, c: string, d: Date)
    requires DateGroups(s) == Some((a, b, c)) && ValidDate(d) && |c| == 4
    requires DigitsValue(a) == d.day && DigitsValue(b) == d.month && DigitsValue(c) == d.year
    ensures ToDatetimeDayFirst(s) == Some(d)
  {
  }

  /** The day number of a DAY_RE token, kept only when it lies in 1..31. */
  function DayInRange(found: Option<(Span, nat)>): (r: Option<nat>)
    ensures r.Some? ==> 1 <= r.value <= 31
  {
    match found
    case None => None
    case Some((_, day)) => if day < 1 || day > 31 then None else Some(day)
  }

  /** `_extract_day`: the first day number of a line once its times are blanked out. */
  function ExtractDay(line: string): (r: Option<nat>)
    ensures r.Some? ==> 1 <= r.value <= 31
  {
    DayInRange(DaySearch(SubTimes(line)))
  }

  /** `_extract_day_from_cell`: the first day number of a table cell. */
  function ExtractDayFromCell(value: string): (r: Option<nat>)
    ensures r.Some? ==> 1 <= r.value <= 31
  {
    var cleaned := NormalizeSpace(value);
    if cleaned == "" then None else DayInRange(DaySearch(cleaned))
  }

  /** `_build_date`: a full date when the cell has one, else the day completed from the month and year. */
  function BuildDate(value: string, month: Option<nat>, year: Option<nat>): (r: string)
    ensures NormalizeDate(value) != "" ==> r == NormalizeDate(value)
    ensures NormalizeDate(value) == "" && ExtractDayFromCell(value).Some? && month.Some? && year.Some?
            && month.value < 100 && 1000 <= year.value < 10000
            ==> ParseCanonical(r) == Some(Date(ExtractDayFromCell(value).value, month.value, year.value))
    ensures NormalizeDate(value) == "" && (ExtractDayFromCell(value).None? || month.None? || year.None?) ==> r == ""
  {
    var full := NormalizeDate(value);
    if full != "" then full
    else
      match ExtractDayFromCell(value)
      case None => ""
      case Some(day) =>
        if month.None? || year.None? then ""
        else
          if month.value < 100 && 1000 <= year.value < 10000 then
            JoinDateParses(day, month.value, year.value);
            JoinDate(day, month.value, year.value)
          else JoinDate(day, month.value, year.value)
  }

  /** A text of digits only holds no DATE_RE match: the pattern needs a separator. */
  lemma NoDateInDigits(s: string)
    requires AllDigits(s)
    ensures DateToken(s).None?
  {
    forall k | 0 <= k < |s| ensures DateMatch(s, k).None? {
      var d := DigitRun(s, k, 2);
      if d > 0 && k + d < |s| { assert IsDigit(s[k + d]); }
    }
  }

  /** A cell of one or two digits naming a day 1..31 is read as that day by `_extract_day_from_cell`. */
  lemma DayOfDigits(s: string)
    requires AllDigits(s) && 1 <= |s| <= 2 && 1 <= DigitsValue(s) <= 31
    ensures ExtractDayFromCell(s) == Some(DigitsValue(s))
  {
    NormalizeSpaceFixed(s);
    DayMatchOfDigits(s);
    assert s[0..|s|] == s;
  }

  /** DAY_RE matches the whole of such a cell from its first character. */
  lemma DayMatchOfDigits(s: string)
    requires AllDigits(s) && 1 <= |s| <= 2 && 1 <= DigitsValue(s) <= 31
    ensures DayMatch(s, 0) == Some(|s|)
  {
    if |s| == 2 && !(s[0] <= '2') {
      ThirtiesChars(s);
      assert !Boundary(s, 1);
    }
  }

  /** Two digits from `3` up that read at most 31 are `30` or `31`. */
  lemma ThirtiesChars(s: string)
    requires AllDigits(s) && |s| == 2 && !(s[0] <= '2') && DigitsValue(s) <= 31
    ensures s[0] == '3' && s[1] <= '1'
  {
    DigitsValueShort(s);
    TensOfThirty(DigitVal(s[0]), DigitVal(s[1]));
  }

  /** Two decimal digits 3x or more reading at most 31 are 30 or 31. */
  lemma TensOfThirty(a: nat, b: nat)
    requires a < 10 && b < 10 && 3 <= a && 10 * a + b <= 31
    ensures a == 3 && b <= 1
  {
  }

  /** A bare day of one or two digits in a table cell is completed with the given month and year. */
  lemma BuildDateDayOnly(s: string, month: nat, year: nat)
    requires AllDigits(s) && 1 <= |s| <= 2 && 1 <= DigitsValue(s) <= 31
    ensures BuildDate(s, Some(month), Some(year)) == JoinDate(DigitsValue(s), month, year)
  {
    NoDateInDigits(s);
    DayOfDigits(s);
  }
}
