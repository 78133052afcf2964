/**
 * `_parse_type_b_text`: the line extractor of the PDF parser, used on the text layer of pages
 * without usable tables. Every line that is not boilerplate becomes a record (date, entry and
 * exit time, site, notes) or an issue saying why it was rejected.
 */
module PdfTypeB {
  import opened Wrappers
  import opened Text
  import opened Patterns
  import opened Dates
  import opened PdfTime
  import opened PdfHeader
  import opened PdfRecords

  // ---------------------------------------------------------------- str.splitlines

  /** The line boundaries of Python's `str.splitlines`. */
  predicate IsLineBreak(c: char) {
    c == '\n' || c == '\r' || c == '\U{0B}' || c == '\U{0C}' || ('\U{1C}' <= c <= '\U{1E}')
    || c == '\U{85}' || c == '\U{2028}' || c == '\U{2029}'
  }

  /** The first line boundary at or after `i`. */
  function FirstBreakFrom(s: string, i: nat): (r: Option<nat>)
    requires i <= |s|
    ensures r.Some? ==> i <= r.value < |s| && IsLineBreak(s[r.value]) && forall k :: i <= k < r.value ==> !IsLineBreak(s[k])
    ensures r.None? ==> forall k :: i <= k < |s| ==> !IsLineBreak(s[k])
    decreases |s| - i
  {
    if i == |s| then None else if IsLineBreak(s[i]) then Some(i) else FirstBreakFrom(s, i + 1)
  }

  /** Where the next line starts after a boundary at `k`: `\r\n` counts as one boundary. */
  function AfterBreak(s: string, k: nat): (r: nat)
    requires k < |s|
    ensures k < r <= |s|
  {
    if s[k] == '\r' && k + 1 < |s| && s[k + 1] == '\n' then k + 2 else k + 1
  }

  /** `s.splitlines()`: the lines without their boundaries; a final boundary starts no new line. */
  function SplitLines(s: string): (r: seq<string>)
    ensures forall i, k :: 0 <= i < |r| && 0 <= k < |r[i]| ==> !IsLineBreak(r[i][k])
    decreases |s|
  {
    if s == [] then []
    else
      match FirstBreakFrom(s, 0)
      case None => [s]
      case Some(k) => [s[..k]] + SplitLines(s[AfterBreak(s, k)..])
  }

  function Concat(parts: seq<string>): string {
    if parts == [] then "" else parts[0] + Concat(parts[1..])
  }

  /** The lines together hold exactly the text's characters other than the boundaries. */
  lemma {:induction false} SplitLinesContents(s: string)
    ensures Concat(SplitLines(s)) == RemoveBy(s, IsLineBreak)
    decreases |s|
  {
    if s != [] {
      match FirstBreakFrom(s, 0)
      case None =>
        RemoveByNone(s, IsLineBreak);
        assert Concat([s]) == s + Concat([]);
      case Some(k) =>
        var next := AfterBreak(s, k);
        SplitLinesContents(s[next..]);
        FirstLineRemoved(s, k);
        var rest := SplitLines(s[next..]);
        assert SplitLines(s) == [s[..k]] + rest;
        assert ([s[..k]] + rest)[1..] == rest;
    }
  }

  /** Deleting the boundaries keeps the first line and drops its boundary. */
  lemma FirstLineRemoved(s: string, k: nat)
    requires k < |s| && IsLineBreak(s[k]) && forall j :: 0 <= j < k ==> !IsLineBreak(s[j])
    ensures RemoveBy(s, IsLineBreak) == s[..k] + RemoveBy(s[AfterBreak(s, k)..], IsLineBreak)
  {
    var next := AfterBreak(s, k);
    BreakRemoved(s, k);
    ThreeSlices(s, k, next);
    RemoveBySplice(s, s[..k], s[k..next], s[next..], IsLineBreak);
  }

  /** A text is its three slices around two cut points. */
  lemma ThreeSlices<T>(s: seq<T>, a: nat, b: nat)
    requires a <= b <= |s|
    ensures s == s[..a] + s[a..b] + s[b..]
  {
  }

  /** A boundary, one or two characters long, deletes to nothing. */
  lemma BreakRemoved(s: string, k: nat)
    requires k < |s| && IsLineBreak(s[k])
    ensures RemoveBy(s[k..AfterBreak(s, k)], IsLineBreak) == []
  {
    var next := AfterBreak(s, k);
    assert s[k..next][1..] == s[k + 1..next];
    if next == k + 2 { assert s[k + 1..next][1..] == []; }
  }

  /** A non-empty text without boundaries is one line. */
  lemma OneLine(s: string)
    requires s != [] && forall k :: 0 <= k < |s| ==> !IsLineBreak(s[k])
    ensures SplitLines(s) == [s]
  {
  }

  // ---------------------------------------------------------------- one line

  /** The line as the extractor reads it: bidi controls removed, soft hyphens made spaces, spaces collapsed. */
  function LineText(raw: string): string {
    Strip(CollapseSpace(ReplaceChar(CleanText(raw), '\U{AD}', ' ')))
  }

  /** The total markers of a summary line. */
  const TotalTokens: seq<string> := ["סה\"כ", "סה״כ", "סהכ"]

  predicate HasTotalToken(s: string) { AnyContains(s, TotalTokens) }

  predicate IsSiteTrim(c: char) { c == ' ' || c == '-' || c == '|' }

  /** `s[:n]` with Python's clamping. */
  function Prefix(s: string, n: nat): (r: string)
    ensures r <= s
    ensures |r| == if |s| <= n then |s| else n
  {
    if n <= |s| then s[..n] else s
  }

  /** What the extractor makes of one line. */
  datatype LineOutcome = Skip | Reject(issue: Issue) | Keep(record: TextRecord)

  const NoTwoTimes := "нет 2 времен"
  const NoDateContext := "нет даты/контекста месяца"
  const NoValidPair := "нет корректной пары времен"

  /** The date of a line: its DATE_RE token normalised, else its day number `DD` when the month is known. */
  function LineDate(line: string, month: Option<nat>, year: Option<nat>): (r: Option<string>)
    ensures DateToken(line).Some? ==> r == Some(NormalizeDate(line))
    ensures DateToken(line).None? ==>
              (r.Some? <==> ExtractDay(line).Some? && month.Some? && year.Some?)
              && (r.Some? ==> r.value == Pad2(ExtractDay(line).value) && |r.value| == 2)
  {
    var full := NormalizeDate(line);
    if full != "" then Some(full)
    else
      match ExtractDay(line)
      case None => None
      case Some(day) => if month.None? || year.None? then None else Some(Pad2(day))
  }

  /** The times handed to the pair selection: the first two of a summary line with three or more. */
  function PairTimes(line: string, times: seq<string>): seq<string> {
    if |times| >= 3 && HasTotalToken(line) then times[..2] else times
  }

  /** The site of a line without a date: the text before the day number, trimmed of ` -|`. */
  function LineSite(line: string): string {
    match DaySearch(SubTimes(line))
    case None => ""
    case Some((sp, _)) => StripBy(Prefix(line, sp.start), IsSiteTrim)
  }

  /** The notes of a line without a date: what follows the second time, unless it is a total. */
  function LineNotes(line: string, secondEnd: nat): string
    requires secondEnd <= |line|
  {
    var tail := Strip(line[secondEnd..]);
    if tail != "" && !HasTotalToken(tail) then tail else ""
  }

  /** The positions of a line's times: at least two once the line got past the first check. */
  function TimePositions(line: string): (r: seq<Span>)
    ensures |r| == |Times(line)|
    ensures forall k :: 0 <= k < |r| ==> r[k].start < r[k].end <= |line|
  {
    TimeSpans(line)
  }

  lemma PairTimesAreTimes(line: string)
    ensures AllTimes(PairTimes(line, Times(line)))
  {
  }

  /** A dated line with its time pair: site and notes only for a line without a full date. */
  function KeptRecord(line: string, date: string, pair: (string, string)): TextRecord
    requires |Times(line)| >= 2
  {
    if DateToken(line).Some? then TextRecord(date, pair.0, pair.1, "", "")
    else TextRecord(date, pair.0, pair.1, LineSite(line), LineNotes(line, TimePositions(line)[1].end))
  }

  /** A line with two times and a date: kept when a pair of times is found. */
  function DatedOutcome(line: string, date: string): LineOutcome
    requires |Times(line)| >= 2
  {
    PairTimesAreTimes(line);
    match SelectSpec(PairTimes(line, Times(line)))
    case None => Reject(Issue(line, NoValidPair))
    case Some(pair) => Keep(KeptRecord(line, date, pair))
  }

  /** One normalised line: skipped, rejected with a reason, or kept as a record. */
  function LineOutcomeOf(line: string, month: Option<nat>, year: Option<nat>): LineOutcome {
    if IsServiceLine(line) then Skip
    else if |Times(line)| < 2 then Reject(Issue(line, NoTwoTimes))
    else
      match LineDate(line, month, year)
      case None => Reject(Issue(line, NoDateContext))
      case Some(date) => DatedOutcome(line, date)
  }

  // ---------------------------------------------------------------- the document

  /** `page.extract_text() or ""`. */
  function PageText(page: Option<string>): string {
    match page
    case None => ""
    case Some(t) => t
  }

  /** What the extractor makes of each of `lines`, in order. */
  function Outcomes(lines: seq<string>, month: Option<nat>, year: Option<nat>): (r: seq<LineOutcome>)
    ensures |r| == |lines|
  {
    if lines == [] then []
    else Outcomes(lines[..|lines| - 1], month, year) + [LineOutcomeOf(LineText(lines[|lines| - 1]), month, year)]
  }

  /** The outcomes of every page's lines, page after page. */
  function DocOutcomes(pages: seq<Option<string>>, month: Option<nat>, year: Option<nat>): seq<LineOutcome> {
    if pages == [] then []
    else DocOutcomes(pages[..|pages| - 1], month, year) + Outcomes(SplitLines(PageText(pages[|pages| - 1])), month, year)
  }

  lemma DocOutcomesStep(pages: seq<Option<string>>, p: nat, month: Option<nat>, year: Option<nat>)
    requires p < |pages|
    ensures DocOutcomes(pages[..p + 1], month, year)
            == DocOutcomes(pages[..p], month, year) + Outcomes(SplitLines(PageText(pages[p])), month, year)
  {
    assert pages[..p + 1][..p] == pages[..p];
  }

  /** The records of the kept lines, in order. */
  function KeptOf(outs: seq<LineOutcome>): seq<TextRecord> {
    if outs == [] then []
    else KeptOf(outs[..|outs| - 1]) + (if outs[|outs| - 1].Keep? then [outs[|outs| - 1].record] else [])
  }

  /** The issues of the rejected lines, in order. */
  function RejectedOf(outs: seq<LineOutcome>): seq<Issue> {
    if outs == [] then []
    else RejectedOf(outs[..|outs| - 1]) + (if outs[|outs| - 1].Reject? then [outs[|outs| - 1].issue] else [])
  }

  // ---------------------------------------------------------------- the extractor

  /** The body of the line loop. */
  method ProcessLine(rawLine: string, month: Option<nat>, year: Option<nat>) returns (outcome: LineOutcome)
    ensures outcome == LineOutcomeOf(LineText(rawLine), month, year)
  {
    var line := CleanText(rawLine);
    line := ReplaceChar(line, '\U{AD}', ' ');
    line := Strip(CollapseSpace(line));
    if IsServiceLine(line) {
      return Skip;
    }
    var times := Times(line);
    if |times| < 2 {
      return Reject(Issue(line, NoTwoTimes));
    }
    var dateValue := LineDate(line, month, year);
    if dateValue.None? {
      return Reject(Issue(line, NoDateContext));
    }
    outcome := ProcessDatedLine(line, dateValue.value);
  }

  /** The rest of the loop body, once the line has two times and a date. */
  method ProcessDatedLine(line: string, dateValue: string) returns (outcome: LineOutcome)
    requires |Times(line)| >= 2
    ensures outcome == DatedOutcome(line, dateValue)
  {
    var timesWithPos := TimePositions(line);
    var times := Times(line);
    var dateMatch := DateToken(line);
    PairTimesAreTimes(line);
    var pair := SelectTimePair(PairTimes(line, times));
    if pair.None? {
      return Reject(Issue(line, NoValidPair));
    }
    var (timeIn, timeOut) := pair.value;
    var site, notes := "", "";
    if dateMatch.None? {
      site := LineSite(line);
      notes := LineNotes(line, timesWithPos[1].end);
    }
    return Keep(TextRecord(dateValue, timeIn, timeOut, site, notes));
  }

  /** One turn of the line loop: line `i` is processed and its record or issue appended. */
  method ProcessLineAt(records0: seq<TextRecord>, bad0: seq<Issue>, lines: seq<string>, i: nat,
                       month: Option<nat>, year: Option<nat>, records: seq<TextRecord>, bad: seq<Issue>)
    returns (records': seq<TextRecord>, bad': seq<Issue>)
    requires i < |lines|
    requires records == records0 + KeptOf(Outcomes(lines[..i], month, year))
    requires bad == bad0 + RejectedOf(Outcomes(lines[..i], month, year))
    ensures records' == records0 + KeptOf(Outcomes(lines[..i + 1], month, year))
    ensures bad' == bad0 + RejectedOf(Outcomes(lines[..i + 1], month, year))
  {
    var outcome := ProcessLine(lines[i], month, year);
    OutcomesSnoc(lines, i, month, year);
    records', bad' := Record(records0, bad0, Outcomes(lines[..i], month, year), records, bad, outcome);
  }

  /** A kept line's record goes to `records`, a rejected line's issue to `bad`. */
  method Record(records0: seq<TextRecord>, bad0: seq<Issue>, ghost outs: seq<LineOutcome>,
                records: seq<TextRecord>, bad: seq<Issue>, outcome: LineOutcome)
    returns (records': seq<TextRecord>, bad': seq<Issue>)
    requires records == records0 + KeptOf(outs) && bad == bad0 + RejectedOf(outs)
    ensures records' == records0 + KeptOf(outs + [outcome])
    ensures bad' == bad0 + RejectedOf(outs + [outcome])
  {
    KeptSnoc(outs, outcome);
    records', bad' := records, bad;
    match outcome {
      case Skip =>
      case Reject(issue) => bad' := bad' + [issue];
      case Keep(record) => records' := records' + [record];
    }
  }

  /** The lines of one page. */
  method ProcessLines(records: seq<TextRecord>, bad: seq<Issue>, lines: seq<string>, month: Option<nat>, year: Option<nat>)
    returns (records': seq<TextRecord>, bad': seq<Issue>)
    ensures records' == records + KeptOf(Outcomes(lines, month, year))
    ensures bad' == bad + RejectedOf(Outcomes(lines, month, year))
  {
    records', bad' := records, bad;
    assert KeptOf(Outcomes(lines[..0], month, year)) == [] && RejectedOf(Outcomes(lines[..0], month, year)) == [];
    for i := 0 to |lines|
      invariant records' == records + KeptOf(Outcomes(lines[..i], month, year))
      invariant bad' == bad + RejectedOf(Outcomes(lines[..i], month, year))
    {
      records', bad' := ProcessLineAt(records, bad, lines, i, month, year, records', bad');
    }
    assert lines[..|lines|] == lines;
  }

  /** `_parse_type_b_text`: every page's text split into lines, each line kept, rejected or skipped. */
  method ParseTypeB(pages: seq<Option<string>>, month: Option<nat>, year: Option<nat>)
    returns (records: seq<TextRecord>, bad: seq<Issue>)
    ensures records == KeptOf(DocOutcomes(pages, month, year))
    ensures bad == RejectedOf(DocOutcomes(pages, month, year))
  {
    records, bad := [], [];
    for p := 0 to |pages|
      invariant records == KeptOf(DocOutcomes(pages[..p], month, year))
      invariant bad == RejectedOf(DocOutcomes(pages[..p], month, year))
    {
      var text := PageText(pages[p]);
      var lines := SplitLines(text);
      DocOutcomesStep(pages, p, month, year);
      KeptAppend(DocOutcomes(pages[..p], month, year), Outcomes(lines, month, year));
      records, bad := ProcessLines(records, bad, lines, month, year);
    }
    assert pages[..|pages|] == pages;
  }

  lemma OutcomesSnoc(lines: seq<string>, i: nat, month: Option<nat>, year: Option<nat>)
    requires i < |lines|
    ensures Outcomes(lines[..i + 1], month, year) == Outcomes(lines[..i], month, year) + [LineOutcomeOf(LineText(lines[i]), month, year)]
  {
    assert lines[..i + 1][..i] == lines[..i];
  }

  lemma KeptSnoc(outs: seq<LineOutcome>, o: LineOutcome)
    ensures KeptOf(outs + [o]) == KeptOf(outs) + (if o.Keep? then [o.record] else [])
    ensures RejectedOf(outs + [o]) == RejectedOf(outs) + (if o.Reject? then [o.issue] else [])
  {
    assert (outs + [o])[..|outs|] == outs;
  }

  lemma {:induction false} KeptAppend(xs: seq<LineOutcome>, ys: seq<LineOutcome>)
    ensures KeptOf(xs + ys) == KeptOf(xs) + KeptOf(ys)
    ensures RejectedOf(xs + ys) == RejectedOf(xs) + RejectedOf(ys)
    decreases |ys|
  {
    if ys == [] {
      assert xs + ys == xs;
    } else {
      assert (xs + ys)[..|xs + ys| - 1] == xs + ys[..|ys| - 1];
      KeptAppend(xs, ys[..|ys| - 1]);
    }
  }


  // ---------------------------------------------------------------- properties of one line

  /** The total markers are service markers too. */
  lemma TotalTokenIsService(s: string)
    requires HasTotalToken(s)
    ensures AnyContains(Lower(s), ServiceTokens)
  {
    var k :| 0 <= k < |TotalTokens| && Contains(s, TotalTokens[k]);
    var t := TotalTokens[k];
    assert t == ServiceTokens[k];
    assert forall j :: 0 <= j < |t| ==> LowerChar(t[j]) == t[j];
    ContainsLower(s, t);
  }

  /**
   * A line that is not skipped carries no total marker, so the summary-line truncation of its
   * times never applies.
   */
  lemma TotalTokensUnreachable(line: string, times: seq<string>)
    requires !IsServiceLine(line)
    ensures !HasTotalToken(line)
    ensures PairTimes(line, times) == times
  {
    if HasTotalToken(line) {
      TotalTokenIsService(line);
    }
  }

  /** A total marker in the stripped tail of a line is a total marker of the line. */
  lemma TotalInTail(line: string, from: nat)
    requires from <= |line| && HasTotalToken(Strip(line[from..]))
    ensures HasTotalToken(line)
  {
    var rest := line[from..];
    var a, b := StripBySlice(rest, IsSpace);
    var k :| 0 <= k < |TotalTokens| && Contains(Strip(rest), TotalTokens[k]);
    assert rest[a..b] == line[from + a..from + b];
    ContainsWithin(line, from + a, from + b, TotalTokens[k]);
  }

  /** For the same reason the notes are never dropped as a total: they are the whole stripped tail. */
  lemma NotesAreTail(line: string, secondEnd: nat)
    requires !IsServiceLine(line) && secondEnd <= |line|
    ensures LineNotes(line, secondEnd) == Strip(line[secondEnd..])
  {
    if HasTotalToken(Strip(line[secondEnd..])) {
      TotalInTail(line, secondEnd);
      TotalTokensUnreachable(line, []);
    }
  }

  /** Skipped lines are the service lines; each rejection names the line and the first check it failed. */
  lemma OutcomeCases(line: string, month: Option<nat>, year: Option<nat>)
    ensures AllTimes(Clean(Times(line)))
    ensures LineOutcomeOf(line, month, year).Skip? <==> IsServiceLine(line)
    ensures LineOutcomeOf(line, month, year) == Reject(Issue(line, NoTwoTimes))
            <==> !IsServiceLine(line) && |Times(line)| < 2
    ensures LineOutcomeOf(line, month, year) == Reject(Issue(line, NoDateContext))
            <==> !IsServiceLine(line) && |Times(line)| >= 2 && LineDate(line, month, year).None?
    ensures LineOutcomeOf(line, month, year) == Reject(Issue(line, NoValidPair))
            <==> && !IsServiceLine(line) && |Times(line)| >= 2 && LineDate(line, month, year).Some?
                 && (|Clean(Times(line))| < 2 || (|Clean(Times(line))| > 2 && NoPlausiblePair(Clean(Times(line)))))
    ensures LineOutcomeOf(line, month, year).Reject? ==>
              LineOutcomeOf(line, month, year).issue.line == line
              && LineOutcomeOf(line, month, year).issue.reason in {NoTwoTimes, NoDateContext, NoValidPair}
  {
    var times := Times(line);
    AllTimesClean(times);
    if !IsServiceLine(line) && |times| >= 2 && LineDate(line, month, year).Some? {
      TotalTokensUnreachable(line, times);
      var n := |Clean(times)|;
      if n < 2 {
        SelectTooFew(times);
      } else if n == 2 {
        SelectTwo(times);
      } else {
        SelectMany(times);
      }
    }
  }

  /** The record of a kept dated line, read off its pair selection. */
  lemma DatedKept(line: string, date: string)
    requires !IsServiceLine(line) && |Times(line)| >= 2 && DatedOutcome(line, date).Keep?
    ensures AllTimes(Clean(Times(line)))
    ensures var rec := DatedOutcome(line, date).record;
            && rec.date == date
            && rec.timeIn in Clean(Times(line)) && rec.timeOut in Clean(Times(line))
            && IsTimeToken(rec.timeIn) && IsTimeToken(rec.timeOut)
            && Minutes(rec.timeIn) <= Minutes(rec.timeOut)
            && (|Clean(Times(line))| == 2 ==> multiset{rec.timeIn, rec.timeOut} == multiset(Clean(Times(line))))
            && (|Clean(Times(line))| > 2 ==> BestPair(Clean(Times(line)), rec.timeIn, rec.timeOut))
            && (DateToken(line).Some? ==> rec.site == "" && rec.notes == "")
            && (DateToken(line).None? ==>
                  rec.site == LineSite(line) && rec.notes == Strip(line[TimePositions(line)[1].end..]))
  {
    var times := Times(line);
    AllTimesClean(times);
    TotalTokensUnreachable(line, times);
    var n := |Clean(times)|;
    if n < 2 {
      SelectTooFew(times);
    } else if n == 2 {
      SelectTwo(times);
      var (a, b) := SelectSpec(times).value;
      assert a in multiset(Clean(times)) && b in multiset(Clean(times));
    } else {
      SelectMany(times);
    }
    NotesAreTail(line, TimePositions(line)[1].end);
  }

  /**
   * A kept line is a non-service line with two or more times and a date; its record carries that
   * date, two of its remaining times with the entry no later than the exit, and site and notes
   * only when the line has no full date.
   */
  lemma KeptLine(line: string, month: Option<nat>, year: Option<nat>)
    requires LineOutcomeOf(line, month, year).Keep?
    ensures !IsServiceLine(line) && |Times(line)| >= 2 && LineDate(line, month, year).Some?
    ensures AllTimes(Clean(Times(line)))
    ensures var rec := LineOutcomeOf(line, month, year).record;
            && rec.date == LineDate(line, month, year).value && rec.date != ""
            && rec.timeIn in Clean(Times(line)) && rec.timeOut in Clean(Times(line))
            && IsTimeToken(rec.timeIn) && IsTimeToken(rec.timeOut)
            && Minutes(rec.timeIn) <= Minutes(rec.timeOut)
            && (|Clean(Times(line))| > 2 ==> BestPair(Clean(Times(line)), rec.timeIn, rec.timeOut))
            && (DateToken(line).Some? ==> rec.site == "" && rec.notes == "")
            && (DateToken(line).None? ==>
                  rec.site == LineSite(line) && rec.notes == Strip(line[TimePositions(line)[1].end..]))
  {
    var date := LineDate(line, month, year).value;
    DatedKept(line, date);
  }

  // ---------------------------------------------------------------- properties of the document

  /** What every kept record satisfies. */
  predicate GoodTextRecord(rec: TextRecord) {
    rec.date != "" && IsTimeToken(rec.timeIn) && IsTimeToken(rec.timeOut) && Minutes(rec.timeIn) <= Minutes(rec.timeOut)
  }

  /** What every outcome satisfies: a good record, or an issue with one of the three reasons. */
  predicate GoodOutcome(o: LineOutcome) {
    && (o.Keep? ==> GoodTextRecord(o.record))
    && (o.Reject? ==> o.issue.reason in {NoTwoTimes, NoDateContext, NoValidPair})
  }

  lemma LineGood(line: string, month: Option<nat>, year: Option<nat>)
    ensures GoodOutcome(LineOutcomeOf(line, month, year))
  {
    OutcomeCases(line, month, year);
    if LineOutcomeOf(line, month, year).Keep? {
      KeptLine(line, month, year);
    }
  }

  lemma {:induction false} OutcomesGood(lines: seq<string>, month: Option<nat>, year: Option<nat>)
    ensures forall k :: 0 <= k < |Outcomes(lines, month, year)| ==> GoodOutcome(Outcomes(lines, month, year)[k])
    decreases |lines|
  {
    if lines != [] {
      var i := |lines| - 1;
      OutcomesGood(lines[..i], month, year);
      LineGood(LineText(lines[i]), month, year);
      OutcomesSnoc(lines, i, month, year);
      assert lines[..i + 1] == lines;
    }
  }

  lemma {:induction false} DocOutcomesGood(pages: seq<Option<string>>, month: Option<nat>, year: Option<nat>)
    ensures forall k :: 0 <= k < |DocOutcomes(pages, month, year)| ==> GoodOutcome(DocOutcomes(pages, month, year)[k])
    decreases |pages|
  {
    if pages != [] {
      DocOutcomesGood(pages[..|pages| - 1], month, year);
      OutcomesGood(SplitLines(PageText(pages[|pages| - 1])), month, year);
    }
  }

  lemma {:induction false} KeptGood(outs: seq<LineOutcome>)
    requires forall k :: 0 <= k < |outs| ==> GoodOutcome(outs[k])
    ensures forall r :: r in KeptOf(outs) ==> GoodTextRecord(r)
    ensures forall i :: i in RejectedOf(outs) ==> i.reason in {NoTwoTimes, NoDateContext, NoValidPair}
  {
    if outs != [] {
      KeptGood(outs[..|outs| - 1]);
    }
  }

  /**
   * `_parse_type_b_text`'s results: every record has a date and an entry time no later than its
   * exit time, and every issue one of the three rejection reasons.
   */
  lemma ParseTypeBResults(pages: seq<Option<string>>, month: Option<nat>, year: Option<nat>)
    ensures forall r :: r in KeptOf(DocOutcomes(pages, month, year)) ==> GoodTextRecord(r)
    ensures forall i :: i in RejectedOf(DocOutcomes(pages, month, year)) ==> i.reason in {NoTwoTimes, NoDateContext, NoValidPair}
  {
    DocOutcomesGood(pages, month, year);
    KeptGood(DocOutcomes(pages, month, year));
  }

  /** Fewer lines out than in: each line gives at most one record or one issue. */
  lemma {:induction false} KeptCount(outs: seq<LineOutcome>)
    ensures |KeptOf(outs)| + |RejectedOf(outs)| <= |outs|
  {
    if outs != [] {
      KeptCount(outs[..|outs| - 1]);
    }
  }
}
