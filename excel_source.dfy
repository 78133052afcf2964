/**
 * `parse_excel_ylm`: the spreadsheet the portal exports, read into raw rows of strings. The
 * workbook itself comes in as a `Sheet` (what `pd.read_excel` returns: column labels and rows
 * of cell values); the month and year come from a `M.YY`-style token in the file name.
 */
module ExcelSource {
  import opened Wrappers
  import opened Text
  import opened Patterns
  import opened Dates

  /**
   * A cell as `pd.read_excel` hands it over: Python's `None`, a float NaN, a `Timestamp` (at
   * midnight, the way date cells read), or any other value, given by its `str()`.
   */
  datatype CellValue = NoneValue | NaN | Stamp(date: Date) | Other(text: string)

  /** A table as read from the workbook: column labels (by their `str()`) and rows of cells. */
  datatype Sheet = Sheet(columns: seq<string>, rows: seq<seq<CellValue>>)

  /** A data frame has one cell per column in every row. */
  predicate Rectangular(sheet: Sheet) {
    forall i :: 0 <= i < |sheet.rows| ==> |sheet.rows[i]| == |sheet.columns|
  }

  /** `Timestamp.isoformat()` of a date: `YYYY-MM-DD`. */
  function IsoDate(d: Date): string {
    NatToString(d.year) + "-" + Pad2(d.month) + "-" + Pad2(d.day)
  }

  /** `str(value)`: a timestamp at midnight prints as `YYYY-MM-DD 00:00:00`. */
  function PyStr(v: CellValue): string {
    match v
    case NoneValue => "None"
    case NaN => "nan"
    case Stamp(d) => IsoDate(d) + " 00:00:00"
    case Other(t) => t
  }

  /** What `pd.isna` reports for a cell (`dropna` drops these). */
  predicate IsNA(v: CellValue) { v.NoneValue? || v.NaN? }

  // ---------------------------------------------------------------- _stringify

  /** `_stringify`: "" for a missing value, `DD.MM.YYYY` for a timestamp, else the stripped `str()`. */
  function Stringify(v: CellValue): string {
    match v
    case NoneValue => ""
    case NaN => ""
    case Stamp(d) => FormatDate(d)
    case Other(t) => Strip(t)
  }

  /** A missing value is empty; any other text comes back with no space at either end. */
  lemma StringifyShape(v: CellValue)
    ensures IsNA(v) ==> Stringify(v) == ""
    ensures v.Other? ==> |Stringify(v)| <= |v.text|
    ensures v.Other? && Stringify(v) != [] ==> !IsSpace(Stringify(v)[0]) && !IsSpace(Stringify(v)[|Stringify(v)| - 1])
  {
  }

  /** A date cell becomes the `DD.MM.YYYY` text that reads back as that date. */
  lemma StringifyStamp(d: Date)
    requires ValidDate(d)
    ensures ParseCanonical(Stringify(Stamp(d))) == Some(d)
    ensures ToDatetimeDayFirst(Stringify(Stamp(d))) == Some(d)
  {
    assert FormatDate(d) == JoinDate(d.day, d.month, d.year);
    JoinDateParses(d.day, d.month, d.year);
    FormatDateRoundTrip(d);
  }

  // ---------------------------------------------------------------- _extract_month_year_from_path

  predicate IsPathSep(c: char) { c == '.' || c == '/' || c == '_' || c == '-' }

  /**
   * `[./_-](\d{2,4})(?!\d)` at `e`: the end of the year group. The greedy `\d{2,4}` gives back
   * digits only to let the lookahead pass, which it never does inside a longer run, so the
   * group is the whole digit run when that run has two to four digits.
   */
  function YearTail(s: string, e: nat): (r: Option<nat>)
    ensures r.Some? ==> e + 3 <= r.value <= e + 5 <= |s| + 5 && r.value <= |s|
    ensures r.Some? ==> IsPathSep(s[e]) && AllDigits(s[e + 1..r.value])
    ensures r.Some? ==> r.value == |s| || !IsDigit(s[r.value])
  {
    if e >= |s| || !IsPathSep(s[e]) then None
    else
      var n := DigitRun(s, e + 1, 5);
      if 2 <= n <= 4 then Some(e + 1 + n) else None
  }

  /** A path token's groups: where the month group ends, and where the year group ends. */
  datatype PathHit = PathHit(monthEnd: nat, yearEnd: nat)

  /**
   * `(?<!\d)(0?[1-9]|1[0-2])[./_-](\d{2,4})(?!\d)` at `k`. The first branch reads `0d` for a
   * zero followed by a non-zero digit and one digit `1`-`9` otherwise; the second branch
   * `1[0-2]` is tried only when the rest fails after the first.
   */
  function PathMatchAt(s: string, k: nat): (r: Option<PathHit>)
    ensures r.Some? ==> k < r.value.monthEnd <= k + 2 && r.value.monthEnd + 3 <= r.value.yearEnd <= |s|
  {
    if k >= |s| || (k > 0 && IsDigit(s[k - 1])) then None
    else
      var first :=
        if s[k] == '0' && k + 1 < |s| && InRange(s[k + 1], '1', '9') then Some(k + 2)
        else if InRange(s[k], '1', '9') then Some(k + 1)
        else None;
      var viaFirst := if first.Some? then YearTail(s, first.value) else None;
      if viaFirst.Some? then Some(PathHit(first.value, viaFirst.value))
      else if s[k] == '1' && k + 1 < |s| && InRange(s[k + 1], '0', '2') then
        match YearTail(s, k + 2)
        case None => None
        case Some(ye) => Some(PathHit(k + 2, ye))
      else None
  }

  function PathMatchEnd(s: string, k: nat): Option<nat> {
    match PathMatchAt(s, k)
    case None => None
    case Some(h) => Some(h.yearEnd)
  }

  /** The matcher of the path token, for `Search`. */
  function PathMatcher(path: string): nat -> Option<nat> {
    k => PathMatchEnd(path, k)
  }

  /** A path token starts at `k`. */
  predicate PathTokenAt(path: string, k: nat) {
    MatchesAt(path, PathMatcher(path), k)
  }

  /** Both groups of a token are digits: one or two for the month, two to four for the year. */
  lemma PathHitDigits(s: string, k: nat)
    requires PathMatchAt(s, k).Some?
    ensures var h := PathMatchAt(s, k).value;
            && AllDigits(s[k..h.monthEnd]) && 1 <= h.monthEnd - k <= 2 && 1 <= DigitsValue(s[k..h.monthEnd]) <= 12
            && AllDigits(s[h.monthEnd + 1..h.yearEnd]) && 2 <= h.yearEnd - h.monthEnd - 1 <= 4
            && YearTail(s, h.monthEnd) == Some(h.yearEnd) && (k == 0 || !IsDigit(s[k - 1]))
  {
    var h := PathMatchAt(s, k).value;
    var t := s[k..h.monthEnd];
    assert t[0] == s[k];
    if |t| == 2 { assert t[1] == s[k + 1]; }
    DigitsValueShort(t);
    assert YearTail(s, h.monthEnd) == Some(h.yearEnd);
  }

  /** The month and year texts of the first path token. */
  function PathGroups(path: string): (r: Option<(string, string)>)
    ensures r.Some? ==> AllDigits(r.value.0) && 1 <= |r.value.0| <= 2 && 1 <= DigitsValue(r.value.0) <= 12
    ensures r.Some? ==> AllDigits(r.value.1) && 2 <= |r.value.1| <= 4
  {
    match Search(path, PathMatcher(path))
    case None => None
    case Some(sp) =>
      var h := PathMatchAt(path, sp.start).value;
      PathHitDigits(path, sp.start);
      Some((path[sp.start..h.monthEnd], path[h.monthEnd + 1..h.yearEnd]))
  }

  /**
   * `_extract_month_year_from_path`: `(None, None)` without a token; with one, a month from 1
   * to 12 and a year of four digits as written, or 2000 plus a shorter number.
   */
  function MonthYearFromPath(path: string): (r: (Option<nat>, Option<nat>))
    ensures r.0.None? <==> r.1.None?
    ensures r.0.Some? ==> 1 <= r.0.value <= 12
    ensures r.0.Some? ==> PathGroups(path).Some? && r.0.value == DigitsValue(PathGroups(path).value.0)
    ensures r.1.Some? ==> PathGroups(path).Some? && var y := PathGroups(path).value.1;
              && (|y| == 4 ==> r.1.value == DigitsValue(y))
              && (|y| < 4 ==> r.1.value == 2000 + DigitsValue(y))
  {
    match PathGroups(path)
    case None => (None, None)
    case Some((m, y)) =>
      (Some(DigitsValue(m)), Some(if |y| == 4 then DigitsValue(y) else 2000 + DigitsValue(y)))
  }

  /** No token anywhere in the name is exactly when `(None, None)` comes back. */
  lemma MonthYearFromPathNone(path: string)
    ensures PathGroups(path).None? <==> forall k :: 0 <= k < |path| ==> !PathTokenAt(path, k)
    ensures PathGroups(path).None? <==> MonthYearFromPath(path) == (None, None)
  {
    var sp := Search(path, PathMatcher(path));
    if sp.Some? {
      assert PathTokenAt(path, sp.value.start);
    }
  }

  /** The token is never glued to other digits: no digit right before it or right after it. */
  lemma PathTokenIsolated(path: string)
    requires Search(path, PathMatcher(path)).Some?
    ensures var sp := Search(path, PathMatcher(path)).value;
            && (sp.start == 0 || !IsDigit(path[sp.start - 1]))
            && (sp.end == |path| || !IsDigit(path[sp.end]))
  {
    var sp := Search(path, PathMatcher(path)).value;
    PathHitDigits(path, sp.start);
  }

  /** `os.path.basename` on a POSIX path: the text after the last `/`. */
  function Basename(path: string): (r: string)
    ensures '/' !in r && |r| <= |path|
    ensures path == path[..|path| - |r|] + r
    ensures |r| < |path| ==> path[|path| - |r| - 1] == '/'
  {
    if path == [] then []
    else if path[|path| - 1] == '/' then []
    else
      var front := path[..|path| - 1];
      BasenameStep(path, front, Basename(front));
      Basename(front) + [path[|path| - 1]]
  }

  /** A base name of all but the last character, extended by that character. */
  lemma BasenameStep(path: string, front: string, base: string)
    requires path != [] && front == path[..|path| - 1]
    requires |base| <= |front| && front == front[..|front| - |base|] + base
    requires |base| < |front| ==> front[|front| - |base| - 1] == '/'
    ensures var r := base + [path[|path| - 1]];
      path == path[..|path| - |r|] + r && (|r| < |path| ==> path[|path| - |r| - 1] == '/')
  {
    var r := base + [path[|path| - 1]];
    assert path[..|path| - |r|] == front[..|front| - |base|];
    assert path == front + [path[|path| - 1]];
  }

  // ---------------------------------------------------------------- parse_excel_ylm

  const RequiredColumns: seq<string> := ["תאריך", "כניסה", "יציאה"]

  const MissingColumns: string := "Excel не содержит ожидаемые колонки: תאריך, כניסה, יציאה"

  /** `RawAttendance.meta` as `parse_excel_ylm` fills it. */
  datatype ExcelMeta = ExcelMeta(
    sourcePath: string, sourceKind: string, parserMode: string, year: Option<nat>, month: Option<nat>,
    monthHe: Option<string>, headers: seq<string>, pages: Option<nat>, generatedAt: Option<string>,
    warnings: seq<string>)

  datatype RawSheet = RawSheet(meta: ExcelMeta, rows: seq<map<string, string>>)

  predicate HasRequired(columns: seq<string>) {
    forall k :: 0 <= k < |RequiredColumns| ==> RequiredColumns[k] in columns
  }

  /** `[str(c).strip() for c in df.columns]`. */
  function Headers(columns: seq<string>): (r: seq<string>)
    ensures |r| == |columns| && forall j :: 0 <= j < |r| ==> r[j] == Strip(columns[j])
  {
    if columns == [] then [] else Headers(columns[..|columns| - 1]) + [Strip(columns[|columns| - 1])]
  }

  /** `row_dict` after the first `j` columns: each stripped label mapped to its stringified cell. */
  function RowDictUpTo(columns: seq<string>, row: seq<CellValue>, j: nat): map<string, string>
    requires j <= |columns| && j <= |row|
  {
    if j == 0 then map[] else RowDictUpTo(columns, row, j - 1)[Strip(columns[j - 1]) := Stringify(row[j - 1])]
  }

  function RowDict(columns: seq<string>, row: seq<CellValue>): map<string, string>
    requires |row| == |columns|
  {
    RowDictUpTo(columns, row, |columns|)
  }

  /** The rows after the first `i`, converted. */
  function RowsUpTo(sheet: Sheet, i: nat): seq<map<string, string>>
    requires Rectangular(sheet) && i <= |sheet.rows|
  {
    if i == 0 then [] else RowsUpTo(sheet, i - 1) + [RowDict(sheet.columns, sheet.rows[i - 1])]
  }

  function MetaOf(sourcePath: string, columns: seq<string>): ExcelMeta {
    var (month, year) := MonthYearFromPath(Basename(sourcePath));
    ExcelMeta(sourcePath, "xlsx", "XLSX_TABLE", year, month, None, Headers(columns), None, None, [])
  }

  /** What `parse_excel_ylm` returns, or the error it raises. */
  function ParseExcelSpec(sourcePath: string, sheet: Sheet): Result<RawSheet>
    requires Rectangular(sheet)
  {
    if !HasRequired(sheet.columns) then Failure(MissingColumns)
    else Success(RawSheet(MetaOf(sourcePath, sheet.columns), RowsUpTo(sheet, |sheet.rows|)))
  }

  /** The inner loop over the columns of one row. */
  method ConvertRow(columns: seq<string>, row: seq<CellValue>) returns (rowDict: map<string, string>)
    requires |row| == |columns|
    ensures rowDict == RowDict(columns, row)
  {
    rowDict := map[];
    for j := 0 to |columns|
      invariant rowDict == RowDictUpTo(columns, row, j)
    {
      rowDict := rowDict[Strip(columns[j]) := Stringify(row[j])];
    }
  }

  /** `parse_excel_ylm` on a workbook already read. */
  method ParseExcel(sourcePath: string, sheet: Sheet) returns (r: Result<RawSheet>)
    requires Rectangular(sheet)
    ensures r == ParseExcelSpec(sourcePath, sheet)
  {
    var k := 0;
    while k < |RequiredColumns|
      invariant k <= |RequiredColumns|
      invariant forall j :: 0 <= j < k ==> RequiredColumns[j] in sheet.columns
    {
      if RequiredColumns[k] !in sheet.columns {
        return Failure(MissingColumns);
      }
      k := k + 1;
    }
    var headers := Headers(sheet.columns);
    var rows: seq<map<string, string>> := [];
    for i := 0 to |sheet.rows|
      invariant rows == RowsUpTo(sheet, i)
    {
      var rowDict := ConvertRow(sheet.columns, sheet.rows[i]);
      rows := rows + [rowDict];
    }
    var (month, year) := MonthYearFromPath(Basename(sourcePath));
    var meta := ExcelMeta(sourcePath, "xlsx", "XLSX_TABLE", year, month, None, headers, None, None, []);
    r := Success(RawSheet(meta, rows));
  }

  // ---------------------------------------------------------------- properties

  /** The rows come out one per sheet row, in order. */
  lemma {:induction false} RowsCount(sheet: Sheet, i: nat)
    requires Rectangular(sheet) && i <= |sheet.rows|
    ensures |RowsUpTo(sheet, i)| == i
    ensures forall k :: 0 <= k < i ==> RowsUpTo(sheet, i)[k] == RowDict(sheet.columns, sheet.rows[k])
  {
    if i > 0 {
      RowsCount(sheet, i - 1);
      var last := RowDict(sheet.columns, sheet.rows[i - 1]);
      assert RowsUpTo(sheet, i) == RowsUpTo(sheet, i - 1) + [last];
    }
  }

  /** The keys of a row dict are exactly the stripped column labels. */
  lemma {:induction false} RowDictKeys(columns: seq<string>, row: seq<CellValue>, j: nat)
    requires j <= |columns| && j <= |row|
    ensures forall key :: key in RowDictUpTo(columns, row, j) <==> key in Headers(columns[..j])
  {
    if j > 0 {
      RowDictKeys(columns, row, j - 1);
      assert columns[..j][..j - 1] == columns[..j - 1];
    }
  }

  /** Under a label no later column repeats, a row dict holds that column's stringified cell. */
  lemma {:induction false} RowDictValue(columns: seq<string>, row: seq<CellValue>, j: nat, c: nat)
    requires c < j <= |columns| && j <= |row|
    requires forall d :: c < d < j ==> Strip(columns[d]) != Strip(columns[c])
    ensures Strip(columns[c]) in RowDictUpTo(columns, row, j)
    ensures RowDictUpTo(columns, row, j)[Strip(columns[c])] == Stringify(row[c])
  {
    var key, prev := Strip(columns[c]), RowDictUpTo(columns, row, j - 1);
    assert RowDictUpTo(columns, row, j) == prev[Strip(columns[j - 1]) := Stringify(row[j - 1])];
    if c < j - 1 {
      assert Strip(columns[j - 1]) != key;
      RowDictValue(columns, row, j - 1, c);
    }
  }

  /**
   * A workbook without one of the date, entry and exit columns is refused; otherwise every row
   * comes out, and the meta names the source as a spreadsheet with no warnings.
   */
  lemma ParseExcelOutcome(sourcePath: string, sheet: Sheet)
    requires Rectangular(sheet)
    ensures ParseExcelSpec(sourcePath, sheet).Failure? <==> exists k :: 0 <= k < |RequiredColumns| && RequiredColumns[k] !in sheet.columns
    ensures ParseExcelSpec(sourcePath, sheet).Success? ==>
              var raw := ParseExcelSpec(sourcePath, sheet).value;
              && |raw.rows| == |sheet.rows|
              && raw.meta.sourceKind == "xlsx" && raw.meta.parserMode == "XLSX_TABLE" && raw.meta.warnings == []
              && raw.meta.monthHe.None? && raw.meta.headers == Headers(sheet.columns)
              && (raw.meta.month, raw.meta.year) == MonthYearFromPath(Basename(sourcePath))
  {
    RowsCount(sheet, |sheet.rows|);
  }
}
