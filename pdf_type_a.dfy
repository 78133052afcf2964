/**
 * `_parse_type_a_tables_canonical`: the table walker of the PDF extractor. Each table's rows are
 * normalised, the header row found by scoring, the columns mapped to keys, and every data row
 * turned into a canonical row, with missing entry/exit times filled from the other cells and a
 * row holding only a total captured once as the document's total.
 */
module PdfTypeA {
  import opened Wrappers
  import opened Text
  import opened Sorting
  import opened Dates
  import opened PdfTime
  import opened PdfHeader
  import opened PdfRecords

  /** A cell as the table extractor gives it (`None` where it has no value). */
  type Cell = Option<string>

  /** A table row; `None` where the extractor gives `None` for the whole row. */
  type RawRow = Option<seq<Cell>>

  type RawTable = seq<RawRow>

  /** `_normalize_cell`: `str(value or "").strip()`. */
  function NormalizeCell(c: Cell): string {
    match c
    case None => ""
    case Some(s) => Strip(s)
  }

  function NormalizeRowCells(row: seq<Cell>): (r: seq<string>)
    ensures |r| == |row| && forall i :: 0 <= i < |row| ==> r[i] == NormalizeCell(row[i])
  {
    seq(|row|, i requires 0 <= i < |row| => NormalizeCell(row[i]))
  }

  /** `normalized_rows` after the first `n` rows of the table: `None` rows skipped. */
  function NormalizedRows(table: RawTable, n: nat): seq<seq<string>>
    requires n <= |table|
  {
    if n == 0 then []
    else
      var rows := NormalizedRows(table, n - 1);
      match table[n - 1]
      case None => rows
      case Some(row) => rows + [NormalizeRowCells(row)]
  }

  method NormalizeRows(table: RawTable) returns (rows: seq<seq<string>>)
    ensures rows == NormalizedRows(table, |table|)
  {
    rows := [];
    for k := 0 to |table|
      invariant rows == NormalizedRows(table, k)
    {
      if table[k].None? {
        continue;
      }
      rows := rows + [NormalizeRowCells(table[k].value)];
    }
  }

  /** `_normalize_display_text` with its default settings: bidi controls removed, spaces collapsed. */
  function DisplayText(s: string): string { NormalizeSpace(s) }

  predicate AllEmpty(row: seq<string>) { forall i :: 0 <= i < |row| ==> row[i] == "" }

  // ---------------------------------------------------------------- time fallback

  /** A time candidate: the column and the normalised time. */
  type TimeCandidate = (nat, string)

  /** The normalised time of every cell of a row. */
  function RowTimes(row: seq<string>): (r: seq<string>)
    ensures |r| == |row|
    ensures forall i :: 0 <= i < |row| ==> r[i] == NormalizeTime(row[i])
  {
    seq(|row|, i requires 0 <= i < |row| => NormalizeTime(row[i]))
  }

  /** `time_candidates` after the first `n` cells: every cell outside the total column that normalises to a time. */
  function TimeCandidates(times: seq<string>, totalIdx: Option<nat>, n: nat): (r: seq<TimeCandidate>)
    requires n <= |times|
    ensures forall k :: 0 <= k < |r| ==>
              r[k].0 < n && Some(r[k].0) != totalIdx && r[k].1 == times[r[k].0] && r[k].1 != ""
  {
    if n == 0 then []
    else
      var c := TimeCandidates(times, totalIdx, n - 1);
      if totalIdx == Some(n - 1) || times[n - 1] == "" then c else c + [(n - 1, times[n - 1])]
  }

  /** Every cell outside the total column whose time is non-empty is a candidate. */
  lemma {:induction false} TimeCandidatesComplete(times: seq<string>, totalIdx: Option<nat>, n: nat, i: nat)
    requires i < n <= |times| && Some(i) != totalIdx && times[i] != ""
    ensures (i, times[i]) in TimeCandidates(times, totalIdx, n)
  {
    if i < n - 1 {
      TimeCandidatesComplete(times, totalIdx, n - 1, i);
    }
  }

  /** The candidate loop, over the normalised times of the row's cells. */
  method CollectTimeCandidates(times: seq<string>, totalIdx: Option<nat>) returns (cands: seq<TimeCandidate>)
    ensures cands == TimeCandidates(times, totalIdx, |times|)
  {
    cands := [];
    for idx := 0 to |times|
      invariant cands == TimeCandidates(times, totalIdx, idx)
    {
      if totalIdx == Some(idx) {
        continue;
      }
      var normTime := times[idx];
      if normTime != "" {
        cands := cands + [(idx, normTime)];
      }
    }
  }

  predicate TextBefore(a: TimeCandidate, b: TimeCandidate) { LexLess(a.1, b.1) }

  lemma TextBeforeOrder()
    ensures StrictWeakOrder(TextBefore)
  {
    forall a: TimeCandidate ensures !TextBefore(a, a) { LexLessIrreflexive(a.1); }
    forall a: TimeCandidate, b: TimeCandidate, c: TimeCandidate | TextBefore(a, b) && TextBefore(b, c)
      ensures TextBefore(a, c)
    {
      LexLessTransitive(a.1, b.1, c.1);
    }
    forall a: TimeCandidate, b: TimeCandidate, c: TimeCandidate | !TextBefore(a, b) && !TextBefore(b, c)
      ensures !TextBefore(a, c)
    {
      if a.1 != b.1 { LexLessTotal(a.1, b.1); }
      if LexLess(b.1, a.1) && LexLess(a.1, c.1) { LexLessTransitive(b.1, a.1, c.1); }
    }
  }

  /** `sorted(time_candidates, key=lambda item: item[1])[0][1]`. */
  function EarliestCandidate(cands: seq<TimeCandidate>): string
    requires cands != []
  {
    SortBy(cands, TextBefore)[0].1
  }

  /** `[t for _, t in time_candidates if t != time_in]`. */
  function OtherTimes(cands: seq<TimeCandidate>, timeIn: string): (r: seq<string>)
    ensures forall k :: 0 <= k < |r| ==> r[k] != timeIn && exists j :: 0 <= j < |cands| && cands[j].1 == r[k]
    ensures forall j :: 0 <= j < |cands| && cands[j].1 != timeIn ==> cands[j].1 in r
  {
    if cands == [] then []
    else
      var rest := OtherTimes(cands[1..], timeIn);
      assert forall k :: 0 <= k < |rest| ==> exists j :: 0 <= j < |cands| && cands[j].1 == rest[k] by {
        forall k | 0 <= k < |rest| ensures exists j :: 0 <= j < |cands| && cands[j].1 == rest[k] {
          var j :| 0 <= j < |cands[1..]| && cands[1..][j].1 == rest[k];
          assert cands[j + 1].1 == rest[k];
        }
      }
      assert forall j :: 1 <= j < |cands| ==> cands[j] == cands[1..][j - 1];
      (if cands[0].1 != timeIn then [cands[0].1] else []) + rest
  }

  /** Python's `max` over strings. */
  function MaxText(ts: seq<string>): (r: string)
    requires ts != []
    ensures r in ts
    ensures forall x :: x in ts ==> !LexLess(r, x)
  {
    if |ts| == 1 then
      LexLessIrreflexive(ts[0]);
      ts[0]
    else
      var m := MaxText(ts[1..]);
      assert forall x :: x in ts ==> x == ts[0] || x in ts[1..];
      if LexLess(ts[0], m) then
        forall x | x in ts ensures !LexLess(m, x) {
          if x == ts[0] && LexLess(m, x) { LexLessTransitive(m, ts[0], m); LexLessIrreflexive(m); }
        }
        m
      else
        forall x | x in ts ensures !LexLess(ts[0], x) {
          LexLessIrreflexive(ts[0]);
          if x != ts[0] && m != ts[0] {
            LexLessTotal(m, ts[0]);
            if LexLess(ts[0], x) { LexLessTransitive(m, ts[0], x); }
          }
        }
        ts[0]
  }

  /** The entry and exit times after the fallback from the other cells of the row. */
  function FillTimes(timeIn: string, timeOut: string, cands: seq<TimeCandidate>): (string, string) {
    var tIn := if timeIn == "" && cands != [] then EarliestCandidate(cands) else timeIn;
    var others := OtherTimes(cands, tIn);
    var tOut := if timeOut == "" && cands != [] && others != [] then MaxText(others) else timeOut;
    (tIn, tOut)
  }

  /** A time the row's own column gave is kept. */
  lemma FillTimesKeeps(timeIn: string, timeOut: string, cands: seq<TimeCandidate>)
    ensures timeIn != "" ==> FillTimes(timeIn, timeOut, cands).0 == timeIn
    ensures timeOut != "" ==> FillTimes(timeIn, timeOut, cands).1 == timeOut
  {
  }

  /** A missing entry time becomes the earliest candidate. */
  lemma FillTimesEarliest(timeOut: string, cands: seq<TimeCandidate>)
    requires cands != [] && forall k :: 0 <= k < |cands| ==> IsClock(cands[k].1)
    ensures var tIn := FillTimes("", timeOut, cands).0;
            && (exists j :: 0 <= j < |cands| && cands[j].1 == tIn)
            && IsClock(tIn)
            && forall k :: 0 <= k < |cands| ==> ClockMinutes(tIn) <= ClockMinutes(cands[k].1)
  {
    TextBeforeOrder();
    SortByFirst(cands, TextBefore);
    var i :| FirstMinimalAt(cands, i, TextBefore) && SortBy(cands, TextBefore)[0] == cands[i];
    var tIn := cands[i].1;
    assert FillTimes("", timeOut, cands).0 == tIn;
    forall k | 0 <= k < |cands| ensures ClockMinutes(tIn) <= ClockMinutes(cands[k].1) {
      ClockLexOrder(cands[k].1, tIn);
    }
  }

  /**
   * A missing exit time becomes the latest candidate that differs from the entry time, and stays
   * "" when every candidate equals the entry time.
   */
  lemma FillTimesLatest(timeIn: string, cands: seq<TimeCandidate>)
    requires forall k :: 0 <= k < |cands| ==> IsClock(cands[k].1)
    ensures var (tIn, tOut) := FillTimes(timeIn, "", cands);
            && ((forall j :: 0 <= j < |cands| ==> cands[j].1 == tIn) ==> tOut == "")
            && ((exists j :: 0 <= j < |cands| && cands[j].1 != tIn) ==>
                  && tOut != tIn
                  && (exists j :: 0 <= j < |cands| && cands[j].1 == tOut)
                  && IsClock(tOut)
                  && forall k :: 0 <= k < |cands| && cands[k].1 != tIn ==> ClockMinutes(cands[k].1) <= ClockMinutes(tOut))
  {
    var (tIn, tOut) := FillTimes(timeIn, "", cands);
    var others := OtherTimes(cands, tIn);
    if exists j :: 0 <= j < |cands| && cands[j].1 != tIn {
      var j :| 0 <= j < |cands| && cands[j].1 != tIn;
      assert cands[j].1 in others;
      assert tOut == MaxText(others);
      assert tOut in others;
      var i :| 0 <= i < |others| && others[i] == tOut;
      forall k | 0 <= k < |cands| && cands[k].1 != tIn ensures ClockMinutes(cands[k].1) <= ClockMinutes(tOut) {
        assert cands[k].1 in others;
        ClockLexOrder(tOut, cands[k].1);
      }
    }
  }

  // ---------------------------------------------------------------- rows and tables

  /** The column the walker reads the date from: only a `date` column. */
  function DateCell(row: seq<string>, keyIndices: map<ColumnKey, nat>): string {
    CellFor(row, keyIndices, DateKey)
  }

  /** The evidently intended date column: the `date` column, else the `day` column. */
  function DateOrDayCell(row: seq<string>, keyIndices: map<ColumnKey, nat>): string {
    if DateKey in keyIndices then CellFor(row, keyIndices, DateKey) else CellFor(row, keyIndices, DayKey)
  }

  /** What the walker has produced so far: `records`, `total_row_value`, `bad`, `headers`. */
  datatype TypeAState = TypeAState(records: seq<CanonicalRow>, total: string, bad: seq<Issue>, headers: seq<string>)

  const StartState := TypeAState([], "", [], [])

  /** The column index of the total column, if any. */
  function TotalIndex(keyIndices: map<ColumnKey, nat>): Option<nat> {
    if TotalKey in keyIndices then Some(keyIndices[TotalKey]) else None
  }

  predicate HasRegularData(r: CanonicalRow) { r.timeIn != "" || r.timeOut != "" || r.site != "" || r.notes != "" }

  /** The canonical row the walker builds from a data row. */
  function RowRecord(row: seq<string>, keyIndices: map<ColumnKey, nat>, month: Option<nat>, year: Option<nat>): CanonicalRow {
    var (tIn, tOut) := FillTimes(NormalizeTime(CellFor(row, keyIndices, TimeInKey)),
                                 NormalizeTime(CellFor(row, keyIndices, TimeOutKey)),
                                 TimeCandidates(RowTimes(row), TotalIndex(keyIndices), |row|));
    CanonicalRow(BuildDate(DateCell(row, keyIndices), month, year), tIn, tOut,
                 DisplayText(CellFor(row, keyIndices, SiteKey)), DisplayText(CellFor(row, keyIndices, NotesKey)))
  }

  /**
   * The canonical row with the evidently intended date rule: a `day` column stands in for a
   * missing `date` column, and every other field is the walker's.
   */
  function RowRecordIntended(row: seq<string>, keyIndices: map<ColumnKey, nat>, month: Option<nat>, year: Option<nat>)
    : (r: CanonicalRow)
    ensures r.(date := "") == RowRecord(row, keyIndices, month, year).(date := "")
    ensures DateKey in keyIndices ==> r == RowRecord(row, keyIndices, month, year)
  {
    RowRecord(row, keyIndices, month, year).(date := BuildDate(DateOrDayCell(row, keyIndices), month, year))
  }

  /** The total column of a row, `_normalize_space` applied. */
  function TotalCell(row: seq<string>, keyIndices: map<ColumnKey, nat>): string {
    NormalizeSpace(CellFor(row, keyIndices, TotalKey))
  }

  /** A built row: a total-only row captured once, a row without data dropped, else appended. */
  function RecordStep(st: TypeAState, rec: CanonicalRow, totalCell: string): TypeAState {
    if totalCell != "" && !HasRegularData(rec) then
      if st.total == "" then st.(total := totalCell) else st
    else if !HasRegularData(rec) then st
    else st.(records := st.records + [rec])
  }

  /** One data row: skipped when every cell is empty. */
  function RowStep(st: TypeAState, row: seq<string>, keyIndices: map<ColumnKey, nat>,
                   month: Option<nat>, year: Option<nat>): TypeAState
  {
    if AllEmpty(row) then st
    else RecordStep(st, RowRecord(row, keyIndices, month, year), TotalCell(row, keyIndices))
  }

  /** The data rows before `n` processed in order. */
  function DataRowsStep(st: TypeAState, rows: seq<seq<string>>, keyIndices: map<ColumnKey, nat>,
                        month: Option<nat>, year: Option<nat>, n: nat): TypeAState
    requires n <= |rows|
  {
    if n == 0 then st else RowStep(DataRowsStep(st, rows, keyIndices, month, year, n - 1), rows[n - 1], keyIndices, month, year)
  }

  const HeaderNotFound := Issue("header_not_found", "no header row")

  function Keys(headers: seq<string>): (r: seq<ColumnKey>)
    ensures |r| == |headers| && forall i :: 0 <= i < |headers| ==> r[i] == HeaderKey(headers[i])
  {
    seq(|headers|, i requires 0 <= i < |headers| => HeaderKey(headers[i]))
  }

  /** One table: too short tables are skipped, headerless ones recorded, the rest walked. */
  function TableStep(st: TypeAState, table: RawTable, month: Option<nat>, year: Option<nat>): TypeAState {
    var rows := NormalizedRows(table, |table|);
    if |rows| < 2 then st
    else
      var (idx, hits) := BestHeader(RowScores(rows), |rows|);
      if idx.None? || hits < 2 || idx.value >= |rows| then st.(bad := st.bad + [HeaderNotFound])
      else HeaderedTableStep(st, rows, idx.value, month, year)
  }

  /** A table whose header row is `rows[h]`: headers kept if first, columns mapped, rows below walked. */
  function HeaderedTableStep(st: TypeAState, rows: seq<seq<string>>, h: nat, month: Option<nat>, year: Option<nat>): TypeAState
    requires h < |rows|
  {
    var headers := TableHeaders(rows[h]);
    var st1 := if st.headers == [] then st.(headers := headers) else st;
    var keys := Keys(headers);
    var dataRows := rows[h + 1..];
    DataRowsStep(st1, dataRows, KeyIndexUpTo(keys, |keys|), month, year, |dataRows|)
  }

  /** The tables of every page, in page order. */
  function AllTables(pages: seq<seq<RawTable>>): seq<RawTable> {
    if pages == [] then [] else AllTables(pages[..|pages| - 1]) + pages[|pages| - 1]
  }

  function TablesStep(st: TypeAState, tables: seq<RawTable>, month: Option<nat>, year: Option<nat>): TypeAState {
    if tables == [] then st else TableStep(TablesStep(st, tables[..|tables| - 1], month, year), tables[|tables| - 1], month, year)
  }

  /** What `_parse_type_a_tables_canonical` returns, stated on the tables of all pages. */
  function ParseTypeASpec(pages: seq<seq<RawTable>>, month: Option<nat>, year: Option<nat>): TypeAState {
    TablesStep(StartState, AllTables(pages), month, year)
  }

  // ---------------------------------------------------------------- the walker

  /** The time fallback of one row: a missing entry or exit time is taken from the other cells. */
  method ResolveTimes(timeInCell: string, timeOutCell: string, row: seq<string>, totalIdx: Option<nat>)
    returns (timeIn: string, timeOut: string)
    ensures (timeIn, timeOut) == FillTimes(NormalizeTime(timeInCell), NormalizeTime(timeOutCell),
                                           TimeCandidates(RowTimes(row), totalIdx, |row|))
  {
    timeIn := NormalizeTime(timeInCell);
    timeOut := NormalizeTime(timeOutCell);
    var timeCandidates := CollectTimeCandidates(RowTimes(row), totalIdx);
    if timeIn == "" && timeCandidates != [] {
      timeIn := SortBy(timeCandidates, TextBefore)[0].1;
    }
    if timeOut == "" && timeCandidates != [] {
      var otherTimes := OtherTimes(timeCandidates, timeIn);
      if otherTimes != [] {
        timeOut := MaxText(otherTimes);
      }
    }
  }

  /** The canonical row built from the cells of a data row. */
  method BuildRecord(row: seq<string>, keyIndices: map<ColumnKey, nat>, month: Option<nat>, year: Option<nat>)
    returns (rec: CanonicalRow)
    ensures rec == RowRecord(row, keyIndices, month, year)
  {
    var dateValue := BuildDate(DateCell(row, keyIndices), month, year);
    var timeIn, timeOut := ResolveTimes(CellFor(row, keyIndices, TimeInKey), CellFor(row, keyIndices, TimeOutKey),
                                        row, TotalIndex(keyIndices));
    var site := DisplayText(CellFor(row, keyIndices, SiteKey));
    var notes := DisplayText(CellFor(row, keyIndices, NotesKey));
    rec := CanonicalRow(dateValue, timeIn, timeOut, site, notes);
  }

  /** A built row applied to the state. */
  method ApplyRecord(st: TypeAState, rec: CanonicalRow, totalCell: string) returns (st': TypeAState)
    ensures st' == RecordStep(st, rec, totalCell)
  {
    st' := st;
    var hasRegularData := rec.timeIn != "" || rec.timeOut != "" || rec.site != "" || rec.notes != "";
    if totalCell != "" && !hasRegularData {
      if st'.total == "" {
        st' := st'.(total := totalCell);
      }
      return;
    }
    if !hasRegularData {
      return;
    }
    st' := st'.(records := st'.records + [rec]);
  }

  /** One data row of a table. */
  method ProcessRow(st: TypeAState, row: seq<string>, keyIndices: map<ColumnKey, nat>,
                    month: Option<nat>, year: Option<nat>) returns (st': TypeAState)
    ensures st' == RowStep(st, row, keyIndices, month, year)
  {
    if AllEmpty(row) {
      return st;
    }
    var rec := BuildRecord(row, keyIndices, month, year);
    var totalCell := TotalCell(row, keyIndices);
    st' := ApplyRecord(st, rec, totalCell);
  }

  /** The data rows of one table, in order. */
  method ProcessDataRows(st: TypeAState, dataRows: seq<seq<string>>, keyIndices: map<ColumnKey, nat>,
                         month: Option<nat>, year: Option<nat>) returns (st': TypeAState)
    ensures st' == DataRowsStep(st, dataRows, keyIndices, month, year, |dataRows|)
  {
    st' := st;
    for r := 0 to |dataRows|
      invariant st' == DataRowsStep(st, dataRows, keyIndices, month, year, r)
    {
      st' := ProcessRow(st', dataRows[r], keyIndices, month, year);
    }
  }

  /** One table: header detection, column mapping, then the data rows. */
  method ProcessTable(st: TypeAState, table: RawTable, month: Option<nat>, year: Option<nat>) returns (st': TypeAState)
    ensures st' == TableStep(st, table, month, year)
  {
    var normalizedRows := NormalizeRows(table);
    if |normalizedRows| < 2 {
      return st;
    }
    var headerIdx, headerHits := FindHeader(normalizedRows);
    if headerIdx.None? || headerHits < 2 || headerIdx.value >= |normalizedRows| {
      return st.(bad := st.bad + [HeaderNotFound]);
    }
    st' := ProcessHeaderedTable(st, normalizedRows, headerIdx.value, month, year);
  }

  method ProcessHeaderedTable(st: TypeAState, rows: seq<seq<string>>, h: nat, month: Option<nat>, year: Option<nat>)
    returns (st': TypeAState)
    requires h < |rows|
    ensures st' == HeaderedTableStep(st, rows, h, month, year)
  {
    var tableHeaders := TableHeaders(rows[h]);
    var dataRows := rows[h + 1..];
    var st1 := if st.headers == [] then st.(headers := tableHeaders) else st;
    var keyMap := Keys(tableHeaders);
    var keyIndices := KeyIndices(keyMap);
    st' := ProcessDataRows(st1, dataRows, keyIndices, month, year);
  }

  /** The tables of one page, in order. */
  method ProcessPage(st: TypeAState, tables: seq<RawTable>, month: Option<nat>, year: Option<nat>) returns (st': TypeAState)
    ensures st' == TablesStep(st, tables, month, year)
  {
    st' := st;
    for t := 0 to |tables|
      invariant st' == TablesStep(st, tables[..t], month, year)
    {
      assert tables[..t + 1][..t] == tables[..t];
      st' := ProcessTable(st', tables[t], month, year);
    }
    assert tables[..|tables|] == tables;
  }

  /** Walking two runs of tables one after the other is walking their concatenation. */
  lemma {:induction false} TablesStepAppend(st: TypeAState, xs: seq<RawTable>, ys: seq<RawTable>, month: Option<nat>, year: Option<nat>)
    ensures TablesStep(st, xs + ys, month, year) == TablesStep(TablesStep(st, xs, month, year), ys, month, year)
  {
    if ys == [] {
      assert xs + ys == xs;
    } else {
      assert (xs + ys)[..|xs + ys| - 1] == xs + ys[..|ys| - 1];
      TablesStepAppend(st, xs, ys[..|ys| - 1], month, year);
    }
  }

  /** `_parse_type_a_tables_canonical` over the tables of every page. */
  method ParseTypeA(pages: seq<seq<RawTable>>, month: Option<nat>, year: Option<nat>)
    returns (records: seq<CanonicalRow>, totalRowValue: string, bad: seq<Issue>, headers: seq<string>)
    ensures TypeAState(records, totalRowValue, bad, headers) == ParseTypeASpec(pages, month, year)
  {
    var st := StartState;
    for p := 0 to |pages|
      invariant st == TablesStep(StartState, AllTables(pages[..p]), month, year)
    {
      assert pages[..p + 1][..p] == pages[..p];
      TablesStepAppend(StartState, AllTables(pages[..p]), pages[p], month, year);
      st := ProcessPage(st, pages[p], month, year);
    }
    assert pages[..|pages|] == pages;
    records, totalRowValue, bad, headers := st.records, st.total, st.bad, st.headers;
  }

  // ---------------------------------------------------------------- properties

  /**
   * As written, the walker reads the date only from a `date` column: a table whose date column is
   * headed `יום` ("day") maps that column to the day key, and every row it builds has an empty date.
   */
  lemma DayColumnIgnored(row: seq<string>, keyIndices: map<ColumnKey, nat>, month: Option<nat>, year: Option<nat>)
    requires DateKey !in keyIndices
    ensures RowRecord(row, keyIndices, month, year).date == ""
  {
    EmptyCellNoDate(month, year);
  }

  lemma EmptyCellNoDate(month: Option<nat>, year: Option<nat>)
    ensures BuildDate("", month, year) == ""
  {
    assert Strip("") == "";
  }

  /**
   * With the day column used when there is no date column, a day cell holding no full date and a
   * day number 1..31 gives, with the month context, the canonical `DD.MM.YYYY` date of that day.
   */
  lemma DayColumnUsed(row: seq<string>, keyIndices: map<ColumnKey, nat>, d: nat, month: nat, year: nat)
    requires DateKey !in keyIndices && DayKey in keyIndices && keyIndices[DayKey] < |row|
    requires NormalizeDate(row[keyIndices[DayKey]]) == "" && ExtractDayFromCell(row[keyIndices[DayKey]]) == Some(d)
    requires month < 100 && 1000 <= year < 10000
    ensures RowRecordIntended(row, keyIndices, Some(month), Some(year)).date == JoinDate(d, month, year)
    ensures ParseCanonical(RowRecordIntended(row, keyIndices, Some(month), Some(year)).date) == Some(Date(d, month, year))
  {
    JoinDateParses(d, month, year);
  }

  /** A day column of one or two digits naming a day 1..31 is such a cell, as the table test has it. */
  lemma DayColumnDigits(row: seq<string>, keyIndices: map<ColumnKey, nat>, month: nat, year: nat)
    requires DateKey !in keyIndices && DayKey in keyIndices && keyIndices[DayKey] < |row|
    requires var s := row[keyIndices[DayKey]]; AllDigits(s) && 1 <= |s| <= 2 && 1 <= DigitsValue(s) <= 31
    ensures RowRecordIntended(row, keyIndices, Some(month), Some(year)).date
            == JoinDate(DigitsValue(row[keyIndices[DayKey]]), month, year)
  {
    BuildDateDayOnly(row[keyIndices[DayKey]], month, year);
  }

  /** A time the walker writes is empty or `HH:MM`. */
  predicate ClockOrEmpty(t: string) { t == "" || IsClock(t) }

  /** Every candidate's time and the times of the row's own columns are clock times or empty. */
  lemma FillTimesClock(timeIn: string, timeOut: string, cands: seq<TimeCandidate>)
    requires ClockOrEmpty(timeIn) && ClockOrEmpty(timeOut)
    requires forall k :: 0 <= k < |cands| ==> IsClock(cands[k].1)
    ensures ClockOrEmpty(FillTimes(timeIn, timeOut, cands).0) && ClockOrEmpty(FillTimes(timeIn, timeOut, cands).1)
  {
    var (tIn, tOut) := FillTimes(timeIn, timeOut, cands);
    if timeIn == "" && cands != [] {
      FillTimesEarliest(timeOut, cands);
    }
    FillTimesLatest(tIn, cands);
    if timeOut == "" {
      assert FillTimes(tIn, "", cands).1 == tOut by {
        if timeIn == "" && cands != [] { FillTimesEarliest(timeOut, cands); }
      }
    }
  }

  /** The candidates of a row are clock times. */
  lemma CandidatesAreClocks(row: seq<string>, totalIdx: Option<nat>)
    ensures forall k :: 0 <= k < |TimeCandidates(RowTimes(row), totalIdx, |row|)| ==>
              IsClock(TimeCandidates(RowTimes(row), totalIdx, |row|)[k].1)
  {
  }

  /** A record the walker keeps: some regular data, and times that are `HH:MM` or empty. */
  predicate GoodRecord(r: CanonicalRow) {
    HasRegularData(r) && ClockOrEmpty(r.timeIn) && ClockOrEmpty(r.timeOut)
  }

  predicate GoodRecords(st: TypeAState) { forall i :: 0 <= i < |st.records| ==> GoodRecord(st.records[i]) }

  /** The times of a built row are clock times or empty. */
  lemma RowRecordTimes(row: seq<string>, keyIndices: map<ColumnKey, nat>, month: Option<nat>, year: Option<nat>)
    ensures ClockOrEmpty(RowRecord(row, keyIndices, month, year).timeIn)
    ensures ClockOrEmpty(RowRecord(row, keyIndices, month, year).timeOut)
  {
    CandidatesAreClocks(row, TotalIndex(keyIndices));
    FillTimesClock(NormalizeTime(CellFor(row, keyIndices, TimeInKey)), NormalizeTime(CellFor(row, keyIndices, TimeOutKey)),
                   TimeCandidates(RowTimes(row), TotalIndex(keyIndices), |row|));
  }

  /**
   * What one step may do to the state: records and issues are only appended, a captured total
   * and the first headers are never replaced.
   */
  predicate Extends(st: TypeAState, st': TypeAState) {
    && st.records <= st'.records
    && st.bad <= st'.bad
    && (st.total != "" ==> st'.total == st.total)
    && (st.headers != [] ==> st'.headers == st.headers)
  }

  lemma ExtendsTransitive(a: TypeAState, b: TypeAState, c: TypeAState)
    requires Extends(a, b) && Extends(b, c)
    ensures Extends(a, c)
  {
  }

  lemma RecordStepKeeps(st: TypeAState, rec: CanonicalRow, totalCell: string)
    requires ClockOrEmpty(rec.timeIn) && ClockOrEmpty(rec.timeOut)
    ensures var st' := RecordStep(st, rec, totalCell);
            Extends(st, st') && (GoodRecords(st) ==> GoodRecords(st')) && st'.bad == st.bad && st'.headers == st.headers
  {
  }

  /**
   * What one built row does: the total is set exactly when none was set and the row carries only
   * a total, and the record is appended exactly when it has regular data.
   */
  lemma RecordStepCases(st: TypeAState, rec: CanonicalRow, totalCell: string)
    ensures var st' := RecordStep(st, rec, totalCell);
            && (st'.total != st.total <==> st.total == "" && totalCell != "" && !HasRegularData(rec))
            && (st'.total != st.total ==> st'.total == totalCell)
            && (HasRegularData(rec) ==> st'.records == st.records + [rec])
            && (!HasRegularData(rec) ==> st'.records == st.records)
            && st'.bad == st.bad && st'.headers == st.headers
  {
  }

  lemma RowStepKeeps(st: TypeAState, row: seq<string>, keyIndices: map<ColumnKey, nat>, month: Option<nat>, year: Option<nat>)
    ensures var st' := RowStep(st, row, keyIndices, month, year);
            Extends(st, st') && (GoodRecords(st) ==> GoodRecords(st')) && st'.bad == st.bad && st'.headers == st.headers
  {
    if !AllEmpty(row) {
      RowRecordTimes(row, keyIndices, month, year);
      RecordStepKeeps(st, RowRecord(row, keyIndices, month, year), TotalCell(row, keyIndices));
    }
  }

  lemma {:induction false} DataRowsKeep(st: TypeAState, rows: seq<seq<string>>, keyIndices: map<ColumnKey, nat>,
                                        month: Option<nat>, year: Option<nat>, n: nat)
    requires n <= |rows|
    ensures var st' := DataRowsStep(st, rows, keyIndices, month, year, n);
            Extends(st, st') && (GoodRecords(st) ==> GoodRecords(st')) && st'.bad == st.bad && st'.headers == st.headers
  {
    if n > 0 {
      var mid := DataRowsStep(st, rows, keyIndices, month, year, n - 1);
      DataRowsKeep(st, rows, keyIndices, month, year, n - 1);
      RowStepKeeps(mid, rows[n - 1], keyIndices, month, year);
      ExtendsTransitive(st, mid, DataRowsStep(st, rows, keyIndices, month, year, n));
    }
  }

  /** `st'` has the records of `st` and after them only undated ones. */
  predicate AddsUndated(st: TypeAState, st': TypeAState) {
    st.records <= st'.records && forall i :: |st.records| <= i < |st'.records| ==> st'.records[i].date == ""
  }

  lemma RecordStepUndated(st: TypeAState, rec: CanonicalRow, totalCell: string)
    requires rec.date == ""
    ensures AddsUndated(st, RecordStep(st, rec, totalCell))
  {
  }

  lemma AddsUndatedTransitive(a: TypeAState, b: TypeAState, c: TypeAState)
    requires AddsUndated(a, b) && AddsUndated(b, c)
    ensures AddsUndated(a, c)
  {
  }

  /** As written, the data rows of a table without a `date` column add only undated records. */
  lemma {:induction false} DataRowsUndated(st: TypeAState, rows: seq<seq<string>>, keyIndices: map<ColumnKey, nat>,
                                           month: Option<nat>, year: Option<nat>, n: nat)
    requires n <= |rows| && DateKey !in keyIndices
    ensures AddsUndated(st, DataRowsStep(st, rows, keyIndices, month, year, n))
  {
    if n > 0 {
      var mid := DataRowsStep(st, rows, keyIndices, month, year, n - 1);
      DataRowsUndated(st, rows, keyIndices, month, year, n - 1);
      var row := rows[n - 1];
      if !AllEmpty(row) {
        DayColumnIgnored(row, keyIndices, month, year);
        RecordStepUndated(mid, RowRecord(row, keyIndices, month, year), TotalCell(row, keyIndices));
      }
      AddsUndatedTransitive(st, mid, DataRowsStep(st, rows, keyIndices, month, year, n));
    }
  }

  /** As written, a table whose headers carry no date column adds only undated records. */
  lemma HeaderedTableUndated(st: TypeAState, rows: seq<seq<string>>, h: nat, month: Option<nat>, year: Option<nat>)
    requires h < |rows|
    requires forall c :: c in TableHeaders(rows[h]) ==> HeaderKey(c) != DateKey
    ensures AddsUndated(st, HeaderedTableStep(st, rows, h, month, year))
  {
    var headers := TableHeaders(rows[h]);
    var st1 := if st.headers == [] then st.(headers := headers) else st;
    var keys := Keys(headers);
    KeyIndexFirst(keys, |keys|);
    var keyIndices := KeyIndexUpTo(keys, |keys|);
    assert DateKey !in keyIndices;
    DataRowsUndated(st1, rows[h + 1..], keyIndices, month, year, |rows[h + 1..]|);
  }

  lemma TableStepKeeps(st: TypeAState, table: RawTable, month: Option<nat>, year: Option<nat>)
    ensures Extends(st, TableStep(st, table, month, year))
    ensures GoodRecords(st) ==> GoodRecords(TableStep(st, table, month, year))
  {
    var rows := NormalizedRows(table, |table|);
    if |rows| >= 2 {
      var (idx, hits) := BestHeader(RowScores(rows), |rows|);
      if !(idx.None? || hits < 2 || idx.value >= |rows|) {
        HeaderedTableKeeps(st, rows, idx.value, month, year);
      }
    }
  }

  lemma HeaderedTableKeeps(st: TypeAState, rows: seq<seq<string>>, h: nat, month: Option<nat>, year: Option<nat>)
    requires h < |rows|
    ensures var st' := HeaderedTableStep(st, rows, h, month, year);
            && Extends(st, st') && (GoodRecords(st) ==> GoodRecords(st')) && st'.bad == st.bad
            && st'.headers == (if st.headers == [] then TableHeaders(rows[h]) else st.headers)
  {
    var headers := TableHeaders(rows[h]);
    var st1 := if st.headers == [] then st.(headers := headers) else st;
    var keys := Keys(headers);
    var dataRows := rows[h + 1..];
    DataRowsKeep(st1, dataRows, KeyIndexUpTo(keys, |keys|), month, year, |dataRows|);
  }

  lemma {:induction false} TablesStepKeeps(st: TypeAState, tables: seq<RawTable>, month: Option<nat>, year: Option<nat>)
    ensures Extends(st, TablesStep(st, tables, month, year))
    ensures GoodRecords(st) ==> GoodRecords(TablesStep(st, tables, month, year))
  {
    if tables != [] {
      var mid := TablesStep(st, tables[..|tables| - 1], month, year);
      TablesStepKeeps(st, tables[..|tables| - 1], month, year);
      TableStepKeeps(mid, tables[|tables| - 1], month, year);
      ExtendsTransitive(st, mid, TablesStep(st, tables, month, year));
    }
  }

  /** Every record `_parse_type_a_tables_canonical` returns has regular data and clock-or-empty times. */
  lemma ParseTypeARecords(pages: seq<seq<RawTable>>, month: Option<nat>, year: Option<nat>)
    ensures GoodRecords(ParseTypeASpec(pages, month, year))
  {
    TablesStepKeeps(StartState, AllTables(pages), month, year);
  }

  /**
   * Pages are walked in order: the records, issues, total and headers of a document extend those
   * of any leading run of its pages.
   */
  lemma ParseTypeAPrefix(pages: seq<seq<RawTable>>, p: nat, month: Option<nat>, year: Option<nat>)
    requires p <= |pages|
    ensures Extends(ParseTypeASpec(pages[..p], month, year), ParseTypeASpec(pages, month, year))
  {
    AllTablesAppend(pages[..p], pages[p..]);
    assert pages[..p] + pages[p..] == pages;
    TablesStepAppend(StartState, AllTables(pages[..p]), AllTables(pages[p..]), month, year);
    ParseTypeARecords(pages[..p], month, year);
    TablesStepKeeps(ParseTypeASpec(pages[..p], month, year), AllTables(pages[p..]), month, year);
  }

  lemma {:induction false} AllTablesAppend(xs: seq<seq<RawTable>>, ys: seq<seq<RawTable>>)
    ensures AllTables(xs + ys) == AllTables(xs) + AllTables(ys)
  {
    if ys == [] {
      assert xs + ys == xs;
    } else {
      assert (xs + ys)[..|xs + ys| - 1] == xs + ys[..|ys| - 1];
      AllTablesAppend(xs, ys[..|ys| - 1]);
    }
  }

  /** The header row of a table is the first row with the most header-token hits. */
  lemma TableHeaderFirstMaximum(table: RawTable)
    ensures var rows := NormalizedRows(table, |table|);
            var scores := RowScores(rows);
            var (idx, hits) := BestHeader(scores, |rows|);
            FirstMaximum(scores, |rows|, idx, hits)
  {
    var rows := NormalizedRows(table, |table|);
    BestHeaderFirstMaximum(RowScores(rows), |rows|);
  }

  /** A table of two rows or more where no row reaches two hits adds one `header_not_found` issue and nothing else. */
  lemma TableWithoutHeader(st: TypeAState, table: RawTable, month: Option<nat>, year: Option<nat>)
    requires |NormalizedRows(table, |table|)| >= 2
    requires forall i :: 0 <= i < |NormalizedRows(table, |table|)| ==> RowHits(NormalizedRows(table, |table|)[i]) < 2
    ensures TableStep(st, table, month, year) == st.(bad := st.bad + [HeaderNotFound])
  {
    TableHeaderFirstMaximum(table);
  }

  /** The first table with a header row gives the document's headers: its header row's cells, `COL_n` for empty ones. */
  lemma TableWithHeader(st: TypeAState, table: RawTable, month: Option<nat>, year: Option<nat>, i: nat)
    requires |NormalizedRows(table, |table|)| >= 2
    requires i < |NormalizedRows(table, |table|)| && RowHits(NormalizedRows(table, |table|)[i]) >= 2
    requires st.headers == []
    ensures var rows := NormalizedRows(table, |table|);
            var idx := BestHeader(RowScores(rows), |rows|).0;
            && idx.Some? && idx.value < |rows|
            && TableStep(st, table, month, year).headers == TableHeaders(rows[idx.value])
            && TableStep(st, table, month, year).bad == st.bad
  {
    var rows := NormalizedRows(table, |table|);
    var scores := RowScores(rows);
    BestHeaderFirstMaximum(scores, |rows|);
    var idx := BestHeader(scores, |rows|).0;
    assert scores[i] >= 2;
    assert idx.Some? && idx.value < |rows|;
    assert TableStep(st, table, month, year) == HeaderedTableStep(st, rows, idx.value, month, year);
    HeaderedTableKeeps(st, rows, idx.value, month, year);
  }
}
