/**
 * `build_changes_sheet`: the site's spreadsheet compared with the user's own ledger sheet. The
 * ledger is the reference: where its entry or exit cell is empty and the site has a time, the
 * cell is filled in (a patch, not a change); where the two still disagree, a change row is
 * written with the signed difference of worked minutes, and a total closes the sheet.
 */
module SyncReconcile {
  import opened Wrappers
  import opened Text
  import opened Dates
  import opened PdfTime
  import opened SyncTime
  import opened ExcelSource

  // ---------------------------------------------------------------- the site table

  /** `df.columns.get_loc(name)` for a label present once or more: its first position. */
  function ColumnIndex(columns: seq<string>, name: string): (r: nat)
    requires name in columns
    ensures r < |columns| && columns[r] == name
    ensures forall j :: 0 <= j < r ==> columns[j] != name
  {
    if columns[0] == name then 0 else 1 + ColumnIndex(columns[1..], name)
  }

  /** One site row after `df[["תאריך", "כניסה", "יציאה"]]`. */
  datatype SiteRow = SiteRow(date: CellValue, timeIn: CellValue, timeOut: CellValue)

  function SiteRowOf(columns: seq<string>, row: seq<CellValue>): SiteRow
    requires HasRequired(columns) && |row| == |columns|
  {
    assert RequiredColumns[0] in columns && RequiredColumns[1] in columns && RequiredColumns[2] in columns;
    SiteRow(row[ColumnIndex(columns, RequiredColumns[0])], row[ColumnIndex(columns, RequiredColumns[1])],
            row[ColumnIndex(columns, RequiredColumns[2])])
  }

  /** The first `n` sheet rows, projected on the three columns, without those whose date is missing. */
  function SiteRowsUpTo(sheet: Sheet, n: nat): (r: seq<SiteRow>)
    requires Rectangular(sheet) && HasRequired(sheet.columns) && n <= |sheet.rows|
    ensures |r| <= n && forall k :: 0 <= k < |r| ==> !IsNA(r[k].date)
  {
    if n == 0 then []
    else
      var prev := SiteRowsUpTo(sheet, n - 1);
      var row := SiteRowOf(sheet.columns, sheet.rows[n - 1]);
      if IsNA(row.date) then prev else prev + [row]
  }

  /** `df[["תאריך", "כניסה", "יציאה"]].dropna(subset=["תאריך"])`. */
  function SiteRows(sheet: Sheet): seq<SiteRow>
    requires Rectangular(sheet) && HasRequired(sheet.columns)
  {
    SiteRowsUpTo(sheet, |sheet.rows|)
  }

  /** `str(v).split()[0]`: the first whitespace-separated word, `None` where `split()` is empty. */
  function FirstWord(s: string): (r: Option<string>)
    ensures r.Some? ==> r.value != [] && NoSpace(r.value)
    ensures r.None? <==> forall k :: 0 <= k < |s| ==> IsSpace(s[k])
  {
    if s == [] then None
    else if IsSpace(s[0]) then FirstWord(s[1..])
    else Some(WordPrefix(s))
  }

  /** The word `split()[0]` gives starts after the leading white space and runs to the next. */
  lemma {:induction false} FirstWordAt(s: string) returns (k: nat)
    requires FirstWord(s).Some?
    ensures k < |s| && !IsSpace(s[k]) && (forall j :: 0 <= j < k ==> IsSpace(s[j]))
    ensures FirstWord(s).value == WordPrefix(s[k..])
  {
    if IsSpace(s[0]) {
      var m := FirstWordAt(s[1..]);
      k := m + 1;
      assert s[k..] == s[1..][m..];
      forall j | 0 < j < k ensures IsSpace(s[j]) { assert s[j] == s[1..][j - 1]; }
    } else {
      k := 0;
    }
  }

  /** The characters up to the first white space. */
  function WordPrefix(s: string): (r: string)
    requires s != [] && !IsSpace(s[0])
    ensures r != [] && NoSpace(r) && r <= s
    ensures |r| == |s| || IsSpace(s[|r|])
  {
    if |s| == 1 || IsSpace(s[1]) then [s[0]] else [s[0]] + WordPrefix(s[1..])
  }

  /** `YYYY-MM-DD`, the text of a timestamp cell, read year first. */
  function ParseIso(raw: string): (r: Option<Date>)
    ensures r.Some? ==> ValidDate(r.value)
  {
    if |raw| == 10 && raw[4] == '-' && raw[7] == '-' && AllDigits(raw[..4]) && AllDigits(raw[5..7]) && AllDigits(raw[8..])
    then
      var d := Date(DigitsValue(raw[8..]), DigitsValue(raw[5..7]), DigitsValue(raw[..4]));
      if ValidDate(d) then Some(d) else None
    else None
  }

  /**
   * `pd.to_datetime(raw_date, dayfirst=True)` on the first word of a site date cell: an ISO
   * date read year first, any other `D.M.Y` text day first; `None` where pandas raises.
   */
  function SiteDate(raw: string): (r: Option<Date>)
    ensures r.Some? ==> ValidDate(r.value)
  {
    if ParseIso(raw).Some? then ParseIso(raw) else ToDatetimeDayFirst(raw)
  }

  /** The first word of a text is the word itself when it is followed by white space or nothing. */
  lemma {:induction false} WordPrefixOf(w: string, rest: string)
    requires w != [] && NoSpace(w) && (rest == [] || IsSpace(rest[0]))
    ensures WordPrefix(w + rest) == w
  {
    if |w| > 1 {
      assert (w + rest)[1..] == w[1..] + rest;
      WordPrefixOf(w[1..], rest);
    }
  }

  /** `YYYY-MM-DD` of a valid date splits into its three digit groups. */
  lemma IsoParts(d: Date, y: string, m: string, dd: string)
    requires ValidDate(d) && y == NatToString(d.year) && m == Pad2(d.month) && dd == Pad2(d.day)
    ensures IsoDate(d) == y + "-" + m + "-" + dd
    ensures |y| == 4 && |m| == 2 && |dd| == 2 && AllDigits(y) && AllDigits(m) && AllDigits(dd)
    ensures DigitsValue(y) == d.year && DigitsValue(m) == d.month && DigitsValue(dd) == d.day
  {
    NatToStringLength(d.year);
    NatToStringValue(d.year);
    Pad2Value(d.month);
    Pad2Value(d.day);
  }

  /** A timestamp cell's `str()` starts with its ISO date, which reads back as the same date. */
  lemma SiteDateStamp(d: Date)
    requires ValidDate(d)
    ensures FirstWord(PyStr(Stamp(d))) == Some(IsoDate(d))
    ensures SiteDate(IsoDate(d)) == Some(d)
  {
    var y, m, dd := NatToString(d.year), Pad2(d.month), Pad2(d.day);
    IsoParts(d, y, m, dd);
    var iso := IsoDate(d);
    assert iso[..4] == y && iso[5..7] == m && iso[8..] == dd;
    assert NoSpace(iso) by {
      forall i | 0 <= i < |iso| ensures !IsSpace(iso[i]) {
        if i < 4 { assert iso[i] == y[i]; }
        else if 4 < i < 7 { assert iso[i] == m[i - 5]; }
        else if i > 7 { assert iso[i] == dd[i - 8]; }
      }
    }
    assert iso[0] == y[0];
    WordPrefixOf(iso, " 00:00:00");
  }

  /** `_norm_time(r[...])` on a site cell: `None` stays missing, any other value by its `str()`. */
  function SiteTime(v: CellValue): (r: string)
    ensures r == "" || IsClock(r)
  {
    NormTime(if v.NoneValue? then None else Some(PyStr(v)))
  }

  // ---------------------------------------------------------------- the ledger index

  /** `base_by_date[date] = (row_num, my_in, my_out)`. */
  datatype Entry = Entry(rowNum: nat, myIn: string, myOut: string)

  /** What one ledger row contributes: nothing, or its date with its normalized times. */
  datatype LedgerRow = Undated | Dated(date: string, myIn: string, myOut: string)

  predicate TimeOrEmpty(t: string) { t == "" || IsClock(t) }

  /** `row[k] if len(row) > k else ""`. */
  function CellAt(row: seq<string>, k: nat): string {
    if |row| > k then row[k] else ""
  }

  /**
   * A row shorter than two cells, or whose column B is blank, is skipped; otherwise column B
   * stripped is its date, and columns C and D through `_norm_time` its entry and exit.
   */
  function ReadRow(row: seq<string>): (r: LedgerRow)
    ensures r.Undated? <==> |row| < 2 || Strip(row[1]) == ""
    ensures r.Dated? ==> r.date == Strip(row[1]) && TimeOrEmpty(r.myIn) && TimeOrEmpty(r.myOut)
  {
    if |row| < 2 || Strip(row[1]) == "" then Undated
    else Dated(Strip(row[1]), NormTime(Some(CellAt(row, 2))), NormTime(Some(CellAt(row, 3))))
  }

  /** `[f(x) for x in s]`. */
  function MapSeq<A, B>(s: seq<A>, f: A -> B): (r: seq<B>)
    ensures |r| == |s| && forall i :: 0 <= i < |s| ==> r[i] == f(s[i])
  {
    if s == [] then [] else MapSeq(s[..|s| - 1], f) + [f(s[|s| - 1])]
  }

  function ReadLedger(ledger: seq<seq<string>>): seq<LedgerRow> {
    MapSeq(ledger, ReadRow)
  }

  /** The rows hold `HH:MM` times or "" and no empty date. */
  predicate RowsClean(rows: seq<LedgerRow>) {
    forall i :: 0 <= i < |rows| && rows[i].Dated? ==>
      rows[i].date != "" && TimeOrEmpty(rows[i].myIn) && TimeOrEmpty(rows[i].myOut)
  }

  /** The index after the first `n` rows: undated rows are skipped, a later row wins. */
  function IndexUpTo(rows: seq<LedgerRow>, n: nat): (r: map<string, Entry>)
    requires n <= |rows|
    ensures RowsClean(rows) ==> IndexClean(r) && "" !in r
  {
    if n == 0 then map[]
    else
      var prev := IndexUpTo(rows, n - 1);
      match rows[n - 1]
      case Undated => prev
      case Dated(date, myIn, myOut) => prev[date := Entry(n, myIn, myOut)]
  }

  /** `base_by_date`: normalized times only, and never an empty date. */
  function LedgerIndex(ledger: seq<seq<string>>): (r: map<string, Entry>)
    ensures IndexClean(r) && "" !in r
  {
    IndexUpTo(ReadLedger(ledger), |ledger|)
  }

  /** Every entry holds normalized times. */
  predicate IndexClean(index: map<string, Entry>) {
    forall key :: key in index ==> TimeOrEmpty(index[key].myIn) && TimeOrEmpty(index[key].myOut)
  }

  /** The loop building `base_by_date`. */
  method BuildIndex(ledger: seq<seq<string>>) returns (index: map<string, Entry>)
    ensures index == LedgerIndex(ledger)
  {
    ghost var rows := ReadLedger(ledger);
    index := map[];
    assert forall n :: 0 <= n < |ledger| ==> rows[n] == ReadRow(ledger[n]);
    for n := 0 to |ledger|
      invariant index == IndexUpTo(rows, n)
    {
      match ReadRow(ledger[n])
      case Undated =>
      case Dated(dateCell, myIn, myOut) =>
        index := index[dateCell := Entry(n + 1, myIn, myOut)];
    }
  }

  /** The index holds exactly the dates of the dated rows. */
  lemma {:induction false} IndexKeys(rows: seq<LedgerRow>, n: nat, key: string)
    requires n <= |rows|
    ensures key in IndexUpTo(rows, n) <==> exists i :: 0 <= i < n && rows[i].Dated? && rows[i].date == key
  {
    if n > 0 {
      IndexKeys(rows, n - 1, key);
    }
  }

  /** A date of the index is kept with the entry of a row carrying it: its 1-based number and times. */
  lemma {:induction false} IndexEntry(rows: seq<LedgerRow>, n: nat, key: string)
    requires n <= |rows| && key in IndexUpTo(rows, n)
    ensures var e := IndexUpTo(rows, n)[key];
            1 <= e.rowNum <= n && rows[e.rowNum - 1] == Dated(key, e.myIn, e.myOut)
  {
    if !(rows[n - 1].Dated? && rows[n - 1].date == key) {
      IndexEntry(rows, n - 1, key);
    }
  }

  /** That row is the LAST one carrying the date: a later row with the same date replaces it. */
  lemma {:induction false} IndexLast(rows: seq<LedgerRow>, n: nat, key: string)
    requires n <= |rows| && key in IndexUpTo(rows, n)
    ensures forall j :: IndexUpTo(rows, n)[key].rowNum <= j < n ==> !(rows[j].Dated? && rows[j].date == key)
  {
    IndexEntry(rows, n, key);
    if !(rows[n - 1].Dated? && rows[n - 1].date == key) {
      IndexLast(rows, n - 1, key);
    }
  }

  /** Every entry of `index` points at a row of `rows` carrying its date. */
  predicate EntriesOnRows(index: map<string, Entry>, rows: seq<LedgerRow>) {
    forall key :: key in index ==>
      1 <= index[key].rowNum <= |rows| && rows[index[key].rowNum - 1] == Dated(key, index[key].myIn, index[key].myOut)
  }

  lemma {:induction false} IndexOnRows(rows: seq<LedgerRow>, n: nat)
    requires n <= |rows|
    ensures EntriesOnRows(IndexUpTo(rows, n), rows)
  {
    if n > 0 {
      IndexOnRows(rows, n - 1);
      if rows[n - 1].Dated? {
        var e := Entry(n, rows[n - 1].myIn, rows[n - 1].myOut);
        EntriesOnRowsUpdate(IndexUpTo(rows, n - 1), rows, rows[n - 1].date, e);
      }
    }
  }

  lemma EntriesOnRowsUpdate(index: map<string, Entry>, rows: seq<LedgerRow>, date: string, e: Entry)
    requires EntriesOnRows(index, rows) && 1 <= e.rowNum <= |rows| && rows[e.rowNum - 1] == Dated(date, e.myIn, e.myOut)
    ensures EntriesOnRows(index[date := e], rows)
  {
  }

  /** Two dates of an index whose entries point at their rows never share a ledger row. */
  lemma EntriesDistinct(index: map<string, Entry>, rows: seq<LedgerRow>)
    requires EntriesOnRows(index, rows)
    ensures RowsDistinct(index)
  {
  }

  // ---------------------------------------------------------------- one site row

  /** `{"range": f"{column}{row_num}", "values": [[value]]}`. */
  datatype Patch = Patch(column: char, rowNum: nat, value: string)

  /** `[date, my_in, my_out, site_in, site_out, diff_str, diff_minutes, cmp_in, cmp_out]`. */
  datatype ChangeRow = ChangeRow(
    date: string, myIn: string, myOut: string, siteIn: string, siteOut: string,
    diffStr: string, diffMinutes: Option<int>, cmpIn: int, cmpOut: int)

  /** The loop's state: `changes_rows`, `base_updates` and `updated_my_cache`. */
  datatype Pass = Pass(changes: seq<ChangeRow>, updates: seq<Patch>, cache: map<string, (string, string)>)

  predicate CacheClean(cache: map<string, (string, string)>) {
    forall key :: key in cache ==> TimeOrEmpty(cache[key].0) && TimeOrEmpty(cache[key].1)
  }

  /** The first date variant found in the index: `DD.MM.YYYY`, then `DD/MM/YYYY`. */
  function FindVariant(index: map<string, Entry>, d: Date): (r: Option<string>)
    ensures r.Some? ==> r.value in index && (r.value == FormatDate(d) || r.value == FormatDateSep(d, '/'))
    ensures r.None? ==> FormatDate(d) !in index && FormatDateSep(d, '/') !in index
    ensures r.Some? && r.value != FormatDate(d) ==> FormatDate(d) !in index
  {
    if FormatDate(d) in index then Some(FormatDate(d))
    else if FormatDateSep(d, '/') in index then Some(FormatDateSep(d, '/'))
    else None
  }

  /** The gap fill: the site's time where the ledger has none, else the ledger's. */
  function Fill(mine: string, site: string): (r: string)
    ensures mine != "" ==> r == mine
    ensures mine == "" ==> r == site
  {
    if mine == "" && site != "" then site else mine
  }

  /** The patches of one row: column C when the entry is filled, then column D for the exit. */
  function FillPatches(rowNum: nat, myIn: string, myOut: string, siteIn: string, siteOut: string): seq<Patch> {
    (if myIn == "" && siteIn != "" then [Patch('C', rowNum, siteIn)] else [])
    + (if myOut == "" && siteOut != "" then [Patch('D', rowNum, siteOut)] else [])
  }

  /**
   * `cmp_in` / `cmp_out`: 0 unless both times exist and differ; then -1 when the site's is
   * earlier and 1 when it is later. `_time_to_minutes` of an `HH:MM` text is its clock minutes
   * (`SyncTime.TimeToMinutesClock`).
   */
  function Compare(mine: string, site: string): (c: int)
    requires TimeOrEmpty(mine) && TimeOrEmpty(site)
    ensures c == 0 <==> mine == "" || site == "" || mine == site
    ensures c == -1 <==> mine != "" && site != "" && ClockMinutes(site) < ClockMinutes(mine)
    ensures c == 1 <==> mine != "" && site != "" && ClockMinutes(mine) < ClockMinutes(site)
  {
    if mine != "" && site != "" && mine != site then
      ClockMinutesInjective(mine, site);
      if ClockMinutes(site) < ClockMinutes(mine) then -1 else 1
    else 0
  }

  /** Worked minutes of the site minus worked minutes of the ledger, when all four times exist. */
  function Diff(myIn: string, myOut: string, siteIn: string, siteOut: string): (d: Option<int>)
    requires TimeOrEmpty(myIn) && TimeOrEmpty(myOut) && TimeOrEmpty(siteIn) && TimeOrEmpty(siteOut)
    ensures d.Some? <==> myIn != "" && myOut != "" && siteIn != "" && siteOut != ""
  {
    if myIn != "" && myOut != "" && siteIn != "" && siteOut != "" then
      Some((ClockMinutes(siteOut) - ClockMinutes(siteIn)) - (ClockMinutes(myOut) - ClockMinutes(myIn)))
    else None
  }

  /** `diff_str`: the signed `±H:MM` of the difference, or "". */
  function DiffText(d: Option<int>): (r: string)
    ensures d.None? <==> r == ""
    ensures d.Some? ==> ParseSigned(r) == Some(d.value)
  {
    match d
    case None => ""
    case Some(v) =>
      SignedRoundTrip(v);
      MinutesToHHMMSigned(v)
  }

  function MakeChange(date: string, myIn: string, myOut: string, siteIn: string, siteOut: string): ChangeRow
    requires TimeOrEmpty(myIn) && TimeOrEmpty(myOut) && TimeOrEmpty(siteIn) && TimeOrEmpty(siteOut)
  {
    var d := Diff(myIn, myOut, siteIn, siteOut);
    ChangeRow(date, myIn, myOut, siteIn, siteOut, DiffText(d), d, Compare(myIn, siteIn), Compare(myOut, siteOut))
  }

  const IndexErrorMessage: string := "list index out of range"

  /**
   * One iteration over a site row already matched to ledger date `key`, with the site's times:
   * fill the gaps, remember them, and record a change row when the two still differ.
   */
  function Settle(index: map<string, Entry>, st: Pass, key: string, siteIn: string, siteOut: string): (r: Pass)
    requires key in index && IndexClean(index) && CacheClean(st.cache)
    requires TimeOrEmpty(siteIn) && TimeOrEmpty(siteOut)
    ensures CacheClean(r.cache)
  {
    var e := index[key];
    var mine := Mine(index, st.cache, key);
    var newIn, newOut := Fill(mine.0, siteIn), Fill(mine.1, siteOut);
    var patches := FillPatches(e.rowNum, mine.0, mine.1, siteIn, siteOut);
    var cache := if patches != [] then st.cache[key := (newIn, newOut)] else st.cache;
    var changes := if newIn == siteIn && newOut == siteOut then st.changes
                   else st.changes + [MakeChange(key, newIn, newOut, siteIn, siteOut)];
    Pass(changes, st.updates + patches, cache)
  }

  /** The ledger's times of a date as the loop sees them: the ones filled in earlier, if any. */
  function Mine(index: map<string, Entry>, cache: map<string, (string, string)>, key: string): (string, string)
    requires key in index
  {
    if key in cache then cache[key] else (index[key].myIn, index[key].myOut)
  }

  /** What one site row gives before the ledger is consulted. */
  datatype SiteRead =
    | Raises              // `str(date).split()` is empty: `[0]` raises IndexError
    | Undatable           // `pd.to_datetime` raises: the row is skipped
    | OnDate(date: Date, siteIn: string, siteOut: string)

  /** The date and the two times of a site row, as steps 3 and 3a read them. */
  function ReadSite(row: SiteRow): (r: SiteRead)
    ensures r.OnDate? ==> ValidDate(r.date) && TimeOrEmpty(r.siteIn) && TimeOrEmpty(r.siteOut)
  {
    match FirstWord(PyStr(row.date))
    case None => Raises
    case Some(raw) =>
      match SiteDate(raw)
      case None => Undatable
      case Some(d) => OnDate(d, SiteTime(row.timeIn), SiteTime(row.timeOut))
  }

  predicate ReadsClean(readings: seq<SiteRead>) {
    forall i :: 0 <= i < |readings| && readings[i].OnDate? ==> TimeOrEmpty(readings[i].siteIn) && TimeOrEmpty(readings[i].siteOut)
  }

  function ReadSites(rows: seq<SiteRow>): (r: seq<SiteRead>)
    ensures |r| == |rows| && ReadsClean(r)
  {
    MapSeq(rows, ReadSite)
  }

  /** One iteration of the loop over the site rows; `Failure` where `split()[0]` raises. */
  function Step(index: map<string, Entry>, st: Pass, read: SiteRead): (r: Result<Pass>)
    requires IndexClean(index) && CacheClean(st.cache)
    requires read.OnDate? ==> TimeOrEmpty(read.siteIn) && TimeOrEmpty(read.siteOut)
    ensures r.Success? ==> CacheClean(r.value.cache)
  {
    match read
    case Raises => Failure(IndexErrorMessage)
    case Undatable => Success(st)
    case OnDate(d, siteIn, siteOut) =>
      match FindVariant(index, d)
      case None => Success(st)
      case Some(key) => Success(Settle(index, st, key, siteIn, siteOut))
  }

  const Start: Pass := Pass([], [], map[])

  /** The loop over the first `n` site rows. */
  function PassUpTo(index: map<string, Entry>, readings: seq<SiteRead>, n: nat): (r: Result<Pass>)
    requires IndexClean(index) && ReadsClean(readings) && n <= |readings|
    ensures r.Success? ==> CacheClean(r.value.cache)
  {
    if n == 0 then Success(Start)
    else
      match PassUpTo(index, readings, n - 1)
      case Failure(e) => Failure(e)
      case Success(st) => Step(index, st, readings[n - 1])
  }

  // ---------------------------------------------------------------- the loop

  /** Step 3a: the site's times written into the ledger's empty cells. */
  method FillGaps(rowNum: nat, myIn: string, myOut: string, siteIn: string, siteOut: string, updates: seq<Patch>)
    returns (newIn: string, newOut: string, newUpdates: seq<Patch>, changedBase: bool)
    ensures newIn == Fill(myIn, siteIn) && newOut == Fill(myOut, siteOut)
    ensures newUpdates == updates + FillPatches(rowNum, myIn, myOut, siteIn, siteOut)
    ensures changedBase <==> FillPatches(rowNum, myIn, myOut, siteIn, siteOut) != []
  {
    newIn, newOut, newUpdates, changedBase := myIn, myOut, updates, false;
    if myIn == "" && siteIn != "" {
      newUpdates := newUpdates + [Patch('C', rowNum, siteIn)];
      newIn := siteIn;
      changedBase := true;
    }
    if myOut == "" && siteOut != "" {
      newUpdates := newUpdates + [Patch('D', rowNum, siteOut)];
      newOut := siteOut;
      changedBase := true;
    }
  }

  /** The rest of one iteration once the ledger row of the date is found. */
  method SettleRow(index: map<string, Entry>, st: Pass, key: string, siteIn: string, siteOut: string)
    returns (r: Pass)
    requires key in index && IndexClean(index) && CacheClean(st.cache)
    requires TimeOrEmpty(siteIn) && TimeOrEmpty(siteOut)
    ensures r == Settle(index, st, key, siteIn, siteOut)
  {
    var rowNum, myIn, myOut := index[key].rowNum, index[key].myIn, index[key].myOut;
    if key in st.cache {
      myIn, myOut := st.cache[key].0, st.cache[key].1;
    }
    var updates, changedBase;
    myIn, myOut, updates, changedBase := FillGaps(rowNum, myIn, myOut, siteIn, siteOut, st.updates);
    var cache := st.cache;
    if changedBase {
      cache := cache[key := (myIn, myOut)];
    }
    if myIn == siteIn && myOut == siteOut {
      return Pass(st.changes, updates, cache);
    }
    r := Pass(st.changes + [MakeChange(key, myIn, myOut, siteIn, siteOut)], updates, cache);
  }

  /** One iteration of the loop over the site rows: row `n`, after the rows before it gave `st`. */
  method ProcessRow(index: map<string, Entry>, rows: seq<SiteRow>, ghost readings: seq<SiteRead>, n: nat, st: Pass)
    returns (r: Result<Pass>)
    requires IndexClean(index) && readings == ReadSites(rows) && n < |rows| && PassUpTo(index, readings, n) == Success(st)
    ensures r == PassUpTo(index, readings, n + 1)
    ensures r.Failure? ==> r == PassUpTo(index, readings, |rows|)
  {
    PassStep(index, readings, n, st);
    var row := rows[n];
    assert readings[n] == ReadSite(row);
    var word := FirstWord(PyStr(row.date));
    if word.None? {
      FailureSticks(index, readings, n + 1);
      return Failure(IndexErrorMessage);
    }
    var date := SiteDate(word.value);
    if date.None? {
      return Success(st);
    }
    var found := FindVariant(index, date.value);
    if found.None? {
      return Success(st);
    }
    var next := SettleRow(index, st, found.value, SiteTime(row.timeIn), SiteTime(row.timeOut));
    r := Success(next);
  }

  /** The loop over the site rows (step 3 of `build_changes_sheet`). */
  method Reconcile(index: map<string, Entry>, rows: seq<SiteRow>) returns (r: Result<Pass>)
    requires IndexClean(index)
    ensures r == PassUpTo(index, ReadSites(rows), |rows|)
  {
    ghost var readings := ReadSites(rows);
    var st := Start;
    for n := 0 to |rows|
      invariant PassUpTo(index, readings, n) == Success(st)
    {
      var next := ProcessRow(index, rows, readings, n, st);
      if next.Failure? {
        return next;
      }
      st := next.value;
    }
    r := Success(st);
  }

  lemma PassStep(index: map<string, Entry>, readings: seq<SiteRead>, n: nat, st: Pass)
    requires IndexClean(index) && ReadsClean(readings) && n < |readings| && PassUpTo(index, readings, n) == Success(st)
    ensures CacheClean(st.cache) && PassUpTo(index, readings, n + 1) == Step(index, st, readings[n])
  {
  }

  /**
   * A site row whose date pandas cannot read, or whose date is in the index under neither
   * `DD.MM.YYYY` nor `DD/MM/YYYY`, queues no patch, adds no change row and remembers nothing.
   */
  lemma UnmatchedRowIgnored(index: map<string, Entry>, st: Pass, read: SiteRead)
    requires IndexClean(index) && CacheClean(st.cache)
    requires read.OnDate? ==> TimeOrEmpty(read.siteIn) && TimeOrEmpty(read.siteOut)
    ensures read.Undatable? ==> Step(index, st, read) == Success(st)
    ensures read.OnDate? && FormatDate(read.date) !in index && FormatDateSep(read.date, '/') !in index ==>
              Step(index, st, read) == Success(st)
  {
  }

  /** Once a row raises, the whole pass raises. */
  lemma {:induction false} FailureSticks(index: map<string, Entry>, readings: seq<SiteRead>, n: nat)
    requires IndexClean(index) && ReadsClean(readings) && n <= |readings| && PassUpTo(index, readings, n).Failure?
    ensures PassUpTo(index, readings, |readings|) == PassUpTo(index, readings, n)
    decreases |readings| - n
  {
    if n < |readings| {
      FailureSticks(index, readings, n + 1);
    }
  }

  /** Two different clock texts are different times. */
  lemma ClockMinutesInjective(a: string, b: string)
    requires IsClock(a) && IsClock(b) && a != b
    ensures ClockMinutes(a) != ClockMinutes(b)
  {
    LexLessTotal(a, b);
    ClockLexOrder(a, b);
    ClockLexOrder(b, a);
  }

  // ---------------------------------------------------------------- what the pass keeps

  /** No two dates of the index share a ledger row. */
  predicate RowsDistinct(index: map<string, Entry>) {
    forall a, b :: a in index && b in index && a != b ==> index[a].rowNum != index[b].rowNum
  }

  lemma IndexDistinct(rows: seq<LedgerRow>)
    ensures RowsDistinct(IndexUpTo(rows, |rows|))
  {
    IndexOnRows(rows, |rows|);
    EntriesDistinct(IndexUpTo(rows, |rows|), rows);
  }

  /** A remembered pair keeps every time the ledger already had. */
  predicate Keeps(e: Entry, mine: (string, string)) {
    (e.myIn != "" ==> mine.0 == e.myIn) && (e.myOut != "" ==> mine.1 == e.myOut)
  }

  /**
   * A patch fills an empty cell: every date on its row had no time in that column, and the
   * loop remembers the patched value for it.
   */
  predicate FilledFrom(index: map<string, Entry>, cache: map<string, (string, string)>, p: Patch) {
    forall key :: key in index && index[key].rowNum == p.rowNum ==>
      && key in cache
      && (p.column == 'C' ==> index[key].myIn == "" && cache[key].0 == p.value)
      && (p.column == 'D' ==> index[key].myOut == "" && cache[key].1 == p.value)
  }

  /** The patch writes a time into column C or D of a row the index holds. */
  predicate WellAimed(index: map<string, Entry>, p: Patch) {
    (p.column == 'C' || p.column == 'D') && IsClock(p.value) && exists key :: key in index && index[key].rowNum == p.rowNum
  }

  predicate SameCell(p: Patch, q: Patch) { p.column == q.column && p.rowNum == q.rowNum }

  /** What a change row always holds. */
  predicate ChangeOk(c: ChangeRow) {
    && TimeOrEmpty(c.myIn) && TimeOrEmpty(c.myOut) && TimeOrEmpty(c.siteIn) && TimeOrEmpty(c.siteOut)
    && (c.myIn != c.siteIn || c.myOut != c.siteOut)
    && (c.myIn == "" ==> c.siteIn == "") && (c.myOut == "" ==> c.siteOut == "")
    && c == MakeChange(c.date, c.myIn, c.myOut, c.siteIn, c.siteOut)
  }

  /** The invariant of the loop over the site rows. */
  predicate PassOk(index: map<string, Entry>, st: Pass) {
    && (forall key :: key in st.cache ==> key in index && Keeps(index[key], st.cache[key]))
    && (forall k :: 0 <= k < |st.updates| ==> WellAimed(index, st.updates[k]) && FilledFrom(index, st.cache, st.updates[k]))
    && (forall i, j :: 0 <= i < j < |st.updates| ==> !SameCell(st.updates[i], st.updates[j]))
    && (forall k :: 0 <= k < |st.changes| ==> ChangeOk(st.changes[k]))
  }

  /** The times the loop compares for a date never lose one the ledger had. */
  lemma MineKeeps(index: map<string, Entry>, st: Pass, key: string)
    requires key in index && PassOk(index, st)
    ensures Keeps(index[key], Mine(index, st.cache, key))
  {
  }

  /** The remembered pairs still keep the ledger's times after one row. */
  lemma SettleCache(index: map<string, Entry>, st: Pass, key: string, siteIn: string, siteOut: string)
    requires key in index && IndexClean(index) && CacheClean(st.cache) && TimeOrEmpty(siteIn) && TimeOrEmpty(siteOut)
    requires PassOk(index, st)
    ensures var r := Settle(index, st, key, siteIn, siteOut);
            forall k :: k in r.cache ==> k in index && Keeps(index[k], r.cache[k])
  {
    MineKeeps(index, st, key);
  }

  /** Each new patch fills a cell that was empty, on the row of the date being settled. */
  lemma SettleNewPatches(index: map<string, Entry>, st: Pass, key: string, siteIn: string, siteOut: string)
    requires key in index && IndexClean(index) && CacheClean(st.cache) && TimeOrEmpty(siteIn) && TimeOrEmpty(siteOut)
    requires PassOk(index, st) && RowsDistinct(index)
    ensures var r := Settle(index, st, key, siteIn, siteOut);
            forall k :: |st.updates| <= k < |r.updates| ==> WellAimed(index, r.updates[k]) && FilledFrom(index, r.cache, r.updates[k])
  {
    var mine := Mine(index, st.cache, key);
    var r := Settle(index, st, key, siteIn, siteOut);
    var patches := FillPatches(index[key].rowNum, mine.0, mine.1, siteIn, siteOut);
    MineKeeps(index, st, key);
    assert r.updates == st.updates + patches;
    forall k | |st.updates| <= k < |r.updates|
      ensures WellAimed(index, r.updates[k]) && FilledFrom(index, r.cache, r.updates[k])
    {
      var p := r.updates[k];
      assert p == patches[k - |st.updates|];
      assert p.rowNum == index[key].rowNum;
      forall other | other in index && index[other].rowNum == p.rowNum
        ensures other == key
      {
      }
    }
  }

  /** The earlier patches still fill empty cells whose values the loop remembers. */
  lemma SettleOldPatches(index: map<string, Entry>, st: Pass, key: string, siteIn: string, siteOut: string)
    requires key in index && IndexClean(index) && CacheClean(st.cache) && TimeOrEmpty(siteIn) && TimeOrEmpty(siteOut)
    requires PassOk(index, st)
    ensures var r := Settle(index, st, key, siteIn, siteOut);
            forall k :: 0 <= k < |st.updates| ==> r.updates[k] == st.updates[k] && FilledFrom(index, r.cache, st.updates[k])
  {
    var r := Settle(index, st, key, siteIn, siteOut);
    forall k | 0 <= k < |st.updates|
      ensures r.updates[k] == st.updates[k] && FilledFrom(index, r.cache, st.updates[k])
    {
      var p := st.updates[k];
      assert FilledFrom(index, st.cache, p);
      if index[key].rowNum == p.rowNum {
        assert key in st.cache;
        assert p.column == 'C' ==> IsClock(st.cache[key].0);
        assert p.column == 'D' ==> IsClock(st.cache[key].1);
      }
    }
  }

  /** A cell is patched at most once in the whole pass. */
  lemma SettleDistinct(index: map<string, Entry>, st: Pass, key: string, siteIn: string, siteOut: string)
    requires key in index && IndexClean(index) && CacheClean(st.cache) && TimeOrEmpty(siteIn) && TimeOrEmpty(siteOut)
    requires PassOk(index, st)
    ensures var r := Settle(index, st, key, siteIn, siteOut);
            forall i, j :: 0 <= i < j < |r.updates| ==> !SameCell(r.updates[i], r.updates[j])
  {
    var mine := Mine(index, st.cache, key);
    var r := Settle(index, st, key, siteIn, siteOut);
    var patches := FillPatches(index[key].rowNum, mine.0, mine.1, siteIn, siteOut);
    assert r.updates == st.updates + patches;
    forall i, j | 0 <= i < |st.updates| <= j < |r.updates|
      ensures !SameCell(r.updates[i], r.updates[j])
    {
      var p, q := st.updates[i], patches[j - |st.updates|];
      assert r.updates[j] == q && r.updates[i] == p;
      assert FilledFrom(index, st.cache, p);
    }
  }

  /** A new change row records a real disagreement, with its difference and comparisons. */
  lemma SettleChanges(index: map<string, Entry>, st: Pass, key: string, siteIn: string, siteOut: string)
    requires key in index && IndexClean(index) && CacheClean(st.cache) && TimeOrEmpty(siteIn) && TimeOrEmpty(siteOut)
    ensures var r := Settle(index, st, key, siteIn, siteOut);
            forall k :: |st.changes| <= k < |r.changes| ==> ChangeOk(r.changes[k])
  {
  }

  /**
   * A matched row adds a change row exactly when, after the gaps are filled, the ledger's pair
   * of times differs from the site's; the row is recorded under the ledger's date.
   */
  lemma SettleChangeIff(index: map<string, Entry>, st: Pass, key: string, siteIn: string, siteOut: string)
    requires key in index && IndexClean(index) && CacheClean(st.cache) && TimeOrEmpty(siteIn) && TimeOrEmpty(siteOut)
    ensures var r := Settle(index, st, key, siteIn, siteOut);
            var mine := Mine(index, st.cache, key);
            var filled := (Fill(mine.0, siteIn), Fill(mine.1, siteOut));
            && r.changes[..|st.changes|] == st.changes
            && (|r.changes| == |st.changes| + 1 <==> filled != (siteIn, siteOut))
            && (|r.changes| == |st.changes| <==> filled == (siteIn, siteOut))
            && (filled != (siteIn, siteOut) ==>
                  r.changes[|st.changes|].date == key && (r.changes[|st.changes|].myIn, r.changes[|st.changes|].myOut) == filled)
  {
  }

  /** One settled row keeps the invariant. */
  lemma SettleOk(index: map<string, Entry>, st: Pass, key: string, siteIn: string, siteOut: string)
    requires key in index && IndexClean(index) && CacheClean(st.cache) && TimeOrEmpty(siteIn) && TimeOrEmpty(siteOut)
    requires PassOk(index, st) && RowsDistinct(index)
    ensures PassOk(index, Settle(index, st, key, siteIn, siteOut))
  {
    var r := Settle(index, st, key, siteIn, siteOut);
    SettleCache(index, st, key, siteIn, siteOut);
    SettleNewPatches(index, st, key, siteIn, siteOut);
    SettleOldPatches(index, st, key, siteIn, siteOut);
    SettleDistinct(index, st, key, siteIn, siteOut);
    SettleChanges(index, st, key, siteIn, siteOut);
    assert forall k :: 0 <= k < |st.updates| ==> WellAimed(index, r.updates[k]);
    assert forall k :: 0 <= k < |st.changes| ==> r.changes[k] == st.changes[k];
  }

  /** Every prefix of the pass that does not raise keeps the invariant. */
  lemma {:induction false} PassUpToOk(index: map<string, Entry>, readings: seq<SiteRead>, n: nat)
    requires IndexClean(index) && RowsDistinct(index) && ReadsClean(readings) && n <= |readings|
    ensures PassUpTo(index, readings, n).Success? ==> PassOk(index, PassUpTo(index, readings, n).value)
  {
    if n > 0 {
      PassUpToOk(index, readings, n - 1);
      var prev := PassUpTo(index, readings, n - 1);
      if prev.Success? {
        StepOk(index, prev.value, readings[n - 1]);
      }
    }
  }

  lemma StepOk(index: map<string, Entry>, st: Pass, read: SiteRead)
    requires IndexClean(index) && RowsDistinct(index) && CacheClean(st.cache) && PassOk(index, st)
    requires read.OnDate? ==> TimeOrEmpty(read.siteIn) && TimeOrEmpty(read.siteOut)
    ensures Step(index, st, read).Success? ==> PassOk(index, Step(index, st, read).value)
  {
    if read.OnDate? {
      var found := FindVariant(index, read.date);
      if found.Some? {
        SettleOk(index, st, found.value, read.siteIn, read.siteOut);
      }
    }
  }

  /** The patch writes a clock into column C or D of a dated ledger row whose cell was empty. */
  predicate FillsGap(lrows: seq<LedgerRow>, p: Patch) {
    && (p.column == 'C' || p.column == 'D') && IsClock(p.value)
    && 1 <= p.rowNum <= |lrows| && lrows[p.rowNum - 1].Dated?
    && (p.column == 'C' ==> lrows[p.rowNum - 1].myIn == "")
    && (p.column == 'D' ==> lrows[p.rowNum - 1].myOut == "")
  }

  /**
   * Over the rows read from the ledger, gap filling never overwrites: each patch writes an
   * `HH:MM` time into column C or D of a dated ledger row whose cell in that column read as
   * empty, and no cell is patched twice.
   */
  lemma PatchesFillGaps(lrows: seq<LedgerRow>, readings: seq<SiteRead>, k: nat)
    requires RowsClean(lrows) && ReadsClean(readings) && PassUpTo(IndexUpTo(lrows, |lrows|), readings, |readings|).Success?
    requires k < |PassUpTo(IndexUpTo(lrows, |lrows|), readings, |readings|).value.updates|
    ensures FillsGap(lrows, PassUpTo(IndexUpTo(lrows, |lrows|), readings, |readings|).value.updates[k])
    ensures var us := PassUpTo(IndexUpTo(lrows, |lrows|), readings, |readings|).value.updates;
            forall j :: 0 <= j < |us| && j != k ==> !SameCell(us[j], us[k])
  {
    var index := IndexUpTo(lrows, |lrows|);
    IndexDistinct(lrows);
    IndexOnRows(lrows, |lrows|);
    PassUpToOk(index, readings, |readings|);
    OkPatch(index, lrows, PassUpTo(index, readings, |readings|).value, k);
  }

  lemma OkPatch(index: map<string, Entry>, lrows: seq<LedgerRow>, st: Pass, k: nat)
    requires EntriesOnRows(index, lrows) && PassOk(index, st) && k < |st.updates|
    ensures FillsGap(lrows, st.updates[k])
    ensures forall j :: 0 <= j < |st.updates| && j != k ==> !SameCell(st.updates[j], st.updates[k])
  {
    var p := st.updates[k];
    assert WellAimed(index, p) && FilledFrom(index, st.cache, p);
    var key :| key in index && index[key].rowNum == p.rowNum;
    var e := index[key];
    assert lrows[p.rowNum - 1] == Dated(key, e.myIn, e.myOut);
    assert p.column == 'C' ==> e.myIn == "";
    assert p.column == 'D' ==> e.myOut == "";
    OkDistinct(index, st, k);
  }

  lemma OkDistinct(index: map<string, Entry>, st: Pass, k: nat)
    requires PassOk(index, st) && k < |st.updates|
    ensures forall j :: 0 <= j < |st.updates| && j != k ==> !SameCell(st.updates[j], st.updates[k])
  {
    var us := st.updates;
    forall j | 0 <= j < |us| && j != k
      ensures !SameCell(us[j], us[k])
    {
      if j < k { assert !SameCell(us[j], us[k]); } else { assert !SameCell(us[k], us[j]); }
    }
  }


  // ---------------------------------------------------------------- the changes sheet

  /** The total after the first `n` change rows: the sum of the differences that were computed. */
  function TotalUpTo(changes: seq<ChangeRow>, n: nat): int
    requires n <= |changes|
  {
    if n == 0 then 0
    else TotalUpTo(changes, n - 1) + (if changes[n - 1].diffMinutes.Some? then changes[n - 1].diffMinutes.value else 0)
  }

  /** `any_total` after the first `n` change rows. */
  function AnyUpTo(changes: seq<ChangeRow>, n: nat): (r: bool)
    requires n <= |changes|
    ensures r <==> exists k :: 0 <= k < n && changes[k].diffMinutes.Some?
  {
    if n == 0 then false
    else
      assert changes[n - 1].diffMinutes.Some? ==> exists k :: 0 <= k < n && changes[k].diffMinutes.Some?;
      AnyUpTo(changes, n - 1) || changes[n - 1].diffMinutes.Some?
  }

  /** Step 9: `total_diff` and `any_total` over the change rows. */
  method SumTotal(changes: seq<ChangeRow>) returns (total: int, anyTotal: bool)
    ensures total == TotalUpTo(changes, |changes|) && anyTotal == AnyUpTo(changes, |changes|)
  {
    total, anyTotal := 0, false;
    for k := 0 to |changes|
      invariant total == TotalUpTo(changes, k) && anyTotal == AnyUpTo(changes, k)
    {
      var diffMinutes := changes[k].diffMinutes;
      if diffMinutes.Some? {
        anyTotal := true;
        total := total + diffMinutes.value;
      }
    }
  }

  /** `total_str`: the signed total, or "" when no row had a difference. */
  function TotalText(changes: seq<ChangeRow>): (r: string)
    ensures r == "" <==> forall k :: 0 <= k < |changes| ==> changes[k].diffMinutes.None?
    ensures r != "" ==> ParseSigned(r) == Some(TotalUpTo(changes, |changes|))
  {
    if AnyUpTo(changes, |changes|) then
      SignedRoundTrip(TotalUpTo(changes, |changes|));
      SignedSign(TotalUpTo(changes, |changes|));
      MinutesToHHMMSigned(TotalUpTo(changes, |changes|))
    else ""
  }

  /** Rows without a difference add nothing; when no difference is negative the total is not either. */
  lemma {:induction false} TotalBounds(changes: seq<ChangeRow>, n: nat)
    requires n <= |changes|
    ensures (forall k :: 0 <= k < n ==> changes[k].diffMinutes.None?) ==> TotalUpTo(changes, n) == 0
    ensures (forall k :: 0 <= k < n && changes[k].diffMinutes.Some? ==> changes[k].diffMinutes.value >= 0) ==> TotalUpTo(changes, n) >= 0
    ensures (forall k :: 0 <= k < n && changes[k].diffMinutes.Some? ==> changes[k].diffMinutes.value <= 0) ==> TotalUpTo(changes, n) <= 0
  {
    if n > 0 {
      TotalBounds(changes, n - 1);
    }
  }

  /** `[rr[0], rr[1], rr[2], rr[3], rr[4], rr[5]]`: date, the four times and the difference. */
  function RowValues(c: ChangeRow): seq<string> {
    [c.date, c.myIn, c.myOut, c.siteIn, c.siteOut, c.diffStr]
  }

  /** Step 7: the block of values written from cell A4 on. */
  method ValuesBlock(changes: seq<ChangeRow>) returns (block: seq<seq<string>>)
    ensures block == MapSeq(changes, RowValues)
    ensures forall k :: 0 <= k < |block| ==> |block[k]| == 6 && block[k][0] == changes[k].date && block[k][5] == changes[k].diffStr
  {
    block := [];
    for k := 0 to |changes|
      invariant block == MapSeq(changes[..k], RowValues)
    {
      var rr := changes[k];
      block := block + [[rr.date, rr.myIn, rr.myOut, rr.siteIn, rr.siteOut, rr.diffStr]];
      assert changes[..k + 1] == changes[..k] + [changes[k]];
    }
    assert changes[..|changes|] == changes;
  }

  /** The sheet "Изменения M.YY": its values and its total; the clock date in A1 is left out. */
  datatype ChangesSheet = ChangesSheet(title: string, values: seq<seq<string>>, totalStr: string)

  /** What `build_changes_sheet` does: the patches it applies, and the changes sheet unless there is none. */
  datatype Outcome = Outcome(updates: seq<Patch>, sheet: Option<ChangesSheet>)

  function Title(sheetName: string): string { "Изменения " + sheetName }

  function BuildChangesSpec(sheetName: string, sheet: Sheet, ledger: seq<seq<string>>): Result<Outcome>
    requires Rectangular(sheet)
  {
    if !HasRequired(sheet.columns) then Failure(MissingColumns)
    else
      match PassUpTo(LedgerIndex(ledger), ReadSites(SiteRows(sheet)), |SiteRows(sheet)|)
      case Failure(e) => Failure(e)
      case Success(st) =>
        if st.changes == [] then Success(Outcome(st.updates, None))
        else Success(Outcome(st.updates, Some(ChangesSheet(Title(sheetName), MapSeq(st.changes, RowValues), TotalText(st.changes)))))
  }

  /** `build_changes_sheet` on the site's workbook as read and the ledger's values as fetched. */
  method BuildChangesSheet(sheetName: string, sheet: Sheet, ledger: seq<seq<string>>) returns (r: Result<Outcome>)
    requires Rectangular(sheet)
    ensures r == BuildChangesSpec(sheetName, sheet, ledger)
  {
    var k := 0;
    while k < |RequiredColumns|
      invariant k <= |RequiredColumns|
      invariant forall j :: 0 <= j < k ==> RequiredColumns[j] in sheet.columns
    {
      if RequiredColumns[k] !in sheet.columns {
        return Failure(MissingColumns);
      }
      k := k + 1;
    }
    var rows := SiteRows(sheet);
    var index := BuildIndex(ledger);
    var pass := Reconcile(index, rows);
    if pass.Failure? {
      return Failure(pass.error);
    }
    var st := pass.value;
    if st.changes == [] {
      return Success(Outcome(st.updates, None));
    }
    var block := ValuesBlock(st.changes);
    var total, anyTotal := SumTotal(st.changes);
    var totalStr := if anyTotal then MinutesToHHMMSigned(total) else "";
    r := Success(Outcome(st.updates, Some(ChangesSheet(Title(sheetName), block, totalStr))));
  }

  /**
   * Every change row of a pass records a real disagreement: the two pairs of times differ, a
   * ledger time is missing only where the site's is missing too, and its difference and
   * colour comparisons are those of its four times.
   */
  lemma ChangesAreReal(index: map<string, Entry>, readings: seq<SiteRead>, k: nat)
    requires IndexClean(index) && RowsDistinct(index) && ReadsClean(readings)
    requires PassUpTo(index, readings, |readings|).Success? && k < |PassUpTo(index, readings, |readings|).value.changes|
    ensures ChangeOk(PassUpTo(index, readings, |readings|).value.changes[k])
  {
    PassUpToOk(index, readings, |readings|);
  }
}
