/**
 * The canonicaliser `parsers/raw_to_local.py`: it turns the raw rows a parser produced (one
 * dictionary per row, keyed by Hebrew column names, their visually reversed forms or English
 * aliases) into the five-column local table. Dates are normalised or completed from the
 * month and year in the metadata, rows without data or without a date are dropped, warnings
 * are recorded once each in the metadata, and the records are sorted by date and entry time.
 */
module RawToLocal {
  import opened Wrappers
  import opened Text
  import opened Sorting
  import opened Dates
  import opened PdfTime
  import PdfRecords

  const DateKey := "תאריך"
  const InKey := "כניסה"
  const OutKey := "יציאה"
  const SiteKey := "אתר"
  const NotesKey := "הערות"

  /** `OUTPUT_COLUMNS`, the columns of the local table in order. */
  const OutputColumns: seq<string> := [DateKey, InKey, OutKey, SiteKey, NotesKey]

  /** The service columns of the attendance report that carry no working time. */
  const EntryService := "ת.כניסה"
  const ExitService := "ת.יציאה"
  const TotalHeader := "סהכ"

  /** What `_to_minutes` gives a time it cannot read, so that such rows sort last. */
  const BadTime := 99 * 60

  const NoRecordsMessage := "No valid rows to write after normalization."
  const EmptyDateWarning := "empty date"
  const MissingDateWarning := "missing date in row, skipped"

  function UnparsedWarning(raw: string): string { "unparsed date: " + raw }

  // ---------------------------------------------------------------- _to_minutes

  /**
   * `_to_minutes`: `int(h) * 60 + int(m)` for the texts before and after the first colon, and
   * `BadTime` for a text without a colon or where `int()` raises.
   */
  function ToMinutes(v: string): (r: int)
    ensures ':' !in v ==> r == BadTime
    ensures ':' in v ==> var i := IndexOf(v, ':').value;
              && (PyInt(v[..i]).None? || PyInt(v[i + 1..]).None? ==> r == BadTime)
              && (PyInt(v[..i]).Some? && PyInt(v[i + 1..]).Some? ==> r == PyInt(v[..i]).value * 60 + PyInt(v[i + 1..]).value)
  {
    match IndexOf(v, ':')
    case None => BadTime
    case Some(i) =>
      match (PyInt(v[..i]), PyInt(v[i + 1..]))
      case (Some(h), Some(m)) => h * 60 + m
      case _ => BadTime
  }

  /** An `HH:MM` time reads as its minutes since midnight, always before an unreadable time. */
  lemma ToMinutesClock(t: string)
    requires IsClock(t)
    ensures ToMinutes(t) == ClockMinutes(t) && 0 <= ToMinutes(t) < BadTime
  {
    assert t[..2] == [t[0], t[1]] && t[3..] == [t[3], t[4]];
    IndexOfAt(t, ':', 2);
    PyIntDigits(t[..2]);
    PyIntDigits(t[3..]);
  }

  /**
   * A clock with seconds, such as `07:00:00`, is unreadable here: the text after the first colon
   * is `00:00`, which `int()` refuses. The reconciliation's `_norm_time` reads the same text as
   * `07:00` (`SyncTime.NormTimeSeconds`).
   */
  lemma ToMinutesSeconds(r: string, sec: string)
    requires IsClock(r) && |sec| == 3 && sec[0] == ':' && AllDigits(sec[1..])
    ensures ToMinutes(r + sec) == BadTime
  {
    var v := r + sec;
    assert v[2] == ':' && v[..2] == r[..2];
    IndexOfAt(v, ':', 2);
    var tail := v[3..];
    assert tail == [r[3], r[4], ':', sec[1], sec[2]];
    assert NoSpace(tail) by {
      assert IsDigit(r[3]) by { assert r[3] == r[3..][0]; }
      assert IsDigit(r[4]) by { assert r[4] == r[3..][1]; }
      assert IsDigit(sec[1]) by { assert sec[1] == sec[1..][0]; }
      assert IsDigit(sec[2]) by { assert sec[2] == sec[1..][1]; }
    }
    NoSpaceStrip(tail);
    assert tail[2] == ':';
    PyIntColon(tail);
  }

  // ---------------------------------------------------------------- _warn

  /** The warnings after `_warn(meta, message)`: the message is appended unless already there. */
  function Warned(ws: seq<string>, message: string): (r: seq<string>)
    ensures |r| == |ws| + (if message in ws then 0 else 1)
    ensures message in r && r[..|ws|] == ws
  {
    if message in ws then ws else ws + [message]
  }

  predicate NoDuplicates(ws: seq<string>) {
    forall i, j :: 0 <= i < j < |ws| ==> ws[i] != ws[j]
  }

  /** A list kept by `_warn` never holds a message twice. */
  lemma WarnedNoDuplicates(ws: seq<string>, message: string)
    requires NoDuplicates(ws)
    ensures NoDuplicates(Warned(ws, message))
  {
  }

  /** Warning twice with the same message is warning once. */
  lemma WarnedIdempotent(ws: seq<string>, message: string)
    ensures Warned(Warned(ws, message), message) == Warned(ws, message)
  {
  }

  /** The warnings after `_warn` with each of `msgs` in turn. */
  function WarnAll(ws: seq<string>, msgs: seq<string>): (r: seq<string>)
    ensures |ws| <= |r| && r[..|ws|] == ws
  {
    if msgs == [] then ws else Warned(WarnAll(ws, msgs[..|msgs| - 1]), msgs[|msgs| - 1])
  }

  /** Every message given is in the list afterwards, and nothing else is added. */
  lemma {:induction false} WarnAllContents(ws: seq<string>, msgs: seq<string>)
    ensures forall m :: m in WarnAll(ws, msgs) <==> m in ws || m in msgs
  {
    if msgs != [] {
      var init := msgs[..|msgs| - 1];
      WarnAllContents(ws, init);
      assert msgs == init + [msgs[|msgs| - 1]];
    }
  }

  lemma {:induction false} WarnAllNoDuplicates(ws: seq<string>, msgs: seq<string>)
    requires NoDuplicates(ws)
    ensures NoDuplicates(WarnAll(ws, msgs))
  {
    if msgs != [] {
      WarnAllNoDuplicates(ws, msgs[..|msgs| - 1]);
      WarnedNoDuplicates(WarnAll(ws, msgs[..|msgs| - 1]), msgs[|msgs| - 1]);
    }
  }

  /** Warning with `a` and then with `b` is warning with `a + b`. */
  lemma {:induction false} WarnAllAppend(ws: seq<string>, a: seq<string>, b: seq<string>)
    ensures WarnAll(WarnAll(ws, a), b) == WarnAll(ws, a + b)
  {
    if b != [] {
      assert (a + b)[..|a + b| - 1] == a + b[..|b| - 1];
      WarnAllAppend(ws, a, b[..|b| - 1]);
    } else {
      assert a + b == a;
    }
  }

  /**
   * The metadata dictionary of a raw table, with the keys this module reads and writes: the
   * month and the year (`None` when absent), the warnings list (`None` when there is no
   * "warnings" key) and the names of the other keys.
   */
  class Meta {
    var month: Option<nat>
    var year: Option<nat>
    var warnings: Option<seq<string>>
    var otherKeys: set<string>

    constructor (month: Option<nat>, year: Option<nat>, warnings: Option<seq<string>>, otherKeys: set<string>)
      ensures this.month == month && this.year == year && this.warnings == warnings && this.otherKeys == otherKeys
    {
      this.month := month;
      this.year := year;
      this.warnings := warnings;
      this.otherKeys := otherKeys;
    }

    /** The dictionary has no key at all, so `raw.meta or {}` replaces it. */
    predicate Empty()
      reads this
    {
      month.None? && year.None? && warnings.None? && otherKeys == {}
    }

    /** `meta.setdefault("warnings", [])` before it is extended. */
    function Warnings(): seq<string>
      reads this
    {
      if warnings.Some? then warnings.value else []
    }

    /** `_warn`: creates the list if needed and appends the message unless it is there. */
    method Warn(message: string)
      modifies this
      ensures warnings == Some(Warned(old(Warnings()), message))
      ensures month == old(month) && year == old(year) && otherKeys == old(otherKeys)
    {
      var ws := if warnings.Some? then warnings.value else [];
      if message !in ws {
        ws := ws + [message];
      }
      warnings := Some(ws);
    }
  }

  /** The "warnings" entry after warning with `msgs`: untouched when there is nothing to say. */
  function WarningsAfter(w: Option<seq<string>>, msgs: seq<string>): Option<seq<string>> {
    if msgs == [] then w else Some(WarnAll(if w.Some? then w.value else [], msgs))
  }

  /** One message is one `_warn`. */
  lemma WarningsAfterOne(w: Option<seq<string>>, m: string)
    ensures WarningsAfter(w, [m]) == Some(Warned(if w.Some? then w.value else [], m))
  {
    var ws := if w.Some? then w.value else [];
    assert [m][..0] == [];
    assert WarnAll(ws, [m]) == Warned(WarnAll(ws, []), m);
  }

  lemma WarningsAfterAppend(w: Option<seq<string>>, a: seq<string>, b: seq<string>)
    ensures WarningsAfter(WarningsAfter(w, a), b) == WarningsAfter(w, a + b)
  {
    if a == [] {
      assert a + b == b;
    } else if b == [] {
      assert a + b == a;
    } else {
      WarnAllAppend(if w.Some? then w.value else [], a, b);
    }
  }

  // ---------------------------------------------------------------- _get_value

  /** `english_map.get(key)`. */
  function Alias(key: string): Option<string> {
    if key == DateKey then Some("date")
    else if key == InKey then Some("time_in")
    else if key == OutKey then Some("time_out")
    else if key == SiteKey then Some("site")
    else if key == NotesKey then Some("notes")
    else None
  }

  /** The keys `_get_value` may read for `key`. */
  function Lookups(key: string): set<string> {
    {key, Reverse(key)} + (if Alias(key).Some? then {Alias(key).value} else {})
  }

  /**
   * `_get_value`: the stripped value under the key itself, else under the reversed key, else
   * under the English alias, else "".
   */
  function GetValue(row: map<string, string>, key: string): (r: string)
    ensures key in row ==> r == Strip(row[key])
    ensures key !in row && Reverse(key) in row ==> r == Strip(row[Reverse(key)])
    ensures key !in row && Reverse(key) !in row ==>
              r == (if Alias(key).Some? && Alias(key).value in row then Strip(row[Alias(key).value]) else "")
    ensures r != "" ==> exists k :: k in Lookups(key) && k in row && r == Strip(row[k])
  {
    if key in row then Strip(row[key])
    else if Reverse(key) in row then Strip(row[Reverse(key)])
    else
      match Alias(key)
      case Some(alt) => if alt in row then Strip(row[alt]) else ""
      case None => ""
  }

  /** Only the keys of `Lookups(key)` matter: any other entry of the row is never read. */
  lemma GetValueFrame(row: map<string, string>, key: string, other: string, v: string)
    requires other !in Lookups(key)
    ensures GetValue(row[other := v], key) == GetValue(row, key)
  {
  }

  /** The service columns beside the times are never read for any of the five output columns. */
  lemma ServiceColumnsIgnored(row: map<string, string>, key: string, v: string)
    requires key in OutputColumns
    ensures GetValue(row[EntryService := v], key) == GetValue(row, key)
    ensures GetValue(row[ExitService := v], key) == GetValue(row, key)
  {
    NotLookedUp(key, EntryService);
    NotLookedUp(key, ExitService);
    GetValueFrame(row, key, EntryService, v);
    GetValueFrame(row, key, ExitService, v);
  }

  /** A seven-letter Hebrew name is none of the keys looked up for an output column. */
  lemma NotLookedUp(key: string, other: string)
    requires key in OutputColumns && |other| == 7 && other[0] != 't'
    ensures other !in Lookups(key)
  {
    Aliases();
    var a := Alias(key).value;
    assert |a| <= 5 || a[0] == 't';
    assert |key| <= 5 && |Reverse(key)| <= 5;
  }

  // ---------------------------------------------------------------- _canonical_header

  /** The header names a total: `סהכ` or `כ"הס` in it or in its reversed form. */
  predicate HasTotalMark(header: string) {
    Contains(header, TotalHeader) || Contains(Reverse(header), TotalHeader)
    || Contains(header, "כ\"הס") || Contains(Reverse(header), "כ\"הס")
  }

  predicate Mentions(header: string, name: string) {
    Contains(header, name) || Contains(Reverse(header), name)
  }

  /** `_canonical_header`: a header cell read as one of the known column names, or "". */
  function CanonicalHeader(header: string): (r: string)
    ensures r == "" || r in OutputColumns || r == TotalHeader || r == EntryService || r == ExitService
    ensures r in OutputColumns ==> r == header || r == Reverse(header)
  {
    if header == "" then ""
    else if header in OutputColumns then header
    else if Reverse(header) in OutputColumns then Reverse(header)
    else if HasTotalMark(header) then TotalHeader
    else if Mentions(header, EntryService) then EntryService
    else if Mentions(header, ExitService) then ExitService
    else ""
  }

  /** No output column is another one written backwards. */
  lemma ColumnsNotReversed(c: string)
    requires c in OutputColumns
    ensures Reverse(c) !in OutputColumns
  {
    forall d | d in OutputColumns ensures Reverse(c) != d {
      NotReversal(d, c);
    }
  }

  /** Two texts whose first two letters are not the last two of the other, backwards, are no reversal. */
  lemma NotReversal(a: string, b: string)
    requires |a| >= 2 && |b| >= 2 && (a[0] != b[|b| - 1] || a[1] != b[|b| - 2])
    ensures Reverse(b) != a
  {
  }

  /** A header and its visually reversed form name the same column. */
  lemma CanonicalHeaderReversed(header: string)
    ensures CanonicalHeader(Reverse(header)) == CanonicalHeader(header)
  {
    ReverseReverse(header);
    if header in OutputColumns {
      ColumnsNotReversed(header);
    } else if Reverse(header) in OutputColumns {
      ColumnsNotReversed(Reverse(header));
    }
    CanonicalHeaderSwap(header, Reverse(header));
  }

  lemma CanonicalHeaderSwap(h: string, r: string)
    requires Reverse(h) == r && Reverse(r) == h
    requires !(h in OutputColumns && r in OutputColumns)
    ensures CanonicalHeader(r) == CanonicalHeader(h)
  {
    assert HasTotalMark(h) == HasTotalMark(r);
    assert Mentions(h, EntryService) == Mentions(r, EntryService);
    assert Mentions(h, ExitService) == Mentions(r, ExitService);
  }

  /** A column name, as written or reversed, is read as itself. */
  lemma CanonicalHeaderColumns(c: string)
    requires c in OutputColumns
    ensures CanonicalHeader(c) == c && CanonicalHeader(Reverse(c)) == c
  {
    CanonicalHeaderReversed(c);
  }

  // ---------------------------------------------------------------- one raw row

  /** One row of the local table, with the five columns of `OUTPUT_COLUMNS`. */
  datatype Record = Record(date: string, timeIn: string, timeOut: string, site: string, notes: string)

  /** `_row_has_data`: some field is not empty. */
  predicate RowHasData(date: string, timeIn: string, timeOut: string, site: string, notes: string) {
    date != "" || timeIn != "" || timeOut != "" || site != "" || notes != ""
  }

  /** A metadata value Python treats as true: present and not zero. */
  predicate Truthy(v: Option<nat>) { v.Some? && v.value != 0 }

  /** `re.fullmatch(r"\d{1,2}", date_raw)`. */
  predicate DayOnly(s: string) { AllDigits(s) && 1 <= |s| <= 2 }

  /** The date of the row: normalised, else a bare day completed from the month and year, else "". */
  function CompleteDate(raw: string, month: Option<nat>, year: Option<nat>): string {
    var normal := NormalizeDate(raw);
    if normal != "" then normal
    else if DayOnly(raw) && Truthy(month) && Truthy(year) then JoinDate(DigitsValue(raw), month.value, year.value)
    else ""
  }

  /** The warning the date of the row raises, if any. */
  function DateWarnings(raw: string, month: Option<nat>, year: Option<nat>): seq<string> {
    if NormalizeDate(raw) != "" then []
    else if DayOnly(raw) && Truthy(month) && Truthy(year) then []
    else if raw != "" then [UnparsedWarning(raw)]
    else [EmptyDateWarning]
  }

  /** What one raw row contributes: the warnings it raises, in order, and the record it keeps. */
  datatype RowRead = RowRead(warnings: seq<string>, kept: Option<Record>)

  /** The five fields of a raw row as `_get_value` reads them, the date still unsettled. */
  function FieldsOf(row: map<string, string>): Record {
    Record(GetValue(row, DateKey), GetValue(row, InKey), GetValue(row, OutKey), GetValue(row, SiteKey), GetValue(row, NotesKey))
  }

  /** Every key of `d` begins and ends below the Hebrew block. */
  predicate LatinKeyed(d: map<string, string>) {
    forall x :: x in d ==> |x| > 0 && x[0] < '\U{590}' && x[|x| - 1] < '\U{590}'
  }

  /** A key beginning and ending with Hebrew letters is found in such a map neither as written nor reversed. */
  lemma HebrewKeyAbsent(d: map<string, string>, key: string)
    requires LatinKeyed(d) && |key| > 0 && key[0] >= '\U{590}' && key[|key| - 1] >= '\U{590}'
    ensures key !in d && Reverse(key) !in d
  {
    assert Reverse(key)[0] == key[|key| - 1];
  }

  /** Such a map is read by `_get_value` through the English alias. */
  lemma AliasRead(d: map<string, string>, key: string, alt: string)
    requires LatinKeyed(d) && |key| > 0 && key[0] >= '\U{590}' && key[|key| - 1] >= '\U{590}'
    requires Alias(key) == Some(alt) && alt in d
    ensures GetValue(d, key) == Strip(d[alt])
  {
    HebrewKeyAbsent(d, key);
  }

  /** The English alias of each of the five Hebrew column names. */
  lemma Aliases()
    ensures Alias(DateKey) == Some("date") && Alias(InKey) == Some("time_in") && Alias(OutKey) == Some("time_out")
    ensures Alias(SiteKey) == Some("site") && Alias(NotesKey) == Some("notes")
  {
    assert DateKey[0] != InKey[0] && DateKey[0] != OutKey[0] && DateKey[0] != SiteKey[0] && DateKey[0] != NotesKey[0];
    assert InKey[0] != OutKey[0] && InKey[0] != SiteKey[0] && InKey[0] != NotesKey[0];
    assert OutKey[0] != SiteKey[0] && OutKey[0] != NotesKey[0] && SiteKey[0] != NotesKey[0];
  }

  /** A Latin-keyed map holding the five English aliases is read field by field through them. */
  lemma AliasedFields(d: map<string, string>, r: Record)
    requires LatinKeyed(d)
    requires "date" in d && "time_in" in d && "time_out" in d && "site" in d && "notes" in d
    requires d["date"] == r.date && d["time_in"] == r.timeIn && d["time_out"] == r.timeOut
    requires d["site"] == r.site && d["notes"] == r.notes
    ensures FieldsOf(d) == Record(Strip(r.date), Strip(r.timeIn), Strip(r.timeOut), Strip(r.site), Strip(r.notes))
  {
    Aliases();
    AliasRead(d, DateKey, "date");
    AliasRead(d, InKey, "time_in");
    AliasRead(d, OutKey, "time_out");
    AliasRead(d, SiteKey, "site");
    AliasRead(d, NotesKey, "notes");
  }

  /**
   * A row of the PDF table walker, keyed `date`, `time_in`, …, holds neither a Hebrew key nor its
   * reversal, so `_get_value` reads each of its fields through the English alias.
   */
  lemma CanonicalRowFields(c: PdfRecords.CanonicalRow)
    ensures FieldsOf(c.AsDict()) == Record(Strip(c.date), Strip(c.timeIn), Strip(c.timeOut), Strip(c.site), Strip(c.notes))
  {
    var d := c.AsDict();
    assert LatinKeyed(d);
    assert d["date"] == c.date && d["time_in"] == c.timeIn && d["time_out"] == c.timeOut;
    assert d["site"] == c.site && d["notes"] == c.notes;
    AliasedFields(d, Record(c.date, c.timeIn, c.timeOut, c.site, c.notes));
  }

  /** A map holding the five Hebrew column names is read under them. */
  lemma HebrewFields(d: map<string, string>, r: Record)
    requires DateKey in d && InKey in d && OutKey in d && SiteKey in d && NotesKey in d
    requires d[DateKey] == r.date && d[InKey] == r.timeIn && d[OutKey] == r.timeOut
    requires d[SiteKey] == r.site && d[NotesKey] == r.notes
    ensures FieldsOf(d) == Record(Strip(r.date), Strip(r.timeIn), Strip(r.timeOut), Strip(r.site), Strip(r.notes))
  {
  }

  /** A record of the PDF text fallback is keyed in Hebrew, and each field is read under its own key. */
  lemma TextRecordFields(t: PdfRecords.TextRecord)
    ensures FieldsOf(t.AsDict()) == Record(Strip(t.date), Strip(t.timeIn), Strip(t.timeOut), Strip(t.site), Strip(t.notes))
  {
    var d := t.AsDict();
    Aliases();
    assert d[DateKey] == t.date && d[InKey] == t.timeIn && d[OutKey] == t.timeOut;
    assert d[SiteKey] == t.site && d[NotesKey] == t.notes;
    HebrewFields(d, Record(t.date, t.timeIn, t.timeOut, t.site, t.notes));
  }

  /** What a row with these fields contributes, once its date is settled. */
  function Settle(fields: Record, month: Option<nat>, year: Option<nat>): RowRead {
    var date := CompleteDate(fields.date, month, year);
    var warned := DateWarnings(fields.date, month, year);
    if !RowHasData(date, fields.timeIn, fields.timeOut, fields.site, fields.notes) then RowRead(warned, None)
    else if date == "" then RowRead(warned + [MissingDateWarning], None)
    else RowRead(warned, Some(fields.(date := date)))
  }

  function ReadRow(row: map<string, string>, month: Option<nat>, year: Option<nat>): RowRead {
    Settle(FieldsOf(row), month, year)
  }

  function ReadRows(rows: seq<map<string, string>>, month: Option<nat>, year: Option<nat>): (r: seq<RowRead>)
    ensures |r| == |rows|
  {
    if rows == [] then [] else ReadRows(rows[..|rows| - 1], month, year) + [ReadRow(rows[|rows| - 1], month, year)]
  }

  lemma {:induction false} ReadRowsAt(rows: seq<map<string, string>>, month: Option<nat>, year: Option<nat>, i: nat)
    requires i < |rows|
    ensures ReadRows(rows, month, year)[i] == ReadRow(rows[i], month, year)
  {
    if i < |rows| - 1 {
      ReadRowsAt(rows[..|rows| - 1], month, year, i);
    }
  }

  /** `records` after the first `n` rows. */
  function KeptUpTo(readings: seq<RowRead>, n: nat): seq<Record>
    requires n <= |readings|
  {
    if n == 0 then []
    else KeptUpTo(readings, n - 1) + (if readings[n - 1].kept.Some? then [readings[n - 1].kept.value] else [])
  }

  /** The warnings of the first `n` rows, in the order `_warn` is called. */
  function MessagesUpTo(readings: seq<RowRead>, n: nat): seq<string>
    requires n <= |readings|
  {
    if n == 0 then [] else MessagesUpTo(readings, n - 1) + readings[n - 1].warnings
  }

  // ---------------------------------------------------------------- the sort

  /** `sort_values(by=[date, time_in])` with `_to_minutes` as the key of the time column. */
  predicate RecordLess(a: Record, b: Record) {
    LexLess(a.date, b.date) || (a.date == b.date && ToMinutes(a.timeIn) < ToMinutes(b.timeIn))
  }

  lemma DateTrichotomy(x: string, y: string)
    ensures LexLess(x, y) || x == y || LexLess(y, x)
    ensures !(LexLess(x, y) && LexLess(y, x)) && !(x == y && LexLess(x, y))
  {
    LexLessIrreflexive(x);
    if x != y { LexLessTotal(x, y); }
    if LexLess(x, y) && LexLess(y, x) { LexLessTransitive(x, y, x); }
  }

  lemma RecordLessOrder()
    ensures StrictWeakOrder(RecordLess)
  {
    forall a: Record ensures !RecordLess(a, a) {
      LexLessIrreflexive(a.date);
    }
    forall a: Record, b: Record, c: Record | RecordLess(a, b) && RecordLess(b, c) ensures RecordLess(a, c) {
      if LexLess(a.date, b.date) && LexLess(b.date, c.date) { LexLessTransitive(a.date, b.date, c.date); }
    }
    forall a: Record, b: Record, c: Record | !RecordLess(a, b) && !RecordLess(b, c) ensures !RecordLess(a, c) {
      DateTrichotomy(a.date, b.date);
      DateTrichotomy(b.date, c.date);
      DateTrichotomy(a.date, c.date);
      if LexLess(b.date, a.date) && LexLess(c.date, b.date) { LexLessTransitive(c.date, b.date, a.date); }
    }
  }

  /** On the same date, a row with an `HH:MM` entry time comes before one whose time is unreadable. */
  lemma BadTimesLast(a: Record, b: Record)
    requires a.date == b.date && IsClock(a.timeIn) && ToMinutes(b.timeIn) == BadTime
    ensures RecordLess(a, b) && !RecordLess(b, a)
  {
    ToMinutesClock(a.timeIn);
    LexLessIrreflexive(a.date);
  }

  /** The table `raw_to_local_df` returns for the rows read, or its error. */
  function RawToLocalSpec(readings: seq<RowRead>): Result<seq<Record>> {
    var records := KeptUpTo(readings, |readings|);
    if records == [] then Failure(NoRecordsMessage) else Success(SortBy(records, RecordLess))
  }

  // ---------------------------------------------------------------- raw_to_local_df

  /** The date the loop settles on, by the branches of lines 98-106, is `CompleteDate`. */
  lemma DateSettled(raw: string, value: string, month: Option<nat>, year: Option<nat>)
    requires var normal := NormalizeDate(raw);
             value == (if normal != "" then normal
                       else if DayOnly(raw) && Truthy(month) && Truthy(year) then JoinDate(DigitsValue(raw), month.value, year.value)
                       else "")
    ensures value == CompleteDate(raw, month, year)
  {
  }

  /** Lines 92-123 for row `n`: read the fields, settle the date, warn, keep the record or not. */
  method ProcessRow(rows: seq<map<string, string>>, n: nat, month: Option<nat>, year: Option<nat>,
                    ghost readings: seq<RowRead>, ghost w0: Option<seq<string>>, meta: Meta, records: seq<Record>)
    returns (next: seq<Record>)
    requires n < |rows| && readings == ReadRows(rows, month, year)
    requires records == KeptUpTo(readings, n) && meta.warnings == WarningsAfter(w0, MessagesUpTo(readings, n))
    modifies meta
    ensures next == KeptUpTo(readings, n + 1)
    ensures meta.warnings == WarningsAfter(w0, MessagesUpTo(readings, n + 1))
    ensures meta.month == old(meta.month) && meta.year == old(meta.year) && meta.otherKeys == old(meta.otherKeys)
  {
    ReadRowsAt(rows, month, year, n);
    WarningsAfterAppend(w0, MessagesUpTo(readings, n), readings[n].warnings);
    var row := rows[n];
    var dateRaw := GetValue(row, DateKey);
    var timeIn := GetValue(row, InKey);
    var timeOut := GetValue(row, OutKey);
    var site := GetValue(row, SiteKey);
    var notes := GetValue(row, NotesKey);
    next := SettleRow(Record(dateRaw, timeIn, timeOut, site, notes), month, year, meta, records);
  }

  /** Lines 98-106: the date of the row, with the warning it raises. */
  method SettleDate(dateRaw: string, month: Option<nat>, year: Option<nat>, meta: Meta) returns (dateValue: string)
    modifies meta
    ensures dateValue == CompleteDate(dateRaw, month, year)
    ensures meta.warnings == WarningsAfter(old(meta.warnings), DateWarnings(dateRaw, month, year))
    ensures meta.month == old(meta.month) && meta.year == old(meta.year) && meta.otherKeys == old(meta.otherKeys)
  {
    ghost var w0 := meta.warnings;
    dateValue := NormalizeDate(dateRaw);
    if dateValue == "" {
      if DayOnly(dateRaw) && Truthy(month) && Truthy(year) {
        dateValue := JoinDate(DigitsValue(dateRaw), month.value, year.value);
      } else if dateRaw != "" {
        meta.Warn(UnparsedWarning(dateRaw));
        WarningsAfterOne(w0, UnparsedWarning(dateRaw));
      } else {
        meta.Warn(EmptyDateWarning);
        WarningsAfterOne(w0, EmptyDateWarning);
      }
    }
    DateSettled(dateRaw, dateValue, month, year);
  }

  /** Lines 98-123: settle the date of the fields read, warn, keep the record or not. */
  method SettleRow(fields: Record, month: Option<nat>, year: Option<nat>, meta: Meta, records: seq<Record>)
    returns (next: seq<Record>)
    modifies meta
    ensures var rr := Settle(fields, month, year);
            next == records + (if rr.kept.Some? then [rr.kept.value] else [])
    ensures meta.warnings == WarningsAfter(old(meta.warnings), Settle(fields, month, year).warnings)
    ensures meta.month == old(meta.month) && meta.year == old(meta.year) && meta.otherKeys == old(meta.otherKeys)
  {
    ghost var w0 := meta.warnings;
    ghost var warned := DateWarnings(fields.date, month, year);
    var dateValue := SettleDate(fields.date, month, year, meta);
    if !RowHasData(dateValue, fields.timeIn, fields.timeOut, fields.site, fields.notes) {
      return records;
    }
    if dateValue == "" {
      ghost var w1 := meta.warnings;
      meta.Warn(MissingDateWarning);
      WarningsAfterOne(w1, MissingDateWarning);
      WarningsAfterAppend(w0, warned, [MissingDateWarning]);
      return records;
    }
    next := records + [fields.(date := dateValue)];
  }

  /** The loop of lines 91-123 over all the rows, warning into `meta`. */
  method ConvertRows(rows: seq<map<string, string>>, month: Option<nat>, year: Option<nat>, meta: Meta)
    returns (records: seq<Record>)
    modifies meta
    ensures records == KeptUpTo(ReadRows(rows, month, year), |rows|)
    ensures meta.warnings == WarningsAfter(old(meta.warnings), MessagesUpTo(ReadRows(rows, month, year), |rows|))
    ensures meta.month == old(meta.month) && meta.year == old(meta.year) && meta.otherKeys == old(meta.otherKeys)
  {
    ghost var readings := ReadRows(rows, month, year);
    ghost var w0 := meta.warnings;
    assert MessagesUpTo(readings, 0) == [] && KeptUpTo(readings, 0) == [];
    records := [];
    var n := 0;
    while n < |rows|
      invariant n <= |rows| && records == KeptUpTo(readings, n)
      invariant meta.warnings == WarningsAfter(w0, MessagesUpTo(readings, n))
      invariant meta.month == old(meta.month) && meta.year == old(meta.year) && meta.otherKeys == old(meta.otherKeys)
    {
      records := ProcessRow(rows, n, month, year, readings, w0, meta, records);
      n := n + 1;
    }
  }

  /**
   * `raw_to_local_df`. The month and year come from the metadata; the warnings go into it,
   * except when it is empty, where `raw.meta or {}` makes them go to a new dictionary that is
   * then dropped.
   */
  method RawToLocalDf(rows: seq<map<string, string>>, meta: Meta) returns (r: Result<seq<Record>>)
    modifies meta
    ensures r == RawToLocalSpec(ReadRows(rows, old(meta.month), old(meta.year)))
    ensures meta.month == old(meta.month) && meta.year == old(meta.year) && meta.otherKeys == old(meta.otherKeys)
    ensures var msgs := MessagesUpTo(ReadRows(rows, old(meta.month), old(meta.year)), |rows|);
            meta.warnings == (if old(meta.Empty()) then old(meta.warnings) else WarningsAfter(old(meta.warnings), msgs))
  {
    var month, year := meta.month, meta.year;
    var records;
    if meta.Empty() {
      var scratch := new Meta(None, None, None, {});
      records := ConvertRows(rows, month, year, scratch);
    } else {
      records := ConvertRows(rows, month, year, meta);
    }
    if records == [] {
      return Failure(NoRecordsMessage);
    }
    r := Success(SortBy(records, RecordLess));
  }

  // ---------------------------------------------------------------- properties

  /** A row is kept exactly when its date is known, and then with its five stripped fields. */
  lemma SettleKept(fields: Record, month: Option<nat>, year: Option<nat>)
    ensures var rr := Settle(fields, month, year);
            var date := CompleteDate(fields.date, month, year);
            && (rr.kept.Some? <==> date != "")
            && (rr.kept.Some? ==> rr.kept.value == fields.(date := date))
  {
  }

  /**
   * The warnings of a row: the one its date raises, then, for a row with data but no date,
   * that it was skipped. A row whose fields are all empty is dropped without the second one.
   */
  lemma SettleWarnings(fields: Record, month: Option<nat>, year: Option<nat>)
    ensures var rr := Settle(fields, month, year);
            var date := CompleteDate(fields.date, month, year);
            var hasData := RowHasData(date, fields.timeIn, fields.timeOut, fields.site, fields.notes);
            rr.warnings == DateWarnings(fields.date, month, year) + (if date == "" && hasData then [MissingDateWarning] else [])
  {
  }

  /**
   * The date warnings: none for a date that is known; `unparsed date: …` for any other text,
   * and `empty date` for an empty one.
   */
  lemma DateWarningsCases(raw: string, month: Option<nat>, year: Option<nat>)
    ensures var date := CompleteDate(raw, month, year);
            && (date != "" ==> DateWarnings(raw, month, year) == [])
            && (date == "" && raw != "" ==> DateWarnings(raw, month, year) == [UnparsedWarning(raw)])
            && (raw == "" ==> date == "" && DateWarnings(raw, month, year) == [EmptyDateWarning])
  {
    if raw == "" {
      NoDateInDigits(raw);
    }
  }

  /** A bare day of one or two digits is completed with the month and year of the metadata. */
  lemma CompleteDateDay(raw: string, month: nat, year: nat)
    requires DayOnly(raw) && 0 < month < 100 && 1000 <= year < 10000
    ensures ParseCanonical(CompleteDate(raw, Some(month), Some(year))) == Some(Date(DigitsValue(raw), month, year))
    ensures DateWarnings(raw, Some(month), Some(year)) == []
  {
    NoDateInDigits(raw);
    DigitsValueShort(raw);
    JoinDateParses(DigitsValue(raw), month, year);
  }

  /** Without a month or a year a bare day cannot be completed and is reported. */
  lemma CompleteDateNoMonth(raw: string, month: Option<nat>, year: Option<nat>)
    requires DayOnly(raw) && !(Truthy(month) && Truthy(year))
    ensures CompleteDate(raw, month, year) == "" && DateWarnings(raw, month, year) == [UnparsedWarning(raw)]
  {
    NoDateInDigits(raw);
  }

  lemma {:induction false} KeptUpToDated(readings: seq<RowRead>, n: nat)
    requires n <= |readings|
    requires forall i :: 0 <= i < |readings| && readings[i].kept.Some? ==> readings[i].kept.value.date != ""
    ensures forall k :: 0 <= k < |KeptUpTo(readings, n)| ==> KeptUpTo(readings, n)[k].date != ""
  {
    if n > 0 {
      KeptUpToDated(readings, n - 1);
    }
  }

  lemma {:induction false} KeptUpToEmpty(readings: seq<RowRead>, n: nat)
    requires n <= |readings|
    ensures KeptUpTo(readings, n) == [] <==> forall i :: 0 <= i < n ==> readings[i].kept.None?
  {
    if n > 0 {
      KeptUpToEmpty(readings, n - 1);
    }
  }

  /**
   * The outcome of `raw_to_local_df`: an error exactly when no row has a date, and otherwise a
   * permutation of the kept records sorted by date then entry time, each with a date, with
   * records that compare equal in their input order.
   */
  lemma RawToLocalOutcome(rows: seq<map<string, string>>, month: Option<nat>, year: Option<nat>)
    ensures var readings := ReadRows(rows, month, year);
            var r := RawToLocalSpec(readings);
            && (r.Failure? <==> forall i :: 0 <= i < |rows| ==> CompleteDate(FieldsOf(rows[i]).date, month, year) == "")
            && (r.Failure? ==> r.error == NoRecordsMessage)
            && (r.Success? ==> && multiset(r.value) == multiset(KeptUpTo(readings, |rows|))
                               && SortedBy(r.value, RecordLess)
                               && (forall k :: 0 <= k < |r.value| ==> r.value[k].date != "")
                               && (forall x :: EquivalentTo(r.value, x, RecordLess)
                                              == EquivalentTo(KeptUpTo(readings, |rows|), x, RecordLess)))
  {
    var readings := ReadRows(rows, month, year);
    var records := KeptUpTo(readings, |rows|);
    forall i | 0 <= i < |rows|
      ensures readings[i].kept.Some? <==> CompleteDate(FieldsOf(rows[i]).date, month, year) != ""
      ensures readings[i].kept.Some? ==> readings[i].kept.value.date != ""
    {
      ReadRowsAt(rows, month, year, i);
      SettleKept(FieldsOf(rows[i]), month, year);
    }
    KeptUpToEmpty(readings, |rows|);
    KeptUpToDated(readings, |rows|);
    RecordLessOrder();
    SortBySorted(records, RecordLess);
    forall x ensures EquivalentTo(SortBy(records, RecordLess), x, RecordLess) == EquivalentTo(records, x, RecordLess) {
      SortByStable(records, x, RecordLess);
    }
    var sorted := SortBy(records, RecordLess);
    forall k | 0 <= k < |sorted| ensures sorted[k].date != "" {
      assert sorted[k] in multiset(records);
    }
  }

  /** The warnings of a whole call hold no message twice, given a list that held none. */
  lemma RawToLocalWarnings(w: Option<seq<string>>, rows: seq<map<string, string>>, month: Option<nat>, year: Option<nat>)
    requires w.Some? ==> NoDuplicates(w.value)
    ensures var after := WarningsAfter(w, MessagesUpTo(ReadRows(rows, month, year), |rows|));
            after.Some? ==> NoDuplicates(after.value)
  {
    var msgs := MessagesUpTo(ReadRows(rows, month, year), |rows|);
    if msgs != [] {
      WarnAllNoDuplicates(if w.Some? then w.value else [], msgs);
    }
  }
}
