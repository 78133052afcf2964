/**
 * Table structure in the PDF parser: `_header_key` (column classification), the header-row
 * scoring of `_parse_type_a_tables_canonical`, the placeholder column names, the first-occurrence
 * key map, and `_is_service_line` for the text fallback.
 */
module PdfHeader {
  import opened Wrappers
  import opened Text

  /** The semantic keys `_header_key` assigns; `NoKey` is its "". */
  datatype ColumnKey = NoKey | DateKey | DayKey | TimeInKey | TimeOutKey | SiteKey | NotesKey | TotalKey

  // ---------------------------------------------------------------- _header_key

  predicate IsQuote(c: char) { c == '"' || c == '״' || c == '\'' }

  /** The cell text `_header_key` matches against: normalised, quote marks removed. */
  function CleanHeader(cell: string): (r: string)
    ensures forall i :: 0 <= i < |r| ==> !IsQuote(r[i])
  {
    RemoveBy(NormalizeSpace(cell), IsQuote)
  }

  /** `token in lowered or token in reversed_cleaned`. */
  predicate Has(lowered: string, reversed: string, token: string) {
    Contains(lowered, token) || Contains(reversed, token)
  }

  /** The seven token tests of `_header_key`, in its order, on the lowered text and its reversal. */
  predicate HasDate(l: string, r: string) { Has(l, r, "תאריך") }
  predicate HasDay(l: string, r: string) { Has(l, r, "יום") }
  predicate HasTimeIn(l: string, r: string) { Has(l, r, "כניסה") || Has(l, r, "ת.כניסה") }
  predicate HasTimeOut(l: string, r: string) { Has(l, r, "יציאה") || Has(l, r, "ת.יציאה") }
  predicate HasSite(l: string, r: string) { Has(l, r, "אתר") }
  predicate HasNotes(l: string, r: string) { Has(l, r, "הערות") }
  predicate HasTotal(l: string, r: string) { Has(l, r, "סהכ") || Has(l, r, "סה\"כ") || Has(l, r, "סה״כ") }

  /** The first category, in priority order, whose token the lowered text or its reversal holds. */
  function KeyOf(lowered: string, reversed: string): ColumnKey {
    FirstKey(HasDate(lowered, reversed), HasDay(lowered, reversed), HasTimeIn(lowered, reversed),
             HasTimeOut(lowered, reversed), HasSite(lowered, reversed), HasNotes(lowered, reversed),
             HasTotal(lowered, reversed))
  }

  /** The key of the first category that was found, in the order date, day, in, out, site, notes, total. */
  function FirstKey(date: bool, day: bool, timeIn: bool, timeOut: bool, site: bool, notes: bool, total: bool): (k: ColumnKey)
    ensures k == DateKey <==> date
    ensures k == DayKey <==> !date && day
    ensures k == TimeInKey <==> !date && !day && timeIn
    ensures k == TimeOutKey <==> !date && !day && !timeIn && timeOut
    ensures k == SiteKey <==> !date && !day && !timeIn && !timeOut && site
    ensures k == NotesKey <==> !date && !day && !timeIn && !timeOut && !site && notes
    ensures k == TotalKey <==> !date && !day && !timeIn && !timeOut && !site && !notes && total
    ensures k == NoKey <==> !(date || day || timeIn || timeOut || site || notes || total)
  {
    if date then DateKey
    else if day then DayKey
    else if timeIn then TimeInKey
    else if timeOut then TimeOutKey
    else if site then SiteKey
    else if notes then NotesKey
    else if total then TotalKey
    else NoKey
  }

  /** `_header_key`. */
  function HeaderKey(cell: string): ColumnKey {
    var cleaned := CleanHeader(cell);
    if cleaned == "" then NoKey else KeyOf(Lower(cleaned), Lower(Reverse(cleaned)))
  }

  /** Matching tries both directions, so swapping the two texts changes nothing. */
  lemma KeyOfSymmetric(lowered: string, reversed: string)
    ensures KeyOf(lowered, reversed) == KeyOf(reversed, lowered)
  {
  }

  /** The key of a cleaned header text does not depend on the direction it was extracted in. */
  lemma KeyOfReversed(cleaned: string)
    ensures KeyOf(Lower(Reverse(cleaned)), Lower(Reverse(Reverse(cleaned)))) == KeyOf(Lower(cleaned), Lower(Reverse(cleaned)))
  {
    ReverseReverse(cleaned);
    KeyOfSymmetric(Lower(cleaned), Lower(Reverse(cleaned)));
  }

  /** A header cell whose cleaned text is reversed gets the same key. */
  lemma HeaderKeyReversed(cell: string, mirrored: string)
    requires CleanHeader(mirrored) == Reverse(CleanHeader(cell))
    ensures HeaderKey(mirrored) == HeaderKey(cell)
  {
    KeyOfReversed(CleanHeader(cell));
  }

  /** The priority: a key is given only when no higher-priority token occurs in either direction. */
  lemma HeaderKeyPriority(cell: string)
    ensures var c := CleanHeader(cell);
            var l, r := Lower(c), Lower(Reverse(c));
            && (HeaderKey(cell) == DateKey <==> c != "" && HasDate(l, r))
            && (HeaderKey(cell) == DayKey <==> c != "" && !HasDate(l, r) && HasDay(l, r))
            && (HeaderKey(cell) == TimeInKey <==> c != "" && !HasDate(l, r) && !HasDay(l, r) && HasTimeIn(l, r))
            && (HeaderKey(cell) == TimeOutKey <==>
                  c != "" && !HasDate(l, r) && !HasDay(l, r) && !HasTimeIn(l, r) && HasTimeOut(l, r))
            && (HeaderKey(cell) == SiteKey <==>
                  c != "" && !HasDate(l, r) && !HasDay(l, r) && !HasTimeIn(l, r) && !HasTimeOut(l, r) && HasSite(l, r))
            && (HeaderKey(cell) == NotesKey <==>
                  c != "" && !HasDate(l, r) && !HasDay(l, r) && !HasTimeIn(l, r) && !HasTimeOut(l, r) && !HasSite(l, r)
                  && HasNotes(l, r))
            && (HeaderKey(cell) == TotalKey <==>
                  c != "" && !HasDate(l, r) && !HasDay(l, r) && !HasTimeIn(l, r) && !HasTimeOut(l, r) && !HasSite(l, r)
                  && !HasNotes(l, r) && HasTotal(l, r))
            && (HeaderKey(cell) != NoKey ==> c != "")
  {
    var c := CleanHeader(cell);
    if c != "" {
      KeyOfPriority(Lower(c), Lower(Reverse(c)));
    }
  }

  lemma KeyOfPriority(l: string, r: string)
    ensures KeyOf(l, r) == DateKey <==> HasDate(l, r)
    ensures KeyOf(l, r) == DayKey <==> !HasDate(l, r) && HasDay(l, r)
    ensures KeyOf(l, r) == TimeInKey <==> !HasDate(l, r) && !HasDay(l, r) && HasTimeIn(l, r)
    ensures KeyOf(l, r) == TimeOutKey <==> !HasDate(l, r) && !HasDay(l, r) && !HasTimeIn(l, r) && HasTimeOut(l, r)
    ensures KeyOf(l, r) == SiteKey <==>
              !HasDate(l, r) && !HasDay(l, r) && !HasTimeIn(l, r) && !HasTimeOut(l, r) && HasSite(l, r)
    ensures KeyOf(l, r) == NotesKey <==>
              !HasDate(l, r) && !HasDay(l, r) && !HasTimeIn(l, r) && !HasTimeOut(l, r) && !HasSite(l, r) && HasNotes(l, r)
    ensures KeyOf(l, r) == TotalKey <==>
              !HasDate(l, r) && !HasDay(l, r) && !HasTimeIn(l, r) && !HasTimeOut(l, r) && !HasSite(l, r) && !HasNotes(l, r)
              && HasTotal(l, r)
    ensures KeyOf(l, r) == NoKey <==>
              !(HasDate(l, r) || HasDay(l, r) || HasTimeIn(l, r) || HasTimeOut(l, r) || HasSite(l, r) || HasNotes(l, r)
                || HasTotal(l, r))
  {
  }

  // ---------------------------------------------------------------- header row scoring

  /** The tokens a header row is scored on. */
  const HeaderTokens: seq<string> := ["תאריך", "יום", "כניסה", "יציאה", "אתר", "הערות", "סהכ"]

  /** `" ".join(_normalize_space(cell) for cell in row if cell)`. */
  function RowText(row: seq<string>): string {
    JoinWith(" ", NonEmptyNormalized(row))
  }

  function NonEmptyNormalized(row: seq<string>): seq<string> {
    if row == [] then [] else (if row[0] != "" then [NormalizeSpace(row[0])] else []) + NonEmptyNormalized(row[1..])
  }

  predicate TokenHit(text: string, token: string) { Contains(text, token) || Contains(text, Reverse(token)) }

  /** The number of tokens among the first `n` that the text holds, forwards or reversed. */
  function HitsUpTo(text: string, tokens: seq<string>, n: nat): (h: nat)
    requires n <= |tokens|
    ensures h <= n
  {
    if n == 0 then 0 else HitsUpTo(text, tokens, n - 1) + (if TokenHit(text, tokens[n - 1]) then 1 else 0)
  }

  function RowHits(row: seq<string>): nat { HitsUpTo(RowText(row), HeaderTokens, |HeaderTokens|) }

  /** The inner token loop: how many header tokens the row's text holds. */
  method CountHits(row: seq<string>) returns (hits: nat)
    ensures hits == RowHits(row)
    ensures hits <= |HeaderTokens|
  {
    hits := CountTokenHits(RowText(row), HeaderTokens);
  }

  /** How many of `tokens` the text holds, forwards or reversed. */
  method CountTokenHits(text: string, tokens: seq<string>) returns (hits: nat)
    ensures hits == HitsUpTo(text, tokens, |tokens|)
  {
    hits := 0;
    for k := 0 to |tokens|
      invariant hits == HitsUpTo(text, tokens, k)
    {
      var token := tokens[k];
      if Contains(text, token) || Contains(text, Reverse(token)) {
        hits := hits + 1;
      }
    }
  }

  /** The hit count of every row. */
  function RowScores(rows: seq<seq<string>>): (r: seq<nat>)
    ensures |r| == |rows| && forall i :: 0 <= i < |rows| ==> r[i] == RowHits(rows[i])
  {
    seq(|rows|, i requires 0 <= i < |rows| => RowHits(rows[i]))
  }

  /** `(header_idx, header_hits)` after the rows before `n` were scored with `scores`. */
  function BestHeader(scores: seq<nat>, n: nat): (Option<nat>, nat)
    requires n <= |scores|
  {
    if n == 0 then (None, 0)
    else
      var (idx, best) := BestHeader(scores, n - 1);
      if scores[n - 1] > best then (Some(n - 1), scores[n - 1]) else (idx, best)
  }

  /** One step of the header search: row `idx` scored `hits`. */
  lemma BestHeaderStep(scores: seq<nat>, idx: nat)
    requires idx < |scores|
    ensures BestHeader(scores, idx + 1) ==
            (if scores[idx] > BestHeader(scores, idx).1 then (Some(idx), scores[idx]) else BestHeader(scores, idx))
  {
  }

  /** The header search over the rows of one table. */
  method FindHeader(rows: seq<seq<string>>) returns (headerIdx: Option<nat>, headerHits: nat)
    ensures (headerIdx, headerHits) == BestHeader(RowScores(rows), |rows|)
  {
    ghost var scores := RowScores(rows);
    headerIdx, headerHits := None, 0;
    for idx := 0 to |rows|
      invariant (headerIdx, headerHits) == BestHeader(scores, idx)
    {
      var hits := CountHits(rows[idx]);
      BestHeaderStep(scores, idx);
      if hits > headerHits {
        headerHits := hits;
        headerIdx := Some(idx);
      }
    }
  }

  /** `idx`/`best` is the first position holding the maximum of the first `n` scores (none when all are zero). */
  predicate FirstMaximum(scores: seq<nat>, n: nat, idx: Option<nat>, best: nat)
    requires n <= |scores|
  {
    && (forall j :: 0 <= j < n ==> scores[j] <= best)
    && (idx.None? <==> best == 0)
    && (idx.Some? ==> idx.value < n && scores[idx.value] == best && forall j :: 0 <= j < idx.value ==> scores[j] < best)
  }

  /**
   * The header row is the first row with the greatest number of hits: the count is the maximum
   * over all rows, the index the first row reaching it, and no row is chosen when every row
   * scores zero.
   */
  lemma {:induction false} BestHeaderFirstMaximum(scores: seq<nat>, n: nat)
    requires n <= |scores|
    ensures FirstMaximum(scores, n, BestHeader(scores, n).0, BestHeader(scores, n).1)
  {
    if n > 0 {
      BestHeaderFirstMaximum(scores, n - 1);
    }
  }

  // ---------------------------------------------------------------- header names and key map

  /** `f"COL_{n}"`. */
  function ColName(n: nat): string { "COL_" + NatToString(n) }

  lemma ColNameNonEmpty(n: nat)
    ensures ColName(n) != ""
  {
  }

  /** `table_headers`: the header cells, with `COL_{i+1}` for each empty one. */
  function TableHeaders(headerRow: seq<string>): (r: seq<string>)
    ensures |r| == |headerRow|
    ensures forall i :: 0 <= i < |r| ==> r[i] == (if headerRow[i] != "" then headerRow[i] else ColName(i + 1))
    ensures forall i :: 0 <= i < |r| ==> r[i] != ""
  {
    if forall i :: 0 <= i < |headerRow| ==> headerRow[i] == "" then
      seq(|headerRow|, i requires 0 <= i => ColName(i + 1))
    else
      seq(|headerRow|, i requires 0 <= i < |headerRow| => if headerRow[i] != "" then headerRow[i] else ColName(i + 1))
  }

  /** `key_indices` after the columns before `n`: each key at the first column that has it. */
  function KeyIndexUpTo(keys: seq<ColumnKey>, n: nat): map<ColumnKey, nat>
    requires n <= |keys|
  {
    if n == 0 then map[]
    else
      var m := KeyIndexUpTo(keys, n - 1);
      if keys[n - 1] != NoKey && keys[n - 1] !in m then m[keys[n - 1] := n - 1] else m
  }

  /** Every key in `m` sits at the first column carrying it, and every keyed column's key is in `m`. */
  predicate FirstOccurrences(m: map<ColumnKey, nat>, keys: seq<ColumnKey>, n: nat)
    requires n <= |keys|
  {
    && (forall k :: k in m ==> k != NoKey && m[k] < n && keys[m[k]] == k && forall j :: 0 <= j < m[k] ==> keys[j] != k)
    && (forall i :: 0 <= i < n && keys[i] != NoKey ==> keys[i] in m)
  }

  lemma {:induction false} KeyIndexFirst(keys: seq<ColumnKey>, n: nat)
    requires n <= |keys|
    ensures FirstOccurrences(KeyIndexUpTo(keys, n), keys, n)
  {
    if n > 0 {
      KeyIndexFirst(keys, n - 1);
    }
  }

  /** The `for idx, key in enumerate(key_map)` loop. */
  method KeyIndices(keys: seq<ColumnKey>) returns (keyIndices: map<ColumnKey, nat>)
    ensures keyIndices == KeyIndexUpTo(keys, |keys|)
    ensures FirstOccurrences(keyIndices, keys, |keys|)
  {
    keyIndices := map[];
    for idx := 0 to |keys|
      invariant keyIndices == KeyIndexUpTo(keys, idx)
    {
      var key := keys[idx];
      if key != NoKey && key !in keyIndices {
        keyIndices := keyIndices[key := idx];
      }
    }
    KeyIndexFirst(keys, |keys|);
  }

  /** `row[key_indices[key]] if key in key_indices and key_indices[key] < len(row) else ""`. */
  function CellFor(row: seq<string>, keyIndices: map<ColumnKey, nat>, key: ColumnKey): string {
    if key in keyIndices && keyIndices[key] < |row| then row[keyIndices[key]] else ""
  }

  // ---------------------------------------------------------------- _is_service_line

  /** The boilerplate tokens of `SERVICE_LINE_PATTERNS`. */
  const ServiceTokens: seq<string> := [
    "סה\"כ", "סה״כ", "סהכ", "סיכום", "חתימה", "דו\"ח", "דוח", "שם", "עובד", "טווח", "חודש", "שנה", "תאריך"
  ]

  predicate AnyContains(text: string, tokens: seq<string>) {
    exists k :: 0 <= k < |tokens| && Contains(text, tokens[k])
  }

  /** `_is_service_line`: a blank line, or one holding any boilerplate token. */
  predicate IsServiceLine(line: string) {
    var lowered := Lower(line);
    Strip(lowered) == "" || AnyContains(lowered, ServiceTokens)
  }

  lemma {:induction false} StripAllSpace(s: string)
    requires forall i :: 0 <= i < |s| ==> IsSpace(s[i])
    ensures Strip(s) == ""
  {
    if s != [] {
      StripAllSpace(s[1..]);
    }
  }

  /** A line of nothing but whitespace is a service line. */
  lemma BlankIsServiceLine(line: string)
    requires forall i :: 0 <= i < |line| ==> IsSpace(line[i])
    ensures IsServiceLine(line)
  {
    StripAllSpace(Lower(line));
  }
}
