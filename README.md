# work-hours-automation: verified model of the attendance pipeline

This project models the core of the work-hours-automation tool in Dafny. The tool reads a
monthly attendance report, turns it into canonical rows and reconciles them against a personal
ledger kept in a spreadsheet. The model covers four files.

- **The PDF extractor** (`parsers/parse_pdf_ylm.py`). It works in two modes:
  - the table walker (type A) finds a header row, maps columns to keys, fills missing entry and
    exit times from the other cells and captures a "total" row;
  - the line-based text fallback (type B) skips service lines, needs two times per line, resolves the
    date and records a reason for every rejected line.

  It also holds the time, day and date helpers, the entry/exit pair selection and the month/year
  detection. All of these are modelled.
- **The canonicaliser** (`parsers/raw_to_local.py`):
  - it looks up fields under Hebrew, reversed Hebrew and English keys;
  - it completes day-only dates from the month and year;
  - it keeps de-duplicated warnings;
  - it drops empty and dateless rows;
  - it sorts by date, then by entry minutes.
- **The reconciliation engine** (`sync_logic.py`):
  1. it indexes the ledger by date;
  2. it looks up each site row under two date spellings;
  3. it fills empty ledger cells, never a filled one;
  4. it emits a change row only on a real disagreement, with the comparisons and the signed difference;
  5. it totals the differences.

  It also holds the time helpers `_norm_time`, `_time_to_minutes` and `_minutes_to_hhmm_signed`.
- **The spreadsheet reader** (`parsers/parse_excel_ylm.py`): the month/year token of a file name,
  the required-column check, and the row conversion.

External inputs are parameters:
- the tables and page texts a PDF library would extract;
- the data frame a spreadsheet library would read;
- the ledger values the sheets API would fetch.

Loops in the source are methods with loop invariants. Each method is proved equal to a
specification function, and the properties the code promises are proved about those functions as
lemmas. `_warn` mutates the metadata dictionary in place, so the metadata is a class
(`RawToLocal.Meta`) whose methods modify it.

Regular expressions are modelled as explicit scanners. Each regular expression used here admits at
most one match at a given start position, and each scanner's comment says why. `pd.to_datetime(...,
dayfirst=True)` is modelled as a day-first `D.M.Y` reader. It swaps day and month when only the second
number can be a day. It reads a two-digit year as 2000 plus the year. It rejects impossible dates.

Modules:

| Module | File | Covers |
|---|---|---|
| `Wrappers` | `wrappers.dfy` | Option and Result |
| `Text` | `text.dfy` | characters, `strip`, `int()`, reversal, string order |
| `Sorting` | `sorting.dfy` | a stable sort |
| `Patterns` | `patterns.dfy` | `TIME_RE`, `DATE_RE`, `DAY_RE` and leftmost search |
| `Dates` | `dates.dfy` | dates and days |
| `PdfTime` | `pdf_time.dfy` | `_normalize_time`, `_select_time_pair` |
| `PdfHeader` | `pdf_header.dfy` | `_header_key`, header scoring, key map, service lines |
| `PdfMonthYear` | `pdf_month_year.dfy` | `_extract_month_year` |
| `PdfRecords` | `pdf_records.dfy` | record shapes |
| `PdfTypeA` | `pdf_type_a.dfy` | the table walker |
| `PdfTypeB` | `pdf_type_b.dfy` | the text fallback |
| `SyncTime` | `sync_time.dfy` | the time helpers of the reconciliation |
| `SyncReconcile` | `sync_reconcile.dfy` | `build_changes_sheet` |
| `RawToLocal` | `raw_to_local.dfy` | the canonicaliser |
| `ExcelSource` | `excel_source.dfy` | the spreadsheet reader |

Where the program's own conventions or tests and its code differ, the model follows the code:
- A date that `pd.to_datetime` parses is written through `strftime("%d.%m.%Y")`
  (`raw_to_local.py:21-22`, `parse_pdf_ylm.py:81-82`), so it is a real calendar date. A DATE_RE match
  that `pd.to_datetime` rejects is returned as it was found (`raw_to_local.py:23-24`,
  `parse_pdf_ylm.py:83-84`): `31.02.2026` is written as is (`Dates.NormalizeDate`). The day-only
  completion in `raw_to_local.py:99-101` checks neither the day nor the month range. A cell `0`
  becomes `00.MM.YYYY`, and the month is whatever the metadata holds.
- The table walker reads a row's date only from a column keyed `date` (`parse_pdf_ylm.py:448`).
  A table whose date column is headed `יום` ("day") therefore yields undated records, where
  `tests/test_pdf_good_parser.py:30-36, 70` expect `28.01.2026`. The walker (`PdfTypeA.RowRecord`,
  `PdfTypeA.ParseTypeA`) is modelled as written. The day-column rule the test expects is the separate
  `PdfTypeA.RowRecordIntended`, and both halves are listed under "## Findings".
- In the text fallback, the truncation of a line's times on a total marker (`parse_pdf_ylm.py:271-272`)
  can never apply. Every total marker is also a service marker, so such a line has already been skipped
  (`PdfTypeB.TotalTokensUnreachable`).

## Model

| member | source | states |
|---|---|---|
| Text.NatToString | sync_logic.py:48 | `str(n)` is a non-empty run of digits, a single digit exactly when n < 10 |
| Text.NatToStringValue | sync_logic.py:48 | the digits of `str(n)` read back as n |
| Text.Pad2 | sync_logic.py:48 | `f"{n:02d}"` is digits, two of them when n < 100 |
| Text.Pad2Value | sync_logic.py:48 | two padded digits read back as n |
| Text.StripBy | parsers/parse_pdf_ylm.py:72 | `strip` keeps a slice that neither starts nor ends with a stripped character |
| Text.StripBySlice | parsers/parse_pdf_ylm.py:72 | the stripped text is a slice `s[a..b]` of its input, and every character cut off before `a` or after `b` is a stripped one |
| Text.CollapseSpace | parsers/parse_pdf_ylm.py:94 | after `re.sub(r"\s+", " ", s)` the only white space left is a plain space |
| Text.RemoveBy | parsers/parse_pdf_ylm.py:89 | deleting a character class leaves none of it, and never lengthens the text |
| Text.RemoveByMembers | parsers/parse_pdf_ylm.py:89 | deleting keeps exactly the characters outside the class |
| Text.RemoveByAppend | parsers/parse_pdf_ylm.py:89 | deletion distributes over concatenation |
| Text.NormalizeSpaceFixed | parsers/parse_pdf_ylm.py:93-94 | a text free of white space and bidi controls is left unchanged by `_normalize_space` |
| Text.ReplaceChar | parsers/parse_pdf_ylm.py:250 | `replace` of one character changes exactly the positions holding it |
| Text.Reverse | parsers/parse_pdf_ylm.py:326 | `s[::-1]` holds the characters of s in the opposite order |
| Text.ReverseReverse | parsers/raw_to_local.py:69 | reversing twice gives the text back |
| Text.Lower | parsers/parse_pdf_ylm.py:129 | `lower()` maps every character on its own and keeps the length |
| Text.ContainsLower | parsers/parse_pdf_ylm.py:129-134 | a token without capitals found in a text is found in its lower-cased form |
| Text.IndexOf | parsers/raw_to_local.py:30 | the first position of a character, or None exactly when it is absent |
| Text.PyIntDigits | parsers/raw_to_local.py:32 | `int()` of a plain run of digits is its decimal value |
| Text.IntBodyChars | parsers/raw_to_local.py:32 | the integer body `int()` accepts holds only digits and underscores |
| Text.PyIntColon | parsers/raw_to_local.py:32-34 | `int()` raises on a text that still holds a colon once stripped |
| Text.LexLessIrreflexive | parsers/raw_to_local.py:129 | string order is irreflexive |
| Text.LexLessTransitive | parsers/raw_to_local.py:129 | string order is transitive |
| Text.LexLessTotal | parsers/raw_to_local.py:129 | two different strings are ordered one way or the other |
| Text.TwoDigitLex | parsers/parse_pdf_ylm.py:474 | two-digit texts compare as strings exactly as their values compare |
| Sorting.SortBy | parsers/raw_to_local.py:129 | the sort returns a permutation of its input |
| Sorting.SortBySorted | parsers/raw_to_local.py:129 | under a strict weak order the result is sorted |
| Sorting.SortByStable | parsers/raw_to_local.py:129 | elements with equal keys keep their relative order |
| Sorting.SortByFirst | parsers/parse_pdf_ylm.py:227 | the head of the sorted sequence is the first minimal element of the input |
| Patterns.SearchFrom | parsers/parse_pdf_ylm.py:76 | `re.search`: the leftmost match at or after i, and None exactly when no position matches |
| Patterns.FindAllFrom | parsers/parse_pdf_ylm.py:186 | `re.finditer`: real matches in order, never overlapping |
| Patterns.Texts | parsers/parse_pdf_ylm.py:186 | the matched texts are the slices of the spans |
| Patterns.TimeMatch | parsers/parse_pdf_ylm.py:14 | a TIME_RE match spans a time-shaped token |
| Patterns.Times | parsers/parse_pdf_ylm.py:185-186 | `TIME_RE.findall` returns time-shaped tokens only |
| Patterns.DigitRun | parsers/parse_pdf_ylm.py:15 | the run read is all digits, at most the cap, and stops before a digit only at the cap |
| Patterns.DateToken | parsers/parse_pdf_ylm.py:13 | a DATE_RE match is never empty |
| Patterns.DaySearch | parsers/parse_pdf_ylm.py:15 | a DAY_RE group reads a number no larger than 31 |
| Dates.ToDatetimeDayFirst | parsers/parse_pdf_ylm.py:81 | a parsed date is a real calendar date |
| Dates.FormatDateRoundTrip | parsers/parse_pdf_ylm.py:82 | a valid date printed `DD.MM.YYYY` parses back to itself |
| Dates.NormalizeDate | parsers/parse_pdf_ylm.py:75-84 | the result is empty exactly when the text holds no DATE_RE token |
| Dates.NormalizeDateCanonical | parsers/parse_pdf_ylm.py:80-82 | a token that parses comes back as a valid `DD.MM.YYYY` that reads as the parsed date |
| Dates.JoinDateParses | parsers/parse_pdf_ylm.py:368 | the `DD.MM.YYYY` built from a day, a month and a four-digit year reads back as those three |
| Dates.DayFirstOfGroups | parsers/parse_pdf_ylm.py:81 | the digit groups of a valid date with a four-digit year parse as that date |
| Dates.ExtractDay | parsers/parse_pdf_ylm.py:174-182 | `_extract_day` gives None or a day from 1 to 31 |
| Dates.ExtractDayFromCell | parsers/parse_pdf_ylm.py:348-358 | `_extract_day_from_cell` gives None or a day from 1 to 31 |
| Dates.BuildDate | parsers/parse_pdf_ylm.py:361-368 | a full date when the cell has one; else, with a day, a month below 100 and a four-digit year, the `DD.MM.YYYY` of those; else "" |
| Dates.NoDateInDigits | parsers/parse_pdf_ylm.py:13 | a text of digits only holds no DATE_RE token |
| Dates.DayOfDigits | parsers/parse_pdf_ylm.py:348-358 | a cell of one or two digits naming a day 1..31, `30` and `31` included, is read as that day |
| Dates.BuildDateDayOnly | parsers/parse_pdf_ylm.py:361-368 | a bare day of one or two digits naming 1..31 is completed with the month and year given |
| PdfTime.NormalizeTime | parsers/parse_pdf_ylm.py:113-124 | `_normalize_time` returns "" or an `HH:MM` with hour 0..23 and minute 0..59 |
| PdfTime.FormatClockIsClock | parsers/parse_pdf_ylm.py:124 | `f"{h:02d}:{m:02d}"` of a valid hour and minute is a clock text that reads back as them |
| PdfTime.NormalizeTimeClock | parsers/parse_pdf_ylm.py:113-124 | a clock text is returned unchanged |
| PdfTime.NormalizeTimeIdempotent | parsers/parse_pdf_ylm.py:113-124 | normalising twice is normalising once |
| PdfTime.ClockLexOrder | parsers/parse_pdf_ylm.py:474-480 | clock texts compare as strings exactly as they compare as times |
| PdfTime.Minutes | parsers/parse_pdf_ylm.py:197-198 | a TIME_RE token reads as at most 23:59 in minutes |
| PdfTime.Clean | parsers/parse_pdf_ylm.py:190 | the remaining times are exactly the input times other than 00:00 and 00:01 |
| PdfTime.Parsed | parsers/parse_pdf_ylm.py:205-210 | every remaining time is paired with its minutes, in order |
| PdfTime.ParseTimes | parsers/parse_pdf_ylm.py:205-210 | the loop building `parsed` computes `Parsed` |
| PdfTime.EarlierTimedOrder | parsers/parse_pdf_ylm.py:212 | ordering by minutes is a strict weak order |
| PdfTime.LowerScoreOrder | parsers/parse_pdf_ylm.py:227 | ordering candidates by score is a strict weak order |
| PdfTime.CollectCandidates | parsers/parse_pdf_ylm.py:214-224 | the nested i/j loop collects the candidates of all plausible pairs |
| PdfTime.CollectRow | parsers/parse_pdf_ylm.py:215-224 | the inner loop appends the candidates of the pairs (i, j), i < j |
| PdfTime.CandidatesFrom | parsers/parse_pdf_ylm.py:214-224 | every candidate comes from a plausible pair p < q of the sorted times |
| PdfTime.CandidatesCover | parsers/parse_pdf_ylm.py:214-224 | every plausible pair p < q of the sorted times is a candidate |
| PdfTime.CandidateIsPair | parsers/parse_pdf_ylm.py:214-224 | a candidate is made of remaining times, lasts 3 to 16 hours and carries its distance from 8 hours |
| PdfTime.NoCandidate | parsers/parse_pdf_ylm.py:225-226 | there is no candidate exactly when no pair of remaining times is plausible |
| PdfTime.BestCandidate | parsers/parse_pdf_ylm.py:227-229 | the chosen candidate is a plausible pair no other plausible pair beats |
| PdfTime.MinimalBeats | parsers/parse_pdf_ylm.py:227-229 | the first minimal candidate scores no worse than any plausible pair |
| PdfTime.SelectTimePair | parsers/parse_pdf_ylm.py:189-229 | the method computes the pair selection `SelectSpec` |
| PdfTime.SelectTooFew | parsers/parse_pdf_ylm.py:190-192 | fewer than two remaining times give None |
| PdfTime.SelectTwo | parsers/parse_pdf_ylm.py:193-203 | two remaining times come back as they are, the earlier first, and in their given order when their minutes are equal |
| PdfTime.SelectMany | parsers/parse_pdf_ylm.py:205-229 | with three or more, None exactly when no pair is plausible; else a plausible pair of remaining times closest to 8 hours |
| PdfTime.SelectExample | parsers/parse_pdf_ylm.py:205-229 | 09:00, 13:00, 17:30 give (09:00, 17:30) |
| PdfHeader.CleanHeader | parsers/parse_pdf_ylm.py:322 | the cleaned header text holds no quote marks |
| PdfHeader.FirstKey | parsers/parse_pdf_ylm.py:331-345 | each of the seven keys exactly when its test holds and none before it does, in the order date, day, time_in, time_out, site, notes, total; "" exactly when no test holds |
| PdfHeader.KeyOfPriority | parsers/parse_pdf_ylm.py:331-345 | each key exactly when its token occurs in either text and no higher-priority token does, and "" exactly when none occurs |
| PdfHeader.HeaderKeyPriority | parsers/parse_pdf_ylm.py:321-345 | `_header_key` gives each of the seven keys exactly when the cleaned text is non-empty, holds its token in either direction and holds no higher-priority token |
| PdfHeader.KeyOfSymmetric | parsers/parse_pdf_ylm.py:328-329 | `_has` checks both directions, so swapping them changes nothing |
| PdfHeader.HeaderKeyReversed | parsers/parse_pdf_ylm.py:326-329 | a header whose cleaned text is reversed gets the same key |
| PdfHeader.HitsUpTo | parsers/parse_pdf_ylm.py:411-416 | at most one hit per token |
| PdfHeader.CountTokenHits | parsers/parse_pdf_ylm.py:412-416 | the token loop counts the tokens the text holds, forwards or reversed |
| PdfHeader.CountHits | parsers/parse_pdf_ylm.py:411-416 | a row's hits are its token count, at most the number of header tokens |
| PdfHeader.RowScores | parsers/parse_pdf_ylm.py:410-416 | the score of every row |
| PdfHeader.FindHeader | parsers/parse_pdf_ylm.py:409-419 | the header search loop computes `BestHeader` over the row scores |
| PdfHeader.BestHeaderStep | parsers/parse_pdf_ylm.py:417-419 | a row replaces the best only with strictly more hits |
| PdfHeader.BestHeaderFirstMaximum | parsers/parse_pdf_ylm.py:409-419 | the header is the first row with the greatest number of hits, and none when every row scores 0 |
| PdfHeader.TableHeaders | parsers/parse_pdf_ylm.py:426-432 | header cells as they are, `COL_{i+1}` for an empty one, never empty |
| PdfHeader.KeyIndexFirst | parsers/parse_pdf_ylm.py:439-442 | the key map holds each key found with its first column |
| PdfHeader.KeyIndices | parsers/parse_pdf_ylm.py:439-442 | the key-map loop keeps the first occurrence of every key |
| PdfHeader.BlankIsServiceLine | parsers/parse_pdf_ylm.py:232-236 | a line of nothing but white space is a service line |
| PdfMonthYear.MonthNumbers | parsers/parse_pdf_ylm.py:19-33 | the name table has 13 entries, each a month from 1 to 12 |
| PdfMonthYear.FirstMonthFrom | parsers/parse_pdf_ylm.py:132-143 | the loop with `break` finds the first entry whose name occurs |
| PdfMonthYear.FirstMonthNone | parsers/parse_pdf_ylm.py:132-143 | nothing is found exactly when no name occurs |
| PdfMonthYear.FindMonthByName | parsers/parse_pdf_ylm.py:130-143 | the two name loops give the month and Hebrew name of `NamedMonth`, a name as written winning over a reversed one |
| PdfMonthYear.WordThenYear | parsers/parse_pdf_ylm.py:148 | a match of the word-first year pattern is a valid hit |
| PdfMonthYear.YearThenWord | parsers/parse_pdf_ylm.py:149 | a match of the digits-first year pattern is a valid hit |
| PdfMonthYear.YearGroups | parsers/parse_pdf_ylm.py:151-152 | every year group is 2 to 4 digits |
| PdfMonthYear.ValidYears | parsers/parse_pdf_ylm.py:153-155 | only years from 2000 to 2100 are kept |
| PdfMonthYear.YearCandidates | parsers/parse_pdf_ylm.py:146-155 | every year candidate lies in 2000..2100 |
| PdfMonthYear.CollectYears | parsers/parse_pdf_ylm.py:151-155 | the inner loop appends the plausible years of one pattern |
| PdfMonthYear.FindYearCandidates | parsers/parse_pdf_ylm.py:146-155 | the loop over both patterns computes `YearCandidates` |
| PdfMonthYear.TwentyValue | parsers/parse_pdf_ylm.py:160 | a `20dd` token is a year from 2000 to 2099 |
| PdfMonthYear.TwentyYear | parsers/parse_pdf_ylm.py:159-161 | the `20xx` fallback gives a year from 2000 to 2099 |
| PdfMonthYear.FindTwenty | parsers/parse_pdf_ylm.py:159-161 | the fallback search computes `TwentyYear` |
| PdfMonthYear.WordYear | parsers/parse_pdf_ylm.py:156-161 | the year found before the numeric fallback lies in 2000..2100 |
| PdfMonthYear.FindYear | parsers/parse_pdf_ylm.py:156-161 | the year search computes `WordYear` |
| PdfMonthYear.MonthNumberAt | parsers/parse_pdf_ylm.py:164 | a numeric `MM/YY` match: the month group, a separator and two year digits |
| PdfMonthYear.MonthGroupValue | parsers/parse_pdf_ylm.py:164 | a matched month group reads as 1 to 12 |
| PdfMonthYear.NumericMonth | parsers/parse_pdf_ylm.py:163-169 | a month from 1 to 12 and a two-digit year |
| PdfMonthYear.ExtractMonthYear | parsers/parse_pdf_ylm.py:127-171 | the method computes `MonthYearSpec` |
| PdfMonthYear.MonthYearRanges | parsers/parse_pdf_ylm.py:127-171 | the month is 1..12, the year 2000..2100, and a Hebrew name comes only with the month it names |
| PdfMonthYear.NameDecidesMonth | parsers/parse_pdf_ylm.py:132-143 | a month name that occurs decides the month |
| PdfMonthYear.NumericFallback | parsers/parse_pdf_ylm.py:163-169 | without a name, `MM/YY` gives the month, and the year only when none was found |
| PdfMonthYear.FirstCandidateWins | parsers/parse_pdf_ylm.py:156-157 | a year beside the word for "year" wins: the first candidate |
| PdfTypeA.NormalizeRowCells | parsers/parse_pdf_ylm.py:401-405 | every cell is normalised in place, `None` becoming "" |
| PdfTypeA.NormalizeRows | parsers/parse_pdf_ylm.py:401-405 | the row loop normalises every row of the table |
| PdfTypeA.RowTimes | parsers/parse_pdf_ylm.py:469 | the normalised time of every cell |
| PdfTypeA.TimeCandidates | parsers/parse_pdf_ylm.py:465-471 | every candidate is a cell outside the total column with a non-empty time |
| PdfTypeA.TimeCandidatesComplete | parsers/parse_pdf_ylm.py:465-471 | every such cell is a candidate |
| PdfTypeA.CollectTimeCandidates | parsers/parse_pdf_ylm.py:465-471 | the candidate loop computes `TimeCandidates` |
| PdfTypeA.CandidatesAreClocks | parsers/parse_pdf_ylm.py:469-471 | every candidate is an `HH:MM` time |
| PdfTypeA.TextBeforeOrder | parsers/parse_pdf_ylm.py:474 | sorting candidates by their time text is a strict weak order |
| PdfTypeA.OtherTimes | parsers/parse_pdf_ylm.py:478 | exactly the candidate times that differ from the entry time |
| PdfTypeA.MaxText | parsers/parse_pdf_ylm.py:480 | `max` returns an element no other element exceeds |
| PdfTypeA.FillTimesKeeps | parsers/parse_pdf_ylm.py:473-480 | a time the row's own column gave is never replaced |
| PdfTypeA.FillTimesEarliest | parsers/parse_pdf_ylm.py:473-475 | a missing entry time becomes the earliest candidate |
| PdfTypeA.FillTimesLatest | parsers/parse_pdf_ylm.py:477-480 | a missing exit time becomes the latest candidate other than the entry time, or stays "" |
| PdfTypeA.FillTimesClock | parsers/parse_pdf_ylm.py:473-480 | the filled times are `HH:MM` or "" |
| PdfTypeA.Keys | parsers/parse_pdf_ylm.py:438 | the key of every header |
| PdfTypeA.ResolveTimes | parsers/parse_pdf_ylm.py:459-480 | the time fallback of one row computes `FillTimes` over its candidates |
| PdfTypeA.BuildRecord | parsers/parse_pdf_ylm.py:448-462 | the row built from a data row is `RowRecord`: the date from the `date` column only, the times filled as `FillTimes` gives, site and notes as display text |
| PdfTypeA.RowRecordTimes | parsers/parse_pdf_ylm.py:458-480 | a built row's times are `HH:MM` or "" |
| PdfTypeA.ApplyRecord | parsers/parse_pdf_ylm.py:482-492 | a total-only row sets the total once; a row without data is dropped; the rest are appended |
| PdfTypeA.ProcessRow | parsers/parse_pdf_ylm.py:444-492 | an all-empty row is skipped, any other goes through `RecordStep` |
| PdfTypeA.ProcessDataRows | parsers/parse_pdf_ylm.py:444-492 | the row loop folds `RowStep` over the data rows |
| PdfTypeA.ProcessTable | parsers/parse_pdf_ylm.py:400-442 | one table: normalise, find the header, then walk the rows |
| PdfTypeA.ProcessHeaderedTable | parsers/parse_pdf_ylm.py:425-444 | headers kept from the first table, key map, then the data rows after the header |
| PdfTypeA.ProcessPage | parsers/parse_pdf_ylm.py:399-400 | the tables of one page in order |
| PdfTypeA.TablesStepAppend | parsers/parse_pdf_ylm.py:398-400 | walking two runs of tables in turn is walking their concatenation |
| PdfTypeA.ParseTypeA | parsers/parse_pdf_ylm.py:387-494 | the walker over all pages, dates read as line 448 reads them, computes `ParseTypeASpec` |
| PdfTypeA.TableHeaderFirstMaximum | parsers/parse_pdf_ylm.py:409-419 | a table's header row is its first row with the most hits |
| PdfTypeA.TableWithoutHeader | parsers/parse_pdf_ylm.py:421-423 | a table of two rows or more without a row of two hits adds one `header_not_found` issue and nothing else |
| PdfTypeA.TableWithHeader | parsers/parse_pdf_ylm.py:425-436 | the first table with a header gives the document's headers and adds no issue |
| PdfTypeA.RecordStepKeeps | parsers/parse_pdf_ylm.py:482-492 | a row never removes a record and never changes a total once set |
| PdfTypeA.RecordStepCases | parsers/parse_pdf_ylm.py:482-492 | the total is set exactly when none was set and the row carries only a total, and then to that total; the record is appended exactly when it has regular data |
| PdfTypeA.TablesStepKeeps | parsers/parse_pdf_ylm.py:398-492 | walking tables only adds records and issues, keeps the first total and the first headers |
| PdfTypeA.ParseTypeARecords | parsers/parse_pdf_ylm.py:482-492 | every returned record has regular data and times that are `HH:MM` or "" |
| PdfTypeA.ParseTypeAPrefix | parsers/parse_pdf_ylm.py:398-400 | the results of a leading run of pages are a prefix of the document's |
| PdfTypeA.DayColumnIgnored | parsers/parse_pdf_ylm.py:448 | as written: without a `date` column the row the walker builds has date "" |
| PdfTypeA.DataRowsUndated | parsers/parse_pdf_ylm.py:444-492 | as written: the data rows of a table without a `date` column add only undated records |
| PdfTypeA.HeaderedTableUndated | parsers/parse_pdf_ylm.py:425-492 | as written: a table none of whose headers maps to `date`, a `יום` column included, adds only undated records |
| PdfTypeA.RowRecordIntended | parsers/parse_pdf_ylm.py:448 | corrected: the walker's row in every field but the date, and the walker's row itself when a `date` column exists |
| PdfTypeA.DayColumnUsed | parsers/parse_pdf_ylm.py:448 | corrected: a day cell without a full date whose day reads as d in 1..31 gives, with the month context, the `DD.MM.YYYY` that reads back as d, the month and the year |
| PdfTypeA.DayColumnDigits | parsers/parse_pdf_ylm.py:448 | corrected: a day cell of one or two digits naming 1..31, such as the test's `28`, gives that day with the month and year |
| PdfTypeA.EmptyCellNoDate | parsers/parse_pdf_ylm.py:361-368 | an empty date cell gives "" |
| PdfTypeB.FirstBreakFrom | parsers/parse_pdf_ylm.py:248 | the first line boundary at or after i, and None exactly when there is none |
| PdfTypeB.SplitLines | parsers/parse_pdf_ylm.py:248 | `splitlines()` gives lines without boundaries |
| PdfTypeB.SplitLinesContents | parsers/parse_pdf_ylm.py:248 | the lines together hold exactly the text's characters other than the boundaries |
| PdfTypeB.OneLine | parsers/parse_pdf_ylm.py:248 | a non-empty text without a boundary is one line |
| PdfTypeB.Prefix | parsers/parse_pdf_ylm.py:285 | `s[:n]` is the prefix of s of length n, or all of s when it is shorter |
| PdfTypeB.LineDate | parsers/parse_pdf_ylm.py:261-269 | a full date normalised; else the day as `DD` exactly when a day, a month and a year are known; else None |
| PdfTypeB.TimePositions | parsers/parse_pdf_ylm.py:255 | one span per time, inside the line |
| PdfTypeB.PairTimesAreTimes | parsers/parse_pdf_ylm.py:271-272 | the times passed on are time tokens |
| PdfTypeB.Outcomes | parsers/parse_pdf_ylm.py:246-297 | one outcome per line |
| PdfTypeB.DocOutcomesStep | parsers/parse_pdf_ylm.py:246-248 | pages are walked in order, a missing text giving no lines |
| PdfTypeB.ProcessLine | parsers/parse_pdf_ylm.py:249-297 | the loop body computes the line's outcome |
| PdfTypeB.ProcessDatedLine | parsers/parse_pdf_ylm.py:271-297 | the rest of the body, once two times and a date are known |
| PdfTypeB.ProcessLineAt | parsers/parse_pdf_ylm.py:249-297 | one turn appends the line's record or issue |
| PdfTypeB.Record | parsers/parse_pdf_ylm.py:277-297 | a kept record goes to `records`, an issue to `bad` |
| PdfTypeB.ProcessLines | parsers/parse_pdf_ylm.py:248-297 | the line loop collects the kept records and the issues of its lines |
| PdfTypeB.ParseTypeB | parsers/parse_pdf_ylm.py:243-299 | the whole fallback returns the kept records and the issues of every page |
| PdfTypeB.TotalTokenIsService | parsers/parse_pdf_ylm.py:39-53 | every total marker is a service marker too |
| PdfTypeB.TotalTokensUnreachable | parsers/parse_pdf_ylm.py:271-272 | on a line not skipped the total truncation never applies |
| PdfTypeB.TotalInTail | parsers/parse_pdf_ylm.py:294 | a total marker in the tail is a marker of the line |
| PdfTypeB.NotesAreTail | parsers/parse_pdf_ylm.py:291-295 | the notes of a line not skipped are its whole stripped tail |
| PdfTypeB.OutcomeCases | parsers/parse_pdf_ylm.py:252-278 | skipped exactly for service lines; each rejection reason exactly when its check fails first; issues name their line |
| PdfTypeB.DatedKept | parsers/parse_pdf_ylm.py:274-297 | a kept dated line records its date and two of its remaining times, entry no later than exit, best pair for three or more |
| PdfTypeB.KeptLine | parsers/parse_pdf_ylm.py:252-297 | a kept line has two times and a date; site and notes only without a full date |
| PdfTypeB.ParseTypeBResults | parsers/parse_pdf_ylm.py:243-299 | every record has a date and entry no later than exit; every issue has one of the three reasons |
| PdfTypeB.KeptCount | parsers/parse_pdf_ylm.py:246-297 | each line gives at most one record or one issue |
| SyncTime.Head | sync_logic.py:17 | `s[:n]` is the prefix of s of length n, or all of s when it is shorter |
| SyncTime.ColonParts | sync_logic.py:21-24 | None exactly when there is no colon; else the colon-free fields `a` and `b` with `a:b` a prefix of s ending at the end or at the next colon |
| SyncTime.NormTime | sync_logic.py:7-32 | `_norm_time` returns "" or `HH:MM` |
| SyncTime.NormText | sync_logic.py:14-32 | the same after `str(v).strip()` |
| SyncTime.ClockOfFields | sync_logic.py:24-30 | an hour and minute in range as `HH:MM`, else "" |
| SyncTime.NormTimeClock | sync_logic.py:7-32 | a clock text comes back unchanged |
| SyncTime.ClockOfOwnFields | sync_logic.py:21-30 | the fields of a clock text rebuild it |
| SyncTime.NormTimeIdempotent | sync_logic.py:7-32 | normalising twice is normalising once |
| SyncTime.NormTimeSeconds | sync_logic.py:17 | `HH:MM:SS` keeps its hour and minute: "07:00:00" gives "07:00" |
| SyncTime.ColonPartsSeconds | sync_logic.py:21 | trailing seconds do not change the first two fields |
| SyncTime.NormTimeMinutes | sync_logic.py:35-39 | a normalised time reads back as a minute of the day, 0..1439 |
| SyncTime.TimeToMinutesClock | sync_logic.py:35-39 | a clock text reads as its minutes since midnight |
| SyncTime.TimeToMinutesOfParts | sync_logic.py:38-39 | the minutes are read from the first two colon fields |
| SyncTime.FieldMinutesDigits | sync_logic.py:39 | two digit runs read as h * 60 + m |
| SyncTime.SignedSign | sync_logic.py:46 | the text starts with `-` exactly for a negative count, else `+`, so 0 is `+0:00` |
| SyncTime.SignedShape | sync_logic.py:48 | the hours are `abs(m) // 60` unpadded, the minutes `abs(m) % 60` in two digits |
| SyncTime.SignedRoundTrip | sync_logic.py:42-48 | reading the signed text back gives the count |
| SyncReconcile.ColumnIndex | sync_logic.py:97 | a column label's first position |
| SyncReconcile.SiteRowsUpTo | sync_logic.py:97 | `dropna(subset=[date])`: no kept row lacks a date |
| SyncReconcile.FirstWord | sync_logic.py:129 | None, where `split()[0]` raises, exactly when the text is all white space; else a non-empty word without white space |
| SyncReconcile.FirstWordAt | sync_logic.py:129 | the word starts at the first character that is not white space and is the maximal word from there |
| SyncReconcile.WordPrefix | sync_logic.py:129 | a non-empty prefix without white space that ends at the end of the text or at white space |
| SyncReconcile.ParseIso | sync_logic.py:131 | an ISO date read year first is a real date |
| SyncReconcile.SiteDate | sync_logic.py:129-134 | a site date that parses is a real date |
| SyncReconcile.SiteDateStamp | sync_logic.py:129-131 | a timestamp cell's text starts with its ISO date, which reads back as the same date |
| SyncReconcile.SiteTime | sync_logic.py:136-137 | a site time is "" or `HH:MM` |
| SyncReconcile.ReadRow | sync_logic.py:106-117 | a row shorter than two cells or with blank column B is skipped; else its stripped date and normalised times |
| SyncReconcile.IndexUpTo | sync_logic.py:105-117 | the index never holds the empty date and holds normalised times only |
| SyncReconcile.LedgerIndex | sync_logic.py:105-117 | the same for the whole ledger |
| SyncReconcile.BuildIndex | sync_logic.py:105-117 | the index loop computes `LedgerIndex` |
| SyncReconcile.IndexKeys | sync_logic.py:113-117 | the index holds exactly the dates of the dated rows |
| SyncReconcile.IndexEntry | sync_logic.py:114-117 | an entry is the 1-based number and times of a row carrying its date |
| SyncReconcile.IndexLast | sync_logic.py:117 | that row is the last carrying the date: a later one replaces an earlier one |
| SyncReconcile.IndexDistinct | sync_logic.py:105-117 | two dates never point at the same ledger row |
| SyncReconcile.FindVariant | sync_logic.py:139-148 | `DD.MM.YYYY` first, then `DD/MM/YYYY`; None exactly when neither is in the index |
| SyncReconcile.Fill | sync_logic.py:158-168 | the ledger's time when it has one, else the site's |
| SyncReconcile.Compare | sync_logic.py:177-183 | 0 unless both times exist and differ; -1 exactly when the site's time is earlier, 1 when later |
| SyncReconcile.ClockMinutesInjective | sync_logic.py:178-183 | different clock texts are different times |
| SyncReconcile.Diff | sync_logic.py:185-190 | a difference exists exactly when all four times exist |
| SyncReconcile.DiffText | sync_logic.py:191-194 | "" exactly without a difference; otherwise a signed text that reads back as it |
| SyncReconcile.Settle | sync_logic.py:154-196 | the remembered times stay normalised |
| SyncReconcile.ReadSite | sync_logic.py:128-137 | a dated site row has a real date and normalised times |
| SyncReconcile.ReadSites | sync_logic.py:128-137 | one reading per site row |
| SyncReconcile.Step | sync_logic.py:128-152 | one iteration; a failure where `split()[0]` raises |
| SyncReconcile.UnmatchedRowIgnored | sync_logic.py:133-152 | an unreadable date, or one under neither spelling, changes nothing |
| SyncReconcile.PassUpTo | sync_logic.py:128-196 | the loop over the first n site rows |
| SyncReconcile.Reconcile | sync_logic.py:128-196 | the loop method computes `PassUpTo` over all the site rows |
| SyncReconcile.PassStep | sync_logic.py:128-196 | one more row is one more `Step` |
| SyncReconcile.FailureSticks | sync_logic.py:129 | once a row raises, the whole pass raises |
| SyncReconcile.MineKeeps | sync_logic.py:155-156 | the times compared for a date never lose one the ledger had |
| SyncReconcile.SettleCache | sync_logic.py:170-171 | remembered times still keep the ledger's after one row |
| SyncReconcile.SettleNewPatches | sync_logic.py:158-168 | each new patch fills an empty cell on the row of the date settled |
| SyncReconcile.SettleOldPatches | sync_logic.py:158-171 | earlier patches still fill empty cells whose values are remembered |
| SyncReconcile.SettleDistinct | sync_logic.py:158-171 | no cell is patched twice |
| SyncReconcile.SettleChanges | sync_logic.py:173-196 | a new change row records a real disagreement, with its difference and comparisons |
| SyncReconcile.SettleChangeIff | sync_logic.py:173-175 | a change row is added exactly when, after the fill, the ledger's pair differs from the site's |
| SyncReconcile.SettleOk | sync_logic.py:154-196 | one settled row keeps the pass invariant |
| SyncReconcile.StepOk | sync_logic.py:128-196 | one iteration keeps the pass invariant |
| SyncReconcile.PassUpToOk | sync_logic.py:128-196 | every prefix of the pass that does not raise keeps the invariant |
| SyncReconcile.PatchesFillGaps | sync_logic.py:158-168 | every patch writes `HH:MM` into column C or D of a dated ledger row whose cell was empty, and no cell is patched twice |
| SyncReconcile.OkPatch | sync_logic.py:158-168 | under the invariant a patch fills a gap and is the only patch of its cell |
| SyncReconcile.ChangesAreReal | sync_logic.py:173-196 | every change row records a real disagreement with its difference and comparisons |
| SyncReconcile.AnyUpTo | sync_logic.py:240-246 | `any_total` is true exactly when some change row has a difference |
| SyncReconcile.SumTotal | sync_logic.py:237-246 | the loop computes the total of the differences and `any_total` |
| SyncReconcile.TotalText | sync_logic.py:259-261 | "" exactly when no row has a difference; otherwise a signed text reading back as the total |
| SyncReconcile.TotalBounds | sync_logic.py:240-246 | rows without a difference add nothing; the total keeps the sign the differences share |
| SyncReconcile.ValuesBlock | sync_logic.py:224-230 | six values per change row, date first and the difference text last |
| SyncReconcile.BuildChangesSheet | sync_logic.py:77-261 | the method computes `BuildChangesSpec`: missing columns refused, patches, and a sheet only when there are changes |
| RawToLocal.ToMinutes | parsers/raw_to_local.py:27-34 | `99*60` for a text without a colon or where `int()` raises on either side of the first colon; else hours times 60 plus minutes |
| RawToLocal.ToMinutesSeconds | parsers/raw_to_local.py:27-34 | a clock with seconds such as `07:00:00` is unreadable and sorts as `99*60`, where `_norm_time` reads it as `07:00` |
| RawToLocal.ToMinutesClock | parsers/raw_to_local.py:27-34 | an `HH:MM` time is its minutes, always before an unreadable time |
| RawToLocal.Warned | parsers/raw_to_local.py:39-42 | the message is appended unless already there |
| RawToLocal.WarnedNoDuplicates | parsers/raw_to_local.py:39-42 | a list kept by `_warn` never holds a message twice |
| RawToLocal.WarnedIdempotent | parsers/raw_to_local.py:39-42 | warning twice with the same message is warning once |
| RawToLocal.WarnAll | parsers/raw_to_local.py:39-42 | warning only extends the list |
| RawToLocal.WarnAllContents | parsers/raw_to_local.py:39-42 | afterwards the list holds exactly the old messages and the new ones |
| RawToLocal.WarnAllNoDuplicates | parsers/raw_to_local.py:39-42 | repeated warnings keep the list free of duplicates |
| RawToLocal.WarnAllAppend | parsers/raw_to_local.py:39-42 | warning with a, then b, is warning with a + b |
| RawToLocal.Meta.constructor | parsers/raw_to_local.py:86 | the metadata holds the fields given |
| RawToLocal.Meta.Warn | parsers/raw_to_local.py:39-42 | `_warn` creates the list if needed and appends the message unless there; nothing else changes |
| RawToLocal.WarningsAfterOne | parsers/raw_to_local.py:39-42 | one message is one `_warn` |
| RawToLocal.GetValue | parsers/raw_to_local.py:45-61 | the stripped value under the key, else the reversed key, else the English alias, else "" |
| RawToLocal.AliasRead | parsers/raw_to_local.py:45-61 | a map whose keys are not Hebrew holds neither a Hebrew key nor its reversal, so the alias is read |
| RawToLocal.CanonicalRowFields | parsers/raw_to_local.py:92-96 | a row of the PDF table walker (`parse_pdf_ylm.py:371-385`) is read field by field through the English aliases |
| RawToLocal.TextRecordFields | parsers/raw_to_local.py:92-96 | a record of the PDF text fallback (`parse_pdf_ylm.py:239-240`) is read under its Hebrew keys |
| RawToLocal.GetValueFrame | parsers/raw_to_local.py:45-61 | entries outside the looked-up keys are never read |
| RawToLocal.ServiceColumnsIgnored | tests/test_parsers.py:27-42 | the service columns beside the times are never read |
| RawToLocal.CanonicalHeader | parsers/raw_to_local.py:64-78 | a known column name or ""; an output column only from itself or its reversal |
| RawToLocal.ColumnsNotReversed | parsers/raw_to_local.py:67-71 | no output column is another one written backwards |
| RawToLocal.CanonicalHeaderReversed | parsers/raw_to_local.py:69-71 | a header and its reversal name the same column |
| RawToLocal.CanonicalHeaderColumns | parsers/raw_to_local.py:67-71 | a column name, as written or reversed, is read as itself |
| RawToLocal.ReadRows | parsers/raw_to_local.py:91-123 | one reading per input row |
| RawToLocal.RecordLessOrder | parsers/raw_to_local.py:129 | ordering by date text, then entry minutes, is a strict weak order |
| RawToLocal.BadTimesLast | parsers/raw_to_local.py:27-34 | on one date an `HH:MM` entry sorts before any entry `_to_minutes` cannot read |
| RawToLocal.DateSettled | parsers/raw_to_local.py:98-102 | the branches of the date completion compute `CompleteDate` |
| RawToLocal.SettleDate | parsers/raw_to_local.py:98-106 | the completed date, with the warning it raises added to the metadata |
| RawToLocal.SettleRow | parsers/raw_to_local.py:98-123 | a row's record is kept or not and its warnings are added |
| RawToLocal.ProcessRow | parsers/raw_to_local.py:92-123 | one iteration extends the records and warnings of the first n rows to n + 1 |
| RawToLocal.ConvertRows | parsers/raw_to_local.py:91-123 | the loop keeps the records and raises the warnings of every row |
| RawToLocal.RawToLocalDf | parsers/raw_to_local.py:85-131 | the result is `RawToLocalSpec`; warnings go to the metadata unless it is empty |
| RawToLocal.SettleKept | parsers/raw_to_local.py:108-123 | a row is kept exactly when its date is known, with its five stripped fields |
| RawToLocal.SettleWarnings | parsers/raw_to_local.py:98-113 | the date warning, then "missing date" only for a row with data but no date |
| RawToLocal.DateWarningsCases | parsers/raw_to_local.py:99-106 | no warning for a known date; `unparsed date: …` for other text; `empty date` for an empty one |
| RawToLocal.CompleteDateDay | parsers/raw_to_local.py:100-102 | a bare day is completed with the month and year of the metadata |
| RawToLocal.CompleteDateNoMonth | parsers/raw_to_local.py:103-104 | without a month or a year a bare day is reported unparsed |
| RawToLocal.KeptUpToEmpty | parsers/raw_to_local.py:125-126 | no record exactly when no row was kept |
| RawToLocal.RawToLocalOutcome | parsers/raw_to_local.py:125-130 | an error exactly when no row has a date; else a stable sorted permutation of the kept records, each with a date |
| RawToLocal.RawToLocalWarnings | parsers/raw_to_local.py:39-42 | a whole call keeps the warnings free of duplicates |
| ExcelSource.StringifyShape | parsers/parse_excel_ylm.py:13-18 | None and NaN give ""; other text is stripped |
| ExcelSource.StringifyStamp | parsers/parse_excel_ylm.py:16-17 | a timestamp becomes a `DD.MM.YYYY` reading back as its date |
| ExcelSource.YearTail | parsers/parse_excel_ylm.py:22 | a separator, then the year digits, no digit after them |
| ExcelSource.PathMatchAt | parsers/parse_excel_ylm.py:22 | the month group of one or two characters, then a separator and 2 to 4 year digits |
| ExcelSource.PathHitDigits | parsers/parse_excel_ylm.py:22 | the month group is 1 or 2 digits, the year group 2 to 4 |
| ExcelSource.PathGroups | parsers/parse_excel_ylm.py:22-26 | a month group reading 1..12 and a year group of 2 to 4 digits |
| ExcelSource.MonthYearFromPath | parsers/parse_excel_ylm.py:21-28 | both None or both set; a month 1..12; a four-digit year as written, a shorter one plus 2000 |
| ExcelSource.MonthYearFromPathNone | parsers/parse_excel_ylm.py:23-24 | (None, None) exactly when no token occurs anywhere |
| ExcelSource.PathTokenIsolated | parsers/parse_excel_ylm.py:22 | the token has no digit right before it or right after it |
| ExcelSource.Basename | parsers/parse_excel_ylm.py:44 | a suffix of the path without `/`, preceded by a `/` unless it is the whole path: the text after the last `/` |
| ExcelSource.Headers | parsers/parse_excel_ylm.py:36 | the stripped column labels |
| ExcelSource.ConvertRow | parsers/parse_excel_ylm.py:39-41 | the column loop builds the row dict |
| ExcelSource.RowDictKeys | parsers/parse_excel_ylm.py:39-41 | the keys are exactly the stripped labels |
| ExcelSource.RowDictValue | parsers/parse_excel_ylm.py:39-41 | under a label no later column repeats, the stringified cell of that column |
| ExcelSource.RowsCount | parsers/parse_excel_ylm.py:37-42 | one row dict per sheet row, in order |
| ExcelSource.ParseExcel | parsers/parse_excel_ylm.py:31-60 | the method computes `ParseExcelSpec` |
| ExcelSource.ParseExcelOutcome | parsers/parse_excel_ylm.py:31-60 | refused exactly when a required column is missing; else one row per sheet row, the fixed meta and the file-name month and year |

## Left out

- I/O and foreign libraries are not modelled. The PDF library's page text and table extraction, the
  spreadsheet reading and the sheets API calls become parameters of the methods: the tables, page texts,
  the data frame and the fetched ledger values.
- `build_changes_sheet` does more than the model covers. The model leaves out:
  - the batch updates of the ledger (`sync_logic.py:198-204`), modelled as the list of patches it would send;
  - the deletion and creation of the changes worksheet, the cell formatting and the colours;
  - the date written into A1 from the clock.
- Console output (`_debug_print`, `print`) and the `.raw.json` debug dump are not modelled.
- ExcelSource.Basename: models the POSIX `os.path.basename`, which splits only at `/`; on Windows
  `\` also separates, and a path written with `\` would keep its directories here.
- The environment switches of `_normalize_display_text` are not modelled. Display text is modelled as
  their default: bidi controls removed and white space collapsed (`PdfTypeA.DisplayText`).
- `_extract_meta_from_text` and the top-level `parse_pdf_ylm`, which chooses between the two modes, are
  not part of this model.
- Some tests describe behaviour the shown `sync_logic.py` does not have:
  - `tests/test_sync_logic_fill_report.py` expects the `USER_ENTERED` option, a `False` return value and
    a printed fill report;
  - `tests/test_changes_sheet_requests.py` targets functions that are not in the file.

  The model follows the code.
- Dates.ToDatetimeDayFirst: `pd.to_datetime` is modelled only on the `D[./-]M[./-]Y` tokens DATE_RE
  finds, and several of its behaviours are left out:
  - a two-digit year is always 2000 + yy, with no century pivot;
  - the years are limited to 1678..2261, the whole years a pandas timestamp can hold;
  - other input formats are not read.
- SyncReconcile.SiteDate: a site date cell is either a timestamp or text. A timestamp is modelled at
  midnight, so its text is its ISO date followed by `00:00:00`, and only the date word is read, as the
  source does with `split()[0]`. Text is read day first. Timestamps carrying another time of day are
  not modelled.
- Text.Lower: `lower()` and the digit and word classes of the regular expressions are ASCII-only.
  Hebrew and Cyrillic letters count as word characters. Other Unicode case mappings and digits are
  not modelled.
- Sorting.SortBy: the pandas sort is modelled as a stable insertion sort on the same key. The
  contract states what pandas promises: a sorted, stable permutation.
- RawToLocal.RawToLocalDf: a metadata key that holds `None` is treated as absent. The data frame is
  the sequence of its records. The month and year are natural numbers.
- ExcelSource.RowDictValue: with duplicate column labels pandas would rename the columns. The model
  lets the last column with a label win in the row dict, as the loop does.
- SyncTime.FieldMinutesDigits: `int()` is modelled on stripped text: an optional sign, then ASCII
  digits with single underscores between them. Non-ASCII digits are not modelled.
- SyncReconcile.Settle: its own contract only keeps the cache normalised. What one settled row
  does is stated by `SettleChangeIff`, `SettleChanges`, `SettleNewPatches` and the lemmas beside them.

## Findings

| source | as written | input that shows it | evidently intended | confidence | as-written member | corrected member |
|---|---|---|---|---|---|---|
| parsers/parse_pdf_ylm.py:448 | The table walker reads the date only from a column keyed `date`. A column headed `יום` ("day") gets the key `day`, so every row of such a table gets an empty date. | Headers `["יום", "כניסה", "יציאה", "אתר", "הערות"]`, a row `["28", "7:00", "15:00", "Site A", ""]` and the month context 1/2026 give the date "" (tests/test_pdf_good_parser.py:30-36, 70 expect "28.01.2026"). | Without a date column, use the day column, so "28" with 1/2026 becomes "28.01.2026". | high; not executed | PdfTypeA.HeaderedTableUndated | PdfTypeA.DayColumnUsed |
