/**
 * Times in the PDF parser: `_normalize_time` (free text to `HH:MM` or "") and
 * `_select_time_pair` (the most plausible entry/exit pair among the time tokens of a line).
 */
module PdfTime {
  import opened Wrappers
  import opened Text
  import opened Patterns
  import opened Sorting

  // ---------------------------------------------------------------- _normalize_time

  /** A clock text `HH:MM` with the hour in 0..23 and the minute in 0..59. */
  predicate IsClock(r: string) {
    && |r| == 5 && r[2] == ':' && AllDigits(r[..2]) && AllDigits(r[3..])
    && DigitsValue(r[..2]) <= 23 && DigitsValue(r[3..]) <= 59
  }

  /**
   * `(\d{1,2})[:.](\d{2})` at `k`. The hour group is greedy; its one-digit retry would need a
   * separator where a digit stands, so the first fit is the only one.
   */
  function ClockMatch(s: string, k: nat): (r: Option<nat>)
    ensures r.Some? ==> k < r.value <= |s|
  {
    if k >= |s| then None
    else
      var d := DigitRun(s, k, 2);
      var j := k + d;
      if d == 0 || j + 3 > |s| || (s[j] != ':' && s[j] != '.') || !IsDigit(s[j + 1]) || !IsDigit(s[j + 2]) then None
      else Some(j + 3)
  }

  /** The hour and minute groups of the clock match at `k`. */
  function ClockGroups(s: string, k: nat): (r: (nat, nat))
    requires ClockMatch(s, k).Some?
  {
    var d := DigitRun(s, k, 2);
    assert AllDigits(s[k + d + 1..k + d + 3]) by {
      assert s[k + d + 1..k + d + 3] == [s[k + d + 1], s[k + d + 2]];
    }
    (DigitsValue(s[k..k + d]), DigitsValue(s[k + d + 1..k + d + 3]))
  }

  /** `f"{h:02d}:{m:02d}"`. */
  function FormatClock(h: nat, m: nat): string { Pad2(h) + ":" + Pad2(m) }

  lemma FormatClockIsClock(h: nat, m: nat)
    requires h <= 23 && m <= 59
    ensures IsClock(FormatClock(h, m))
    ensures DigitsValue(FormatClock(h, m)[..2]) == h && DigitsValue(FormatClock(h, m)[3..]) == m
  {
    var r := FormatClock(h, m);
    Pad2Value(h);
    Pad2Value(m);
    assert r[..2] == Pad2(h) && r[3..] == Pad2(m);
  }

  /**
   * `_normalize_time`: spaces removed, the first `H:MM`/`HH.MM` group read, and written as
   * `HH:MM` when the hour is at most 23 and the minute at most 59; "" otherwise. An out of
   * range first match gives "" even when a later one would fit.
   */
  function NormalizeTime(v: string): (r: string)
    ensures r == "" || IsClock(r)
  {
    var raw := RemoveBy(NormalizeSpace(v), c => c == ' ');
    if raw == [] then ""
    else
      match Search(raw, k => ClockMatch(raw, k))
      case None => ""
      case Some(sp) =>
        var (h, m) := ClockGroups(raw, sp.start);
        if h > 23 || m > 59 then ""
        else
          FormatClockIsClock(h, m);
          FormatClock(h, m)
  }

  lemma Pad2OfDigits(t: string)
    requires AllDigits(t) && |t| == 2
    ensures Pad2(DigitsValue(t)) == t
  {
    DigitsValueShort(t);
    var a, b := DigitVal(t[0]), DigitVal(t[1]);
    CharOfDigit(t[0]);
    CharOfDigit(t[1]);
    Pad2OfPair(a, b);
    assert t == [t[0], t[1]];
  }

  lemma CharOfDigit(c: char)
    requires IsDigit(c)
    ensures DigitChar(DigitVal(c)) == c
  {
  }

  /** Two digits `a`, `b` print back as themselves under `Pad2`. */
  lemma Pad2OfPair(a: nat, b: nat)
    requires a < 10 && b < 10
    ensures Pad2(10 * a + b) == [DigitChar(a), DigitChar(b)]
  {
    var v := 10 * a + b;
    if a > 0 {
      assert v / 10 == a && v % 10 == b;
      assert NatToString(v) == NatToString(a) + [DigitChar(b)];
    } else {
      assert DigitChar(0) == '0';
    }
  }

  lemma ClockChars(r: string)
    requires IsClock(r)
    ensures NoSpace(r) && forall i :: 0 <= i < |r| ==> !IsBidi(r[i])
    ensures ' ' !in r
  {
    forall i | 0 <= i < |r| ensures IsDigit(r[i]) || r[i] == ':' {
      if i < 2 { assert r[i] == r[..2][i]; }
      else if i > 2 { assert r[i] == r[3..][i - 3]; }
    }
  }

  lemma ClockAtStart(r: string)
    requires IsClock(r)
    ensures ClockMatch(r, 0) == Some(5)
    ensures ClockGroups(r, 0) == (DigitsValue(r[..2]), DigitsValue(r[3..]))
  {
    assert IsDigit(r[0]) && IsDigit(r[1]) by { assert r[0] == r[..2][0] && r[1] == r[..2][1]; }
    assert IsDigit(r[3]) && IsDigit(r[4]) by { assert r[3] == r[3..][0] && r[4] == r[3..][1]; }
    assert DigitRun(r, 2, 0) == 0;
    assert DigitRun(r, 1, 1) == 1;
    assert DigitRun(r, 0, 2) == 2;
    assert r[0..2] == r[..2] && r[3..5] == r[3..];
  }

  /** A clock text is read back unchanged. */
  lemma NormalizeTimeClock(r: string)
    requires IsClock(r)
    ensures NormalizeTime(r) == r
  {
    ClockChars(r);
    NormalizeSpaceFixed(r);
    NoSpaceFixedReplace(r);
    assert RemoveBy(NormalizeSpace(r), c => c == ' ') == r;
    ClockAtStart(r);
    assert Search(r, k => ClockMatch(r, k)) == Some(Span(0, 5));
    Pad2OfDigits(r[..2]);
    Pad2OfDigits(r[3..]);
    assert r == r[..2] + ":" + r[3..];
  }

  lemma NormalizeTimeIdempotent(v: string)
    ensures NormalizeTime(NormalizeTime(v)) == NormalizeTime(v)
  {
    var r := NormalizeTime(v);
    if r != "" {
      NormalizeTimeClock(r);
    } else {
      assert RemoveBy(NormalizeSpace(r), c => c == ' ') == [];
    }
  }

  /** The minutes since midnight of a clock text. */
  function ClockMinutes(r: string): nat
    requires IsClock(r)
  {
    DigitsValue(r[..2]) * 60 + DigitsValue(r[3..])
  }

  /**
   * Clock texts compare as strings exactly as they compare as times, so the string `min`/`max`
   * of the table fallback pick the earliest and the latest time.
   */
  lemma ClockLexOrder(a: string, b: string)
    requires IsClock(a) && IsClock(b)
    ensures LexLess(a, b) <==> ClockMinutes(a) < ClockMinutes(b)
  {
    assert a == a[..2] + (":" + a[3..]) && b == b[..2] + (":" + b[3..]);
    LexLessConcat(a[..2], ":" + a[3..], b[..2], ":" + b[3..]);
    LexLessConcat(":", a[3..], ":", b[3..]);
    TwoDigitLex(a[..2], b[..2]);
    TwoDigitLex(a[3..], b[3..]);
    var ha, hb, ma, mb := DigitsValue(a[..2]), DigitsValue(b[..2]), DigitsValue(a[3..]), DigitsValue(b[3..]);
    if ha < hb { assert 60 * ha + ma < 60 * (ha + 1) <= 60 * hb; }
    if hb < ha { assert 60 * hb + mb < 60 * (hb + 1) <= 60 * ha; }
  }

  // ---------------------------------------------------------------- _select_time_pair

  /** `int(hours) * 60 + int(minutes)` for a TIME_RE token. */
  function Minutes(t: string): (n: nat)
    requires IsTimeToken(t)
    ensures n <= 23 * 60 + 59
  {
    var h := t[..|t| - 3];
    var m := t[|t| - 2..];
    assert AllDigits(h) && AllDigits(m) by {
      if |t| == 5 { assert h == [t[0], t[1]]; } else { assert h == [t[0]]; }
      assert m == [t[|t| - 2], t[|t| - 1]];
    }
    DigitsValueShort(h);
    DigitsValueShort(m);
    DigitsValue(h) * 60 + DigitsValue(m)
  }

  predicate AllTimes(ts: seq<string>) { forall k :: 0 <= k < |ts| ==> IsTimeToken(ts[k]) }

  predicate Ignored(t: string) { t == "00:00" || t == "00:01" }

  /** `[t for t in times if t not in IGNORED_TIMES]`. */
  function Clean(times: seq<string>): (r: seq<string>)
    ensures |r| <= |times|
    ensures forall k :: 0 <= k < |r| ==> r[k] in times && !Ignored(r[k])
    ensures forall t :: t in times && !Ignored(t) ==> t in r
  {
    if times == [] then []
    else (if Ignored(times[0]) then [] else [times[0]]) + Clean(times[1..])
  }

  /** A time token with its minutes, as in `parsed`. */
  type Timed = (string, int)

  predicate EarlierTimed(a: Timed, b: Timed) { a.1 < b.1 }

  lemma EarlierTimedOrder()
    ensures StrictWeakOrder(EarlierTimed)
  {
  }

  /** `parsed`: every clean time with its minutes. */
  function Parsed(ts: seq<string>): (r: seq<Timed>)
    requires AllTimes(ts)
    ensures |r| == |ts|
    ensures forall k :: 0 <= k < |r| ==> r[k] == (ts[k], Minutes(ts[k]) as int)
  {
    if ts == [] then [] else Parsed(ts[..|ts| - 1]) + [(ts[|ts| - 1], Minutes(ts[|ts| - 1]))]
  }

  /** A candidate pair with its score `|duration - 8h|`. */
  datatype Candidate = Candidate(score: int, timeIn: string, timeOut: string)

  predicate LowerScore(a: Candidate, b: Candidate) { a.score < b.score }

  lemma LowerScoreOrder()
    ensures StrictWeakOrder(LowerScore)
  {
  }

  /** A pair lasting between 3 and 16 hours, the out time strictly later. */
  predicate Plausible(mIn: int, mOut: int) { mOut > mIn && 3 * 60 <= mOut - mIn <= 16 * 60 }

  function Score(mIn: int, mOut: int): int {
    var d := mOut - mIn - 8 * 60;
    if d < 0 then -d else d
  }

  /** The candidate the inner loop appends for the pair `(i, j)`, if any. */
  function CandidateAt(ps: seq<Timed>, i: nat, j: nat): seq<Candidate>
    requires i < |ps| && j < |ps|
  {
    if Plausible(ps[i].1, ps[j].1) then [PairCandidate(ps, i, j)] else []
  }

  /** The candidate of the pair `(i, j)`: its score, the in time and the out time. */
  function PairCandidate(ps: seq<Timed>, i: nat, j: nat): Candidate
    requires i < |ps| && j < |ps|
  {
    Candidate(Score(ps[i].1, ps[j].1), ps[i].0, ps[j].0)
  }

  /** The candidates of the pairs `(i, k)` with `i < k < j`, in loop order. */
  function RowCandidates(ps: seq<Timed>, i: nat, j: nat): seq<Candidate>
    requires i < |ps| && j <= |ps|
    decreases j
  {
    if j <= i + 1 then [] else RowCandidates(ps, i, j - 1) + CandidateAt(ps, i, j - 1)
  }

  /** The candidates of every pair whose first index is below `i`, in loop order. */
  function Candidates(ps: seq<Timed>, i: nat): seq<Candidate>
    requires i <= |ps|
  {
    if i == 0 then [] else Candidates(ps, i - 1) + RowCandidates(ps, i - 1, |ps|)
  }

  /** What `_select_time_pair` returns, stated on sequences. */
  function SelectSpec(times: seq<string>): Option<(string, string)>
    requires AllTimes(times)
  {
    SelectClean(Clean(times))
  }

  /** The choice `_select_time_pair` makes once the ignored times are gone. */
  function SelectClean(clean: seq<string>): Option<(string, string)>
    requires AllTimes(clean)
  {
    if |clean| < 2 then None
    else if |clean| == 2 then
      if Minutes(clean[0]) <= Minutes(clean[1]) then Some((clean[0], clean[1])) else Some((clean[1], clean[0]))
    else
      var cs := CandidatesOf(clean);
      if cs == [] then None
      else
        var best := SortBy(cs, LowerScore)[0];
        Some((best.timeIn, best.timeOut))
  }

  /** The `for t in clean_times` loop that builds `parsed`. */
  method ParseTimes(clean: seq<string>) returns (parsed: seq<Timed>)
    requires AllTimes(clean)
    ensures parsed == Parsed(clean)
  {
    parsed := [];
    for k := 0 to |clean|
      invariant parsed == Parsed(clean[..k])
    {
      assert clean[..k + 1][..k] == clean[..k];
      parsed := parsed + [(clean[k], Minutes(clean[k]))];
    }
    assert clean[..|clean|] == clean;
  }

  /** The nested `i`/`j` loop that collects the plausible pairs with their scores. */
  method CollectCandidates(parsed: seq<Timed>) returns (candidates: seq<Candidate>)
    ensures candidates == Candidates(parsed, |parsed|)
  {
    candidates := [];
    for i := 0 to |parsed|
      invariant candidates == Candidates(parsed, i)
    {
      candidates := CollectRow(parsed, i, candidates);
    }
  }

  /** The inner `j` loop for one `i`: appends the candidates of the pairs `(i, j)`, `i < j`. */
  method CollectRow(parsed: seq<Timed>, i: nat, before: seq<Candidate>) returns (candidates: seq<Candidate>)
    requires i < |parsed|
    ensures candidates == before + RowCandidates(parsed, i, |parsed|)
  {
    candidates := before;
    for j := i + 1 to |parsed|
      invariant candidates == before + RowCandidates(parsed, i, j)
    {
      var (tIn, mIn) := parsed[i];
      var (tOut, mOut) := parsed[j];
      if mOut <= mIn {
        continue;
      }
      var duration := mOut - mIn;
      if 3 * 60 <= duration <= 16 * 60 {
        var score := Score(mIn, mOut);
        candidates := candidates + [Candidate(score, tIn, tOut)];
      }
    }
  }

  /** `_select_time_pair` over the TIME_RE tokens of a line. */
  method SelectTimePair(times: seq<string>) returns (r: Option<(string, string)>)
    requires AllTimes(times)
    ensures r == SelectSpec(times)
  {
    var clean := Clean(times);
    if |clean| < 2 {
      return None;
    }
    if |clean| == 2 {
      var first, second := clean[0], clean[1];
      if Minutes(first) <= Minutes(second) {
        return Some((first, second));
      }
      return Some((second, first));
    }
    AllTimesClean(times);
    var parsed := ParseTimes(clean);
    parsed := SortBy(parsed, EarlierTimed);
    var candidates := CollectCandidates(parsed);
    if candidates == [] {
      return None;
    }
    var best := SortBy(candidates, LowerScore)[0];
    r := Some((best.timeIn, best.timeOut));
  }

  // ---------------------------------------------------------------- properties

  lemma SelectTooFew(times: seq<string>)
    requires AllTimes(times) && |Clean(times)| < 2
    ensures SelectSpec(times).None?
  {
  }

  lemma AllTimesClean(times: seq<string>)
    requires AllTimes(times)
    ensures AllTimes(Clean(times))
  {
  }

  /** Two remaining times come back as they are, earlier first, and in their given order on a tie. */
  lemma SelectTwo(times: seq<string>)
    requires AllTimes(times) && |Clean(times)| == 2
    ensures AllTimes(Clean(times))
    ensures SelectSpec(times).Some?
    ensures var (a, b) := SelectSpec(times).value;
            multiset{a, b} == multiset(Clean(times)) && Minutes(a) <= Minutes(b)
    ensures Minutes(Clean(times)[0]) <= Minutes(Clean(times)[1]) ==> SelectSpec(times).value == (Clean(times)[0], Clean(times)[1])
    ensures Minutes(Clean(times)[1]) < Minutes(Clean(times)[0]) ==> SelectSpec(times).value == (Clean(times)[1], Clean(times)[0])
  {
    AllTimesClean(times);
    SelectCleanTwo(Clean(times));
  }

  lemma SelectCleanTwo(clean: seq<string>)
    requires AllTimes(clean) && |clean| == 2
    ensures SelectClean(clean).Some?
    ensures var (a, b) := SelectClean(clean).value;
            multiset{a, b} == multiset(clean) && Minutes(a) <= Minutes(b)
    ensures Minutes(clean[0]) <= Minutes(clean[1]) ==> SelectClean(clean).value == (clean[0], clean[1])
    ensures Minutes(clean[1]) < Minutes(clean[0]) ==> SelectClean(clean).value == (clean[1], clean[0])
  {
    assert clean == [clean[0], clean[1]];
  }

  /** Every candidate comes from a plausible pair `p < q` of the sorted times. */
  lemma {:induction false} CandidatesFrom(ps: seq<Timed>, i: nat, c: Candidate) returns (p: nat, q: nat)
    requires i <= |ps| && c in Candidates(ps, i)
    ensures p < q < |ps| && Plausible(ps[p].1, ps[q].1) && c == PairCandidate(ps, p, q)
  {
    assert i != 0;
    var prev, row := Candidates(ps, i - 1), RowCandidates(ps, i - 1, |ps|);
    InEither(prev, row, c);
    if c in prev {
      p, q := CandidatesFrom(ps, i - 1, c);
    } else {
      assert c in row;
      p := i - 1;
      q := RowFrom(ps, p, |ps|, c);
    }
  }

  lemma {:induction false} RowFrom(ps: seq<Timed>, i: nat, j: nat, c: Candidate) returns (q: nat)
    requires i < |ps| && j <= |ps| && c in RowCandidates(ps, i, j)
    ensures i < q < |ps| && Plausible(ps[i].1, ps[q].1) && c == PairCandidate(ps, i, q)
  {
    var prev, last := RowCandidates(ps, i, j - 1), CandidateAt(ps, i, j - 1);
    InEither(prev, last, c);
    if c in prev {
      q := RowFrom(ps, i, j - 1, c);
    } else {
      q := j - 1;
    }
  }

  /** Every plausible pair `p < q` of the sorted times is a candidate. */
  lemma {:induction false} CandidatesCover(ps: seq<Timed>, i: nat, p: nat, q: nat)
    requires i <= |ps| && p < i && p < q < |ps| && Plausible(ps[p].1, ps[q].1)
    ensures PairCandidate(ps, p, q) in Candidates(ps, i)
  {
    var c, prev, row := PairCandidate(ps, p, q), Candidates(ps, i - 1), RowCandidates(ps, i - 1, |ps|);
    if p < i - 1 {
      CandidatesCover(ps, i - 1, p, q);
      InLeft(prev, row, c);
    } else {
      RowCover(ps, p, |ps|, q);
      InRight(prev, row, c);
    }
  }

  lemma {:induction false} RowCover(ps: seq<Timed>, i: nat, j: nat, q: nat)
    requires i < q < j <= |ps| && Plausible(ps[i].1, ps[q].1)
    ensures PairCandidate(ps, i, q) in RowCandidates(ps, i, j)
  {
    var c, prev, last := PairCandidate(ps, i, q), RowCandidates(ps, i, j - 1), CandidateAt(ps, i, j - 1);
    if q < j - 1 {
      RowCover(ps, i, j - 1, q);
      InLeft(prev, last, c);
    } else {
      assert last == [c];
      InRight(prev, last, c);
    }
  }

  lemma InLeft<T>(a: seq<T>, b: seq<T>, c: T)
    requires c in a
    ensures c in a + b
  {
  }

  lemma InEither<T>(a: seq<T>, b: seq<T>, c: T)
    requires c in a + b
    ensures c in a || c in b
  {
  }

  lemma InRight<T>(a: seq<T>, b: seq<T>, c: T)
    requires c in b
    ensures c in a + b
  {
  }

  /** The candidate list `_select_time_pair` builds from the clean times. */
  function CandidatesOf(clean: seq<string>): seq<Candidate>
    requires AllTimes(clean)
  {
    var ps := SortBy(Parsed(clean), EarlierTimed);
    Candidates(ps, |ps|)
  }

  lemma SortedEntry(clean: seq<string>, k: nat)
    requires AllTimes(clean) && k < |SortBy(Parsed(clean), EarlierTimed)|
    ensures SortBy(Parsed(clean), EarlierTimed)[k].0 in clean
    ensures SortBy(Parsed(clean), EarlierTimed)[k].1 == Minutes(SortBy(Parsed(clean), EarlierTimed)[k].0)
  {
    var parsed := Parsed(clean);
    var ps := SortBy(parsed, EarlierTimed);
    assert ps[k] in multiset(parsed);
    var k' :| 0 <= k' < |parsed| && parsed[k'] == ps[k];
  }

  /** Where a remaining time stands after sorting by minutes. */
  lemma SortedIndex(clean: seq<string>, t: string) returns (p: nat)
    requires AllTimes(clean) && t in clean
    ensures p < |SortBy(Parsed(clean), EarlierTimed)|
    ensures SortBy(Parsed(clean), EarlierTimed)[p] == (t, Minutes(t) as int)
  {
    var parsed := Parsed(clean);
    var ps := SortBy(parsed, EarlierTimed);
    var i :| 0 <= i < |clean| && clean[i] == t;
    assert parsed[i] == (t, Minutes(t) as int);
    assert parsed[i] in multiset(ps);
    p :| 0 <= p < |ps| && ps[p] == (t, Minutes(t) as int);
  }

  lemma CandidateOfPair(clean: seq<string>, a: string, b: string)
    requires AllTimes(clean) && a in clean && b in clean
    requires Plausible(Minutes(a), Minutes(b))
    ensures Candidate(Score(Minutes(a), Minutes(b)), a, b) in CandidatesOf(clean)
  {
    var ps := SortBy(Parsed(clean), EarlierTimed);
    EarlierTimedOrder();
    SortBySorted(Parsed(clean), EarlierTimed);
    var p := SortedIndex(clean, a);
    var q := SortedIndex(clean, b);
    PairOrdered(ps, p, q);
    CandidatesCover(ps, |ps|, p, q);
  }

  /** In times sorted by minutes a strictly later time stands after. */
  lemma PairOrdered(ps: seq<Timed>, p: nat, q: nat)
    requires p < |ps| && q < |ps| && SortedBy(ps, EarlierTimed) && ps[p].1 < ps[q].1
    ensures p < q
  {
    assert q < p ==> !EarlierTimed(ps[p], ps[q]);
  }

  lemma CandidateIsPair(clean: seq<string>, c: Candidate)
    requires AllTimes(clean) && c in CandidatesOf(clean)
    ensures c.timeIn in clean && c.timeOut in clean
    ensures Plausible(Minutes(c.timeIn), Minutes(c.timeOut)) && c.score == Score(Minutes(c.timeIn), Minutes(c.timeOut))
  {
    var ps := SortBy(Parsed(clean), EarlierTimed);
    var p, q := CandidatesFrom(ps, |ps|, c);
    SortedEntry(clean, p);
    SortedEntry(clean, q);
  }

  /** No two remaining times form a plausible pair. */
  ghost predicate NoPlausiblePair(clean: seq<string>)
    requires AllTimes(clean)
  {
    forall a, b :: a in clean && b in clean ==> !Plausible(Minutes(a), Minutes(b))
  }

  /** `(tIn, tOut)` is a plausible pair of remaining times and no plausible pair is closer to 8 hours. */
  ghost predicate BestPair(clean: seq<string>, tIn: string, tOut: string)
    requires AllTimes(clean)
  {
    && tIn in clean && tOut in clean
    && Plausible(Minutes(tIn), Minutes(tOut))
    && forall a, b :: a in clean && b in clean && Plausible(Minutes(a), Minutes(b))
         ==> Score(Minutes(tIn), Minutes(tOut)) <= Score(Minutes(a), Minutes(b))
  }

  lemma BestCandidate(clean: seq<string>)
    requires AllTimes(clean) && CandidatesOf(clean) != []
    ensures var best := SortBy(CandidatesOf(clean), LowerScore)[0];
            BestPair(clean, best.timeIn, best.timeOut)
  {
    var cs := CandidatesOf(clean);
    LowerScoreOrder();
    SortByFirst(cs, LowerScore);
    var k :| FirstMinimalAt(cs, k, LowerScore) && SortBy(cs, LowerScore)[0] == cs[k];
    var best := cs[k];
    CandidateIsPair(clean, best);
    forall a, b | a in clean && b in clean && Plausible(Minutes(a), Minutes(b))
      ensures best.score <= Score(Minutes(a), Minutes(b))
    {
      MinimalBeats(clean, cs, k, a, b);
    }
  }

  /** The first minimal candidate scores no worse than the candidate of any plausible pair. */
  lemma MinimalBeats(clean: seq<string>, cs: seq<Candidate>, k: nat, a: string, b: string)
    requires AllTimes(clean) && cs == CandidatesOf(clean) && k < |cs| && FirstMinimalAt(cs, k, LowerScore)
    requires a in clean && b in clean && Plausible(Minutes(a), Minutes(b))
    ensures cs[k].score <= Score(Minutes(a), Minutes(b))
  {
    CandidateOfPair(clean, a, b);
    var kc :| 0 <= kc < |cs| && cs[kc] == Candidate(Score(Minutes(a), Minutes(b)), a, b);
    assert !LowerScore(cs[kc], cs[k]);
  }

  lemma NoCandidate(clean: seq<string>)
    requires AllTimes(clean)
    ensures CandidatesOf(clean) == [] <==> NoPlausiblePair(clean)
  {
    if CandidatesOf(clean) == [] {
      forall a, b | a in clean && b in clean ensures !Plausible(Minutes(a), Minutes(b)) {
        if Plausible(Minutes(a), Minutes(b)) {
          CandidateOfPair(clean, a, b);
        }
      }
    } else {
      CandidateIsPair(clean, CandidatesOf(clean)[0]);
    }
  }

  /**
   * Three or more remaining times: a returned pair is plausible (out later than in, lasting
   * 3 to 16 hours), is made of remaining times, and no plausible pair of remaining times lies
   * closer to 8 hours; the result is None exactly when no pair is plausible.
   */
  lemma SelectMany(times: seq<string>)
    requires AllTimes(times) && |Clean(times)| > 2
    ensures AllTimes(Clean(times))
    ensures SelectSpec(times).None? <==> NoPlausiblePair(Clean(times))
    ensures SelectSpec(times).Some? ==> BestPair(Clean(times), SelectSpec(times).value.0, SelectSpec(times).value.1)
  {
    var clean := Clean(times);
    AllTimesClean(times);
    NoCandidate(clean);
    if CandidatesOf(clean) != [] {
      BestCandidate(clean);
    }
  }

  lemma CleanKeepsAll(a: string, b: string, c: string)
    requires !Ignored(a) && !Ignored(b) && !Ignored(c)
    ensures Clean([a, b, c]) == [a, b, c]
  {
    var ts := [a, b, c];
    assert ts[1..] == [b, c] && ts[1..][1..] == [c];
  }

  lemma ExampleMinutes(a: string, b: string, c: string)
    requires a == "09:00" && b == "13:00" && c == "17:30"
    ensures AllTimes([a, b, c])
    ensures Minutes(a) == 540 && Minutes(b) == 780 && Minutes(c) == 1050
  {
    DigitsValueShort(a[..2]);
    DigitsValueShort(a[3..]);
    DigitsValueShort(b[..2]);
    DigitsValueShort(b[3..]);
    DigitsValueShort(c[..2]);
    DigitsValueShort(c[3..]);
  }

  /** Among 09:00, 13:00 and 17:30 the pair closest to an 8-hour day is 09:00 to 17:30. */
  lemma SelectExample(a: string, b: string, c: string)
    requires a == "09:00" && b == "13:00" && c == "17:30"
    ensures AllTimes([a, b, c])
    ensures SelectSpec([a, b, c]) == Some((a, c))
  {
    var ts := [a, b, c];
    ExampleMinutes(a, b, c);
    CleanKeepsAll(a, b, c);
    SelectMany(ts);
    assert Plausible(Minutes(a), Minutes(c));
    var pair := SelectSpec(ts).value;
    assert BestPair(ts, pair.0, pair.1);
    assert Score(Minutes(pair.0), Minutes(pair.1)) <= Score(Minutes(a), Minutes(c));
  }
}
