/**
 * The regular expressions of the parsers as explicit scanners. A matcher `m` gives, for a start
 * position `k`, the end of the match that Python's `re` engine finds there (or `None`); every
 * pattern here is deterministic at a fixed start once its backtracking is worked out. `Search`
 * is `re.search`, `FindAll` is `re.finditer`, `SubTimes` is `TIME_RE.sub(" ", ...)`.
 */
module Patterns {
  import opened Wrappers
  import opened Text

  datatype Span = Span(start: nat, end: nat)

  /** A match of `m` at `k` that consumes at least one character and stays inside `s`. */
  predicate MatchesAt(s: string, m: nat -> Option<nat>, k: nat) {
    m(k).Some? && k < m(k).value <= |s|
  }

  /** `re.search` from position `i`: the leftmost position at which `m` matches. */
  function SearchFrom(s: string, i: nat, m: nat -> Option<nat>): (r: Option<Span>)
    requires i <= |s|
    ensures r.Some? ==> i <= r.value.start < r.value.end <= |s| && m(r.value.start) == Some(r.value.end)
    ensures r.Some? ==> forall k :: i <= k < r.value.start ==> !MatchesAt(s, m, k)
    ensures r.None? <==> forall k :: i <= k < |s| ==> !MatchesAt(s, m, k)
    decreases |s| - i
  {
    if i == |s| then None
    else if MatchesAt(s, m, i) then Some(Span(i, m(i).value))
    else SearchFrom(s, i + 1, m)
  }

  function Search(s: string, m: nat -> Option<nat>): Option<Span> { SearchFrom(s, 0, m) }

  /** `re.finditer` from position `i`: leftmost matches, scanning on after each one. */
  function FindAllFrom(s: string, i: nat, m: nat -> Option<nat>): (r: seq<Span>)
    requires i <= |s|
    ensures forall k :: 0 <= k < |r| ==> i <= r[k].start < r[k].end <= |s| && m(r[k].start) == Some(r[k].end)
    ensures forall k :: 0 <= k < |r| - 1 ==> r[k].end <= r[k + 1].start
    decreases |s| - i
  {
    if i == |s| then []
    else if MatchesAt(s, m, i) then [Span(i, m(i).value)] + FindAllFrom(s, m(i).value, m)
    else FindAllFrom(s, i + 1, m)
  }

  function FindAll(s: string, m: nat -> Option<nat>): seq<Span> { FindAllFrom(s, 0, m) }

  /** The matched texts of a list of spans. */
  function Texts(s: string, spans: seq<Span>): (r: seq<string>)
    requires forall k :: 0 <= k < |spans| ==> spans[k].start <= spans[k].end <= |s|
    ensures |r| == |spans|
    ensures forall k :: 0 <= k < |r| ==> r[k] == s[spans[k].start..spans[k].end]
  {
    if spans == [] then [] else [s[spans[0].start..spans[0].end]] + Texts(s, spans[1..])
  }

  /** The number of digits at `i`, at most `cap`. */
  function DigitRun(s: string, i: nat, cap: nat): (n: nat)
    requires i <= |s|
    ensures n <= cap && i + n <= |s|
    ensures AllDigits(s[i..i + n])
    ensures n < cap && i + n < |s| ==> !IsDigit(s[i + n])
    decreases cap
  {
    if cap == 0 || i == |s| || !IsDigit(s[i]) then 0
    else
      var n := 1 + DigitRun(s, i + 1, cap - 1);
      assert s[i..i + n] == [s[i]] + s[i + 1..i + n];
      n
  }

  predicate InRange(c: char, lo: char, hi: char) { lo <= c <= hi }

  // ---------------------------------------------------------------- TIME_RE

  /** A text that TIME_RE, `(?:[01]?\d|2[0-3]):[0-5]\d`, matches as a whole. */
  predicate IsTimeToken(t: string) {
    || (|t| == 5 && ((InRange(t[0], '0', '1') && IsDigit(t[1])) || (t[0] == '2' && InRange(t[1], '0', '3')))
        && t[2] == ':' && InRange(t[3], '0', '5') && IsDigit(t[4]))
    || (|t| == 4 && IsDigit(t[0]) && t[1] == ':' && InRange(t[2], '0', '5') && IsDigit(t[3]))
  }

  /**
   * TIME_RE at `k`. The first alternative tries the optional `[01]` first; the three ways to
   * match exclude each other, so the first that fits is the one the engine takes.
   */
  function TimeMatch(s: string, k: nat): (r: Option<nat>)
    ensures r.Some? ==> k < r.value <= |s| && IsTimeToken(s[k..r.value])
  {
    if k + 5 <= |s| && IsTimeToken(s[k..k + 5]) && s[k + 2] == ':' then Some(k + 5)
    else if k + 4 <= |s| && IsTimeToken(s[k..k + 4]) then Some(k + 4)
    else None
  }

  function TimeSpans(s: string): (r: seq<Span>)
    ensures forall k :: 0 <= k < |r| ==> r[k].start < r[k].end <= |s| && IsTimeToken(s[r[k].start..r[k].end])
  {
    FindAll(s, k => TimeMatch(s, k))
  }

  /** `TIME_RE.findall(s)`: the time-shaped tokens in order. */
  function Times(s: string): (r: seq<string>)
    ensures forall k :: 0 <= k < |r| ==> IsTimeToken(r[k])
  {
    Texts(s, TimeSpans(s))
  }

  /** `TIME_RE.sub(" ", s)` from position `i`. */
  function SubTimesFrom(s: string, i: nat): string
    requires i <= |s|
    decreases |s| - i
  {
    if i == |s| then []
    else if MatchesAt(s, k => TimeMatch(s, k), i) then " " + SubTimesFrom(s, TimeMatch(s, i).value)
    else [s[i]] + SubTimesFrom(s, i + 1)
  }

  function SubTimes(s: string): string { SubTimesFrom(s, 0) }

  // ---------------------------------------------------------------- DATE_RE

  predicate IsDateSep(c: char) { c == '.' || c == '/' || c == '-' }

  /**
   * DATE_RE, `\d{1,2}[./-]\d{1,2}[./-]\d{2,4}`, at `k`: greedy digit groups; the one-digit
   * retry of a two-digit group would need a separator where a digit stands, so it never helps.
   */
  function DateMatch(s: string, k: nat): Option<nat> {
    if k >= |s| then None
    else
      var d := DigitRun(s, k, 2);
      var j := k + d;
      if d == 0 || j >= |s| || !IsDateSep(s[j]) then None
      else
        var m := DigitRun(s, j + 1, 2);
        var l := j + 1 + m;
        if m == 0 || l >= |s| || !IsDateSep(s[l]) then None
        else
          var y := DigitRun(s, l + 1, 4);
          if y < 2 then None else Some(l + 1 + y)
  }

  /** The first DATE_RE match in `s`, as text. */
  function DateToken(s: string): (r: Option<string>)
    ensures r.Some? ==> r.value != ""
  {
    match Search(s, k => DateMatch(s, k))
    case None => None
    case Some(sp) => Some(s[sp.start..sp.end])
  }

  // ---------------------------------------------------------------- \b and DAY_RE

  /** `\b` at position `i`: a word character on exactly one side. */
  predicate Boundary(s: string, i: nat) {
    (0 < i <= |s| && IsWordChar(s[i - 1])) != (i < |s| && IsWordChar(s[i]))
  }

  /**
   * DAY_RE, `\b([0-2]?\d|3[01])\b`, at `k`: two characters `[0-2]\d` when a boundary follows,
   * else one digit when a boundary follows it, else `3[01]`.
   */
  function DayMatch(s: string, k: nat): Option<nat> {
    if k >= |s| || !Boundary(s, k) then None
    else if k + 1 < |s| && InRange(s[k], '0', '2') && IsDigit(s[k + 1]) && Boundary(s, k + 2) then Some(k + 2)
    else if IsDigit(s[k]) && Boundary(s, k + 1) then Some(k + 1)
    else if k + 1 < |s| && s[k] == '3' && InRange(s[k + 1], '0', '1') && Boundary(s, k + 2) then Some(k + 2)
    else None
  }

  /** The group of the first DAY_RE match: its span and its numeric value (at most 31). */
  function DaySearch(s: string): (r: Option<(Span, nat)>)
    ensures r.Some? ==> r.value.1 <= 31
  {
    match Search(s, k => DayMatch(s, k))
    case None => None
    case Some(sp) =>
      var t := s[sp.start..sp.end];
      assert AllDigits(t) && (|t| == 1 || (|t| == 2 && (t[0] <= '2' || (t[0] == '3' && t[1] <= '1')))) by {
        assert t[0] == s[sp.start];
        if |t| == 2 { assert t[1] == s[sp.start + 1]; }
      }
      DigitsValueShort(t);
      Some((sp, DigitsValue(t)))
  }
}
