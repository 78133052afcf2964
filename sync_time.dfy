/**
 * The time helpers of the reconciliation engine: `_norm_time` (any cell value to `HH:MM` or
 * ""), `_time_to_minutes` and `_minutes_to_hhmm_signed` (a signed minute count as `±H:MM`).
 */
module SyncTime {
  import opened Wrappers
  import opened Text
  import opened PdfTime

  /** `s[:n]`. */
  function Head(s: string, n: nat): (r: string)
    ensures |r| <= n && r <= s
    ensures |r| == if |s| <= n then |s| else n
  {
    if |s| <= n then s else s[..n]
  }

  /**
   * The first two fields of `s.split(":")` when `s` holds a colon: the text before the first
   * colon, and the text from there to the next colon or the end.
   */
  function ColonParts(s: string): (r: Option<(string, string)>)
    ensures r.None? <==> ':' !in s
    ensures r.Some? ==> ':' !in r.value.0 && ':' !in r.value.1
    ensures r.Some? ==> var n := |r.value.0| + 1 + |r.value.1|;
              n <= |s| && s[..n] == r.value.0 + ":" + r.value.1 && (n == |s| || s[n] == ':')
  {
    match IndexOf(s, ':')
    case None => None
    case Some(i) =>
      var rest := s[i + 1..];
      match IndexOf(rest, ':')
      case None => Some((s[..i], rest))
      case Some(j) => Some((s[..i], rest[..j]))
  }

  /**
   * `_norm_time` on a cell: `None` stands for a missing value, `Some(t)` for a value whose
   * `str()` is `t` (a pandas NaN reads `"nan"`). The first eight characters of the stripped
   * text are split at colons and the first two fields read with `int()`.
   */
  function NormTime(v: Option<string>): (r: string)
    ensures r == "" || IsClock(r)
  {
    match v
    case None => ""
    case Some(text) => NormText(Strip(text))
  }

  /** `_norm_time` after `str(v).strip()`. */
  function NormText(s: string): (r: string)
    ensures r == "" || IsClock(r)
  {
    if s == "" || Lower(s) == "nan" then "" else ClockOfFields(ColonParts(Head(s, 8)))
  }

  /** The `HH:MM` text of the first two colon fields, or "" when they are not an hour and a minute. */
  function ClockOfFields(parts: Option<(string, string)>): (r: string)
    ensures r == "" || IsClock(r)
  {
    match parts
    case None => ""
    case Some((h, m)) =>
      match (PyInt(h), PyInt(m))
      case (Some(hh), Some(mm)) =>
        if 0 <= hh <= 23 && 0 <= mm <= 59 then
          FormatClockIsClock(hh, mm);
          FormatClock(hh, mm)
        else ""
      case _ => ""
  }

  /**
   * `_time_to_minutes`: 0 for an empty or colon-free text, else `int(h) * 60 + int(m)` for the
   * first two colon fields; `None` where `int()` raises.
   */
  function TimeToMinutes(t: string): Option<int> {
    match ColonParts(t)
    case None => Some(0)
    case Some((h, m)) => FieldMinutes(h, m)
  }

  /** `int(h) * 60 + int(m)`, or `None` where `int()` raises. */
  function FieldMinutes(h: string, m: string): Option<int> {
    match PyInt(h)
    case None => None
    case Some(hh) =>
      match PyInt(m)
      case None => None
      case Some(mm) => Some(hh * 60 + mm)
  }

  /** `_minutes_to_hhmm_signed`: `-` for a negative count, `+` otherwise, then `H:MM` of its size. */
  function MinutesToHHMMSigned(m: int): string {
    var a := if m < 0 then -m else m;
    (if m < 0 then "-" else "+") + NatToString(a / 60) + ":" + Pad2(a % 60)
  }

  /** Reads `±H:MM` back: the inverse of `MinutesToHHMMSigned`. */
  function ParseSigned(s: string): Option<int> {
    if |s| < 2 || (s[0] != '+' && s[0] != '-') then None
    else
      match HoursMinutes(s[1..])
      case None => None
      case Some(a) => Some(if s[0] == '-' then -a else a)
  }

  /** `H:MM` as a count of minutes. */
  function HoursMinutes(body: string): Option<int> {
    match IndexOf(body, ':')
    case None => None
    case Some(i) =>
      var h := body[..i];
      var mm := body[i + 1..];
      if h != [] && AllDigits(h) && |mm| == 2 && AllDigits(mm) then Some(DigitsValue(h) * 60 + DigitsValue(mm))
      else None
  }

  // ---------------------------------------------------------------- properties

  lemma ClockFields(r: string)
    requires IsClock(r)
    ensures ColonParts(r) == Some((r[..2], r[3..]))
    ensures AllDigits(r[..2]) && AllDigits(r[3..]) && |r[..2]| == 2 && |r[3..]| == 2
  {
    assert ':' !in r[..2] by {
      assert r[..2] == [r[0], r[1]];
    }
    assert IndexOf(r, ':') == Some(2);
    assert r[3..] == [r[3], r[4]];
    assert IndexOf(r[3..], ':') == None;
  }

  /** A clock text reads as its minutes since midnight, from 0 to 1439. */
  lemma TimeToMinutesClock(r: string)
    requires IsClock(r)
    ensures TimeToMinutes(r) == Some(ClockMinutes(r))
    ensures 0 <= ClockMinutes(r) <= 23 * 60 + 59
  {
    var h, m := r[..2], r[3..];
    ClockMinutesOfFields(r, h, m);
    ClockTimeOfFields(r, h, m);
    assert TimeToMinutes(r).value == ClockMinutes(r);
  }

  lemma ClockTimeOfFields(r: string, h: string, m: string)
    requires IsClock(r) && h == r[..2] && m == r[3..]
    ensures TimeToMinutes(r) == Some(DigitsValue(h) * 60 + DigitsValue(m))
  {
    ClockTimeFields(r);
    FieldMinutesDigits(h, m);
  }

  lemma ClockMinutesOfFields(r: string, h: string, m: string)
    requires IsClock(r) && h == r[..2] && m == r[3..]
    ensures ClockMinutes(r) == DigitsValue(h) * 60 + DigitsValue(m)
    ensures 0 <= ClockMinutes(r) <= 23 * 60 + 59
  {
  }

  lemma ClockTimeFields(r: string)
    requires IsClock(r)
    ensures TimeToMinutes(r) == FieldMinutes(r[..2], r[3..])
  {
    ClockFields(r);
    TimeToMinutesOfParts(r, r[..2], r[3..]);
  }

  lemma TimeToMinutesOfParts(t: string, h: string, m: string)
    requires ColonParts(t) == Some((h, m))
    ensures TimeToMinutes(t) == FieldMinutes(h, m)
  {
  }

  lemma FieldMinutesDigits(h: string, m: string)
    requires AllDigits(h) && h != [] && AllDigits(m) && m != []
    ensures FieldMinutes(h, m) == Some(DigitsValue(h) * 60 + DigitsValue(m))
  {
    PyIntDigits(h);
    PyIntDigits(m);
  }

  lemma FieldMinutesOf(h: string, m: string, hh: int, mm: int)
    requires PyInt(h) == Some(hh) && PyInt(m) == Some(mm)
    ensures FieldMinutes(h, m) == Some(hh * 60 + mm)
  {
  }

  /** `_norm_time` leaves a clock text as it is. */
  lemma NormTimeClock(r: string)
    requires IsClock(r)
    ensures NormTime(Some(r)) == r
  {
    ClockChars(r);
    NoSpaceStrip(r);
    NormTextClock(r);
  }

  lemma NormTextClock(r: string)
    requires IsClock(r)
    ensures NormText(r) == r
  {
    assert Head(r, 8) == r;
    assert Lower(r) != "nan" by {
      assert |Lower(r)| == 5;
    }
    ClockOfOwnFields(r);
  }

  /** The fields of a clock text make that text again. */
  lemma ClockOfOwnFields(r: string)
    requires IsClock(r)
    ensures ClockOfFields(ColonParts(r)) == r
  {
    var h, m := r[..2], r[3..];
    assert r == h + ":" + m;
    ClockOfDigits(h, m);
    ClockFields(r);
  }

  lemma ClockOfDigits(h: string, m: string)
    requires AllDigits(h) && |h| == 2 && AllDigits(m) && |m| == 2
    requires DigitsValue(h) <= 23 && DigitsValue(m) <= 59
    ensures ClockOfFields(Some((h, m))) == h + ":" + m
  {
    PyIntDigits(h);
    PyIntDigits(m);
    Pad2OfDigits(h);
    Pad2OfDigits(m);
  }

  /** `_norm_time` is idempotent: its output, read again, comes back unchanged. */
  lemma NormTimeIdempotent(v: Option<string>)
    ensures NormTime(Some(NormTime(v))) == NormTime(v)
  {
    var r := NormTime(v);
    if r == "" {
      assert Strip(r) == "";
    } else {
      NormTimeClock(r);
    }
  }

  /** What `_norm_time` returns reads back, through `_time_to_minutes`, as a minute of the day. */
  lemma NormTimeMinutes(v: Option<string>)
    requires NormTime(v) != ""
    ensures TimeToMinutes(NormTime(v)).Some?
    ensures 0 <= TimeToMinutes(NormTime(v)).value <= 23 * 60 + 59
  {
    TimeToMinutesClock(NormTime(v));
  }

  /** A text with trailing seconds keeps its hour and minute: `"07:00:00"` becomes `"07:00"`. */
  lemma NormTimeSeconds(r: string, sec: string)
    requires IsClock(r) && |sec| == 3 && sec[0] == ':' && AllDigits(sec[1..])
    ensures NormTime(Some(r + sec)) == r
  {
    var t := r + sec;
    ClockChars(r);
    assert NoSpace(t) by {
      forall i | 0 <= i < |t| ensures !IsSpace(t[i]) {
        if i >= |r| + 1 { assert t[i] == sec[1..][i - |r| - 1]; }
      }
    }
    NoSpaceStrip(t);
    assert Head(t, 8) == t;
    assert Lower(t) != "nan" by {
      assert |Lower(t)| == 8;
    }
    ColonPartsSeconds(r, sec);
    ClockOfOwnFields(r);
  }

  lemma ColonPartsSeconds(r: string, sec: string)
    requires IsClock(r) && |sec| == 3 && sec[0] == ':'
    ensures ColonParts(r + sec) == ColonParts(r)
  {
    var t := r + sec;
    ClockFields(r);
    assert t[..2] == r[..2];
    IndexOfAt(t, ':', 2);
    var rest := t[3..];
    assert rest == r[3..] + sec;
    assert rest[..2] == r[3..];
    IndexOfAt(rest, ':', 2);
  }

  /** The sign: `-` exactly for a negative count, so zero is `+0:00`. */
  lemma SignedSign(m: int)
    ensures MinutesToHHMMSigned(m)[0] == '-' <==> m < 0
    ensures MinutesToHHMMSigned(m)[0] == '+' <==> m >= 0
  {
  }

  /** The hour part is not padded, the minute part always has two digits. */
  lemma SignedShape(m: int)
    ensures var a := if m < 0 then -m else m;
            var s := MinutesToHHMMSigned(m);
            && |s| == |NatToString(a / 60)| + 4
            && s[1..|s| - 3] == NatToString(a / 60) && s[|s| - 3] == ':'
            && DigitsValue(s[|s| - 2..]) == a % 60
  {
    var a := if m < 0 then -m else m;
    var s := MinutesToHHMMSigned(m);
    Pad2Value(a % 60);
    assert s[|s| - 2..] == Pad2(a % 60);
  }

  /** Reading `_minutes_to_hhmm_signed`'s output back gives the count it was made from. */
  lemma SignedRoundTrip(m: int)
    ensures ParseSigned(MinutesToHHMMSigned(m)) == Some(m)
  {
    var a := if m < 0 then -m else m;
    SignedParts(m, a, NatToString(a / 60), Pad2(a % 60));
  }

  lemma SignedParts(m: int, a: nat, hs: string, ms: string)
    requires a == (if m < 0 then -m else m) && hs == NatToString(a / 60) && ms == Pad2(a % 60)
    ensures ParseSigned(MinutesToHHMMSigned(m)) == Some(m)
  {
    var s := MinutesToHHMMSigned(m);
    assert s[1..] == hs + ":" + ms;
    assert s[0] == (if m < 0 then '-' else '+');
    Pad2Value(a % 60);
    NatToStringValue(a / 60);
    HoursMinutesOf(hs, ms);
    ParseSignedOf(s, hs + ":" + ms, a);
  }

  lemma ParseSignedOf(s: string, body: string, v: int)
    requires |s| >= 2 && (s[0] == '+' || s[0] == '-') && s[1..] == body && HoursMinutes(body) == Some(v)
    ensures ParseSigned(s) == Some(if s[0] == '-' then -v else v)
  {
  }

  /** `H:MM` made of an hour count and two minute digits reads as the minutes they make. */
  lemma HoursMinutesOf(hs: string, ms: string)
    requires AllDigits(hs) && hs != [] && AllDigits(ms) && |ms| == 2
    ensures HoursMinutes(hs + ":" + ms) == Some(DigitsValue(hs) * 60 + DigitsValue(ms))
  {
    HoursColon(hs, ms);
  }

  /** The colon after an hour count is the first colon. */
  lemma HoursColon(hs: string, ms: string)
    requires AllDigits(hs)
    ensures IndexOf(hs + ":" + ms, ':') == Some(|hs|)
    ensures (hs + ":" + ms)[..|hs|] == hs && (hs + ":" + ms)[|hs| + 1..] == ms
  {
    var body := hs + ":" + ms;
    assert body[..|hs|] == hs;
    assert ':' !in hs by {
      forall k | 0 <= k < |hs| ensures hs[k] != ':' { assert IsDigit(hs[k]); }
    }
    IndexOfAt(body, ':', |hs|);
    assert body[|hs| + 1..] == ms;
  }
}
