/**
 * Character classes and string primitives shared by every parser: Python's `str.strip`,
 * `re.sub(r"\s+", " ", ...)`, `[::-1]`, `in` on strings, `lower()`, `int()` and
 * `f"{n:02d}"`, written out over `seq<char>`.
 */
module Text {
  import opened Wrappers

  predicate IsDigit(c: char) { '0' <= c <= '9' }

  /** The characters for which Python's `str.isspace()` (and so `\s` and `strip()`) holds. */
  predicate IsSpace(c: char) {
    c == ' ' || ('\t' <= c <= '\r') || ('\U{1C}' <= c <= '\U{1F}') || c == '\U{85}' || c == '\U{A0}'
    || c == '\U{1680}' || ('\U{2000}' <= c <= '\U{200A}') || c == '\U{2028}' || c == '\U{2029}'
    || c == '\U{202F}' || c == '\U{205F}' || c == '\U{3000}'
  }

  /** The bidirectional control characters that the PDF parser deletes (`_BIDI_CHARS_RE`). */
  predicate IsBidi(c: char) {
    c == '\U{200E}' || c == '\U{200F}' || ('\U{202A}' <= c <= '\U{202E}') || ('\U{2066}' <= c <= '\U{2069}')
  }

  /** Word characters for `\b`: ASCII letters and digits, `_`, Hebrew and Cyrillic letters. */
  predicate IsWordChar(c: char) {
    IsDigit(c) || ('a' <= c <= 'z') || ('A' <= c <= 'Z') || c == '_'
    || ('\U{05D0}' <= c <= '\U{05EA}') || ('\U{05F0}' <= c <= '\U{05F2}')
    || ('\U{0400}' <= c <= '\U{0481}') || ('\U{048A}' <= c <= '\U{04FF}')
  }

  predicate AllDigits(s: string) { forall i :: 0 <= i < |s| ==> IsDigit(s[i]) }

  function DigitVal(c: char): (d: nat)
    requires IsDigit(c)
    ensures d < 10
  {
    c as int - '0' as int
  }

  function DigitChar(d: nat): (c: char)
    requires d < 10
    ensures IsDigit(c) && DigitVal(c) == d
  {
    ('0' as int + d) as char
  }

  /** The value of a string of decimal digits, as `int()` reads it. */
  function DigitsValue(s: string): nat
    requires AllDigits(s)
  {
    if s == [] then 0 else 10 * DigitsValue(s[..|s| - 1]) + DigitVal(s[|s| - 1])
  }

  /** `str(n)` for a natural number. */
  function NatToString(n: nat): (r: string)
    ensures AllDigits(r) && |r| >= 1
    ensures n < 10 <==> |r| == 1
  {
    if n < 10 then [DigitChar(n)] else NatToString(n / 10) + [DigitChar(n % 10)]
  }

  /** `f"{n:02d}"`: at least two digits, zero padded. */
  function Pad2(n: nat): (r: string)
    ensures AllDigits(r)
    ensures n < 100 ==> |r| == 2
  {
    if n < 10 then "0" + NatToString(n) else NatToString(n)
  }

  lemma {:induction false} NatToStringValue(n: nat)
    ensures DigitsValue(NatToString(n)) == n
  {
    if n >= 10 {
      NatToStringValue(n / 10);
      var r := NatToString(n);
      assert r[..|r| - 1] == NatToString(n / 10);
    }
  }

  lemma DigitsValueShort(t: string)
    requires AllDigits(t) && 1 <= |t| <= 2
    ensures |t| == 1 ==> DigitsValue(t) == DigitVal(t[0])
    ensures |t| == 2 ==> DigitsValue(t) == 10 * DigitVal(t[0]) + DigitVal(t[1])
  {
    assert t[..|t| - 1][..|t| - 1 - (|t| - 1)] == [];
    if |t| == 2 {
      assert t[..1] == [t[0]];
      assert [t[0]][..0] == [];
    }
  }

  lemma {:induction false} NatToStringLength(n: nat)
    ensures 10 <= n < 100 ==> |NatToString(n)| == 2
    ensures 1000 <= n < 10000 ==> |NatToString(n)| == 4
  {
    if n >= 10 {
      NatToStringLength(n / 10);
    }
  }

  lemma Pad2Value(n: nat)
    requires n < 100
    ensures DigitsValue(Pad2(n)) == n
  {
    NatToStringValue(n);
    NatToStringLength(n);
    if n < 10 {
      var r := Pad2(n);
      assert r[..1] == "0";
    }
  }

  /** Removes leading characters satisfying `drop`. */
  function StripLeftBy(s: string, drop: char -> bool): (r: string)
    ensures |r| <= |s|
    ensures s != [] && drop(s[0]) ==> |r| < |s|
    ensures r == [] || !drop(r[0])
  {
    if s != [] && drop(s[0]) then StripLeftBy(s[1..], drop) else s
  }

  /** Removes trailing characters satisfying `drop`. */
  function StripRightBy(s: string, drop: char -> bool): (r: string)
    ensures |r| <= |s|
    ensures r == [] || !drop(r[|r| - 1])
  {
    if s != [] && drop(s[|s| - 1]) then StripRightBy(s[..|s| - 1], drop) else s
  }

  /** `s.strip(chars)` where `drop` says which characters are in `chars`. */
  function StripBy(s: string, drop: char -> bool): (r: string)
    ensures |r| <= |s|
    ensures r == [] || (!drop(r[0]) && !drop(r[|r| - 1]))
  {
    StripRightByPrefix(StripLeftBy(s, drop), drop);
    StripRightBy(StripLeftBy(s, drop), drop)
  }

  /** `s.strip()`. */
  function Strip(s: string): string { StripBy(s, IsSpace) }

  /** `re.sub(r"\s+", " ", s)`: every maximal run of whitespace becomes one space. */
  function CollapseSpace(s: string): (r: string)
    ensures forall i :: 0 <= i < |r| && IsSpace(r[i]) ==> r[i] == ' '
    decreases |s|
  {
    if s == [] then []
    else if IsSpace(s[0]) then [' '] + CollapseSpace(StripLeftBy(s, IsSpace))
    else [s[0]] + CollapseSpace(s[1..])
  }

  /** Deletes every character satisfying `drop`. */
  function RemoveBy(s: string, drop: char -> bool): (r: string)
    ensures |r| <= |s|
    ensures forall i :: 0 <= i < |r| ==> !drop(r[i])
  {
    if s == [] then [] else (if drop(s[0]) then [] else [s[0]]) + RemoveBy(s[1..], drop)
  }

  /** `_clean_text`: the bidirectional control characters removed. */
  function CleanText(s: string): string { RemoveBy(s, IsBidi) }

  /** `_normalize_space`: bidi controls removed, whitespace runs collapsed, ends stripped. */
  function NormalizeSpace(s: string): string { Strip(CollapseSpace(CleanText(s))) }

  /** `s.replace(a, b)` for single characters. */
  function ReplaceChar(s: string, a: char, b: char): (r: string)
    ensures |r| == |s|
    ensures forall i :: 0 <= i < |s| ==> r[i] == (if s[i] == a then b else s[i])
  {
    if s == [] then [] else [if s[0] == a then b else s[0]] + ReplaceChar(s[1..], a, b)
  }

  /** `s[::-1]`. */
  function Reverse(s: string): (r: string)
    ensures |r| == |s|
    ensures forall i :: 0 <= i < |s| ==> r[i] == s[|s| - 1 - i]
  {
    if s == [] then [] else Reverse(s[1..]) + [s[0]]
  }

  lemma ReverseReverse(s: string)
    ensures Reverse(Reverse(s)) == s
  {
  }

  /** `sep.join(parts)`. */
  function JoinWith(sep: string, parts: seq<string>): string {
    if parts == [] then ""
    else if |parts| == 1 then parts[0]
    else parts[0] + sep + JoinWith(sep, parts[1..])
  }

  /** `t in s` for strings: `t` occurs in `s` as a contiguous substring. */
  predicate Contains(s: string, t: string)
    decreases |s|
  {
    t <= s || (s != [] && Contains(s[1..], t))
  }

  function LowerChar(c: char): char {
    if 'A' <= c <= 'Z' then (c as int + 32) as char else c
  }

  /** `s.lower()` restricted to ASCII letters. */
  function Lower(s: string): (r: string)
    ensures |r| == |s|
    ensures forall i :: 0 <= i < |s| ==> r[i] == LowerChar(s[i])
  {
    if s == [] then [] else [LowerChar(s[0])] + Lower(s[1..])
  }

  /** The position of the first `c` in `s`. */
  function IndexOf(s: string, c: char): (r: Option<nat>)
    ensures r.None? <==> c !in s
    ensures r.Some? ==> r.value < |s| && s[r.value] == c && c !in s[..r.value]
  {
    if s == [] then None
    else if s[0] == c then Some(0)
    else match IndexOf(s[1..], c)
      case None => None
      case Some(k) => assert s[1..][..k] == s[1..k + 1]; Some(k + 1)
  }

  /** The first `c` of `s` stands where `c` occurs with none before it. */
  lemma IndexOfAt(s: string, c: char, k: nat)
    requires k < |s| && s[k] == c && c !in s[..k]
    ensures IndexOf(s, c) == Some(k)
  {
  }

  /**
   * The value of the integer body Python's `int()` accepts after an optional sign: a digit,
   * then digits each optionally preceded by one underscore. `None` for anything else.
   */
  function IntBody(b: string): (r: Option<nat>)
    ensures r.Some? ==> b != [] && IsDigit(b[0]) && IsDigit(b[|b| - 1])
  {
    if b == [] || !IsDigit(b[|b| - 1]) then None
    else if |b| == 1 then Some(DigitVal(b[0]))
    else if b[|b| - 2] == '_' then
      if |b| < 3 then None
      else match IntBody(b[..|b| - 2])
        case None => None
        case Some(v) => assert b[..|b| - 2][0] == b[0]; Some(10 * v + DigitVal(b[|b| - 1]))
    else
      match IntBody(b[..|b| - 1])
      case None => None
      case Some(v) => assert b[..|b| - 1][0] == b[0]; Some(10 * v + DigitVal(b[|b| - 1]))
  }

  /** Python's `int(s)` for a string: `None` where `int()` raises `ValueError`. */
  function PyInt(s: string): Option<int> {
    IntLiteral(Strip(s))
  }

  /** An optional sign and an integer body, as `int()` reads a stripped text. */
  function IntLiteral(t: string): Option<int> {
    if |t| > 0 && (t[0] == '+' || t[0] == '-') then
      match IntBody(t[1..])
      case None => None
      case Some(v) => var w: int := v; Some(if t[0] == '-' then -w else w)
    else
      match IntBody(t)
      case None => None
      case Some(v) => Some(v)
  }

  /** The integer body `int()` accepts holds only digits and underscores. */
  lemma {:induction false} IntBodyChars(b: string)
    requires IntBody(b).Some?
    ensures forall k :: 0 <= k < |b| ==> IsDigit(b[k]) || b[k] == '_'
  {
    if |b| > 1 {
      var n := if b[|b| - 2] == '_' then |b| - 2 else |b| - 1;
      IntBodyChars(b[..n]);
      forall k | 0 <= k < |b| ensures IsDigit(b[k]) || b[k] == '_' {
        if k < n { assert b[k] == b[..n][k]; }
      }
    }
  }

  /** A text that still holds a colon once stripped is not an integer: `int()` raises. */
  lemma PyIntColon(s: string)
    requires ':' in Strip(s)
    ensures PyInt(s).None?
  {
    var t := Strip(s);
    var k :| 0 <= k < |t| && t[k] == ':';
    if |t| > 0 && (t[0] == '+' || t[0] == '-') {
      if IntBody(t[1..]).Some? {
        IntBodyChars(t[1..]);
      }
    } else if IntBody(t).Some? {
      IntBodyChars(t);
    }
  }

  /** A plain run of digits is read as its decimal value. */
  lemma PyIntDigits(s: string)
    requires AllDigits(s) && s != []
    ensures PyInt(s) == Some(DigitsValue(s))
  {
    NoSpaceStrip(s);
    IntLiteralDigits(s);
  }

  lemma IntLiteralDigits(s: string)
    requires AllDigits(s) && s != []
    ensures IntLiteral(s) == Some(DigitsValue(s))
  {
    DigitsBody(s);
    assert IsDigit(s[0]);
  }

  lemma {:induction false} DigitsBody(s: string)
    requires AllDigits(s) && s != []
    ensures IntBody(s) == Some(DigitsValue(s))
  {
    if |s| > 1 {
      assert IsDigit(s[|s| - 2]);
      DigitsBody(s[..|s| - 1]);
    }
  }

  predicate NoSpace(s: string) { forall i :: 0 <= i < |s| ==> !IsSpace(s[i]) }

  lemma NoSpaceStrip(s: string)
    requires NoSpace(s)
    ensures Strip(s) == s
  {
    if s != [] {
      assert !IsSpace(s[0]) && !IsSpace(s[|s| - 1]);
    }
  }

  lemma {:induction false} NoSpaceCollapse(s: string)
    requires NoSpace(s)
    ensures CollapseSpace(s) == s
  {
    if s != [] {
      assert NoSpace(s[1..]) by { assert forall i :: 0 <= i < |s| - 1 ==> s[1..][i] == s[i + 1]; }
      NoSpaceCollapse(s[1..]);
    }
  }

  lemma {:induction false} NoBidiClean(s: string)
    requires forall i :: 0 <= i < |s| ==> !IsBidi(s[i])
    ensures CleanText(s) == s
  {
    if s != [] {
      NoBidiClean(s[1..]);
    }
  }

  /** A string free of whitespace and bidi controls is left alone by `_normalize_space`. */
  lemma NormalizeSpaceFixed(s: string)
    requires NoSpace(s)
    requires forall i :: 0 <= i < |s| ==> !IsBidi(s[i])
    ensures NormalizeSpace(s) == s
  {
    NoBidiClean(s);
    NoSpaceCollapse(s);
    NoSpaceStrip(s);
  }

  lemma {:induction false} NoSpaceFixedReplace(s: string)
    requires ' ' !in s
    ensures RemoveBy(s, c => c == ' ') == s
  {
    if s != [] {
      NoSpaceFixedReplace(s[1..]);
    }
  }

  /** Python's `<` on strings: lexicographic by code point, a proper prefix first. */
  predicate LexLess(a: string, b: string) {
    if a == [] then b != []
    else if b == [] then false
    else a[0] < b[0] || (a[0] == b[0] && LexLess(a[1..], b[1..]))
  }

  lemma {:induction false} LexLessIrreflexive(a: string)
    ensures !LexLess(a, a)
  {
    if a != [] { LexLessIrreflexive(a[1..]); }
  }

  lemma {:induction false} LexLessTransitive(a: string, b: string, c: string)
    requires LexLess(a, b) && LexLess(b, c)
    ensures LexLess(a, c)
  {
    if a != [] && b != [] && c != [] && a[0] == b[0] && b[0] == c[0] {
      LexLessTransitive(a[1..], b[1..], c[1..]);
    }
  }

  lemma {:induction false} LexLessTotal(a: string, b: string)
    requires a != b
    ensures LexLess(a, b) || LexLess(b, a)
  {
    if a != [] && b != [] && a[0] == b[0] {
      assert a == [a[0]] + a[1..] && b == [b[0]] + b[1..];
      LexLessTotal(a[1..], b[1..]);
    }
  }

  /** Comparing texts with equal-length prefixes compares the prefixes first. */
  lemma {:induction false} LexLessConcat(x: string, y: string, x2: string, y2: string)
    requires |x| == |x2|
    ensures LexLess(x + y, x2 + y2) <==> LexLess(x, x2) || (x == x2 && LexLess(y, y2))
  {
    if x != [] {
      assert (x + y)[1..] == x[1..] + y && (x2 + y2)[1..] == x2[1..] + y2;
      LexLessConcat(x[1..], y, x2[1..], y2);
      if x[0] == x2[0] && x[1..] == x2[1..] { assert x == x2; }
      if x == x2 { assert x[1..] == x2[1..]; }
    } else {
      assert x + y == y && x2 + y2 == y2;
    }
  }

  /** Two-digit texts compare as strings exactly as their values do. */
  lemma TwoDigitLex(x: string, y: string)
    requires AllDigits(x) && AllDigits(y) && |x| == 2 && |y| == 2
    ensures LexLess(x, y) <==> DigitsValue(x) < DigitsValue(y)
    ensures x == y <==> DigitsValue(x) == DigitsValue(y)
  {
    DigitsValueShort(x);
    DigitsValueShort(y);
    assert x[1..][1..] == [] && y[1..][1..] == [];
    assert x == [x[0], x[1]] && y == [y[0], y[1]];
    assert LexLess(x[1..], y[1..]) <==> x[1] < y[1];
  }

  // ---------------------------------------------------------------- substrings

  lemma {:induction false} ContainsAt(s: string, t: string, i: nat)
    requires i <= |s| && t <= s[i..]
    ensures Contains(s, t)
    decreases i
  {
    if i > 0 {
      assert s[1..][i - 1..] == s[i..];
      ContainsAt(s[1..], t, i - 1);
    }
  }

  lemma {:induction false} ContainsFind(s: string, t: string) returns (i: nat)
    requires Contains(s, t)
    ensures i <= |s| && t <= s[i..]
    decreases |s|
  {
    if t <= s {
      i := 0;
    } else {
      var j := ContainsFind(s[1..], t);
      assert s[1..][j..] == s[j + 1..];
      i := j + 1;
    }
  }

  /** An occurrence inside a slice is an occurrence in the whole text. */
  lemma ContainsWithin(s: string, a: nat, b: nat, t: string)
    requires a <= b <= |s| && Contains(s[a..b], t)
    ensures Contains(s, t)
  {
    var i := ContainsFind(s[a..b], t);
    assert forall k :: 0 <= k < |t| ==> t[k] == s[a + i + k];
    ContainsAt(s, t, a + i);
  }

  /** `strip` keeps a slice of its input. */
  lemma StripBySlice(s: string, drop: char -> bool) returns (a: nat, b: nat)
    ensures a <= b <= |s| && StripBy(s, drop) == s[a..b]
    ensures forall k :: 0 <= k < a ==> drop(s[k])
    ensures forall k :: b <= k < |s| ==> drop(s[k])
  {
    var l := StripLeftBy(s, drop);
    StripLeftBySuffix(s, drop);
    var m := StripRightBy(l, drop);
    StripRightByPrefix(l, drop);
    a := |s| - |l|;
    SliceOfSuffix(s, l, m);
    b := a + |m|;
    assert StripBy(s, drop) == m;
    forall k | b <= k < |s| ensures drop(s[k]) {
      assert |m| <= k - a < |l| && s[k] == l[k - a];
    }
  }

  /** `lstrip` keeps a suffix. */
  lemma {:induction false} StripLeftBySuffix(s: string, drop: char -> bool)
    ensures StripLeftBy(s, drop) == s[|s| - |StripLeftBy(s, drop)|..]
    ensures forall k :: 0 <= k < |s| - |StripLeftBy(s, drop)| ==> drop(s[k])
  {
    if s != [] && drop(s[0]) {
      StripLeftBySuffix(s[1..], drop);
      forall k | 0 < k < |s| - |StripLeftBy(s, drop)| ensures drop(s[k]) { assert s[k] == s[1..][k - 1]; }
    }
  }

  /** `rstrip` keeps a prefix. */
  lemma {:induction false} StripRightByPrefix(s: string, drop: char -> bool)
    ensures StripRightBy(s, drop) == s[..|StripRightBy(s, drop)|]
    ensures forall k :: |StripRightBy(s, drop)| <= k < |s| ==> drop(s[k])
  {
    if s != [] && drop(s[|s| - 1]) {
      StripRightByPrefix(s[..|s| - 1], drop);
      forall k | |StripRightBy(s, drop)| <= k < |s| - 1 ensures drop(s[k]) { assert s[k] == s[..|s| - 1][k]; }
    }
  }

  /** A prefix of a suffix of `s` is a slice of `s`. */
  lemma SliceOfSuffix(s: string, l: string, r: string)
    requires |l| <= |s| && l == s[|s| - |l|..] && |r| <= |l| && r == l[..|r|]
    ensures r == s[|s| - |l|..|s| - |l| + |r|]
  {
  }

  /** A token without upper-case letters found in a text is found in its lower-cased form too. */
  lemma {:induction false} ContainsLower(s: string, t: string)
    requires Contains(s, t) && forall k :: 0 <= k < |t| ==> LowerChar(t[k]) == t[k]
    ensures Contains(Lower(s), t)
    decreases |s|
  {
    if t <= s {
      assert t <= Lower(s) by {
        forall k | 0 <= k < |t| ensures Lower(s)[k] == t[k] { assert s[k] == t[k]; }
      }
    } else {
      ContainsLower(s[1..], t);
      assert Lower(s)[1..] == Lower(s[1..]);
    }
  }

  /** Deleting characters distributes over concatenation. */
  lemma {:induction false} RemoveByAppend(x: string, y: string, drop: char -> bool)
    ensures RemoveBy(x + y, drop) == RemoveBy(x, drop) + RemoveBy(y, drop)
  {
    if x != [] {
      assert (x + y)[1..] == x[1..] + y;
      RemoveByAppend(x[1..], y, drop);
    } else {
      assert x + y == y;
    }
  }

  /** Deleting from a clean head, a part that deletes to nothing, and a tail keeps the head. */
  lemma RemoveBySplice(whole: string, head: string, gone: string, tail: string, drop: char -> bool)
    requires whole == head + gone + tail
    requires forall k :: 0 <= k < |head| ==> !drop(head[k])
    requires RemoveBy(gone, drop) == []
    ensures RemoveBy(whole, drop) == head + RemoveBy(tail, drop)
  {
    RemoveByHead(head, gone, drop);
    assert whole == (head + gone) + tail;
    RemoveByAppend(head + gone, tail, drop);
  }

  /** A clean head followed by a part that deletes to nothing deletes to the head. */
  lemma RemoveByHead(head: string, gone: string, drop: char -> bool)
    requires forall k :: 0 <= k < |head| ==> !drop(head[k])
    requires RemoveBy(gone, drop) == []
    ensures RemoveBy(head + gone, drop) == head
  {
    RemoveByAppend(head, gone, drop);
    RemoveByNone(head, drop);
    assert RemoveBy(head, drop) + [] == head;
  }

  /** Deleting keeps exactly the characters outside the class. */
  lemma {:induction false} RemoveByMembers(s: string, drop: char -> bool)
    ensures forall c :: c in RemoveBy(s, drop) <==> c in s && !drop(c)
  {
    if s != [] {
      RemoveByMembers(s[1..], drop);
      assert s == [s[0]] + s[1..];
    }
  }

  /** Nothing to delete leaves the text unchanged. */
  lemma {:induction false} RemoveByNone(x: string, drop: char -> bool)
    requires forall k :: 0 <= k < |x| ==> !drop(x[k])
    ensures RemoveBy(x, drop) == x
  {
    if x != [] {
      RemoveByNone(x[1..], drop);
    }
  }
}
