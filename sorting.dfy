/**
 * The stable sort the source gets from Python's `list.sort`/`sorted` with a key and from
 * pandas' multi-column `sort_values`: an insertion sort that places each element before the
 * first later element that is not strictly smaller, so equal keys keep their input order.
 */
module Sorting {

  /** `less` is a strict weak order: irreflexive, transitive, and "not less" is transitive. */
  ghost predicate StrictWeakOrder<T(!new)>(less: (T, T) -> bool) {
    && (forall a :: !less(a, a))
    && (forall a, b, c :: less(a, b) && less(b, c) ==> less(a, c))
    && (forall a, b, c :: !less(a, b) && !less(b, c) ==> !less(a, c))
  }

  ghost predicate SortedBy<T>(s: seq<T>, less: (T, T) -> bool) {
    forall i, j :: 0 <= i < j < |s| ==> !less(s[j], s[i])
  }

  /** `x` placed before the first element of `s` that is not strictly less than `x`. */
  function Insert<T>(x: T, s: seq<T>, less: (T, T) -> bool): (r: seq<T>)
    ensures multiset(r) == multiset(s) + multiset{x}
    ensures |r| == |s| + 1
  {
    if s == [] || !less(s[0], x) then [x] + s
    else
      var r := [s[0]] + Insert(x, s[1..], less);
      assert s == [s[0]] + s[1..];
      r
  }

  function SortBy<T>(s: seq<T>, less: (T, T) -> bool): (r: seq<T>)
    ensures multiset(r) == multiset(s)
    ensures |r| == |s|
  {
    if s == [] then []
    else
      var r := Insert(s[0], SortBy(s[1..], less), less);
      assert s == [s[0]] + s[1..];
      r
  }

  lemma {:induction false} InsertSorted<T(!new)>(x: T, s: seq<T>, less: (T, T) -> bool)
    requires StrictWeakOrder(less) && SortedBy(s, less)
    ensures SortedBy(Insert(x, s, less), less)
  {
    if s != [] && less(s[0], x) {
      var t := s[1..];
      assert SortedBy(t, less) by {
        forall i, j | 0 <= i < j < |t| ensures !less(t[j], t[i]) { assert t[j] == s[j + 1] && t[i] == s[i + 1]; }
      }
      InsertSorted(x, t, less);
      var u := Insert(x, t, less);
      var r := [s[0]] + u;
      forall j | 0 < j < |r| ensures !less(r[j], s[0]) {
        assert r[j] in multiset(u);
        assert r[j] in multiset(t) + multiset{x};
        if r[j] != x {
          assert r[j] in t;
          var k :| 0 <= k < |t| && t[k] == r[j];
          assert s[k + 1] == r[j];
        }
      }
      assert SortedBy(r, less);
    } else if s != [] {
      var r := [x] + s;
      forall j | 0 < j < |r| ensures !less(r[j], x) {
        assert r[j] == s[j - 1];
        if j > 1 { assert !less(s[j - 1], s[0]); }
      }
      assert SortedBy(r, less);
    }
  }

  /** The result is ordered by `less`; with the multiset ensures of SortBy, a sorted permutation. */
  lemma {:induction false} SortBySorted<T(!new)>(s: seq<T>, less: (T, T) -> bool)
    requires StrictWeakOrder(less)
    ensures SortedBy(SortBy(s, less), less)
  {
    if s != [] {
      SortBySorted(s[1..], less);
      InsertSorted(s[0], SortBy(s[1..], less), less);
    }
  }

  /** The elements of `s` equivalent to `x` under `less`, in order. */
  function EquivalentTo<T>(s: seq<T>, x: T, less: (T, T) -> bool): seq<T> {
    if s == [] then []
    else (if !less(s[0], x) && !less(x, s[0]) then [s[0]] else []) + EquivalentTo(s[1..], x, less)
  }

  lemma EquivalentToCons<T>(y: T, t: seq<T>, x: T, less: (T, T) -> bool)
    ensures EquivalentTo([y] + t, x, less)
         == (if !less(y, x) && !less(x, y) then [y] else []) + EquivalentTo(t, x, less)
  {
    assert ([y] + t)[1..] == t;
  }

  lemma {:induction false} InsertEquivalent<T(!new)>(a: T, s: seq<T>, x: T, less: (T, T) -> bool)
    requires StrictWeakOrder(less) && SortedBy(s, less)
    ensures EquivalentTo(Insert(a, s, less), x, less)
         == (if !less(a, x) && !less(x, a) then [a] else []) + EquivalentTo(s, x, less)
  {
    if s != [] && less(s[0], a) {
      var t := s[1..];
      assert SortedBy(t, less) by {
        forall i, j | 0 <= i < j < |t| ensures !less(t[j], t[i]) { assert t[j] == s[j + 1] && t[i] == s[i + 1]; }
      }
      InsertEquivalent(a, t, x, less);
      EquivalentToCons(s[0], Insert(a, t, less), x, less);
      EquivalentToCons(s[0], t, x, less);
      assert s == [s[0]] + t;
      if !less(a, x) && !less(x, a) {
        // s[0] is strictly below a, hence strictly below x
        assert less(s[0], x);
      }
    } else {
      EquivalentToCons(a, s, x, less);
    }
  }

  /** Stability: for every key, the elements with that key keep their relative order. */
  lemma {:induction false} SortByStable<T(!new)>(s: seq<T>, x: T, less: (T, T) -> bool)
    requires StrictWeakOrder(less)
    ensures EquivalentTo(SortBy(s, less), x, less) == EquivalentTo(s, x, less)
  {
    if s != [] {
      SortByStable(s[1..], x, less);
      SortBySorted(s[1..], less);
      InsertEquivalent(s[0], SortBy(s[1..], less), x, less);
    }
  }

  lemma {:induction false} EquivalentToFirst<T>(s: seq<T>, x: T, less: (T, T) -> bool)
    requires EquivalentTo(s, x, less) != []
    ensures exists k :: 0 <= k < |s| && s[k] == EquivalentTo(s, x, less)[0]
                        && (forall j :: 0 <= j < k ==> less(s[j], x) || less(x, s[j]))
  {
    if !less(s[0], x) && !less(x, s[0]) {
      assert s[0] == EquivalentTo(s, x, less)[0];
    } else {
      EquivalentToFirst(s[1..], x, less);
      var k :| 0 <= k < |s[1..]| && s[1..][k] == EquivalentTo(s[1..], x, less)[0]
               && (forall j :: 0 <= j < k ==> less(s[1..][j], x) || less(x, s[1..][j]));
      assert s[k + 1] == EquivalentTo(s, x, less)[0];
      forall j | 0 <= j < k + 1 ensures less(s[j], x) || less(x, s[j]) {
        if j > 0 { assert s[j] == s[1..][j - 1]; }
      }
    }
  }

  lemma EquivalentToSelf<T>(s: seq<T>, less: (T, T) -> bool)
    requires s != [] && !less(s[0], s[0])
    ensures EquivalentTo(s, s[0], less) != [] && EquivalentTo(s, s[0], less)[0] == s[0]
  {
  }

  lemma SortedHeadMinimal<T>(r: seq<T>, less: (T, T) -> bool)
    requires SortedBy(r, less) && r != [] && !less(r[0], r[0])
    ensures forall y :: y in r ==> !less(y, r[0])
  {
    forall y | y in r ensures !less(y, r[0]) {
      var i :| 0 <= i < |r| && r[i] == y;
      if i > 0 { assert !less(r[i], r[0]); }
    }
  }

  /** `s[k]` is a minimal element of `s` and every element before it is strictly above it. */
  ghost predicate FirstMinimalAt<T>(s: seq<T>, k: int, less: (T, T) -> bool) {
    && 0 <= k < |s|
    && (forall j :: 0 <= j < |s| ==> !less(s[j], s[k]))
    && (forall j :: 0 <= j < k ==> less(s[k], s[j]))
  }

  /**
   * The head of the sorted sequence is the first minimal element of the input. This is what
   * taking `[0]` of a stable sort, or `min` with a key, returns.
   */
  lemma SortByFirst<T(!new)>(s: seq<T>, less: (T, T) -> bool)
    requires StrictWeakOrder(less) && s != []
    ensures exists k :: FirstMinimalAt(s, k, less) && SortBy(s, less)[0] == s[k]
  {
    var r := SortBy(s, less);
    var x := r[0];
    SortBySorted(s, less);
    SortedHeadMinimal(r, less);
    SortByStable(s, x, less);
    EquivalentToSelf(r, less);
    var e := EquivalentTo(s, x, less);
    assert e != [] && e[0] == x;
    EquivalentToFirst(s, x, less);
    var k :| 0 <= k < |s| && s[k] == e[0] && (forall j :: 0 <= j < k ==> less(s[j], x) || less(x, s[j]));
    forall j | 0 <= j < |s| ensures !less(s[j], x) {
      assert s[j] in multiset(r);
    }
    assert FirstMinimalAt(s, k, less);
  }
}
