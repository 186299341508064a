/**
 * The three Array.prototype methods the settled-result view is built from:
 * `filter`, `every` and `some`, over an immutable Dafny sequence.
 */
module JsArray {

  /** `s.filter(test)`: the elements of `s` that pass `test`, in their original order. */
  function Filter<T>(s: seq<T>, test: T -> bool): (r: seq<T>)
    ensures |r| <= |s|
    ensures forall x :: x in r ==> x in s && test(x)
    ensures forall x :: x in s && test(x) ==> x in r
    decreases |s|
  {
    if s == [] then []
    else if test(s[0]) then [s[0]] + Filter(s[1..], test)
    else Filter(s[1..], test)
  }

  /** `s.every(test)`: no element fails `test` (vacuously true on `[]`). */
  predicate Every<T>(s: seq<T>, test: T -> bool): (b: bool)
    ensures s == [] ==> b
    ensures b <==> forall x :: x in s ==> test(x)
  {
    forall i :: 0 <= i < |s| ==> test(s[i])
  }

  /** `s.some(test)`: at least one element passes `test` (false on `[]`). */
  predicate Some<T>(s: seq<T>, test: T -> bool): (b: bool)
    ensures b ==> |s| > 0
    ensures b <==> exists x :: x in s && test(x)
  {
    exists i :: 0 <= i < |s| && test(s[i])
  }

  /** The positions of `s` whose element passes `test`. */
  function IndicesWhere<T>(s: seq<T>, test: T -> bool): set<int> {
    set i | 0 <= i < |s| && test(s[i])
  }

  /** Filtering distributes over concatenation: `filter` keeps the order of its input. */
  lemma {:induction false} FilterConcat<T>(a: seq<T>, b: seq<T>, test: T -> bool)
    ensures Filter(a + b, test) == Filter(a, test) + Filter(b, test)
    decreases |a|
  {
    if a == [] {
      assert a + b == b;
    } else {
      assert (a + b)[0] == a[0];
      assert (a + b)[1..] == a[1..] + b;
      FilterConcat(a[1..], b, test);
    }
  }

  /** `filter(test).length` is the number of positions whose element passes `test`. */
  lemma {:induction false} FilterLengthIsIndexCount<T>(s: seq<T>, test: T -> bool)
    ensures |Filter(s, test)| == |IndicesWhere(s, test)|
    decreases |s|
  {
    if s == [] {
      assert IndicesWhere(s, test) == {};
    } else {
      var p, x := s[..|s| - 1], s[|s| - 1];
      assert s == p + [x];
      FilterConcat(p, [x], test);
      assert Filter([x], test) == if test(x) then [x] else [];
      var last: set<int> := if test(x) then {|p|} else {};
      assert IndicesWhere(s, test) == IndicesWhere(p, test) + last;
      assert |p| !in IndicesWhere(p, test);
      FilterLengthIsIndexCount(p, test);
    }
  }

  /** Filtering keeps every element exactly when every element passes. */
  lemma {:induction false} FilterKeepsAllIffEvery<T>(s: seq<T>, test: T -> bool)
    ensures |Filter(s, test)| == |s| <==> Every(s, test)
    decreases |s|
  {
    if s != [] {
      FilterKeepsAllIffEvery(s[1..], test);
      assert Every(s, test) <==> test(s[0]) && Every(s[1..], test) by {
        assert forall i :: 0 <= i < |s[1..]| ==> s[1..][i] == s[i + 1];
      }
    }
  }

  /** Filtering keeps something exactly when some element passes. */
  lemma FilterNonEmptyIffSome<T>(s: seq<T>, test: T -> bool)
    ensures |Filter(s, test)| > 0 <==> Some(s, test)
  {
  }

  /**
   * When every element passes exactly one of two tests, the two filters
   * together account for every element once.
   */
  lemma {:induction false} FilterComplementLengths<T>(s: seq<T>, t: T -> bool, u: T -> bool)
    requires forall x :: x in s ==> t(x) != u(x)
    ensures |Filter(s, t)| + |Filter(s, u)| == |s|
    decreases |s|
  {
    if s != [] {
      FilterComplementLengths(s[1..], t, u);
    }
  }
}
