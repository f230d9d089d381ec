/**
 * Shared vocabulary for the model: an optional value, the array operations
 * the application leans on (`filter`, `map`, a summing `reduce`), the
 * subsequence order that "filter keeps the rest in order" is stated with,
 * and JavaScript's notion of a whitespace character.
 *
 * Every sequence function recurses on the LAST element, the order in which
 * `Array.prototype.reduce` folds, so that appending one element unfolds the
 * definition once.
 */
module Common {

  /** `T | null | undefined` in the application: a value that may be absent. */
  datatype Option<+T> = None | Some(value: T) {

    /** The value, or `default` when absent (the `??` operator). */
    function GetOr(default: T): T {
      match this
      case Some(v) => v
      case None => default
    }
  }

  /** The last element of a non-empty sequence. */
  function Last<T>(s: seq<T>): T
    requires |s| > 0
  {
    s[|s| - 1]
  }

  /** All but the last element of a non-empty sequence. */
  function Init<T>(s: seq<T>): seq<T>
    requires |s| > 0
  {
    s[..|s| - 1]
  }

  lemma InitLast<T>(s: seq<T>)
    requires |s| > 0
    ensures s == Init(s) + [Last(s)]
  {
  }

  lemma InitOfAppend<T>(s: seq<T>, x: T)
    ensures Init(s + [x]) == s && Last(s + [x]) == x
  {
    assert (s + [x])[..|s|] == s;
  }

  /** Slicing a concatenation at the seam gives back the pieces. */
  lemma AppendSlices<T>(a: seq<T>, b: seq<T>)
    ensures (a + b)[..|a|] == a && (a + b)[|a|..] == b
  {
  }

  /** Slicing a three-piece concatenation at its seams gives back the pieces. */
  lemma AppendSlices3<T>(a: seq<T>, b: seq<T>, c: seq<T>)
    ensures (a + b + c)[..|a|] == a
    ensures (a + b + c)[|a|..|a| + |b|] == b
    ensures (a + b + c)[|a| + |b|..] == c
  {
  }

  // ---------------------------------------------------------------------
  // filter
  // ---------------------------------------------------------------------

  /** `s.filter(p)`: the elements satisfying `p`, in their original order. */
  function Filter<T(!new)>(s: seq<T>, p: T -> bool): (r: seq<T>)
    ensures |r| <= |s|
    ensures forall i :: 0 <= i < |r| ==> p(r[i])
  {
    if |s| == 0 then []
    else
      InitLast(s);
      Filter(Init(s), p) + (if p(Last(s)) then [Last(s)] else [])
  }

  lemma FilterAppend<T(!new)>(a: seq<T>, b: seq<T>, p: T -> bool)
    ensures Filter(a + b, p) == Filter(a, p) + Filter(b, p)
    decreases |b|
  {
    if |b| == 0 {
      assert a + b == a;
    } else {
      InitOfAppend(a + Init(b), Last(b));
      assert a + b == (a + Init(b)) + [Last(b)];
      FilterAppend(a, Init(b), p);
    }
  }

  lemma FilterSingle<T(!new)>(x: T, p: T -> bool)
    ensures Filter([x], p) == if p(x) then [x] else []
  {
    InitOfAppend([], x);
  }

  /** Appending one element extends the filtered sequence only if it passes. */
  lemma FilterSnoc<T(!new)>(s: seq<T>, x: T, p: T -> bool)
    ensures Filter(s + [x], p) == Filter(s, p) + (if p(x) then [x] else [])
  {
    InitOfAppend(s, x);
  }

  /** When every element passes, filtering changes nothing. */
  lemma {:induction false} FilterAll<T(!new)>(s: seq<T>, p: T -> bool)
    requires forall i :: 0 <= i < |s| ==> p(s[i])
    ensures Filter(s, p) == s
  {
    if |s| > 0 {
      InitLast(s);
      FilterAll(Init(s), p);
    }
  }

  /** When no element passes, filtering empties the sequence. */
  lemma {:induction false} FilterNone<T(!new)>(s: seq<T>, p: T -> bool)
    requires forall i :: 0 <= i < |s| ==> !p(s[i])
    ensures Filter(s, p) == []
  {
    if |s| > 0 {
      FilterNone(Init(s), p);
    }
  }

  /** Filtering leaves nothing exactly when no element passes. */
  lemma FilterEmpty<T(!new)>(s: seq<T>, p: T -> bool)
    ensures |Filter(s, p)| == 0 <==> forall i :: 0 <= i < |s| ==> !p(s[i])
  {
    if forall i :: 0 <= i < |s| ==> !p(s[i]) {
      FilterNone(s, p);
    } else {
      var i :| 0 <= i < |s| && p(s[i]);
      FilterMembership(s, p, s[i]);
    }
  }

  /** An element survives filtering exactly when it occurs and passes. */
  lemma {:induction false} FilterMembership<T(!new)>(s: seq<T>, p: T -> bool, x: T)
    ensures x in Filter(s, p) <==> x in s && p(x)
  {
    if |s| > 0 {
      InitLast(s);
      FilterMembership(Init(s), p, x);
    }
  }

  /** Filtering by a stronger condition after a weaker one is filtering by the stronger. */
  lemma {:induction false} FilterFilter<T(!new)>(s: seq<T>, p: T -> bool, q: T -> bool)
    requires forall x :: q(x) ==> p(x)
    ensures Filter(Filter(s, p), q) == Filter(s, q)
  {
    if |s| > 0 {
      var x := Last(s);
      InitLast(s);
      FilterFilter(Init(s), p, q);
      FilterSnoc(Init(s), x, p);
      FilterSnoc(Init(s), x, q);
      FilterAppend(Filter(Init(s), p), if p(x) then [x] else [], q);
      if p(x) {
        FilterSingle(x, q);
      } else {
        assert Filter([], q) == [];
      }
    }
  }

  /** Each element passes or fails: the two filtered parts add up to the whole. */
  lemma {:induction false} FilterPartition<T(!new)>(s: seq<T>, p: T -> bool, q: T -> bool)
    requires forall x :: q(x) == !p(x)
    ensures |Filter(s, p)| + |Filter(s, q)| == |s|
  {
    if |s| > 0 {
      FilterPartition(Init(s), p, q);
    }
  }

  /** Filtering by one test and then another is filtering by both at once. */
  lemma {:induction false} FilterBoth<T(!new)>(s: seq<T>, p: T -> bool, q: T -> bool, pq: T -> bool)
    requires forall x :: pq(x) == (p(x) && q(x))
    ensures Filter(Filter(s, p), q) == Filter(s, pq)
  {
    if |s| > 0 {
      var x := Last(s);
      InitLast(s);
      FilterBoth(Init(s), p, q, pq);
      FilterSnoc(Init(s), x, p);
      FilterAppend(Filter(Init(s), p), if p(x) then [x] else [], q);
      if p(x) {
        FilterSingle(x, q);
      } else {
        assert Filter([], q) == [];
      }
    }
  }

  /** Replacing one element moves the number of passing elements by at most one. */
  lemma FilterCountUpdate<T(!new)>(s: seq<T>, i: int, x: T, p: T -> bool)
    requires 0 <= i < |s|
    ensures |Filter(s[i := x], p)|
         == |Filter(s, p)| - (if p(s[i]) then 1 else 0) + (if p(x) then 1 else 0)
  {
    var a, b := s[..i], s[i + 1..];
    assert s == a + [s[i]] + b;
    assert s[i := x] == a + [x] + b;
    FilterAppend(a + [s[i]], b, p);
    FilterAppend(a + [x], b, p);
    FilterSnoc(a, s[i], p);
    FilterSnoc(a, x, p);
  }

  /** The first element that passes is the head of the filtered sequence. */
  lemma FirstPassingIsFilterHead<T(!new)>(s: seq<T>, p: T -> bool, i: int)
    requires 0 <= i < |s| && p(s[i])
    requires forall k :: 0 <= k < i ==> !p(s[k])
    ensures |Filter(s, p)| > 0 && Filter(s, p)[0] == s[i]
  {
    var a, b := s[..i], s[i + 1..];
    assert s == a + ([s[i]] + b);
    FilterNone(a, p);
    FilterAppend(a, [s[i]] + b, p);
    FilterAppend([s[i]], b, p);
    FilterSingle(s[i], p);
  }

  /** Filtering keeps the whole sequence exactly when every element passes. */
  lemma {:induction false} FilterKeepsAll<T(!new)>(s: seq<T>, p: T -> bool)
    ensures |Filter(s, p)| == |s| <==> forall i :: 0 <= i < |s| ==> p(s[i])
  {
    if |s| > 0 {
      InitLast(s);
      FilterKeepsAll(Init(s), p);
      if forall i :: 0 <= i < |s| ==> p(s[i]) {
        FilterAll(s, p);
      }
    }
  }

  // ---------------------------------------------------------------------
  // subsequences
  // ---------------------------------------------------------------------

  /** `a` is obtained from `b` by deleting elements, keeping the order of the rest. */
  ghost predicate IsSubsequence<T>(a: seq<T>, b: seq<T>)
    decreases |b|
  {
    if |a| == 0 then true
    else if |b| == 0 then false
    else if Last(a) == Last(b) then IsSubsequence(Init(a), Init(b))
    else IsSubsequence(a, Init(b))
  }

  lemma {:induction false} FilterIsSubsequence<T(!new)>(s: seq<T>, p: T -> bool)
    ensures IsSubsequence(Filter(s, p), s)
  {
    if |s| > 0 {
      var f := Filter(Init(s), p);
      FilterIsSubsequence(Init(s), p);
      if p(Last(s)) {
        InitOfAppend(f, Last(s));
      } else {
        assert Filter(s, p) == f + [] == f;
        if |f| > 0 {
          assert p(Last(f));
        }
      }
    }
  }

  /**
   * Filtering is the only order-keeping deletion that leaves exactly the
   * passing elements: a subsequence of `s` made of passing elements only,
   * and as long as `Filter(s, p)`, is `Filter(s, p)`.
   */
  lemma {:induction false} SubsequenceOfPassingIsFilter<T(!new)>(r: seq<T>, s: seq<T>, p: T -> bool)
    requires IsSubsequence(r, s)
    requires forall i :: 0 <= i < |r| ==> p(r[i])
    requires |r| == |Filter(s, p)|
    ensures r == Filter(s, p)
    decreases |s|
  {
    if |s| > 0 && |r| > 0 {
      var f := Filter(Init(s), p);
      if Last(r) == Last(s) {
        assert p(Last(s));
        SubsequenceOfPassingIsFilter(Init(r), Init(s), p);
        InitLast(r);
      } else {
        if p(Last(s)) {
          SubsequenceLength(r, Init(s), p);
          assert false;
        }
        SubsequenceOfPassingIsFilter(r, Init(s), p);
      }
    }
  }

  /** A subsequence made of passing elements is no longer than the filter. */
  lemma {:induction false} SubsequenceLength<T(!new)>(r: seq<T>, s: seq<T>, p: T -> bool)
    requires IsSubsequence(r, s)
    requires forall i :: 0 <= i < |r| ==> p(r[i])
    ensures |r| <= |Filter(s, p)|
    decreases |s|
  {
    if |r| > 0 && |s| > 0 {
      if Last(r) == Last(s) {
        SubsequenceLength(Init(r), Init(s), p);
      } else {
        SubsequenceLength(r, Init(s), p);
      }
    }
  }

  // ---------------------------------------------------------------------
  // map and sum
  // ---------------------------------------------------------------------

  /** `s.map(f)` for a same-typed rewrite of every element. */
  function Map<T>(s: seq<T>, f: T -> T): (r: seq<T>)
    ensures |r| == |s|
    ensures forall i :: 0 <= i < |s| ==> r[i] == f(s[i])
  {
    seq(|s|, i requires 0 <= i < |s| => f(s[i]))
  }

  /** `s.reduce((acc, x) => acc + f(x), 0)`. */
  function Sum<T>(s: seq<T>, f: T -> int): int
  {
    if |s| == 0 then 0 else Sum(Init(s), f) + f(Last(s))
  }

  lemma SumSnoc<T>(s: seq<T>, x: T, f: T -> int)
    ensures Sum(s + [x], f) == Sum(s, f) + f(x)
  {
    InitOfAppend(s, x);
  }

  lemma {:induction false} SumAppend<T>(a: seq<T>, b: seq<T>, f: T -> int)
    ensures Sum(a + b, f) == Sum(a, f) + Sum(b, f)
    decreases |b|
  {
    if |b| == 0 {
      assert a + b == a;
    } else {
      assert a + b == (a + Init(b)) + [Last(b)];
      SumSnoc(a + Init(b), Last(b), f);
      SumAppend(a, Init(b), f);
    }
  }

  /** Replacing one element changes the sum by the difference of the two terms. */
  lemma {:induction false} SumUpdate<T>(s: seq<T>, i: int, x: T, f: T -> int)
    requires 0 <= i < |s|
    ensures Sum(s[i := x], f) == Sum(s, f) - f(s[i]) + f(x)
  {
    assert s == s[..i] + [s[i]] + s[i + 1..];
    assert s[i := x] == s[..i] + [x] + s[i + 1..];
    SumAppend(s[..i] + [s[i]], s[i + 1..], f);
    SumAppend(s[..i] + [x], s[i + 1..], f);
    SumSnoc(s[..i], s[i], f);
    SumSnoc(s[..i], x, f);
  }

  /** A sum of non-negative terms is non-negative. */
  lemma {:induction false} SumNonNegative<T>(s: seq<T>, f: T -> int)
    ensures (forall i :: 0 <= i < |s| ==> f(s[i]) >= 0) ==> Sum(s, f) >= 0
  {
    if |s| > 0 {
      SumNonNegative(Init(s), f);
      if forall i :: 0 <= i < |s| ==> f(s[i]) >= 0 {
        assert forall i :: 0 <= i < |Init(s)| ==> Init(s)[i] == s[i];
      }
    }
  }

  /** Summing over the passing and the failing elements separately loses nothing. */
  lemma {:induction false} SumFilterPartition<T(!new)>(s: seq<T>, f: T -> int, p: T -> bool, q: T -> bool)
    requires forall x :: q(x) == !p(x)
    ensures Sum(Filter(s, p), f) + Sum(Filter(s, q), f) == Sum(s, f)
  {
    if |s| > 0 {
      SumFilterPartition(Init(s), f, p, q);
      var x := Last(s);
      if p(x) {
        assert !q(x);
        assert Filter(s, q) == Filter(Init(s), q) + [] == Filter(Init(s), q);
        SumSnoc(Filter(Init(s), p), x, f);
      } else {
        assert q(x);
        assert Filter(s, p) == Filter(Init(s), p) + [] == Filter(Init(s), p);
        SumSnoc(Filter(Init(s), q), x, f);
      }
    }
  }

  /** Two term functions that agree on every element give the same sum. */
  lemma {:induction false} SumCongruent<T>(s: seq<T>, f: T -> int, g: T -> int)
    requires forall i :: 0 <= i < |s| ==> f(s[i]) == g(s[i])
    ensures Sum(s, f) == Sum(s, g)
  {
    if |s| > 0 {
      SumCongruent(Init(s), f, g);
    }
  }

  // ---------------------------------------------------------------------
  // characters
  // ---------------------------------------------------------------------

  /**
   * The characters JavaScript counts as white space and line terminators:
   * the class `\s` of a regular expression and what `String.prototype.trim`
   * removes.
   */
  predicate IsJsWhitespace(c: char) {
    || c == '\t' || c == '\n' || c == '\U{000B}' || c == '\U{000C}' || c == '\r'
    || c == ' ' || c == '\U{00A0}' || c == '\U{1680}'
    || ('\U{2000}' <= c <= '\U{200A}')
    || c == '\U{2028}' || c == '\U{2029}' || c == '\U{202F}' || c == '\U{205F}'
    || c == '\U{3000}' || c == '\U{FEFF}'
  }
}
