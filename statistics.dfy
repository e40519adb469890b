/**
 * The pure parts of the calculator's statistics: the sum that `mean`
 * reduces to, the ascending numeric order `median` sorts its copy into,
 * and the middle-element rule of `median`.
 */
module Statistics {
  import opened JsValues

  // ---------------------------------------------------------------------
  // mean

  /** The left-to-right sum `s.reduce((acc, x) => acc + x, 0)`. */
  function Sum(s: seq<real>): real
  {
    if s == [] then 0.0 else Sum(s[..|s| - 1]) + s[|s| - 1]
  }

  /** A sum of `n` terms between `lo` and `hi` lies between `n * lo` and `n * hi`. */
  lemma {:induction false} SumBounds(s: seq<real>, lo: real, hi: real)
    requires forall i :: 0 <= i < |s| ==> lo <= s[i] <= hi
    ensures |s| as real * lo <= Sum(s) <= |s| as real * hi
  {
    if s != [] {
      SumBounds(s[..|s| - 1], lo, hi);
    }
  }

  /** The arithmetic mean of a non-empty sequence. */
  function Mean(s: seq<real>): real
    requires s != []
  {
    Sum(s) / |s| as real
  }

  /** The mean lies between any lower and upper bound of the elements. */
  lemma MeanWithinBounds(s: seq<real>, lo: real, hi: real)
    requires s != []
    requires forall i :: 0 <= i < |s| ==> lo <= s[i] <= hi
    ensures lo <= Mean(s) <= hi
  {
    SumBounds(s, lo, hi);
    QuotientBounds(Sum(s), |s| as real, lo, hi);
  }

  lemma QuotientBounds(a: real, n: real, lo: real, hi: real)
    requires n > 0.0 && n * lo <= a <= n * hi
    ensures lo <= a / n <= hi
  {
    var q := a / n;
    assert (q - lo) * n == a - n * lo;
    assert (hi - q) * n == n * hi - a;
  }

  /** The real numbers carried by a sequence of finite values. */
  function Reals(vs: seq<Value>): seq<real>
    requires forall i :: 0 <= i < |vs| ==> vs[i].Num?
  {
    seq(|vs|, i requires 0 <= i < |vs| && vs[i].Num? => vs[i].r)
  }

  // ---------------------------------------------------------------------
  // median

  /** Ascending numeric order, as the comparator `(a, b) => a - b` asks for. */
  predicate Ascending(s: seq<real>) {
    forall i, j :: 0 <= i < j < |s| ==> s[i] <= s[j]
  }

  /** A lower bound of every element carries over to a permutation. */
  lemma LowerBoundOfPermutation(a: seq<real>, b: seq<real>, lo: real)
    requires multiset(a) == multiset(b)
    requires forall j :: 0 <= j < |b| ==> lo <= b[j]
    ensures forall i :: 0 <= i < |a| ==> lo <= a[i]
  {
    forall i | 0 <= i < |a|
      ensures lo <= a[i]
    {
      assert a[i] in multiset(b);
      var j :| 0 <= j < |b| && b[j] == a[i];
    }
  }

  /** Putting a lower bound of an ascending sequence in front keeps it ascending. */
  lemma AscendingCons(h: real, t: seq<real>)
    requires Ascending(t)
    requires forall k :: 0 <= k < |t| ==> h <= t[k]
    ensures Ascending([h] + t)
  {
    forall i, j | 0 <= i < j < |[h] + t|
      ensures ([h] + t)[i] <= ([h] + t)[j]
    {
      if i > 0 {
        assert ([h] + t)[i] == t[i - 1] && ([h] + t)[j] == t[j - 1];
      } else {
        assert ([h] + t)[j] == t[j - 1];
      }
    }
  }

  /** The step of `Insert` that keeps `s[0]` in front of the recursive result. */
  lemma InsertStep(x: real, s: seq<real>, rest: seq<real>)
    requires Ascending(s) && s != [] && s[0] < x
    requires Ascending(rest) && multiset(rest) == multiset(s[1..]) + multiset{x}
    ensures Ascending([s[0]] + rest)
    ensures multiset([s[0]] + rest) == multiset(s) + multiset{x}
  {
    var tail := s[1..];
    assert s == [s[0]] + tail;
    assert multiset(rest) == multiset(tail + [x]);
    forall k | 0 <= k < |tail + [x]|
      ensures s[0] <= (tail + [x])[k]
    {
      if k < |tail| {
        assert (tail + [x])[k] == s[k + 1];
      }
    }
    LowerBoundOfPermutation(rest, tail + [x], s[0]);
    AscendingCons(s[0], rest);
  }

  /** Inserts `x` into an ascending sequence at its place. */
  function Insert(x: real, s: seq<real>): (t: seq<real>)
    requires Ascending(s)
    ensures Ascending(t)
    ensures multiset(t) == multiset(s) + multiset{x}
  {
    if s == [] then [x]
    else if x <= s[0] then
      AscendingCons(x, s);
      [x] + s
    else
      var rest := Insert(x, s[1..]);
      InsertStep(x, s, rest);
      [s[0]] + rest
  }

  /** A reference sort: an ascending permutation of `s`. */
  function Sort(s: seq<real>): (t: seq<real>)
    ensures Ascending(t)
    ensures multiset(t) == multiset(s)
  {
    if s == [] then []
    else
      assert s == [s[0]] + s[1..];
      Insert(s[0], Sort(s[1..]))
  }

  lemma MultisetCancel(m1: multiset<real>, m2: multiset<real>, x: real)
    requires m1 + multiset{x} == m2 + multiset{x}
    ensures m1 == m2
  {
    forall y ensures m1[y] == m2[y] {
      assert (m1 + multiset{x})[y] == (m2 + multiset{x})[y];
    }
  }

  lemma AscendingFirstIsLeast(s: seq<real>, x: real)
    requires Ascending(s) && x in s
    ensures s[0] <= x
  {
    var i :| 0 <= i < |s| && s[i] == x;
  }

  /** Two ascending sequences with the same elements are equal, so every sort agrees with `Sort`. */
  lemma {:induction false} AscendingPermutationUnique(a: seq<real>, b: seq<real>)
    requires Ascending(a) && Ascending(b)
    requires multiset(a) == multiset(b)
    ensures a == b
    decreases |a|
  {
    assert |a| == |multiset(a)| && |b| == |multiset(b)|;
    if a != [] {
      assert a[0] in multiset(b) && b[0] in multiset(a);
      AscendingFirstIsLeast(b, a[0]);
      AscendingFirstIsLeast(a, b[0]);
      assert a[0] == b[0];
      assert a == [a[0]] + a[1..] && b == [b[0]] + b[1..];
      assert multiset(a) == multiset(a[1..]) + multiset{a[0]};
      assert multiset(b) == multiset(b[1..]) + multiset{a[0]};
      MultisetCancel(multiset(a[1..]), multiset(b[1..]), a[0]);
      AscendingPermutationUnique(a[1..], b[1..]);
    }
  }

  /** The middle element of an odd-length sequence, or the average of the two middle ones. */
  function MiddleOf(s: seq<real>): real
    requires s != []
  {
    var mid := |s| / 2;
    if |s| % 2 == 0 then (s[mid - 1] + s[mid]) / 2.0 else s[mid]
  }

  /** `median`: throws on an empty input, otherwise the middle of the sorted copy. */
  function Median(numbers: seq<real>): Result<real>
  {
    if |numbers| == 0 then Err(EmptyMedian) else Ok(MiddleOf(Sort(numbers)))
  }

  /** The median is the middle of ANY ascending permutation of the input. */
  lemma MedianOfAnySort(numbers: seq<real>, sorted: seq<real>)
    requires Ascending(sorted) && multiset(sorted) == multiset(numbers)
    ensures numbers == [] ==> Median(numbers) == Err(EmptyMedian)
    ensures numbers != [] ==> sorted != [] && Median(numbers) == Ok(MiddleOf(sorted))
  {
    assert |sorted| == |multiset(sorted)| == |multiset(numbers)| == |numbers|;
    AscendingPermutationUnique(sorted, Sort(numbers));
  }

  /** How many elements of `s` are below `m`, and how many above. */
  function CountBelow(s: seq<real>, m: real): nat
  {
    if s == [] then 0 else CountBelow(s[1..], m) + (if s[0] < m then 1 else 0)
  }

  function CountAbove(s: seq<real>, m: real): nat
  {
    if s == [] then 0 else CountAbove(s[1..], m) + (if s[0] > m then 1 else 0)
  }

  lemma {:induction false} CountsOfConcat(a: seq<real>, b: seq<real>, m: real)
    ensures CountBelow(a + b, m) == CountBelow(a, m) + CountBelow(b, m)
    ensures CountAbove(a + b, m) == CountAbove(a, m) + CountAbove(b, m)
  {
    if a != [] {
      assert (a + b)[1..] == a[1..] + b;
      CountsOfConcat(a[1..], b, m);
    } else {
      assert a + b == b;
    }
  }

  /** Taking out the element at `j` takes its contribution out of the counts. */
  lemma CountsRemoveAt(b: seq<real>, j: nat, m: real)
    requires j < |b|
    ensures CountBelow(b, m) == CountBelow(b[..j] + b[j + 1..], m) + (if b[j] < m then 1 else 0)
    ensures CountAbove(b, m) == CountAbove(b[..j] + b[j + 1..], m) + (if b[j] > m then 1 else 0)
  {
    assert b == b[..j] + ([b[j]] + b[j + 1..]);
    CountsOfConcat(b[..j], [b[j]] + b[j + 1..], m);
    CountsOfConcat([b[j]], b[j + 1..], m);
    CountsOfConcat(b[..j], b[j + 1..], m);
  }

  /** The counts depend only on the elements, not on their order. */
  lemma {:induction false} CountsOfPermutation(a: seq<real>, b: seq<real>, m: real)
    requires multiset(a) == multiset(b)
    ensures CountBelow(a, m) == CountBelow(b, m)
    ensures CountAbove(a, m) == CountAbove(b, m)
    decreases |a|
  {
    if a == [] {
      assert |b| == |multiset(b)| == 0;
      assert b == [];
    } else {
      assert a[0] in multiset(b);
      var j :| 0 <= j < |b| && b[j] == a[0];
      var rest := b[..j] + b[j + 1..];
      assert b == b[..j] + [b[j]] + b[j + 1..];
      assert multiset(b) == multiset(rest) + multiset{a[0]};
      assert a == [a[0]] + a[1..];
      assert multiset(a) == multiset(a[1..]) + multiset{a[0]};
      MultisetCancel(multiset(a[1..]), multiset(rest), a[0]);
      CountsOfPermutation(a[1..], rest, m);
      CountsRemoveAt(b, j, m);
    }
  }

  /** In an ascending sequence, the elements below `s[k]` all sit before position `k`. */
  lemma {:induction false} CountBelowAscending(s: seq<real>, k: nat, m: real)
    requires Ascending(s) && k <= |s|
    requires forall i :: k <= i < |s| ==> s[i] >= m
    ensures CountBelow(s, m) <= k
    decreases |s|
  {
    if s != [] {
      if k == 0 {
        CountBelowAscending(s[1..], 0, m);
      } else {
        CountBelowAscending(s[1..], k - 1, m);
      }
    }
  }

  lemma {:induction false} CountAboveAscending(s: seq<real>, k: nat, m: real)
    requires Ascending(s) && k <= |s|
    requires forall i :: 0 <= i < |s| - k ==> s[i] <= m
    ensures CountAbove(s, m) <= k
    decreases |s|
  {
    if s != [] {
      if s[0] > m {
        assert |s| - k <= 0;
        CountAboveAscending(s[1..], k - 1, m);
      } else {
        CountAboveAscending(s[1..], if |s| - 1 < k then |s| - 1 else k, m);
      }
    }
  }

  /** The middle of an ascending sequence has at most half of it below and at most half above. */
  lemma MiddleSplitsInHalf(s: seq<real>)
    requires Ascending(s) && s != []
    ensures 2 * CountBelow(s, MiddleOf(s)) <= |s| && 2 * CountAbove(s, MiddleOf(s)) <= |s|
  {
    var m := MiddleOf(s);
    var mid := |s| / 2;
    if |s| % 2 == 0 {
      assert s[mid - 1] <= m <= s[mid];
    }
    CountBelowAscending(s, mid, m);
    CountAboveAscending(s, mid, m);
  }

  /**
   * The median is a median in the statistical sense: at most half of the
   * numbers are below it and at most half are above it.
   */
  lemma MedianSplitsInHalf(numbers: seq<real>)
    requires numbers != []
    ensures Median(numbers).Ok?
    ensures var m := Median(numbers).value;
      2 * CountBelow(numbers, m) <= |numbers| && 2 * CountAbove(numbers, m) <= |numbers|
  {
    var s := Sort(numbers);
    assert |s| == |multiset(s)| == |multiset(numbers)| == |numbers|;
    MiddleSplitsInHalf(s);
    CountsOfPermutation(numbers, s, MiddleOf(s));
  }
}
