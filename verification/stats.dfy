/** Sums, counts, means and population variances over finite sequences, as
    the optimisers compute them with Python's `sum(...)` and `len(...)`, and
    the absence of repeated elements. */
module Stats {

  /** `sum(f(x) for x in s)`. */
  function SumOf<T>(s: seq<T>, f: T -> real): real
  {
    if |s| == 0 then 0.0 else f(s[0]) + SumOf(s[1..], f)
  }

  /** `sum(1 for x in s if p(x))`. */
  function CountOf<T>(s: seq<T>, p: T -> bool): nat
  {
    if |s| == 0 then 0 else (if p(s[0]) then 1 else 0) + CountOf(s[1..], p)
  }

  /** `sum(f(x) for x in s) / len(s)`. */
  function MeanOf<T>(s: seq<T>, f: T -> real): real
    requires |s| > 0
  {
    SumOf(s, f) / |s| as real
  }

  function Square(x: real): real { x * x }

  /** Population variance: `sum((f(x) - mean) ** 2 for x in s) / len(s)`. */
  function VarianceOf<T>(s: seq<T>, f: T -> real): real
    requires |s| > 0
  {
    var mean := MeanOf(s, f);
    SumOf(s, x => Square(f(x) - mean)) / |s| as real
  }

  function Id(x: real): real { x }

  /** Population variance of a sequence of numbers. */
  function Variance(xs: seq<real>): real
    requires |xs| > 0
  {
    VarianceOf(xs, Id)
  }

  lemma {:induction false} SumOfConcat<T>(a: seq<T>, b: seq<T>, f: T -> real)
    ensures SumOf(a + b, f) == SumOf(a, f) + SumOf(b, f)
    decreases |a|
  {
    if |a| == 0 {
      assert a + b == b;
    } else {
      assert (a + b)[1..] == a[1..] + b;
      SumOfConcat(a[1..], b, f);
    }
  }

  lemma {:induction false} CountOfConcat<T>(a: seq<T>, b: seq<T>, p: T -> bool)
    ensures CountOf(a + b, p) == CountOf(a, p) + CountOf(b, p)
    decreases |a|
  {
    if |a| == 0 {
      assert a + b == b;
    } else {
      assert (a + b)[1..] == a[1..] + b;
      CountOfConcat(a[1..], b, p);
    }
  }

  /** Taking the first element of `a` out of `b`, where it occurs at `k`,
      leaves the multisets of the rests equal. */
  lemma RemoveMatching<T>(a: seq<T>, b: seq<T>, k: nat)
    requires |a| > 0 && k < |b| && b[k] == a[0]
    requires multiset(a) == multiset(b)
    ensures multiset(a[1..]) == multiset(b[..k] + b[k + 1..])
  {
    var x := a[0];
    var rest := b[..k] + b[k + 1..];
    assert a == [x] + a[1..];
    assert b == b[..k] + [x] + b[k + 1..];
    var ma, mb, mr := multiset(a[1..]), multiset(b[..k]), multiset(b[k + 1..]);
    assert multiset(a) == multiset{x} + ma;
    assert multiset(b) == mb + multiset{x} + mr;
    assert multiset(rest) == mb + mr;
    forall z
      ensures ma[z] == multiset(rest)[z]
    {
      assert multiset(a)[z] == multiset(b)[z];
    }
  }

  /** Some position of `b` holds the first element of `a`. */
  lemma FindMatching<T>(a: seq<T>, b: seq<T>) returns (k: nat)
    requires |a| > 0 && multiset(a) == multiset(b)
    ensures k < |b| && b[k] == a[0]
  {
    assert a[0] in multiset(a);
    assert a[0] in b;
    k :| 0 <= k < |b| && b[k] == a[0];
  }

  /** A sum splits around any one of its terms. */
  lemma SumOfAround<T>(b: seq<T>, k: nat, f: T -> real)
    requires k < |b|
    ensures SumOf(b, f) == f(b[k]) + SumOf(b[..k] + b[k + 1..], f)
  {
    var tail := b[k..];
    assert b == b[..k] + tail;
    SumOfConcat(b[..k], tail, f);
    SumOfConcat(b[..k], b[k + 1..], f);
    assert tail[1..] == b[k + 1..];
  }

  /** A count splits around any one of the counted elements. */
  lemma CountOfAround<T>(b: seq<T>, k: nat, p: T -> bool)
    requires k < |b|
    ensures CountOf(b, p) == (if p(b[k]) then 1 else 0) + CountOf(b[..k] + b[k + 1..], p)
  {
    var tail := b[k..];
    assert b == b[..k] + tail;
    CountOfConcat(b[..k], tail, p);
    CountOfConcat(b[..k], b[k + 1..], p);
    assert tail[1..] == b[k + 1..];
    assert CountOf(tail, p) == (if p(b[k]) then 1 else 0) + CountOf(b[k + 1..], p);
  }

  /** A sum depends only on the multiset of its terms. */
  lemma {:induction false} SumOfPermutation<T>(a: seq<T>, b: seq<T>, f: T -> real)
    requires multiset(a) == multiset(b)
    ensures SumOf(a, f) == SumOf(b, f)
    decreases |a|
  {
    if |a| == 0 {
      assert |multiset(b)| == 0;
    } else {
      var k := FindMatching(a, b);
      RemoveMatching(a, b, k);
      SumOfAround(b, k, f);
      SumOfPermutation(a[1..], b[..k] + b[k + 1..], f);
    }
  }

  /** A count depends only on the multiset of the counted elements. */
  lemma {:induction false} CountOfPermutation<T>(a: seq<T>, b: seq<T>, p: T -> bool)
    requires multiset(a) == multiset(b)
    ensures CountOf(a, p) == CountOf(b, p)
    decreases |a|
  {
    if |a| == 0 {
      assert |multiset(b)| == 0;
    } else {
      var k := FindMatching(a, b);
      RemoveMatching(a, b, k);
      CountOfAround(b, k, p);
      CountOfPermutation(a[1..], b[..k] + b[k + 1..], p);
    }
  }

  /** A mean and a variance depend only on the multiset of the sample. */
  lemma VarianceOfPermutation<T>(a: seq<T>, b: seq<T>, f: T -> real)
    requires |a| > 0 && multiset(a) == multiset(b)
    ensures |b| == |a|
    ensures MeanOf(a, f) == MeanOf(b, f)
    ensures VarianceOf(a, f) == VarianceOf(b, f)
  {
    assert |multiset(a)| == |multiset(b)|;
    SumOfPermutation(a, b, f);
    var mean := MeanOf(a, f);
    SumOfPermutation(a, b, x => Square(f(x) - mean));
  }

  lemma {:induction false} SumOfNonNegative<T>(s: seq<T>, f: T -> real)
    requires forall i :: 0 <= i < |s| ==> f(s[i]) >= 0.0
    ensures SumOf(s, f) >= 0.0
    decreases |s|
  {
    if |s| > 0 {
      SumOfNonNegative(s[1..], f);
    }
  }

  /** A sum of terms that are all zero is zero. */
  lemma {:induction false} SumOfZero<T>(s: seq<T>, f: T -> real)
    requires forall i :: 0 <= i < |s| ==> f(s[i]) == 0.0
    ensures SumOf(s, f) == 0.0
    decreases |s|
  {
    if |s| > 0 {
      SumOfZero(s[1..], f);
    }
  }

  /** A sum of `|s|` terms that all equal `c` is `|s| * c`. */
  lemma {:induction false} SumOfConstant<T>(s: seq<T>, f: T -> real, c: real)
    requires forall i :: 0 <= i < |s| ==> f(s[i]) == c
    ensures SumOf(s, f) == |s| as real * c
    decreases |s|
  {
    if |s| > 0 {
      SumOfConstant(s[1..], f, c);
    }
  }

  /** A sum of terms bounded by `hi` is at most `|s| * hi`. */
  lemma {:induction false} SumOfAtMost<T>(s: seq<T>, f: T -> real, hi: real)
    requires forall i :: 0 <= i < |s| ==> f(s[i]) <= hi
    ensures SumOf(s, f) <= |s| as real * hi
    decreases |s|
  {
    if |s| > 0 {
      SumOfAtMost(s[1..], f, hi);
    }
  }

  /** A sum of terms bounded below by `lo` is at least `|s| * lo`. */
  lemma {:induction false} SumOfAtLeast<T>(s: seq<T>, f: T -> real, lo: real)
    requires forall i :: 0 <= i < |s| ==> f(s[i]) >= lo
    ensures SumOf(s, f) >= |s| as real * lo
    decreases |s|
  {
    if |s| > 0 {
      SumOfAtLeast(s[1..], f, lo);
    }
  }

  lemma DivideBounds(x: real, n: real, lo: real, hi: real)
    requires n > 0.0 && n * lo <= x <= n * hi
    ensures lo <= x / n <= hi
  {
    assert (x / n) * n == x;
  }

  /** A mean lies between the bounds of its terms. */
  lemma MeanOfBounds<T>(s: seq<T>, f: T -> real, lo: real, hi: real)
    requires |s| > 0
    requires forall i :: 0 <= i < |s| ==> lo <= f(s[i]) <= hi
    ensures lo <= MeanOf(s, f) <= hi
  {
    SumOfAtLeast(s, f, lo);
    SumOfAtMost(s, f, hi);
    DivideBounds(SumOf(s, f), |s| as real, lo, hi);
  }

  /** The fraction `part / whole` of a non-empty whole lies in [0, 1], and
      reaches either end only at the corresponding count. */
  lemma FractionBounds(part: nat, whole: nat)
    requires 0 < whole && part <= whole
    ensures 0.0 <= part as real / whole as real <= 1.0
    ensures part as real / whole as real == 1.0 <==> part == whole
    ensures part as real / whole as real == 0.0 <==> part == 0
  {
    var f := part as real / whole as real;
    assert f * whole as real == part as real;
  }

  /** A population variance is never negative. */
  lemma VarianceNonNegative<T>(s: seq<T>, f: T -> real)
    requires |s| > 0
    ensures VarianceOf(s, f) >= 0.0
  {
    var mean := MeanOf(s, f);
    SumOfNonNegative(s, x => Square(f(x) - mean));
  }

  /** The population variance of equal values is zero. */
  lemma VarianceOfConstant<T>(s: seq<T>, f: T -> real, c: real)
    requires |s| > 0
    requires forall i :: 0 <= i < |s| ==> f(s[i]) == c
    ensures MeanOf(s, f) == c
    ensures VarianceOf(s, f) == 0.0
  {
    SumOfConstant(s, f, c);
    var mean := MeanOf(s, f);
    assert mean == c;
    SumOfZero(s, x => Square(f(x) - mean));
  }

  /** A sum of non-negative terms of which one is positive is positive. */
  lemma {:induction false} SumOfPositive<T>(s: seq<T>, f: T -> real, k: nat)
    requires k < |s|
    requires forall i :: 0 <= i < |s| ==> f(s[i]) >= 0.0
    requires f(s[k]) > 0.0
    ensures SumOf(s, f) > 0.0
    decreases |s|
  {
    if k == 0 {
      SumOfNonNegative(s[1..], f);
    } else {
      SumOfPositive(s[1..], f, k - 1);
    }
  }

  lemma SquarePositive(d: real)
    requires d != 0.0
    ensures 0.0 < Square(d)
  {
    calc {
      Square(d);
      == d * d;
      > 0.0;
    }
  }


  /** The population variance is zero exactly when all values are equal,
      and positive otherwise. */
  lemma VarianceZeroIff<T>(s: seq<T>, f: T -> real)
    requires |s| > 0
    ensures VarianceOf(s, f) >= 0.0
    ensures VarianceOf(s, f) == 0.0 <==>
      forall i, j :: 0 <= i < |s| && 0 <= j < |s| ==> f(s[i]) == f(s[j])
  {
    VarianceNonNegative(s, f);
    if forall i, j :: 0 <= i < |s| && 0 <= j < |s| ==> f(s[i]) == f(s[j]) {
      VarianceOfConstant(s, f, f(s[0]));
    } else {
      var i, j :| 0 <= i < |s| && 0 <= j < |s| && f(s[i]) != f(s[j]);
      var mean := MeanOf(s, f);
      var g := x => Square(f(x) - mean);
      var k := if f(s[i]) != mean then i else j;
      SquarePositive(f(s[k]) - mean);
      forall m | 0 <= m < |s|
        ensures g(s[m]) >= 0.0
      {
        if f(s[m]) != mean {
          SquarePositive(f(s[m]) - mean);
        }
      }
      SumOfPositive(s, g, k);
      assert VarianceOf(s, f) == SumOf(s, g) / |s| as real;
      PositiveQuotient(SumOf(s, g), |s| as real);
    }
  }

  lemma PositiveQuotient(x: real, n: real)
    requires x > 0.0 && n > 0.0
    ensures x / n > 0.0
  {
    assert (x / n) * n == x;
  }

  /** The population variance of two values is a quarter of the square of
      their difference. */
  lemma VarianceOfPair<T>(s: seq<T>, f: T -> real)
    requires |s| == 2
    ensures VarianceOf(s, f) == Square(f(s[0]) - f(s[1])) / 4.0
  {
    var a, b := f(s[0]), f(s[1]);
    assert s[1..][0] == s[1] && |s[1..][1..]| == 0;
    assert SumOf(s[1..], f) == b + SumOf(s[1..][1..], f);
    assert SumOf(s, f) == a + b;
    var mean := MeanOf(s, f);
    assert mean == (a + b) / 2.0;
    var g := x => Square(f(x) - mean);
    assert SumOf(s[1..], g) == g(s[1]) + SumOf(s[1..][1..], g);
    assert SumOf(s, g) == Square(a - mean) + Square(b - mean);
    assert a - mean == (a - b) / 2.0 && b - mean == (b - a) / 2.0;
    assert Square(a - mean) == Square(a - b) / 4.0;
    assert Square(b - mean) == Square(a - b) / 4.0;
  }

  /** `CountOf` never exceeds the length, and it equals the length exactly
      when every element satisfies the predicate. */
  lemma {:induction false} CountOfBounds<T>(s: seq<T>, p: T -> bool)
    ensures CountOf(s, p) <= |s|
    ensures CountOf(s, p) == |s| <==> forall i :: 0 <= i < |s| ==> p(s[i])
    ensures CountOf(s, p) == 0 <==> forall i :: 0 <= i < |s| ==> !p(s[i])
    decreases |s|
  {
    if |s| > 0 {
      CountOfBounds(s[1..], p);
      assert forall i :: 1 <= i < |s| ==> s[i] == s[1..][i - 1];
    }
  }

  /** Counting `p` and counting `!p` together count every element. */
  lemma {:induction false} CountOfComplement<T>(s: seq<T>, p: T -> bool, q: T -> bool)
    requires forall i :: 0 <= i < |s| ==> (q(s[i]) <==> !p(s[i]))
    ensures CountOf(s, p) + CountOf(s, q) == |s|
    decreases |s|
  {
    if |s| > 0 {
      CountOfComplement(s[1..], p, q);
    }
  }

  /** Overwriting one element trades it for the new value in the multiset. */
  lemma MultisetUpdate<T>(s: seq<T>, i: nat, v: T)
    requires i < |s|
    ensures multiset(s[i := v]) + multiset{s[i]} == multiset(s) + multiset{v}
  {
    assert s == s[..i] + [s[i]] + s[i + 1..];
    assert s[i := v] == s[..i] + [v] + s[i + 1..];
  }

  /** No two positions hold the same element. */
  predicate Distinct<T(==)>(s: seq<T>) {
    forall a, b :: 0 <= a < b < |s| ==> s[a] != s[b]
  }

  /** In a sequence without repeats every element occurs once. */
  lemma {:induction false} DistinctOccursOnce<T>(s: seq<T>, x: T)
    requires Distinct(s)
    ensures multiset(s)[x] <= 1
    decreases |s|
  {
    if |s| > 0 {
      assert s == [s[0]] + s[1..];
      assert Distinct(s[1..]) by {
        forall a, b | 0 <= a < b < |s[1..]|
          ensures s[1..][a] != s[1..][b]
        {
          assert s[1..][a] == s[a + 1] && s[1..][b] == s[b + 1];
        }
      }
      DistinctOccursOnce(s[1..], x);
      if x == s[0] {
        assert x !in s[1..] by {
          forall k | 0 <= k < |s[1..]|
            ensures s[1..][k] != x
          {
            assert s[1..][k] == s[k + 1];
          }
        }
      }
    }
  }

  /** Having no repeats depends only on the multiset of the elements. */
  lemma DistinctByMultiset<T>(a: seq<T>, b: seq<T>)
    requires multiset(a) == multiset(b)
    requires Distinct(a)
    ensures Distinct(b)
  {
    forall i, j | 0 <= i < j < |b|
      ensures b[i] != b[j]
    {
      if b[i] == b[j] {
        var x := b[i];
        assert b == b[..i] + [x] + b[i + 1..j] + [x] + b[j + 1..];
        assert multiset(b)[x] >= 2;
        DistinctOccursOnce(a, x);
        assert false;
      }
    }
  }
}
