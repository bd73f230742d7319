/** Sequence arithmetic shared by the three statistics views:
    `reduce((a, b) => a + b, 0)`, `Math.max(...xs)`, means, counting and
    first occurrences. */
module Seqs {
  import opened JsNumbers

  /** `xs.reduce((a, b) => a + b, 0)`. */
  function Sum(xs: seq<int>): int
  {
    if xs == [] then 0 else Sum(xs[..|xs| - 1]) + xs[|xs| - 1]
  }

  lemma {:induction false} SumAppend(xs: seq<int>, ys: seq<int>)
    ensures Sum(xs + ys) == Sum(xs) + Sum(ys)
  {
    if ys != [] {
      assert (xs + ys)[..|xs + ys| - 1] == xs + ys[..|ys| - 1];
      SumAppend(xs, ys[..|ys| - 1]);
    } else {
      assert xs + ys == xs;
    }
  }

  /** The largest element, `Math.max(...xs)` on a non-empty list. */
  function Max(xs: seq<int>): (m: int)
    requires xs != []
    ensures m in xs
    ensures forall i :: 0 <= i < |xs| ==> xs[i] <= m
  {
    if |xs| == 1 then xs[0]
    else
      var m := Max(xs[1..]);
      if xs[0] >= m then xs[0] else m
  }

  /** The smallest element. */
  function Min(xs: seq<int>): (m: int)
    requires xs != []
    ensures m in xs
    ensures forall i :: 0 <= i < |xs| ==> m <= xs[i]
  {
    if |xs| == 1 then xs[0]
    else
      var m := Min(xs[1..]);
      if xs[0] <= m then xs[0] else m
  }

  /** Every element lies between `lo` and `hi`. */
  predicate Within(xs: seq<int>, lo: int, hi: int)
  {
    forall i :: 0 <= i < |xs| ==> lo <= xs[i] <= hi
  }

  lemma {:induction false} SumWithin(xs: seq<int>, lo: int, hi: int)
    requires Within(xs, lo, hi)
    ensures |xs| * lo <= Sum(xs) <= |xs| * hi
  {
    if xs != [] {
      SumWithin(xs[..|xs| - 1], lo, hi);
    }
  }

  /** The arithmetic mean `sum / length`, exact. */
  function Mean(xs: seq<int>): real
    requires xs != []
  {
    (Sum(xs) as real) / (|xs| as real)
  }

  /** `Math.round(scores.reduce((a, b) => a + b, 0) / scores.length)`:
      the integer nearest to the group's mean, which therefore lies
      between its lowest and its highest score. */
  function RoundedMean(scores: seq<int>): (r: int)
    requires scores != []
    ensures (r as real) - 0.5 <= Mean(scores) < (r as real) + 0.5
    ensures Min(scores) <= r <= Max(scores)
  {
    MeanBetween(scores);
    MathRoundBetween(Mean(scores), Min(scores), Max(scores));
    MathRound(Mean(scores))
  }

  /** Ratings 80, 90 and 85 average to exactly 85. */
  lemma RoundedMeanExample()
    ensures RoundedMean([80, 90, 85]) == 85
  {
    assert [80, 90, 85][..2] == [80, 90] && [80, 90][..1] == [80] && [80][..0] == [];
    assert Sum([80, 90, 85]) == 255;
  }

  /** A mean lies between the smallest and the largest element. */
  lemma MeanBetween(xs: seq<int>)
    requires xs != []
    ensures Min(xs) as real <= Mean(xs) <= Max(xs) as real
  {
    SumWithin(xs, Min(xs), Max(xs));
    RatioBetween(Sum(xs), |xs|, Min(xs), Max(xs));
  }

  /** The mean times the length gives back the sum. */
  lemma MeanTimesLength(xs: seq<int>)
    requires xs != []
    ensures Mean(xs) * (|xs| as real) == Sum(xs) as real
  {
    RatioTimes(Sum(xs) as real, |xs| as real);
  }

  lemma RatioTimes(s: real, n: real)
    requires n != 0.0
    ensures (s / n) * n == s
  {
  }

  lemma RatioBetween(total: int, n: int, lo: int, hi: int)
    requires n > 0 && n * lo <= total <= n * hi
    ensures lo as real <= (total as real) / (n as real) <= hi as real
  {
    IntToRealBetween(n, total, lo, hi);
    DivBetween(total as real, n as real, lo as real, hi as real);
  }

  lemma DivBetween(s: real, n: real, lo: real, hi: real)
    requires n > 0.0 && n * lo <= s <= n * hi
    ensures lo <= s / n <= hi
  {
  }

  lemma IntToRealBetween(n: int, s: int, lo: int, hi: int)
    requires n * lo <= s <= n * hi
    ensures (n as real) * (lo as real) <= s as real <= (n as real) * (hi as real)
  {
  }

  /** How many times `x` occurs in `s`. */
  function Count<T(==)>(s: seq<T>, x: T): nat
  {
    if s == [] then 0
    else Count(s[..|s| - 1], x) + (if s[|s| - 1] == x then 1 else 0)
  }

  lemma {:induction false} CountPositive<T>(s: seq<T>, x: T)
    ensures x in s <==> Count(s, x) > 0
  {
    if s != [] {
      assert s == s[..|s| - 1] + [s[|s| - 1]];
      CountPositive(s[..|s| - 1], x);
    }
  }

  /** No element occurs twice. */
  predicate Distinct<T(==)>(s: seq<T>)
  {
    forall i, j :: 0 <= i < j < |s| ==> s[i] != s[j]
  }

  /** The position of the first occurrence of `x` in `s`. */
  function FirstIndex<T(==)>(s: seq<T>, x: T): (k: nat)
    requires x in s
    ensures k < |s| && s[k] == x && x !in s[..k]
  {
    if s[0] == x then 0 else 1 + FirstIndex(s[1..], x)
  }

  /** Occurrences that come after the first one do not move it. */
  lemma FirstIndexOfPrefix<T>(s: seq<T>, t: seq<T>, x: T)
    requires x in s
    ensures FirstIndex(s + t, x) == FirstIndex(s, x)
  {
    FirstIndexUnique(s + t, x, FirstIndex(s, x));
  }

  /** A new element first occurs where it is appended. */
  lemma FirstIndexAppended<T>(s: seq<T>, x: T)
    requires x !in s
    ensures FirstIndex(s + [x], x) == |s|
  {
    assert (s + [x])[..|s|] == s;
    FirstIndexUnique(s + [x], x, |s|);
  }

  /** Appending one element moves no first occurrence, and a new element
      first occurs at the end. */
  lemma FirstIndexSnoc<T>(s: seq<T>, x: T)
    ensures forall y :: y in s ==> FirstIndex(s + [x], y) == FirstIndex(s, y)
    ensures x !in s ==> FirstIndex(s + [x], x) == |s|
  {
    forall y | y in s ensures FirstIndex(s + [x], y) == FirstIndex(s, y) {
      FirstIndexOfPrefix(s, [x], y);
    }
    if x !in s {
      FirstIndexAppended(s, x);
    }
  }

  lemma FirstIndexUnique<T>(s: seq<T>, x: T, k: nat)
    requires k < |s| && s[k] == x && x !in s[..k]
    ensures FirstIndex(s, x) == k
  {
  }

  /** Two sequences that hold the same elements of `labels`, each listed
      in strictly increasing order of first occurrence in `labels`, are
      the same sequence. */
  lemma {:induction false} FirstOccurrenceOrderUnique<T>(a: seq<T>, b: seq<T>, labels: seq<T>)
    requires forall x :: x in a ==> x in labels
    requires forall x :: x in a <==> x in b
    requires forall i, j :: 0 <= i < j < |a| ==> FirstIndex(labels, a[i]) < FirstIndex(labels, a[j])
    requires forall i, j :: 0 <= i < j < |b| ==> FirstIndex(labels, b[i]) < FirstIndex(labels, b[j])
    ensures a == b
  {
    if a == [] {
      HeadIn(b);
    } else {
      assert b != [] by { assert a[0] in b; }
      FirstOccurrenceHead(a, b, labels);
      TailsSameElements(a, b);
      FirstOccurrenceOrderUnique(a[1..], b[1..], labels);
      assert a == [a[0]] + a[1..] && b == [b[0]] + b[1..];
    }
  }

  /** Under the same conditions, both sequences start with the same
      element: the one that occurs first in `labels`. */
  lemma FirstOccurrenceHead<T>(a: seq<T>, b: seq<T>, labels: seq<T>)
    requires a != [] && b != []
    requires forall x :: x in a ==> x in labels
    requires forall x :: x in a <==> x in b
    requires forall i, j :: 0 <= i < j < |a| ==> FirstIndex(labels, a[i]) < FirstIndex(labels, a[j])
    requires forall i, j :: 0 <= i < j < |b| ==> FirstIndex(labels, b[i]) < FirstIndex(labels, b[j])
    ensures a[0] == b[0]
  {
    assert a[0] in b;
    var k :| 0 <= k < |b| && b[k] == a[0];
    assert b[0] in a;
    var m :| 0 <= m < |a| && a[m] == b[0];
  }

  /** Dropping a shared head that occurs nowhere else keeps the two
      sequences' elements the same. */
  lemma TailsSameElements<T>(a: seq<T>, b: seq<T>)
    requires a != [] && b != [] && a[0] == b[0]
    requires forall x :: x in a <==> x in b
    requires forall i :: 1 <= i < |a| ==> a[i] != a[0]
    requires forall i :: 1 <= i < |b| ==> b[i] != b[0]
    ensures forall x :: x in a[1..] <==> x in b[1..]
  {
    forall x ensures x in a[1..] ==> x in b[1..] {
      if x in a[1..] {
        assert x in b;
        var j :| 0 <= j < |b| && b[j] == x;
        assert b[1..][j - 1] == x;
      }
    }
    forall x ensures x in b[1..] ==> x in a[1..] {
      if x in b[1..] {
        assert x in a;
        var j :| 0 <= j < |a| && a[j] == x;
        assert a[1..][j - 1] == x;
      }
    }
  }

  /** A non-empty sequence holds its first element. */
  lemma HeadIn<T>(s: seq<T>)
    ensures s != [] ==> s[0] in s
  {
  }
}
