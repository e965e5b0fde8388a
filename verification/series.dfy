/** Aggregates over a numeric series: sums, means, running sums and running
    extremes, the building blocks of the rolling and cumulative columns. */
module Series {

  /** Sum of a series, accumulated front to back as pandas does. */
  function Sum(s: seq<real>): real
  {
    if |s| == 0 then 0.0 else Sum(s[..|s| - 1]) + s[|s| - 1]
  }

  /** Arithmetic mean of a non-empty series. */
  function Mean(s: seq<real>): real
    requires |s| > 0
  {
    Sum(s) / (|s| as real)
  }

  /** A mean is zero exactly when the sum is, and has the sum's sign. */
  lemma MeanSign(s: seq<real>)
    requires |s| > 0
    ensures Mean(s) == 0.0 <==> Sum(s) == 0.0
    ensures Mean(s) >= 0.0 <==> Sum(s) >= 0.0
  {
    var n := |s| as real;
    assert Mean(s) * n == Sum(s);
  }

  /** Running sum (numpy's `cumsum`): row `i` holds the sum of rows 0..i. */
  function Cumsum(s: seq<real>): (r: seq<real>)
    ensures |r| == |s|
  {
    seq(|s|, i requires 0 <= i < |s| => Sum(s[..i + 1]))
  }

  /** Extending a window on the right adds the new value. */
  lemma SumExtend(s: seq<real>, a: nat, b: nat)
    requires a <= b < |s|
    ensures Sum(s[a..b + 1]) == Sum(s[a..b]) + s[b]
  {
    assert s[a..b + 1][..b - a] == s[a..b];
  }

  /** A sum can also be taken from the front. */
  lemma {:induction false} SumFront(s: seq<real>)
    requires |s| > 0
    ensures Sum(s) == s[0] + Sum(s[1..])
  {
    if |s| > 1 {
      SumFront(s[..|s| - 1]);
      assert s[..|s| - 1][1..] == s[1..][..|s| - 2];
    }
  }

  /** Shrinking a window on the left removes the dropped value. */
  lemma SumShrink(s: seq<real>, a: nat, b: nat)
    requires a < b <= |s|
    ensures Sum(s[a + 1..b]) == Sum(s[a..b]) - s[a]
  {
    SumFront(s[a..b]);
    assert s[a..b][1..] == s[a + 1..b];
  }

  /** A sum of non-negative values is non-negative, and it is zero exactly
      when every value is zero. */
  lemma {:induction false} SumOfNonNegatives(s: seq<real>)
    requires forall i :: 0 <= i < |s| ==> s[i] >= 0.0
    ensures Sum(s) >= 0.0
    ensures Sum(s) == 0.0 <==> forall i :: 0 <= i < |s| ==> s[i] == 0.0
  {
    if |s| > 0 {
      SumOfNonNegatives(s[..|s| - 1]);
      assert forall i :: 0 <= i < |s| - 1 ==> s[..|s| - 1][i] == s[i];
    }
  }

  /** Consecutive running sums differ by the new row. */
  lemma CumsumStep(s: seq<real>, i: nat)
    requires 0 < i < |s|
    ensures Cumsum(s)[i] == Cumsum(s)[i - 1] + s[i]
  {
    assert s[..i + 1][..i] == s[..i];
  }

  /** Smallest of rows 0..i. */
  function MinUpTo(s: seq<real>, i: nat): (m: real)
    requires i < |s|
    ensures forall j :: 0 <= j <= i ==> m <= s[j]
    ensures exists j :: 0 <= j <= i && m == s[j]
  {
    if i == 0 then s[0]
    else
      var m := MinUpTo(s, i - 1);
      if s[i] < m then s[i] else m
  }

  /** Largest of rows 0..i. */
  function MaxUpTo(s: seq<real>, i: nat): (m: real)
    requires i < |s|
    ensures forall j :: 0 <= j <= i ==> s[j] <= m
    ensures exists j :: 0 <= j <= i && m == s[j]
  {
    if i == 0 then s[0]
    else
      var m := MaxUpTo(s, i - 1);
      if s[i] > m then s[i] else m
  }

  /** Smallest value of a non-empty series (pandas' `min()`). */
  function Min(s: seq<real>): (m: real)
    requires |s| > 0
    ensures forall j :: 0 <= j < |s| ==> m <= s[j]
    ensures m in s
  {
    MinUpTo(s, |s| - 1)
  }

  /** Largest value of a non-empty series (pandas' `max()`). */
  function Max(s: seq<real>): (m: real)
    requires |s| > 0
    ensures forall j :: 0 <= j < |s| ==> s[j] <= m
    ensures m in s
  {
    MaxUpTo(s, |s| - 1)
  }
}
