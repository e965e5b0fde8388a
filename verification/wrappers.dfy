/** Optional values (pandas' NaN / None cells) and error-carrying results
    (the exceptions the dashboards raise or report). */
module Wrappers {

  /** A cell that may be undefined: `None` stands for NaN, NaT or a missing value. */
  datatype Option<+T> = None | Some(value: T)

  /** The outcome of an operation that may raise. */
  datatype Result<+T, +E> = Ok(value: T) | Err(error: E)

  /** The defined cells of `s`, in order: pandas' `dropna` over a column of optional rows. */
  function Filtered<T>(s: seq<Option<T>>): (r: seq<T>)
    ensures |r| <= |s|
    ensures forall x :: x in r ==> Some(x) in s
    ensures forall i :: 0 <= i < |s| && s[i].Some? ==> s[i].value in r
  {
    if |s| == 0 then []
    else
      var front := Filtered(s[..|s| - 1]);
      assert forall i :: 0 <= i < |s| - 1 ==> s[..|s| - 1][i] == s[i];
      if s[|s| - 1].Some? then front + [s[|s| - 1].value] else front
  }

  /** Dropping the undefined cells of a column whose first `k` cells are all
      undefined keeps at most `|s| - k` rows. */
  lemma {:induction false} FilteredSkipsUndefinedPrefix<T>(s: seq<Option<T>>, k: nat)
    requires k <= |s|
    requires forall i :: 0 <= i < k ==> s[i].None?
    ensures |Filtered(s)| <= |s| - k
  {
    if |s| == k {
      FilteredAllUndefined(s);
    } else {
      FilteredSkipsUndefinedPrefix(s[..|s| - 1], k);
    }
  }

  /** A column with no defined cell filters to nothing. */
  lemma {:induction false} FilteredAllUndefined<T>(s: seq<Option<T>>)
    requires forall i :: 0 <= i < |s| ==> s[i].None?
    ensures Filtered(s) == []
  {
    if |s| > 0 {
      FilteredAllUndefined(s[..|s| - 1]);
    }
  }

  /** Filtering rows that carry their own position (`key`) keeps each at
      that position and keeps them in order. */
  lemma {:induction false} FilteredKeepsOrder<T>(s: seq<Option<T>>, key: T -> nat)
    requires forall i :: 0 <= i < |s| && s[i].Some? ==> key(s[i].value) == i
    ensures forall k :: 0 <= k < |Filtered(s)| ==>
              key(Filtered(s)[k]) < |s| && s[key(Filtered(s)[k])] == Some(Filtered(s)[k])
    ensures forall k, k' :: 0 <= k < k' < |Filtered(s)| ==> key(Filtered(s)[k]) < key(Filtered(s)[k'])
  {
    if |s| > 0 {
      FilteredKeepsOrder(s[..|s| - 1], key);
    }
  }
}
