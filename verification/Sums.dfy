/** Sums over sequences: the counting tool shared by the step systems. */
module Sums {

  function Sum(s: seq<int>): int {
    if s == [] then 0 else s[0] + Sum(s[1..])
  }

  /** Replacing one summand shifts the sum by the difference. */
  lemma {:induction false} SumUpdate(s: seq<int>, i: nat, x: int)
    requires i < |s|
    ensures Sum(s[i := x]) == Sum(s) - s[i] + x
  {
    if i == 0 {
      assert s[0 := x][1..] == s[1..];
    } else {
      SumUpdate(s[1..], i - 1, x);
      assert s[i := x][1..] == s[1..][i - 1 := x];
    }
  }

  /** Summands between `lo` and `hi` bound the sum. */
  lemma {:induction false} SumBounds(s: seq<int>, lo: int, hi: int)
    requires forall i :: 0 <= i < |s| ==> lo <= s[i] <= hi
    ensures lo * |s| <= Sum(s) <= hi * |s|
  {
    if s == [] {
    } else {
      SumBounds(s[1..], lo, hi);
      assert lo * |s| == lo + lo * (|s| - 1) && hi * |s| == hi + hi * (|s| - 1);
    }
  }

  /** Summands bounded above reach the largest sum only if each is at its bound. */
  lemma {:induction false} SumAtMost(s: seq<int>, hi: int)
    requires forall i :: 0 <= i < |s| ==> s[i] <= hi
    ensures Sum(s) <= hi * |s|
    ensures Sum(s) == hi * |s| ==> forall i :: 0 <= i < |s| ==> s[i] == hi
  {
    if s == [] {
    } else {
      SumAtMost(s[1..], hi);
      assert hi * |s| == hi + hi * (|s| - 1);
      if Sum(s) == hi * |s| {
        forall i | 0 <= i < |s| ensures s[i] == hi {
          if i > 0 { assert s[i] == s[1..][i - 1]; }
        }
      }
    }
  }

  /** A natural summand is at most the sum. */
  lemma {:induction false} SumAtLeastEach(s: seq<int>, i: nat)
    requires i < |s|
    requires forall j :: 0 <= j < |s| ==> 0 <= s[j]
    ensures s[i] <= Sum(s)
  {
    SumUpdate(s, i, 0);
    SumBounds(s[i := 0], 0, Max(s[i := 0]));
  }

  function Max(s: seq<int>): (m: int)
    ensures forall j :: 0 <= j < |s| ==> s[j] <= m
  {
    if s == [] then 0
    else var m := Max(s[1..]);
      assert forall j :: 1 <= j < |s| ==> s[j] == s[1..][j - 1];
      if s[0] > m then s[0] else m
  }

  lemma {:induction false} SumConcat(a: seq<int>, b: seq<int>)
    ensures Sum(a + b) == Sum(a) + Sum(b)
  {
    if a == [] {
      assert a + b == b;
    } else {
      assert (a + b)[1..] == a[1..] + b;
      SumConcat(a[1..], b);
    }
  }

  function Map<T>(s: seq<T>, f: T -> int): (r: seq<int>)
    ensures |r| == |s| && forall i :: 0 <= i < |s| ==> r[i] == f(s[i])
  {
    seq(|s|, i requires 0 <= i < |s| => f(s[i]))
  }

  /** The sum of f over the members of a sequence. */
  function Total<T>(s: seq<T>, f: T -> int): int {
    Sum(Map(s, f))
  }

  lemma TotalUpdate<T>(s: seq<T>, f: T -> int, i: nat, x: T)
    requires i < |s|
    ensures Total(s[i := x], f) == Total(s, f) - f(s[i]) + f(x)
  {
    SumUpdate(Map(s, f), i, f(x));
    assert Map(s[i := x], f) == Map(s, f)[i := f(x)];
  }

  lemma TotalBounds<T>(s: seq<T>, f: T -> int, lo: int, hi: int)
    requires forall i :: 0 <= i < |s| ==> lo <= f(s[i]) <= hi
    ensures lo * |s| <= Total(s, f) <= hi * |s|
  {
    SumBounds(Map(s, f), lo, hi);
  }
}
