/** Bubble sort with early exit, on the array it sorts. */
module BubbleSort {

  predicate Sorted(s: seq<int>) {
    forall i, j :: 0 <= i < j < |s| ==> s[i] <= s[j]
  }

  /** Elements of s that are smaller than x. */
  function Smaller(s: seq<int>, x: int): nat {
    if s == [] then 0 else (if s[0] < x then 1 else 0) + Smaller(s[1..], x)
  }

  /** Pairs of elements that stand in the wrong order. */
  function Inversions(s: seq<int>): nat {
    if s == [] then 0 else Smaller(s[1..], s[0]) + Inversions(s[1..])
  }

  function Swap(s: seq<int>, j: nat): (r: seq<int>)
    requires j + 1 < |s|
    ensures |r| == |s|
  {
    s[j := s[j + 1]][j + 1 := s[j]]
  }

  lemma {:induction false} SwapSmaller(s: seq<int>, j: nat, x: int)
    requires j + 1 < |s|
    ensures Smaller(Swap(s, j), x) == Smaller(s, x)
  {
    if j == 0 {
      assert Swap(s, 0)[1..][1..] == s[1..][1..];
      assert Smaller(s[1..], x) == (if s[1] < x then 1 else 0) + Smaller(s[1..][1..], x);
    } else {
      assert Swap(s, j)[1..] == Swap(s[1..], j - 1);
      SwapSmaller(s[1..], j - 1, x);
    }
  }

  /** Swapping neighbours in the wrong order removes exactly one inversion. */
  lemma {:induction false} SwapInversions(s: seq<int>, j: nat)
    requires j + 1 < |s| && s[j] > s[j + 1]
    ensures Inversions(Swap(s, j)) == Inversions(s) - 1
  {
    if j == 0 {
      var t := s[1..][1..];
      assert Swap(s, 0)[1..][1..] == t;
      assert Smaller(s[1..], s[0]) == 1 + Smaller(t, s[0]);
      assert Inversions(s[1..]) == Smaller(t, s[1]) + Inversions(t);
      assert Smaller(Swap(s, 0)[1..], s[1]) == Smaller(t, s[1]);
      assert Inversions(Swap(s, 0)[1..]) == Smaller(t, s[0]) + Inversions(t);
    } else {
      assert Swap(s, j)[1..] == Swap(s[1..], j - 1);
      SwapInversions(s[1..], j - 1);
      SwapSmaller(s[1..], j - 1, s[0]);
    }
  }

  lemma {:induction false} SwapPermutes(s: seq<int>, j: nat)
    requires j + 1 < |s|
    ensures multiset(Swap(s, j)) == multiset(s)
  {
  }

  /** A sequence has no inversion exactly if it is sorted. */
  lemma {:induction false} SortedIffNoInversion(s: seq<int>)
    ensures Inversions(s) == 0 <==> Sorted(s)
  {
    if s != [] {
      SortedIffNoInversion(s[1..]);
      NothingSmaller(s[1..], s[0]);
      if Inversions(s) == 0 {
        forall i, j | 0 <= i < j < |s| ensures s[i] <= s[j] {
          assert s[j] == s[1..][j - 1];
          if i > 0 { assert s[i] == s[1..][i - 1]; }
        }
      }
      if Sorted(s) {
        assert forall i :: 0 <= i < |s[1..]| ==> s[1..][i] == s[i + 1];
      }
    }
  }

  lemma {:induction false} NothingSmaller(s: seq<int>, x: int)
    ensures Smaller(s, x) == 0 <==> forall i :: 0 <= i < |s| ==> x <= s[i]
  {
    if s == [] {
    } else {
      NothingSmaller(s[1..], x);
      assert forall i :: 0 <= i < |s[1..]| ==> s[1..][i] == s[i + 1];
      assert forall i :: 1 <= i < |s| ==> s[i] == s[1..][i - 1];
    }
  }

  /** One inner step. */
  method SwapAt(numbers: array<int>, j: nat)
    requires j + 1 < numbers.Length
    modifies numbers
    ensures numbers[..] == Swap(old(numbers[..]), j)
  {
    var temp := numbers[j];
    numbers[j] := numbers[j + 1];
    numbers[j + 1] := temp;
  }

  /** The elements from position k on are in their final places. */
  predicate SettledFrom(s: seq<int>, k: int) {
    forall i, j :: 0 <= i < j < |s| && k <= j ==> s[i] <= s[j]
  }

  /** The same elements, with as many inversions fewer as there were swaps. */
  ghost predicate Reached(start: seq<int>, now: seq<int>, swaps: int) {
    multiset(now) == multiset(start) && swaps + Inversions(now) == Inversions(start)
  }

  lemma SwapReaches(start: seq<int>, s: seq<int>, j: nat, swaps: int)
    requires Reached(start, s, swaps) && j + 1 < |s| && s[j] > s[j + 1]
    ensures Reached(start, Swap(s, j), swaps + 1)
  {
    SwapInversions(s, j);
    SwapPermutes(s, j);
  }

  /** Inner loop at position j: a largest element of those seen is at j, and no swap means no disorder. */
  ghost predicate Bubble(s: seq<int>, k: int, j: int, swapped: bool) {
    && 0 <= j < |s|
    && SettledFrom(s, k)
    && (forall i :: 0 <= i < j ==> s[i] <= s[j])
    && (!swapped ==> forall i :: 0 <= i < j ==> s[i] <= s[i + 1])
  }

  lemma BubbleStep(s: seq<int>, k: int, j: nat, swapped: bool)
    requires Bubble(s, k, j, swapped) && j + 1 < k <= |s|
    ensures if s[j] > s[j + 1] then Bubble(Swap(s, j), k, j + 1, true) else Bubble(s, k, j + 1, swapped)
  {
  }

  lemma BubbleDone(s: seq<int>, k: int, swapped: bool)
    requires 1 <= k <= |s| && Bubble(s, k, k - 1, swapped)
    ensures SettledFrom(s, k - 1) && (!swapped ==> Sorted(s))
  {
    if !swapped { NeighboursSuffice(s, k); }
  }

  /** The inner loop over the first k elements: a largest of them moves to position k - 1. */
  method Pass(numbers: array<int>, k: nat, swaps: nat, ghost start: seq<int>) returns (swapped: bool, total: nat)
    requires 1 <= k <= numbers.Length && SettledFrom(numbers[..], k) && Reached(start, numbers[..], swaps)
    modifies numbers
    ensures SettledFrom(numbers[..], k - 1) && Reached(start, numbers[..], total)
    ensures !swapped ==> Sorted(numbers[..])
  {
    swapped, total := false, swaps;
    for j := 0 to k - 1
      invariant Bubble(numbers[..], k, j, swapped) && Reached(start, numbers[..], total)
    {
      BubbleStep(numbers[..], k, j, swapped);
      if numbers[j] > numbers[j + 1] {
        SwapReaches(start, numbers[..], j, total);
        SwapAt(numbers, j);
        total := total + 1;
        swapped := true;
      }
    }
    BubbleDone(numbers[..], k, swapped);
  }

  /**
   The array ends up sorted with the elements it had, and the number of swaps is the number
   of inversions it started with.
   */
  method Sort(numbers: array<int>) returns (swaps: nat)
    modifies numbers
    ensures Sorted(numbers[..])
    ensures multiset(numbers[..]) == multiset(old(numbers[..]))
    ensures swaps == Inversions(old(numbers[..]))
  {
    swaps := 0;
    var i := 0;
    while i < numbers.Length - 1
      invariant 0 <= i <= numbers.Length
      invariant SettledFrom(numbers[..], numbers.Length - i)
      invariant Reached(old(numbers[..]), numbers[..], swaps)
    {
      var swapped;
      swapped, swaps := Pass(numbers, numbers.Length - i, swaps, old(numbers[..]));
      if !swapped {
        break;
      }
      i := i + 1;
    }
    SortedIffNoInversion(numbers[..]);
  }

  lemma {:induction false} NeighboursSuffice(s: seq<int>, k: int)
    requires SettledFrom(s, k) && forall i :: 0 <= i < |s| - 1 && i < k - 1 ==> s[i] <= s[i + 1]
    ensures Sorted(s)
  {
    forall i, j | 0 <= i < j < |s| ensures s[i] <= s[j] {
      Chain(s, k, i, j);
    }
  }

  lemma {:induction false} Chain(s: seq<int>, k: int, i: nat, j: nat)
    requires SettledFrom(s, k) && forall i :: 0 <= i < |s| - 1 && i < k - 1 ==> s[i] <= s[i + 1]
    requires i <= j < |s|
    ensures s[i] <= s[j]
    decreases j
  {
    if i < j < k { Chain(s, k, i, j - 1); }
  }
}
