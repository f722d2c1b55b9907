/** chapter02/bubblesort.c: bubble sort that counts its interchanges and stops
    after a pass without one. */
module BubbleSort {

  /** How many elements of `s` are greater than `x`. */
  function Greater(s: seq<int>, x: int): nat
  {
    if |s| == 0 then 0 else Greater(s[..|s| - 1], x) + if s[|s| - 1] > x then 1 else 0
  }

  /** The number of pairs that are out of order. */
  function Inversions(s: seq<int>): nat
  {
    if |s| == 0 then 0
    else Inversions(s[..|s| - 1]) + Greater(s[..|s| - 1], s[|s| - 1])
  }

  ghost predicate Sorted(s: seq<int>)
  {
    forall i, j :: 0 <= i < j < |s| ==> s[i] <= s[j]
  }

  function Interchanged(s: seq<int>, i: nat): (r: seq<int>)
    requires i + 1 < |s|
  {
    s[i := s[i + 1]][i + 1 := s[i]]
  }

  /** The pairs themselves, as a set. */
  ghost function OutOfOrder(s: seq<int>): set<(int, int)>
  {
    set i, j | 0 <= i < j < |s| && s[i] > s[j] :: (i, j)
  }

  ghost function AheadOf(s: seq<int>, x: int, n: int): set<(int, int)>
  {
    set i | 0 <= i < |s| && s[i] > x :: (i, n)
  }

  lemma {:induction false} GreaterCounts(s: seq<int>, x: int, n: int)
    ensures Greater(s, x) == |AheadOf(s, x, n)|
  {
    if |s| > 0 {
      var k := |s| - 1;
      GreaterCounts(s[..k], x, n);
      if s[k] > x {
        assert AheadOf(s, x, n) == AheadOf(s[..k], x, n) + {(k, n)};
      } else {
        assert AheadOf(s, x, n) == AheadOf(s[..k], x, n);
      }
    }
  }

  lemma OutOfOrderSplits(s: seq<int>, k: nat)
    requires |s| == k + 1
    ensures OutOfOrder(s) == OutOfOrder(s[..k]) + AheadOf(s[..k], s[k], k)
    ensures OutOfOrder(s[..k]) !! AheadOf(s[..k], s[k], k)
  {
    var p := s[..k];
    assert forall i :: 0 <= i < k ==> p[i] == s[i];
    forall i, j | (i, j) in OutOfOrder(s)
      ensures (i, j) in OutOfOrder(p) + AheadOf(p, s[k], k)
    {
      if j == k {
        assert (i, k) in AheadOf(p, s[k], k);
      } else {
        assert (i, j) in OutOfOrder(p);
      }
    }
  }

  /** Inversions counts exactly the pairs i < j with s[i] > s[j]. */
  lemma {:induction false} InversionsCountsPairs(s: seq<int>)
    ensures Inversions(s) == |OutOfOrder(s)|
  {
    if |s| > 0 {
      var k := |s| - 1;
      InversionsCountsPairs(s[..k]);
      GreaterCounts(s[..k], s[k], k);
      OutOfOrderSplits(s, k);
    }
  }

  lemma NoneOutOfOrder(s: seq<int>)
    ensures |OutOfOrder(s)| == 0 <==> Sorted(s)
  {
    if OutOfOrder(s) == {} {
      forall i, j | 0 <= i < j < |s| ensures s[i] <= s[j] {
        assert (i, j) !in OutOfOrder(s);
      }
    } else {
      var pair :| pair in OutOfOrder(s);
      assert s[pair.0] > s[pair.1];
    }
  }

  lemma {:induction false} GreaterIgnoresOrder(s: seq<int>, i: nat, x: int)
    requires i + 1 < |s|
    ensures Greater(Interchanged(s, i), x) == Greater(s, x)
  {
    var k := |s| - 1;
    var s' := Interchanged(s, i);
    if i + 1 == k {
      assert s[..k][..i] == s[..i] == s'[..k][..i];
    } else {
      assert s'[..k] == Interchanged(s[..k], i);
      GreaterIgnoresOrder(s[..k], i, x);
    }
  }

  /** Interchanging two neighbours out of order removes exactly one inversion. */
  lemma {:induction false} InterchangeRemovesOne(s: seq<int>, i: nat)
    requires i + 1 < |s| && s[i] > s[i + 1]
    ensures Inversions(Interchanged(s, i)) == Inversions(s) - 1
  {
    var k := |s| - 1;
    var s' := Interchanged(s, i);
    if i + 1 == k {
      assert s[..k][..i] == s[..i] == s'[..k][..i];
    } else {
      assert s'[..k] == Interchanged(s[..k], i);
      InterchangeRemovesOne(s[..k], i);
      GreaterIgnoresOrder(s[..k], i, s[k]);
    }
  }

  lemma InterchangePermutes(s: seq<int>, i: nat)
    requires i + 1 < |s|
    ensures multiset(Interchanged(s, i)) == multiset(s)
  {
    var a, b, z := s[..i], [s[i]] + [s[i + 1]], s[i + 2..];
    assert s == a + b + z;
    assert Interchanged(s, i) == a + ([s[i + 1]] + [s[i]]) + z;
  }

  lemma {:induction false} GreaterOfBound(s: seq<int>, x: int)
    requires forall i :: 0 <= i < |s| ==> s[i] <= x
    ensures Greater(s, x) == 0
  {
    if |s| > 0 {
      GreaterOfBound(s[..|s| - 1], x);
    }
  }

  lemma {:induction false} SortedHasNoInversions(s: seq<int>)
    requires Sorted(s)
    ensures Inversions(s) == 0
  {
    if |s| > 0 {
      SortedHasNoInversions(s[..|s| - 1]);
      GreaterOfBound(s[..|s| - 1], s[|s| - 1]);
    }
  }

  /** The elements after a pass over s[..n] that has reached index i. */
  function Pass(s: seq<int>, i: nat, n: int): (r: seq<int>)
    requires n <= |s|
    ensures |r| == |s|
    decreases n - i
  {
    if i >= n - 1 then s
    else Pass(if s[i] > s[i + 1] then Interchanged(s, i) else s, i + 1, n)
  }

  /** How many interchanges that pass makes. */
  function Swaps(s: seq<int>, i: nat, n: int): nat
    requires n <= |s|
    decreases n - i
  {
    if i >= n - 1 then 0
    else if s[i] > s[i + 1] then 1 + Swaps(Interchanged(s, i), i + 1, n)
    else Swaps(s, i + 1, n)
  }

  /** A pass permutes s[..n], and every interchange removes one inversion. */
  lemma {:induction false} PassPermutes(s: seq<int>, i: nat, n: int)
    requires n <= |s|
    ensures multiset(Pass(s, i, n)) == multiset(s)
    ensures Inversions(Pass(s, i, n)) + Swaps(s, i, n) == Inversions(s)
    ensures forall k :: 0 <= k < |s| && k >= n ==> Pass(s, i, n)[k] == s[k]
    decreases n - i
  {
    if i < n - 1 {
      if s[i] > s[i + 1] {
        InterchangePermutes(s, i);
        InterchangeRemovesOne(s, i);
        PassPermutes(Interchanged(s, i), i + 1, n);
      } else {
        PassPermutes(s, i + 1, n);
      }
    }
  }

  /** A pass carries a greatest element of s[..n] to its end, and brings in no
      element above a bound `b`. */
  lemma {:induction false} PassCarriesGreatest(s: seq<int>, i: nat, n: nat, b: int)
    requires i < n <= |s|
    requires forall k :: 0 <= k < i ==> s[k] <= s[i]
    requires forall k :: 0 <= k < n ==> s[k] <= b
    ensures forall k :: 0 <= k < n ==> Pass(s, i, n)[k] <= Pass(s, i, n)[n - 1]
    ensures forall k :: 0 <= k < n ==> Pass(s, i, n)[k] <= b
    decreases n - i
  {
    if i < n - 1 {
      PassCarriesGreatest(if s[i] > s[i + 1] then Interchanged(s, i) else s, i + 1, n, b);
    }
  }

  /** A pass without interchanges finds everything in order. */
  lemma {:induction false} QuietPass(s: seq<int>, i: nat, n: int)
    requires n <= |s| && Swaps(s, i, n) == 0
    ensures Pass(s, i, n) == s
    ensures forall k :: i <= k < n - 1 ==> s[k] <= s[k + 1]
    decreases n - i
  {
    if i < n - 1 {
      QuietPass(s, i + 1, n);
    }
  }

  lemma {:induction false} NeighboursInOrder(s: seq<int>, n: nat)
    requires n <= |s| && forall k :: 0 <= k < n - 1 ==> s[k] <= s[k + 1]
    ensures Sorted(s[..n])
  {
    if n > 1 {
      NeighboursInOrder(s, n - 1);
      var p := s[..n - 1];
      assert forall j :: 0 <= j < n - 1 ==> p[j] == s[j] && p[j] <= p[n - 2];
      assert s[..n] == p + [s[n - 1]];
    }
  }

  /** A pass over the first n elements does not see what lies beyond them. */
  lemma {:induction false} PassIsLocal(s: seq<int>, i: nat, n: int, total: nat)
    requires n <= total <= |s|
    ensures Pass(s, i, n)[..total] == Pass(s[..total], i, n)
    ensures Swaps(s, i, n) == Swaps(s[..total], i, n)
    decreases n - i
  {
    if i < n - 1 {
      if s[i] > s[i + 1] {
        assert Interchanged(s, i)[..total] == Interchanged(s[..total], i);
        PassIsLocal(Interchanged(s, i), i + 1, n, total);
      } else {
        PassIsLocal(s, i + 1, n, total);
      }
    }
  }

  /** The last i elements are where they belong. */
  ghost predicate Settled(s: seq<int>, i: nat)
  {
    i <= |s| && forall j, k :: 0 <= j < k < |s| && |s| - i <= k ==> s[j] <= s[k]
  }

  lemma PassSettlesOneMore(s: seq<int>, i: nat)
    requires i < |s| && Settled(s, i)
    ensures Settled(Pass(s, 0, |s| - i), i + 1)
  {
    var n := |s| - i;
    var r := Pass(s, 0, n);
    PassPermutes(s, 0, n);
    PassGreatestOf(s, n);
    forall j, k | 0 <= j < k < |s| && n - 1 <= k ensures r[j] <= r[k] {
      if k >= n && j < n {
        PassCarriesGreatest(s, 0, n, s[k]);
      }
    }
  }

  lemma PassGreatestOf(s: seq<int>, n: nat)
    requires 0 < n <= |s|
    ensures forall k :: 0 <= k < n ==> Pass(s, 0, n)[k] <= Pass(s, 0, n)[n - 1]
  {
    var b := UpperBound(s);
    PassCarriesGreatest(s, 0, n, b);
  }

  lemma {:induction false} UpperBound(s: seq<int>) returns (b: int)
    ensures forall k :: 0 <= k < |s| ==> s[k] <= b
  {
    if |s| == 0 {
      b := 0;
    } else {
      var c := UpperBound(s[..|s| - 1]);
      b := if c < s[|s| - 1] then s[|s| - 1] else c;
    }
  }

  lemma SettledAndQuietIsSorted(s: seq<int>, i: nat)
    requires i < |s| && Settled(s, i) && Swaps(s, 0, |s| - i) == 0
    ensures Sorted(s)
  {
    var n := |s| - i;
    QuietPass(s, 0, n);
    NeighboursInOrder(s, n);
    var p := s[..n];
    assert forall j, k :: 0 <= j < k < n ==> p[j] <= p[k] && p[j] == s[j] && p[k] == s[k];
  }

  /** One round of the outer loop, seen on the first `total` elements. */
  lemma Round(s: seq<int>, i: nat, total: nat)
    requires i < total <= |s| && Settled(s[..total], i)
    ensures var r, swaps := Pass(s, 0, total - i), Swaps(s, 0, total - i);
      && r[total..] == s[total..]
      && multiset(r[..total]) == multiset(s[..total])
      && Inversions(r[..total]) + swaps == Inversions(s[..total])
      && Settled(r[..total], i + 1)
      && (swaps == 0 ==> Sorted(r[..total]))
  {
    PassIsLocal(s, 0, total - i, total);
    RoundInFull(s[..total], i);
    PassKeepsRest(s, total - i, total);
  }

  lemma RoundInFull(t: seq<int>, i: nat)
    requires i < |t| && Settled(t, i)
    ensures var r, swaps := Pass(t, 0, |t| - i), Swaps(t, 0, |t| - i);
      && multiset(r) == multiset(t) && Inversions(r) + swaps == Inversions(t)
      && Settled(r, i + 1) && (swaps == 0 ==> Sorted(r))
  {
    PassPermutes(t, 0, |t| - i);
    PassSettlesOneMore(t, i);
    if Swaps(t, 0, |t| - i) == 0 {
      SettledAndQuietIsSorted(t, i);
      QuietPass(t, 0, |t| - i);
    }
  }

  lemma PassKeepsRest(s: seq<int>, n: nat, total: nat)
    requires n <= total <= |s|
    ensures Pass(s, 0, n)[total..] == s[total..]
  {
    PassPermutes(s, 0, n);
  }

  /** The static interchange counter. */
  class Sorter {
    var count: nat

    constructor ()
      ensures count == 0
    {
      count := 0;
    }

    method ClearCount()
      modifies this
      ensures count == 0
    {
      count := 0;
    }

    method OnePass(a: array<int>, n: int) returns (interchanges: bool)
      requires n <= a.Length
      modifies this, a
      ensures a[..] == Pass(old(a[..]), 0, n)
      ensures count == old(count) + Swaps(old(a[..]), 0, n)
      ensures interchanges <==> Swaps(old(a[..]), 0, n) > 0
    {
      var i := 0;
      interchanges := false;
      while i < n - 1
        invariant 0 <= i
        invariant Pass(a[..], i, n) == Pass(old(a[..]), 0, n)
        invariant count + Swaps(a[..], i, n) == old(count) + Swaps(old(a[..]), 0, n)
        invariant count >= old(count) && (interchanges <==> count > old(count))
      {
        if a[i] > a[i + 1] {
          ghost var before := a[..];
          var temp := a[i];
          a[i] := a[i + 1];
          a[i + 1] := temp;
          interchanges := true;
          count := count + 1;
          assert a[..] == Interchanged(before, i);
        }
        i := i + 1;
      }
    }

    /** One round of the outer loop in place. */
    method SortRound(a: array<int>, n: nat, i: nat) returns (interchanges: bool)
      requires i < n <= a.Length && Settled(a[..n], i)
      modifies this, a
      ensures a[n..] == old(a[n..]) && multiset(a[..n]) == multiset(old(a[..n]))
      ensures count + Inversions(a[..n]) == old(count) + Inversions(old(a[..n]))
      ensures Settled(a[..n], i + 1) && (!interchanges ==> Sorted(a[..n]))
    {
      Round(a[..], i, n);
      assert a[..][..n] == a[..n] && a[..][n..] == a[n..];
      interchanges := OnePass(a, n - i);
      assert a[..][..n] == a[..n] && a[..][n..] == a[n..];
    }

    /** Sorts the first n elements, with the early exit; the counter rises by
        exactly the number of inversions they had. */
    method Sort(a: array<int>, n: int)
      requires n <= a.Length
      modifies this, a
      ensures n < 0 ==> a[..] == old(a[..]) && count == old(count)
      ensures n >= 0 ==> Sorted(a[..n]) && multiset(a[..n]) == multiset(old(a[..n])) && a[n..] == old(a[n..])
      ensures n >= 0 ==> count == old(count) + Inversions(old(a[..n]))
    {
      var i := 0;
      ghost var total: nat := if n < 0 then 0 else n;
      while i < n - 1
        invariant 0 <= i <= total && (n < 0 ==> a[..] == old(a[..]))
        invariant a[total..] == old(a[total..])
        invariant multiset(a[..total]) == multiset(old(a[..total]))
        invariant count + Inversions(a[..total]) == old(count) + Inversions(old(a[..total]))
        invariant Settled(a[..total], i)
      {
        var interchanges := SortRound(a, n, i);
        if !interchanges {
          SortedHasNoInversions(a[..total]);
          return;
        }
        i := i + 1;
      }
      SortedHasNoInversions(a[..total]);
    }

    method GetCount() returns (r: nat)
      ensures r == count
    {
      r := count;
    }

    /** What the counter is for: cleared, used for one sort and read, it tells
        how many pairs of the original array were out of order. */
    method CountWhileSorting(a: array<int>, n: nat) returns (r: nat)
      requires n <= a.Length
      modifies this, a
      ensures r == |OutOfOrder(old(a[..n]))|
      ensures Sorted(a[..n]) && multiset(a[..n]) == multiset(old(a[..n]))
      ensures r == 0 <==> Sorted(old(a[..n]))
    {
      InversionsCountsPairs(a[..n]);
      NoneOutOfOrder(a[..n]);
      ClearCount();
      Sort(a, n);
      r := GetCount();
    }
  }
}
