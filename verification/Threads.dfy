/** Thread tables.  A table is a sequence of program counters, one a thread; a
    weight says how much one program counter contributes to a counter or to a
    progress measure, and `Sum` adds the weights of a whole table. */
module Threads {

  /** A mutex: free, or held by one thread. */
  datatype Owner = Free | Held(tid: nat)

  function Sum<T>(s: seq<T>, w: T -> int): int
  {
    if |s| == 0 then 0 else Sum(s[..|s| - 1], w) + w(s[|s| - 1])
  }

  /** One thread moves: the sum changes by the difference of two weights. */
  lemma {:induction false} SumUpdate<T>(s: seq<T>, i: nat, x: T, w: T -> int)
    requires i < |s|
    ensures Sum(s[i := x], w) == Sum(s, w) - w(s[i]) + w(x)
  {
    var n := |s| - 1;
    var s' := s[i := x];
    if i == n {
      assert s'[..n] == s[..n];
    } else {
      assert s'[..n] == s[..n][i := x];
      SumUpdate(s[..n], i, x, w);
    }
  }

  lemma {:induction false} SumAppend<T>(s: seq<T>, x: T, w: T -> int)
    ensures Sum(s + [x], w) == Sum(s, w) + w(x)
  {
    assert (s + [x])[..|s|] == s;
  }

  /** Weights that are nowhere larger give a sum that is not larger. */
  lemma {:induction false} SumMonotone<T>(s: seq<T>, w: T -> int, s': seq<T>, w': T -> int)
    requires |s| == |s'|
    requires forall i :: 0 <= i < |s| ==> w'(s'[i]) <= w(s[i])
    ensures Sum(s', w') <= Sum(s, w)
  {
    if |s| > 0 {
      SumMonotone(s[..|s| - 1], w, s'[..|s| - 1], w');
    }
  }

  /** With non-negative weights each thread's share is at most the sum. */
  lemma {:induction false} SumBounds<T>(s: seq<T>, w: T -> int)
    requires forall i :: 0 <= i < |s| ==> 0 <= w(s[i])
    ensures 0 <= Sum(s, w)
    ensures forall i :: 0 <= i < |s| ==> w(s[i]) <= Sum(s, w)
  {
    if |s| > 0 {
      SumBounds(s[..|s| - 1], w);
      forall i | 0 <= i < |s| ensures w(s[i]) <= Sum(s, w) {
        if i < |s| - 1 {
          assert s[..|s| - 1][i] == s[i];
        }
      }
    }
  }

  lemma {:induction false} SumZero<T>(s: seq<T>, w: T -> int)
    requires forall i :: 0 <= i < |s| ==> w(s[i]) == 0
    ensures Sum(s, w) == 0
  {
    if |s| > 0 {
      SumZero(s[..|s| - 1], w);
    }
  }

  // ------------------------------------------------- condition variables

  ghost predicate SomeAsleep<T>(pcs: seq<T>, asleep: T -> bool)
  {
    exists i :: 0 <= i < |pcs| && asleep(pcs[i])
  }

  /** pthread_cond_signal: one waiter `u` wakes, if there is any. */
  ghost predicate Signal<T>(pcs: seq<T>, asleep: T -> bool, wake: T -> T, u: nat, pcs': seq<T>)
  {
    if SomeAsleep(pcs, asleep) then u < |pcs| && asleep(pcs[u]) && pcs' == pcs[u := wake(pcs[u])]
    else pcs' == pcs
  }
}
