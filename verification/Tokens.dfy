/** Tokenising C strings in place, after section 7.24.5.8 of ISO C11. */
module Tokens {

  const NUL: char := '\0'

  // ------------------------------------------------------ tokens of a text

  /** The first position from p on that holds no delimiter. */
  function Skip(s: string, d: string, p: nat): (r: nat)
    requires p <= |s|
    ensures p <= r <= |s| && (r < |s| ==> s[r] !in d)
    decreases |s| - p
  {
    if p < |s| && s[p] in d then Skip(s, d, p + 1) else p
  }

  /** The first position from p on that holds a delimiter. */
  function Scan(s: string, d: string, p: nat): (r: nat)
    requires p <= |s|
    ensures p <= r <= |s| && (r < |s| ==> s[r] in d)
    decreases |s| - p
  {
    if p < |s| && s[p] !in d then Scan(s, d, p + 1) else p
  }

  lemma {:induction false} SkipRange(s: string, d: string, p: nat)
    requires p <= |s|
    ensures forall k :: p <= k < Skip(s, d, p) ==> s[k] in d
    decreases |s| - p
  {
    if p < |s| && s[p] in d {
      SkipRange(s, d, p + 1);
    }
  }

  lemma {:induction false} ScanRange(s: string, d: string, p: nat)
    requires p <= |s|
    ensures forall k :: p <= k < Scan(s, d, p) ==> s[k] !in d
    decreases |s| - p
  {
    if p < |s| && s[p] !in d {
      ScanRange(s, d, p + 1);
    }
  }

  lemma SkipIs(s: string, d: string, p: nat, r: nat)
    requires p <= r <= |s| && (r < |s| ==> s[r] !in d)
    requires forall k :: p <= k < r ==> s[k] in d
    ensures Skip(s, d, p) == r
  {
    SkipRange(s, d, p);
    if Skip(s, d, p) < r {
      assert false;
    }
  }

  lemma ScanIs(s: string, d: string, p: nat, r: nat)
    requires p <= r <= |s| && (r < |s| ==> s[r] in d)
    requires forall k :: p <= k < r ==> s[k] !in d
    ensures Scan(s, d, p) == r
  {
    ScanRange(s, d, p);
    if Scan(s, d, p) < r {
      assert false;
    }
  }

  /** A maximal delimiter-free run s[i..j]. */
  ghost predicate IsRun(s: string, d: string, i: nat, j: nat)
  {
    && i < j <= |s|
    && (forall k :: i <= k < j ==> s[k] !in d)
    && (i > 0 ==> s[i - 1] in d)
    && (j < |s| ==> s[j] in d)
  }

  /** The runs from position p on, as a tokeniser finds them. */
  function Runs(s: string, d: string, p: nat): (r: seq<(nat, nat)>)
    requires p <= |s|
    ensures forall k :: 0 <= k < |r| ==> p <= r[k].0 < r[k].1 <= |s|
    decreases |s| - p
  {
    var i := Skip(s, d, p);
    if i == |s| then []
    else
      var j := Scan(s, d, i);
      [(i, j)] + Runs(s, d, j)
  }

  /** A run that starts before the end of the first token is the first token. */
  lemma RunIsFirst(s: string, d: string, p: nat, i: nat, j: nat)
    requires p <= i && IsRun(s, d, i, j)
    ensures Skip(s, d, p) <= i
    ensures i < Scan(s, d, Skip(s, d, p)) ==> i == Skip(s, d, p) && j == Scan(s, d, i)
  {
    SkipRange(s, d, p);
    if i < Scan(s, d, Skip(s, d, p)) {
      ScanRange(s, d, Skip(s, d, p));
      ScanIs(s, d, i, j);
    }
  }

  lemma FirstIsRun(s: string, d: string, p: nat)
    requires p <= |s| && (0 < p < |s| ==> s[p] in d || s[p - 1] in d)
    requires Skip(s, d, p) < |s|
    ensures IsRun(s, d, Skip(s, d, p), Scan(s, d, Skip(s, d, p)))
  {
    SkipRange(s, d, p);
    ScanRange(s, d, Skip(s, d, p));
  }

  lemma RunsCons(s: string, d: string, p: nat, i: nat, j: nat)
    requires p <= |s| && i == Skip(s, d, p) < |s| && j == Scan(s, d, i)
    ensures i < j && Runs(s, d, p) == [(i, j)] + Runs(s, d, j)
  {
  }

  lemma RunsNil(s: string, d: string, p: nat)
    requires p <= |s| && Skip(s, d, p) == |s|
    ensures Runs(s, d, p) == []
  {
  }

  /** Every token is a run, and every run behind p is a token. */
  lemma {:induction false} RunsContain(s: string, d: string, p: nat, i: nat, j: nat)
    requires p <= |s| && (0 < p < |s| ==> s[p] in d || s[p - 1] in d) && p <= i
    ensures (i, j) in Runs(s, d, p) <==> IsRun(s, d, i, j)
    decreases |s| - p
  {
    var i0 := Skip(s, d, p);
    if IsRun(s, d, i, j) {
      RunIsFirst(s, d, p, i, j);
    }
    if i0 == |s| {
      RunsNil(s, d, p);
    } else {
      var j0 := Scan(s, d, i0);
      RunsCons(s, d, p, i0, j0);
      if i >= j0 {
        RunsContain(s, d, j0, i, j);
      } else if (i, j) == (i0, j0) {
        assert (i, j) == Runs(s, d, p)[0];
        FirstIsRun(s, d, p);
      }
    }
  }

  /** Between one token and the next there is a delimiter. */
  lemma {:induction false} RunsAscend(s: string, d: string, p: nat, a: nat, b: nat)
    requires p <= |s| && a < b < |Runs(s, d, p)|
    ensures Runs(s, d, p)[a].1 < Runs(s, d, p)[b].0
    decreases |s| - p
  {
    var i0 := Skip(s, d, p);
    var j0 := Scan(s, d, i0);
    RunsCons(s, d, p, i0, j0);
    var rest := Runs(s, d, j0);
    if a > 0 {
      RunsAscend(s, d, j0, a - 1, b - 1);
    } else {
      RunsBehind(s, d, j0, b - 1);
      assert Runs(s, d, p)[b] == rest[b - 1];
    }
  }

  lemma RunsBehind(s: string, d: string, p: nat, k: nat)
    requires p <= |s| && k < |Runs(s, d, p)|
    ensures Skip(s, d, p) <= Runs(s, d, p)[k].0
  {
    var i0 := Skip(s, d, p);
    var j0 := Scan(s, d, i0);
    RunsCons(s, d, p, i0, j0);
    if k > 0 {
      assert Runs(s, d, p)[k] == Runs(s, d, j0)[k - 1];
    }
  }

  /** From a position that starts the text or a stretch of delimiters, Runs
      lists exactly the maximal delimiter-free runs, from left to right. */
  lemma RunsAreExactly(s: string, d: string, p: nat)
    requires p <= |s|
    requires 0 < p < |s| ==> s[p] in d || s[p - 1] in d
    ensures forall i: nat, j: nat :: p <= i ==> ((i, j) in Runs(s, d, p) <==> IsRun(s, d, i, j))
    ensures forall a, b :: 0 <= a < b < |Runs(s, d, p)| ==> Runs(s, d, p)[a].1 < Runs(s, d, p)[b].0
  {
    forall i: nat, j: nat | p <= i
      ensures (i, j) in Runs(s, d, p) <==> IsRun(s, d, i, j)
    {
      RunsContain(s, d, p, i, j);
    }
    forall a, b | 0 <= a < b < |Runs(s, d, p)|
      ensures Runs(s, d, p)[a].1 < Runs(s, d, p)[b].0
    {
      RunsAscend(s, d, p, a, b);
    }
  }

  /** Tokenising from p on depends only on the text from p on. */
  lemma {:induction false} RunsAreLocal(s: string, s': string, d: string, p: nat)
    requires p <= |s| == |s'| && s[p..] == s'[p..]
    ensures Skip(s, d, p) == Skip(s', d, p) && Scan(s, d, p) == Scan(s', d, p)
    ensures Runs(s, d, p) == Runs(s', d, p)
    decreases |s| - p
  {
    SkipIsLocal(s, s', d, p);
    ScanIsLocal(s, s', d, p);
    var i := Skip(s, d, p);
    if i < |s| {
      assert s[i..] == s[p..][i - p..] && s'[i..] == s'[p..][i - p..];
      ScanIsLocal(s, s', d, i);
      var j := Scan(s, d, i);
      assert s[j..] == s[p..][j - p..] && s'[j..] == s'[p..][j - p..];
      RunsAreLocal(s, s', d, j);
    }
  }

  lemma {:induction false} SkipIsLocal(s: string, s': string, d: string, p: nat)
    requires p <= |s| == |s'| && s[p..] == s'[p..]
    ensures Skip(s, d, p) == Skip(s', d, p)
    decreases |s| - p
  {
    if p < |s| {
      assert s[p] == s[p..][0] && s'[p] == s'[p..][0];
      assert s[p + 1..] == s[p..][1..] && s'[p + 1..] == s'[p..][1..];
      SkipIsLocal(s, s', d, p + 1);
    }
  }

  lemma {:induction false} ScanIsLocal(s: string, s': string, d: string, p: nat)
    requires p <= |s| == |s'| && s[p..] == s'[p..]
    ensures Scan(s, d, p) == Scan(s', d, p)
    decreases |s| - p
  {
    if p < |s| {
      assert s[p] == s[p..][0] && s'[p] == s'[p..][0];
      assert s[p + 1..] == s[p..][1..] && s'[p + 1..] == s'[p..][1..];
      ScanIsLocal(s, s', d, p + 1);
    }
  }

  /** Starting on a delimiter or just behind it makes no difference. */
  lemma RunsPastDelimiter(s: string, d: string, p: nat)
    requires p < |s| && s[p] in d
    ensures Runs(s, d, p) == Runs(s, d, p + 1)
  {
  }

  ghost predicate IsSuffix(u: string, s: string, b: nat)
  {
    |u| + b == |s| && forall k :: 0 <= k < |u| ==> u[k] == s[b + k]
  }

  lemma {:induction false} SkipShift(u: string, s: string, d: string, b: nat, p: nat)
    requires IsSuffix(u, s, b) && p <= |u|
    ensures Skip(u, d, p) + b == Skip(s, d, b + p)
    decreases |u| - p
  {
    if p < |u| {
      SkipShift(u, s, d, b, p + 1);
    }
  }

  lemma {:induction false} ScanShift(u: string, s: string, d: string, b: nat, p: nat)
    requires IsSuffix(u, s, b) && p <= |u|
    ensures Scan(u, d, p) + b == Scan(s, d, b + p)
    decreases |u| - p
  {
    if p < |u| {
      ScanShift(u, s, d, b, p + 1);
    }
  }

  /** The next token of a suffix is the next token of the whole text. */
  lemma FirstShift(u: string, s: string, d: string, b: nat, p: nat) returns (i: nat, j: nat)
    requires IsSuffix(u, s, b) && p <= |u| && Skip(u, d, p) < |u|
    ensures p <= i < j <= |u|
    ensures Runs(u, d, p) == [(i, j)] + Runs(u, d, j)
    ensures Runs(s, d, b + p) == [(b + i, b + j)] + Runs(s, d, b + j)
  {
    i := Skip(u, d, p);
    j := Scan(u, d, i);
    SkipShift(u, s, d, b, p);
    ScanShift(u, s, d, b, i);
    RunsCons(u, d, p, i, j);
    RunsCons(s, d, b + p, b + i, b + j);
  }

  /** The runs of a suffix are those of the whole text, shifted. */
  ghost predicate ShiftedRuns(short: seq<(nat, nat)>, runs: seq<(nat, nat)>, b: nat)
  {
    |short| == |runs| && forall k :: 0 <= k < |short| ==> runs[k] == (b + short[k].0, b + short[k].1)
  }

  lemma ShiftedCons(i: nat, j: nat, short: seq<(nat, nat)>, runs: seq<(nat, nat)>, b: nat)
    requires ShiftedRuns(short, runs, b)
    ensures ShiftedRuns([(i, j)] + short, [(b + i, b + j)] + runs, b)
  {
  }

  lemma {:induction false} RunsShift(u: string, s: string, d: string, b: nat, p: nat)
    requires IsSuffix(u, s, b) && p <= |u|
    ensures ShiftedRuns(Runs(u, d, p), Runs(s, d, b + p), b)
    decreases |u| - p
  {
    if Skip(u, d, p) == |u| {
      SkipShift(u, s, d, b, p);
      RunsNil(u, d, p);
      RunsNil(s, d, b + p);
    } else {
      var i, j := FirstShift(u, s, d, b, p);
      RunsShift(u, s, d, b, j);
      ShiftedCons(i, j, Runs(u, d, j), Runs(s, d, b + j), b);
    }
  }

  // ---------------------------------------------------- C strings in memory

  ghost predicate Terminated(m: seq<char>, p: nat)
  {
    exists q :: p <= q < |m| && m[q] == NUL
  }

  /** The position of the NUL that ends the string at p. */
  function End(m: seq<char>, p: nat): (n: nat)
    requires Terminated(m, p)
    ensures p <= n < |m| && m[n] == NUL
    ensures forall k :: p <= k < n ==> m[k] != NUL
    decreases |m| - p
  {
    if m[p] == NUL then p else End(m, p + 1)
  }

  lemma EndIsUnique(m: seq<char>, p: nat, n: nat)
    requires p <= n < |m| && m[n] == NUL && forall k :: p <= k < n ==> m[k] != NUL
    ensures Terminated(m, p) && End(m, p) == n
  {
  }

  /** The string at p is `text`. */
  ghost predicate StringAt(m: seq<char>, p: nat, text: string)
  {
    && p + |text| < |m| && m[p + |text|] == NUL
    && m[p..p + |text|] == text && NUL !in text
  }

  datatype Pointer = Null | At(offset: nat)

  /** What strtok_r does to the memory `m`: with `p` the string passed, or what
      `lasts` held when NULL is passed, it finds the next token and cuts it off
      by overwriting the delimiter behind it. */
  ghost predicate TokenCut(m: seq<char>, d: string, p: nat, m': seq<char>, token: Pointer, lasts: nat)
    requires Terminated(m, p)
  {
    var n := End(m, p);
    var i := Skip(m[..n], d, p);
    if i == n then token == Null && lasts == n && m' == m
    else
      var j := Scan(m[..n], d, i);
      && token == At(i)
      && if j == n then lasts == n && m' == m else lasts == j + 1 && m' == m[j := NUL]
  }

  method StrTokR(mem: array<char>, p: nat, d: string) returns (token: Pointer, lasts: nat)
    requires Terminated(mem[..], p) && NUL !in d
    modifies mem
    ensures TokenCut(old(mem[..]), d, p, mem[..], token, lasts)
  {
    ghost var m := mem[..];
    ghost var n := End(m, p);
    ghost var text := m[..n];
    var i := p;
    while mem[i] != NUL && mem[i] in d
      invariant p <= i <= n && Skip(text, d, i) == Skip(text, d, p)
      decreases n - i
    {
      assert text[i] == mem[i];
      i := i + 1;
    }
    if mem[i] == NUL {
      return Null, i;
    }
    var j := i;
    assert text[i] == mem[i];
    while mem[j] != NUL && mem[j] !in d
      invariant i <= j <= n && Scan(text, d, j) == Scan(text, d, i)
      decreases n - j
    {
      assert text[j] == mem[j];
      j := j + 1;
    }
    token := At(i);
    if mem[j] == NUL {
      lasts := j;
    } else {
      assert text[j] == mem[j];
      mem[j] := NUL;
      lasts := j + 1;
    }
  }

  /** From p on the memory still holds the original text, which ends at n. */
  ghost predicate Untouched(m: seq<char>, original: seq<char>, p: nat, n: nat)
  {
    && |m| == |original| && p <= n < |m| && original[n] == NUL
    && (forall k :: p <= k < |m| ==> m[k] == original[k])
    && (forall k :: p <= k < n ==> original[k] != NUL)
  }

  lemma UntouchedText(m: seq<char>, original: seq<char>, p: nat, n: nat, d: string)
    requires Untouched(m, original, p, n)
    ensures Terminated(m, p) && End(m, p) == n
    ensures Skip(m[..n], d, p) == Skip(original[..n], d, p)
  {
    EndIsUnique(m, p, n);
    assert m[..n][p..] == original[..n][p..];
    SkipIsLocal(m[..n], original[..n], d, p);
  }

  /** The cut, in terms of the original text. */
  lemma CutInOriginal(original: seq<char>, n: nat, d: string, m: seq<char>, p: nat, m': seq<char>, token: Pointer, lasts: nat)
    requires Untouched(m, original, p, n)
    requires Terminated(m, p) && TokenCut(m, d, p, m', token, lasts)
    ensures var i := Skip(original[..n], d, p);
      if i == n then token == Null && lasts == n && m' == m
      else
        var j := Scan(original[..n], d, i);
        token == At(i) && lasts == (if j < n then j + 1 else n) && m' == m[j := NUL]
  {
    UntouchedText(m, original, p, n, d);
    var i := Skip(original[..n], d, p);
    if i < n {
      assert m[..n][i..] == original[..n][i..];
      ScanIsLocal(m[..n], original[..n], d, i);
      assert m[n := NUL] == m;
    }
  }

  /** One call has found the next run of the original text, if there is one,
      and left what follows it alone. */
  ghost predicate RunFound(original: seq<char>, n: nat, d: string, m: seq<char>, p: nat, m': seq<char>, token: Pointer, lasts: nat)
    requires p <= n < |original| == |m|
  {
    && p <= lasts <= n && Untouched(m', original, lasts, n)
    && match token
       case Null => Runs(original[..n], d, p) == [] && m' == m
       case At(i) =>
         && p <= i < n
         && var j := Scan(original[..n], d, i);
            && i < j && lasts == (if j < n then j + 1 else n)
            && Runs(original[..n], d, p) == [(i, j)] + Runs(original[..n], d, lasts)
            && m' == m[j := NUL]
  }

  lemma RunsUnfold(text: string, d: string, p: nat)
    requires p <= |text| && Skip(text, d, p) < |text|
    ensures var i := Skip(text, d, p);
      var j := Scan(text, d, i);
      && i < j
      && Runs(text, d, p) == [(i, j)] + Runs(text, d, if j < |text| then j + 1 else |text|)
  {
    var j := Scan(text, d, Skip(text, d, p));
    if j < |text| {
      RunsPastDelimiter(text, d, j);
    }
  }

  lemma NextRun(original: seq<char>, n: nat, d: string, m: seq<char>, p: nat, m': seq<char>, token: Pointer, lasts: nat)
    requires Untouched(m, original, p, n)
    requires Terminated(m, p) && TokenCut(m, d, p, m', token, lasts)
    ensures RunFound(original, n, d, m, p, m', token, lasts)
  {
    CutInOriginal(original, n, d, m, p, m', token, lasts);
    if Skip(original[..n], d, p) < n {
      RunsUnfold(original[..n], d, p);
    }
  }

  /** The token found is a string of its own, equal to the run. */
  lemma TokenIsString(original: seq<char>, n: nat, m: seq<char>, p: nat, i: nat, j: nat)
    requires Untouched(m, original, p, n) && p <= i < j <= n
    ensures StringAt(m[j := NUL], i, original[i..j])
  {
    assert m[j := NUL][i..j] == original[i..j];
  }

  /** strtok_r on a text whose beginning has been tokenised already. */
  method NextToken(mem: array<char>, p: nat, d: string, ghost original: seq<char>, ghost n: nat)
    returns (token: Pointer, lasts: nat)
    requires Untouched(mem[..], original, p, n) && NUL !in d
    modifies mem
    ensures RunFound(original, n, d, old(mem[..]), p, mem[..], token, lasts)
  {
    ghost var m := mem[..];
    UntouchedText(m, original, p, n, d);
    token, lasts := StrTokR(mem, p, d);
    NextRun(original, n, d, m, p, mem[..], token, lasts);
  }
}
