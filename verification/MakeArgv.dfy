/** chapter02/makeargv.c and chapter02/freemakeargv.c: an argument array over
    one copied block, built in two tokenising passes and released through its
    first entry. */
module MakeArgv {
  import opened Options
  import opened Tokens

  /** A pointer into a block of characters. */
  datatype CharPtr = NullPtr | Into(block: array<char>, offset: nat)

  /** Where a caller's `argvp` points. */
  class ArgvPointer {
    var argv: array?<CharPtr>

    constructor ()
      ensures argv == null
    {
      argv := null;
    }
  }

  /** The blocks handed out by malloc and not yet freed.  Freeing anything else,
      or the same block twice, breaks the precondition of Free. */
  class Heap {
    ghost var live: set<object>

    constructor ()
      ensures live == {}
    {
      live := {};
    }

    method MallocChars(n: nat, succeed: bool) returns (block: array?<char>)
      modifies this
      ensures !succeed ==> block == null && live == old(live)
      ensures succeed ==> block != null && fresh(block) && block.Length == n && live == old(live) + {block}
    {
      block := null;
      if succeed {
        block := new char[n];
        live := live + {block};
      }
    }

    method MallocPtrs(n: nat, succeed: bool) returns (block: array?<CharPtr>)
      modifies this
      ensures !succeed ==> block == null && live == old(live)
      ensures succeed ==> block != null && fresh(block) && block.Length == n && live == old(live) + {block}
    {
      block := null;
      if succeed {
        block := new CharPtr[n];
        live := live + {block};
      }
    }

    method Free(block: object)
      requires block in live
      modifies this
      ensures live == old(live) - {block}
    {
      live := live - {block};
    }
  }

  /** strcpy(t, snew) */
  method CopyString(t: array<char>, snew: string)
    requires t.Length == |snew| + 1
    modifies t
    ensures t[..] == snew + [NUL]
  {
    for k := 0 to |snew|
      invariant t[..k] == snew[..k]
    {
      t[k] := snew[k];
      assert t[..k + 1] == t[..k] + [snew[k]];
    }
    t[|snew|] := NUL;
  }

  /** The counting pass (lines 21 to 23). */
  method CountTokens(t: array<char>, delimiters: string, snew: string) returns (numtokens: nat)
    requires t[..] == snew + [NUL] && NUL !in snew && NUL !in delimiters
    modifies t
    ensures numtokens == |Runs(snew, delimiters, 0)|
  {
    ghost var original, n := t[..], |snew|;
    assert original[..n] == snew;
    numtokens := 0;
    var token, lasts := NextToken(t, 0, delimiters, original, n);
    if token != Null {
      numtokens := 1;
      while true
        invariant 0 <= lasts <= n && Untouched(t[..], original, lasts, n)
        invariant numtokens + |Runs(snew, delimiters, lasts)| == |Runs(snew, delimiters, 0)|
        decreases n - lasts
      {
        token, lasts := NextToken(t, lasts, delimiters, original, n);
        if token == Null {
          break;
        }
        numtokens := numtokens + 1;
      }
    }
  }

  /** argv[..k] points at the first k tokens, each a string of its own. */
  ghost predicate PointsAtTokens(argv: seq<CharPtr>, t: array<char>, m: seq<char>, snew: string, runs: seq<(nat, nat)>, k: nat)
    requires k <= |argv| && k <= |runs|
    requires forall i :: 0 <= i < |runs| ==> runs[i].0 <= runs[i].1 <= |snew|
  {
    forall i :: 0 <= i < k ==>
      argv[i] == Into(t, runs[i].0) && StringAt(m, runs[i].0, snew[runs[i].0..runs[i].1])
  }

  lemma StringSurvives(m: seq<char>, p: nat, text: string, j: nat)
    requires StringAt(m, p, text) && p + |text| < j < |m|
    ensures StringAt(m[j := NUL], p, text)
  {
    assert m[j := NUL][p..p + |text|] == m[p..p + |text|];
  }

  /** Cutting off one more token leaves the earlier ones as they are. */
  lemma TokenAdded(argv: seq<CharPtr>, t: array<char>, m: seq<char>, snew: string, runs: seq<(nat, nat)>, k: nat, m': seq<char>)
    requires k < |argv| && k < |runs| && |m| == |snew| + 1
    requires forall i :: 0 <= i < |runs| ==> runs[i].0 <= runs[i].1 <= |snew|
    requires forall i :: 0 <= i < k ==> runs[i].1 < runs[k].1
    requires PointsAtTokens(argv, t, m, snew, runs, k)
    requires m' == m[runs[k].1 := NUL]
    requires StringAt(m', runs[k].0, snew[runs[k].0..runs[k].1])
    ensures PointsAtTokens(argv[k := Into(t, runs[k].0)], t, m', snew, runs, k + 1)
  {
    forall i | 0 <= i < k ensures StringAt(m', runs[i].0, snew[runs[i].0..runs[i].1]) {
      StringSurvives(m, runs[i].0, snew[runs[i].0..runs[i].1], runs[k].1);
    }
  }

  /** The state of the filling pass before its i-th call of strtok. */
  ghost predicate Filling(t: array<char>, m: seq<char>, argv: seq<CharPtr>, snew: string, d: string, i: nat, lasts: nat)
  {
    var runs := Runs(snew, d, 0);
    && i <= |runs| < |argv| && lasts <= |snew|
    && Untouched(m, snew + [NUL], lasts, |snew|)
    && runs[i..] == Runs(snew, d, lasts)
    && (forall k :: 0 <= k < i ==> runs[k].1 <= lasts)
    && PointsAtTokens(argv, t, m, snew, runs, i)
  }

  lemma FilledOneMore(t: array<char>, m: seq<char>, argv: seq<CharPtr>, snew: string, d: string, i: nat, p: nat,
                      m': seq<char>, token: Pointer, lasts: nat)
    requires Filling(t, m, argv, snew, d, i, p) && i < |Runs(snew, d, 0)|
    requires RunFound(snew + [NUL], |snew|, d, m, p, m', token, lasts)
    ensures token.At?
    ensures Filling(t, m', argv[i := Into(t, token.offset)], snew, d, i + 1, lasts)
  {
    var runs, block := Runs(snew, d, 0), snew + [NUL];
    assert block[..|snew|] == snew;
    assert runs[i..][0] == runs[i] && runs[i..][1..] == runs[i + 1..];
    TokenIsString(block, |snew|, m, p, runs[i].0, runs[i].1);
    assert block[runs[i].0..runs[i].1] == snew[runs[i].0..runs[i].1];
    TokenAdded(argv, t, m, snew, runs, i, m');
  }

  method FillNext(t: array<char>, argv: array<CharPtr>, delimiters: string, i: nat, p: nat, ghost snew: string)
    returns (lasts: nat)
    requires Filling(t, t[..], argv[..], snew, delimiters, i, p) && i < |Runs(snew, delimiters, 0)|
    requires NUL !in delimiters
    modifies t, argv
    ensures Filling(t, t[..], argv[..], snew, delimiters, i + 1, lasts)
  {
    ghost var m, was := t[..], argv[..];
    var token;
    token, lasts := NextToken(t, p, delimiters, snew + [NUL], |snew|);
    FilledOneMore(t, m, was, snew, delimiters, i, p, t[..], token, lasts);
    argv[i] := Into(t, token.offset);
    assert argv[..] == was[i := Into(t, token.offset)];
  }

  /** The filling pass (lines 36 to 39). */
  method FillTokens(t: array<char>, delimiters: string, snew: string, argv: array<CharPtr>, numtokens: nat)
    requires t[..] == snew + [NUL] && NUL !in snew && NUL !in delimiters
    requires numtokens == |Runs(snew, delimiters, 0)| && 0 < numtokens < argv.Length
    modifies t, argv
    ensures PointsAtTokens(argv[..], t, t[..], snew, Runs(snew, delimiters, 0), numtokens)
  {
    var lasts := FillNext(t, argv, delimiters, 0, 0, snew);
    var i := 1;
    while i < numtokens
      invariant 1 <= i <= numtokens && Filling(t, t[..], argv[..], snew, delimiters, i, lasts)
    {
      lasts := FillNext(t, argv, delimiters, i, lasts, snew);
      i := i + 1;
    }
  }

  /** An argument array for `s`: its entries point at the maximal
      delimiter-free runs of s, in order, each a string of its own in one block
      that starts where the first entry points, and a null pointer ends it. */
  ghost predicate IsArgv(argv: array<CharPtr>, block: array?<char>, s: string, d: string)
    reads argv, block
  {
    var runs := Runs(s, d, 0);
    && argv.Length == |runs| + 1 && argv[|runs|] == NullPtr
    && (runs != [] ==> block != null && argv[0] == Into(block, 0))
    && (runs == [] ==> block == null)
    && forall k :: 0 <= k < |runs| ==>
         && argv[k].Into? && argv[k].block == block
         && StringAt(block[..], argv[k].offset, s[runs[k].0..runs[k].1])
  }

  lemma RunsFromFirst(s: string, d: string, b: nat)
    requires b == Skip(s, d, 0)
    ensures Runs(s, d, 0) == Runs(s, d, b)
  {
    if b < |s| {
      RunsCons(s, d, 0, b, Scan(s, d, b));
      RunsCons(s, d, b, b, Scan(s, d, b));
    }
  }

  ghost predicate SameToken(s: string, b: nat, run: (nat, nat), short: (nat, nat))
  {
    && run.0 <= run.1 <= |s| && short.0 <= short.1 <= |s| - b
    && run.0 == b + short.0 && s[run.0..run.1] == s[b..][short.0..short.1]
  }

  lemma TokenOfSuffix(s: string, b: nat, short: (nat, nat))
    requires b <= |s| && short.0 <= short.1 <= |s| - b
    ensures SameToken(s, b, (b + short.0, b + short.1), short)
  {
    assert s[b + short.0..b + short.1] == s[b..][short.0..short.1];
  }

  /** Without its leading delimiters the text has the same tokens. */
  lemma SuffixHasSameRuns(s: string, d: string, b: nat)
    requires b == Skip(s, d, 0)
    ensures |Runs(s, d, 0)| == |Runs(s[b..], d, 0)|
    ensures forall k :: 0 <= k < |Runs(s, d, 0)| ==> SameToken(s, b, Runs(s, d, 0)[k], Runs(s[b..], d, 0)[k])
  {
    var u := s[b..];
    RunsFromFirst(s, d, b);
    RunsShift(u, s, d, b, 0);
    var runs, short := Runs(s, d, 0), Runs(u, d, 0);
    forall k | 0 <= k < |runs| ensures SameToken(s, b, runs[k], short[k]) {
      TokenOfSuffix(s, b, short[k]);
    }
  }

  /** The tokens of the suffix without leading delimiters are those of `s`. */
  lemma ArgvOfSuffix(argv: seq<CharPtr>, t: array<char>, m: seq<char>, s: string, d: string, b: nat)
    requires b == Skip(s, d, 0)
    requires |Runs(s[b..], d, 0)| < |argv|
    requires PointsAtTokens(argv, t, m, s[b..], Runs(s[b..], d, 0), |Runs(s[b..], d, 0)|)
    ensures |Runs(s, d, 0)| == |Runs(s[b..], d, 0)|
    ensures forall k :: 0 <= k < |Runs(s, d, 0)| ==>
              && argv[k].Into? && argv[k].block == t
              && StringAt(m, argv[k].offset, s[Runs(s, d, 0)[k].0..Runs(s, d, 0)[k].1])
    ensures Runs(s, d, 0) != [] ==> argv[0] == Into(t, 0)
  {
    SuffixHasSameRuns(s, d, b);
    var runs, short := Runs(s, d, 0), Runs(s[b..], d, 0);
    forall k | 0 <= k < |runs|
      ensures argv[k].Into? && argv[k].block == t && StringAt(m, argv[k].offset, s[runs[k].0..runs[k].1])
    {
      assert SameToken(s, b, runs[k], short[k]);
    }
    if runs != [] {
      assert SameToken(s, b, runs[0], short[0]);
      RunsCons(s, d, 0, b, Scan(s, d, b));
    }
  }

  /** strspn(s, delimiters) */
  method StrSpn(s: string, d: string) returns (b: nat)
    ensures b == Skip(s, d, 0)
  {
    b := 0;
    while b < |s| && s[b] in d
      invariant b <= |s| && Skip(s, d, b) == Skip(s, d, 0)
    {
      b := b + 1;
    }
  }

  /** makeargv.  `s` and `delimiters` are C strings, None for a null pointer; the
      two last arguments say whether each malloc succeeds.  On failure nothing
      stays allocated; otherwise just the array and, if there is a token, the
      one block its entries point into. */
  method MakeArgv(heap: Heap, s: Option<string>, delimiters: Option<string>, argvp: ArgvPointer?,
                  succeed1: bool, succeed2: bool)
    returns (numtokens: int, ghost block: array?<char>)
    requires s.Some? ==> NUL !in s.value
    requires delimiters.Some? ==> NUL !in delimiters.value
    modifies heap, argvp
    ensures numtokens == -1 <==> s.None? || delimiters.None? || argvp == null || !succeed1 || !succeed2
    ensures numtokens == -1 ==> heap.live == old(heap.live)
    ensures (s.None? || delimiters.None?) && argvp != null ==> argvp.argv == old(argvp.argv)
    ensures s.Some? && delimiters.Some? && argvp != null && numtokens == -1 ==> argvp.argv == null
    ensures numtokens != -1 ==>
              && numtokens == |Runs(s.value, delimiters.value, 0)|
              && argvp.argv != null && fresh(argvp.argv) && (block != null ==> fresh(block))
              && IsArgv(argvp.argv, block, s.value, delimiters.value)
              && heap.live == old(heap.live) + {argvp.argv} + if block == null then {} else {block}
  {
    block := null;
    if s.None? || delimiters.None? || argvp == null {
      return -1, null;
    }
    argvp.argv := null;
    var d := delimiters.value;
    var b := StrSpn(s.value, d);
    var snew := s.value[b..];
    var t := heap.MallocChars(|snew| + 1, succeed1);
    if t == null {
      return -1, null;
    }
    CopyString(t, snew);
    numtokens := CountTokens(t, d, snew);
    var argv := heap.MallocPtrs(numtokens + 1, succeed2);
    argvp.argv := argv;
    if argv == null {
      heap.Free(t);
      assert heap.live == old(heap.live);
      return -1, null;
    }
    SuffixHasSameRuns(s.value, d, b);
    if numtokens == 0 {
      heap.Free(t);
      assert heap.live == old(heap.live) + {argv};
    } else {
      CopyString(t, snew);
      FillTokens(t, d, snew, argv, numtokens);
      block := t;
    }
    argv[numtokens] := NullPtr;
    if numtokens > 0 {
      ArgvOfSuffix(argv[..], t, t[..], s.value, d, b);
    }
  }

  /** freemakeargv: releases the block through the first entry, then the array. */
  method FreeMakeArgv(heap: Heap, argv: array?<CharPtr>)
    requires argv != null ==> argv in heap.live && argv.Length > 0
    requires argv != null && argv[0].Into? ==>
               argv[0].offset == 0 && argv[0].block in heap.live && argv[0].block as object != argv
    modifies heap
    ensures heap.live == old(heap.live)
              - (if argv == null then {} else {argv})
              - (if argv != null && argv[0].Into? then {argv[0].block} else {})
  {
    if argv == null {
      return;
    }
    if argv[0] != NullPtr {
      heap.Free(argv[0].block);
    }
    heap.Free(argv);
  }

  /** A client that builds an array and frees it (chapter02/argtestfree.c):
      whatever the string, and whichever malloc fails, both blocks are released
      exactly once and the heap is as it was. */
  method MakeThenFree(heap: Heap, s: Option<string>, delimiters: Option<string>, succeed1: bool, succeed2: bool)
    requires s.Some? ==> NUL !in s.value
    requires delimiters.Some? ==> NUL !in delimiters.value
    modifies heap
    ensures heap.live == old(heap.live)
  {
    var myargv := new ArgvPointer();
    var numtokens, block := MakeArgv(heap, s, delimiters, myargv, succeed1, succeed2);
    if numtokens != -1 {
      FreeMakeArgv(heap, myargv.argv);
    }
    assert heap.live == old(heap.live);
  }
}
