/** chapter02/wordaverage.c: words per line, with one tokeniser nested in
    another over the same memory. */
module WordAverage {
  import opened Tokens

  const LINE_DELIMITERS := "\n"
  const WORD_DELIMITERS := " "
  const BOTH_DELIMITERS := " \n"

  /** Leading delimiters do not matter. */
  lemma {:induction false} RunsPastDelimiters(s: string, d: string, p: nat, q: nat)
    requires p <= q <= |s| && forall k :: p <= k < q ==> s[k] in d
    ensures Runs(s, d, p) == Runs(s, d, q)
    decreases q - p
  {
    if p < q {
      RunsPastDelimiter(s, d, p);
      RunsPastDelimiters(s, d, p + 1, q);
    }
  }

  /** The words of a line, found with blanks alone as delimiters and the line
      cut off, are the words of the text up to the end of that line. */
  lemma {:induction false} WordsWithinLine(text: string, q: nat, j: nat)
    requires q <= j <= |text|
    requires forall k :: q <= k < j ==> text[k] !in LINE_DELIMITERS
    requires j < |text| ==> text[j] in LINE_DELIMITERS
    ensures |Runs(text, BOTH_DELIMITERS, q)|
         == |Runs(text[..j], WORD_DELIMITERS, q)| + |Runs(text, BOTH_DELIMITERS, j)|
    decreases j - q
  {
    var line := text[..j];
    var a := Skip(line, WORD_DELIMITERS, q);
    SkipRange(line, WORD_DELIMITERS, q);
    if a == j {
      assert forall k :: q <= k < j ==> line[k] in WORD_DELIMITERS && text[k] in BOTH_DELIMITERS;
      RunsPastDelimiters(text, BOTH_DELIMITERS, q, j);
    } else {
      var b := Scan(line, WORD_DELIMITERS, a);
      ScanRange(line, WORD_DELIMITERS, a);
      assert forall k :: q <= k < a ==> line[k] == text[k];
      assert forall k :: a <= k < b ==> line[k] == text[k];
      SkipIs(text, BOTH_DELIMITERS, q, a);
      ScanIs(text, BOTH_DELIMITERS, a, b);
      WordsWithinLine(text, b, j);
    }
  }

  /** The words of the lines from the k-th on, line by line. */
  function WordsInLines(text: string, lines: seq<(nat, nat)>): nat
    requires forall k :: 0 <= k < |lines| ==> lines[k].0 <= lines[k].1 <= |text|
  {
    if |lines| == 0 then 0
    else |Runs(text[..lines[0].1], WORD_DELIMITERS, lines[0].0)| + WordsInLines(text, lines[1..])
  }

  /** Counting the words line by line counts the words of the text. */
  lemma {:induction false} WordsByLine(text: string, p: nat)
    requires p <= |text|
    ensures WordsInLines(text, Runs(text, LINE_DELIMITERS, p)) == |Runs(text, BOTH_DELIMITERS, p)|
    decreases |text| - p
  {
    var i := Skip(text, LINE_DELIMITERS, p);
    SkipRange(text, LINE_DELIMITERS, p);
    assert forall k :: p <= k < i ==> text[k] in BOTH_DELIMITERS;
    RunsPastDelimiters(text, BOTH_DELIMITERS, p, i);
    if i < |text| {
      var j := Scan(text, LINE_DELIMITERS, i);
      ScanRange(text, LINE_DELIMITERS, i);
      WordsWithinLine(text, i, j);
      WordsByLine(text, j);
      assert Runs(text, LINE_DELIMITERS, p)[1..] == Runs(text, LINE_DELIMITERS, j);
    }
  }

  /** One round of the inner tokeniser, which writes to the line only. */
  method NextWord(mem: array<char>, s: nat, p: nat, ghost m: seq<char>, ghost n: nat) returns (found: bool, lasts: nat)
    requires s <= p && Untouched(mem[..], m, p, n) && SameOutside(mem[..], m, s, n)
    modifies mem
    ensures p <= lasts <= n && Untouched(mem[..], m, lasts, n) && SameOutside(mem[..], m, s, n)
    ensures found ==> p < lasts
    ensures |Runs(m[..n], WORD_DELIMITERS, p)|
         == if found then 1 + |Runs(m[..n], WORD_DELIMITERS, lasts)| else 0
  {
    var token;
    token, lasts := NextToken(mem, p, WORD_DELIMITERS, m, n);
    found := token != Null;
  }

  ghost predicate SameOutside(m': seq<char>, m: seq<char>, s: nat, n: nat)
  {
    |m'| == |m| && forall k :: 0 <= k < |m| && !(s <= k < n) ==> m'[k] == m[k]
  }

  /** The inner tokeniser: counts the words of the line at s and may overwrite
      the line, but nothing in front of it, its terminator or behind it. */
  method WordCount(mem: array<char>, s: nat) returns (count: nat)
    requires Terminated(mem[..], s)
    modifies mem
    ensures count == |Runs(old(mem[..])[..End(old(mem[..]), s)], WORD_DELIMITERS, s)|
    ensures SameOutside(mem[..], old(mem[..]), s, End(old(mem[..]), s))
  {
    ghost var m := mem[..];
    ghost var n := End(m, s);
    count := 1;
    var found, lasts := NextWord(mem, s, s, m, n);
    if !found {
      return 0;
    }
    while true
      invariant s <= lasts <= n && Untouched(mem[..], m, lasts, n) && SameOutside(mem[..], m, s, n)
      invariant count + |Runs(m[..n], WORD_DELIMITERS, lasts)| == |Runs(m[..n], WORD_DELIMITERS, s)|
      decreases n - lasts
    {
      found, lasts := NextWord(mem, s, lasts, m, n);
      if !found {
        break;
      }
      count := count + 1;
    }
  }

  /** wordcount on the line just cut off: it counts the words of the original
      line and leaves alone what the outer tokeniser has yet to read. */
  method CountLine(mem: array<char>, line: nat, ghost original: seq<char>, ghost j: nat, ghost lasts: nat, ghost n: nat)
    returns (count: nat)
    requires line <= j <= lasts && j < mem.Length == |original| && mem[j] == NUL
    requires forall k :: line <= k < j ==> mem[k] == original[k] && original[k] != NUL
    requires Untouched(mem[..], original, lasts, n)
    modifies mem
    ensures count == |Runs(original[..j], WORD_DELIMITERS, line)|
    ensures Untouched(mem[..], original, lasts, n)
  {
    ghost var before := mem[..];
    EndIsUnique(before, line, j);
    assert before[..j][line..] == original[..j][line..];
    RunsAreLocal(before[..j], original[..j], WORD_DELIMITERS, line);
    count := WordCount(mem, line);
  }

  /** One round: cut off the next line, if there is one, and count its words. */
  method NextLine(mem: array<char>, p: nat, ghost original: seq<char>, ghost n: nat)
    returns (found: bool, count: nat, lasts: nat)
    requires Untouched(mem[..], original, p, n)
    modifies mem
    ensures p <= lasts <= n && Untouched(mem[..], original, lasts, n)
    ensures !found ==> Runs(original[..n], LINE_DELIMITERS, p) == []
    ensures found ==>
              && p < lasts
              && Runs(original[..n], LINE_DELIMITERS, p) != []
              && Runs(original[..n], LINE_DELIMITERS, p)[1..] == Runs(original[..n], LINE_DELIMITERS, lasts)
              && WordsInLines(original[..n], Runs(original[..n], LINE_DELIMITERS, p))
                 == count + WordsInLines(original[..n], Runs(original[..n], LINE_DELIMITERS, lasts))
  {
    var nextline;
    nextline, lasts := NextToken(mem, p, LINE_DELIMITERS, original, n);
    if nextline == Null {
      return false, 0, lasts;
    }
    found := true;
    ghost var text := original[..n];
    ghost var j := Scan(text, LINE_DELIMITERS, nextline.offset);
    count := CountLine(mem, nextline.offset, original, j, lasts, n);
    assert text[..j] == original[..j];
  }

  /** The outer tokeniser: the two counters are the number of runs free of
      blanks and newlines, and the number of runs free of newlines, of the
      original text, although each line is overwritten before the next one is
      looked for. */
  method WordAverage(mem: array<char>, s: nat) returns (average: real, words: nat, linecount: nat)
    requires Terminated(mem[..], s)
    modifies mem
    ensures var text := old(mem[..])[..End(old(mem[..]), s)];
      if Runs(text, "\n", s) == [] then average == 0.0
      else
        && words == |Runs(text, " \n", s)|
        && linecount == |Runs(text, "\n", s)|
        && average == words as real / linecount as real
  {
    ghost var m := mem[..];
    ghost var n := End(m, s);
    ghost var text := m[..n];
    linecount := 1;
    var found, count, lasts := NextLine(mem, s, m, n);
    words := count;
    if !found {
      return 0.0, 0, 0;
    }
    while true
      invariant s <= lasts <= n && Untouched(mem[..], m, lasts, n) && linecount > 0
      invariant linecount + |Runs(text, LINE_DELIMITERS, lasts)| == |Runs(text, LINE_DELIMITERS, s)|
      invariant words + WordsInLines(text, Runs(text, LINE_DELIMITERS, lasts))
             == WordsInLines(text, Runs(text, LINE_DELIMITERS, s))
      decreases n - lasts
    {
      found, count, lasts := NextLine(mem, lasts, m, n);
      if !found {
        break;
      }
      words := words + count;
      linecount := linecount + 1;
    }
    WordsByLine(text, s);
    average := words as real / linecount as real;
  }
}
