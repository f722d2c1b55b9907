/** chapter11/parseandredirect.c and chapter11/executeredirect.c: redirections
    cut out of the command string in place, then the argument array. */
module Redirect {
  import opened MakeArgv
  import opened Options
  import opened Tokens

  const BLANKS := " \t"

  /** What a standard stream refers to when the command is executed. */
  datatype Stream = Inherited | Opened(place: nat)

  datatype Mode = Mode(readable: bool, writable: bool)

  datatype Node = Node(mode: Mode, data: string)

  /** The file system as open(2) sees it.  `place` is what a name denotes: two
      names with one place are links to one file or, while `nodes` has none
      there, ways to name the same missing file.  Missing files can be created at
      the places in `creatable`, and then get the mode `created`: FMODE less the
      umask. */
  datatype Files = Files(place: string -> nat, nodes: map<nat, Node>, creatable: set<nat>, created: Mode)

  predicate Readable(fs: Files, p: nat) { p in fs.nodes && fs.nodes[p].mode.readable }

  /** open with O_WRONLY, O_CREAT and O_TRUNC succeeds. */
  predicate Writable(fs: Files, p: nat)
  {
    if p in fs.nodes then fs.nodes[p].mode.writable else p in fs.creatable
  }

  /** What that open leaves: the file exists and is empty. */
  function Written(fs: Files, p: nat): Files
  {
    fs.(nodes := fs.nodes[p := Node(if p in fs.nodes then fs.nodes[p].mode else fs.created, "")])
  }

  /** How a call of executeredirect ends: it returns, it exits with an error, or
      it executes what makeargv makes of `command` with these streams. */
  datatype Outcome =
    | Returns
    | Fails
    | Executes(command: string, stdin: Stream, stdout: Stream)

  /** The first position of `ch`, or the length if there is none. */
  function Index(c: string, ch: char): (r: nat)
    ensures r <= |c| && (r < |c| ==> c[r] == ch)
    ensures forall k :: 0 <= k < r ==> c[k] != ch
  {
    if |c| == 0 || c[0] == ch then 0 else 1 + Index(c[1..], ch)
  }

  function FirstToken(u: string): Option<string>
  {
    TokenIn(u, Runs(u, BLANKS, 0))
  }

  function TokenIn(c: string, runs: seq<(nat, nat)>): Option<string>
    requires forall k :: 0 <= k < |runs| ==> runs[k].0 <= runs[k].1 <= |c|
  {
    if runs == [] then None else Some(c[runs[0].0..runs[0].1])
  }

  /** The first token is the word behind the leading blanks and tabs, up to the
      next one, and there is none in a text of blanks and tabs. */
  lemma FirstTokenIs(blanks: string, word: string, rest: string)
    requires forall k :: 0 <= k < |blanks| ==> blanks[k] in " \t"
    requires word != [] && forall k :: 0 <= k < |word| ==> word[k] !in " \t"
    requires rest != [] ==> rest[0] in " \t"
    ensures FirstToken(blanks + word + rest) == Some(word)
    ensures FirstToken(blanks) == None
  {
    var u, i, j := blanks + word + rest, |blanks|, |blanks| + |word|;
    assert forall k :: i <= k < j ==> u[k] == word[k - i];
    SkipIs(u, BLANKS, 0, i);
    ScanIs(u, BLANKS, i, j);
    RunsCons(u, BLANKS, 0, i, j);
    assert u[i..j] == word;
    SkipIs(blanks, BLANKS, 0, i);
    RunsNil(blanks, BLANKS, 0);
  }

  /** Cutting at the first `ch`: the command that is left and the file named. */
  function Cut(c: string, ch: char): (string, Option<string>)
  {
    var i := Index(c, ch);
    if i == |c| then (c, None) else (c[..i], FirstToken(c[i + 1..]))
  }

  function Redirected(fs: Files, old': Stream, file: Option<string>): Stream
  {
    match file
    case None => old'
    case Some(name) => Opened(fs.place(name))
  }

  predicate InputOpens(fs: Files, file: Option<string>) { file.Some? ==> Readable(fs, fs.place(file.value)) }

  predicate OutputOpens(fs: Files, file: Option<string>) { file.Some? ==> Writable(fs, fs.place(file.value)) }

  function AfterOutput(fs: Files, file: Option<string>): Files
  {
    if file.Some? && OutputOpens(fs, file) then Written(fs, fs.place(file.value)) else fs
  }

  /** Lines 24 to 33, with standard input and output as they are by then: how the
      call ends and the file system it leaves. */
  function Finish(c: string, input: bool, output: bool, fs: Files, stdin: Stream, stdout: Stream, memory: bool): (Outcome, Files)
  {
    var (c1, outfile) := if output then Cut(c, '>') else (c, None);
    var fs1 := AfterOutput(fs, outfile);
    if !OutputOpens(fs, outfile) then (Fails, fs1)
    else
      var (c2, infile) := if input then Cut(c1, '<') else (c1, None);
      if !InputOpens(fs1, infile) then (Fails, fs1)
      else if Runs(c2, BLANKS, 0) == [] || !memory then (Fails, fs1)
      else (Executes(c2, Redirected(fs, stdin, infile), Redirected(fs, stdout, outfile)), fs1)
  }

  /** executeredirect(c, input, output) */
  function Execute(c: string, input: bool, output: bool, fs: Files, stdin: Stream, stdout: Stream, memory: bool): (Outcome, Files)
  {
    if input && output && Index(c, '>') < Index(c, '<') < |c| then
      var (c1, infile) := Cut(c, '<');
      if !InputOpens(fs, infile) then (Returns, fs)
      else Finish(c1, false, output, fs, Redirected(fs, stdin, infile), stdout, memory)
    else
      Finish(c, input, output, fs, stdin, stdout, memory)
  }

  lemma IndexIs(c: string, ch: char, i: nat)
    requires i < |c| && c[i] == ch && forall k :: 0 <= k < i ==> c[k] != ch
    ensures Index(c, ch) == i
  {
    if Index(c, ch) < i {
      assert false;
    }
  }

  lemma CutAt(before: string, ch: char, after: string)
    requires ch !in before
    ensures Index(before + [ch] + after, ch) == |before|
    ensures Cut(before + [ch] + after, ch) == (before, FirstToken(after))
  {
    var c := before + [ch] + after;
    assert c[..|before|] == before;
    assert forall k :: 0 <= k < |before| ==> c[k] == before[k];
    IndexIs(c, ch, |before|);
    assert c[|before| + 1..] == after;
  }

  /** Two different cuts in a row: the one further right is made first. */
  lemma CutTwice(pre: string, ch1: char, part1: string, ch2: char, part2: string)
    requires ch1 != ch2 && ch1 !in pre && ch2 !in pre && ch2 !in part1
    ensures var c := pre + [ch1] + part1 + [ch2] + part2;
      && Index(c, ch1) == |pre| < Index(c, ch2) < |c|
      && Cut(c, ch2) == (pre + [ch1] + part1, FirstToken(part2))
      && Cut(pre + [ch1] + part1, ch1) == (pre, FirstToken(part1))
  {
    var a := pre + [ch1] + part1;
    assert ch2 !in a;
    CutAt(a, ch2, part2);
    CutAt(pre, ch1, part1);
    FirstOfTwo(a, ch1, [ch2] + part2, a + [ch2] + part2);
  }

  lemma FirstOfTwo(a: string, ch: char, rest: string, c: string)
    requires ch in a && c == a + rest
    ensures Index(c, ch) == Index(a, ch) < |a|
  {
    IndexIs(c, ch, Index(a, ch));
  }

  /** There is a command, and memory for its arguments. */
  predicate Runnable(pre: string, memory: bool) { Runs(pre, BLANKS, 0) != [] && memory }

  /** The command `pre` with its input from the file named, if one is, and its
      output inherited; a file that cannot be opened ends the call as `refused`. */
  function InputAlone(pre: string, file: Option<string>, fs: Files, stdin: Stream, stdout: Stream, memory: bool, refused: Outcome): Outcome
  {
    if file.Some? && !Readable(fs, fs.place(file.value)) then refused
    else if !Runnable(pre, memory) then Fails
    else Executes(pre, if file.Some? then Opened(fs.place(file.value)) else stdin, stdout)
  }

  /** The command `pre` with its output to the file at q and its input inherited. */
  function OutputAlone(pre: string, q: nat, fs: Files, stdin: Stream, memory: bool): (Outcome, Files)
  {
    if !Writable(fs, q) then (Fails, fs)
    else if !Runnable(pre, memory) then (Fails, Written(fs, q))
    else (Executes(pre, stdin, Opened(q)), Written(fs, q))
  }

  lemma NotThere(c: string, ch: char)
    requires ch !in c
    ensures Index(c, ch) == |c| && Cut(c, ch) == (c, None)
  {
  }

  /** Without a symbol, or with its flag off, the text is the command and the
      streams are inherited. */
  lemma NoRedirection(c: string, input: bool, output: bool, fs: Files, stdin: Stream, stdout: Stream, memory: bool)
    requires input ==> '<' !in c
    requires output ==> '>' !in c
    ensures Execute(c, input, output, fs, stdin, stdout, memory)
         == if Runnable(c, memory) then (Executes(c, stdin, stdout), fs) else (Fails, fs)
  {
    if input {
      NotThere(c, '<');
    }
    if output {
      NotThere(c, '>');
    }
  }

  /** Only the input is redirected: the output flag is off, or there is no '>'. */
  lemma InputOnly(pre: string, part: string, output: bool, fs: Files, stdin: Stream, stdout: Stream, memory: bool)
    requires '<' !in pre
    requires output ==> '>' !in pre && '>' !in part
    ensures Execute(pre + ['<'] + part, true, output, fs, stdin, stdout, memory)
         == (InputAlone(pre, FirstToken(part), fs, stdin, stdout, memory, Fails), fs)
  {
    CutAt(pre, '<', part);
    if output {
      NotThere(pre + ['<'] + part, '>');
    }
  }

  /** Only the output is redirected: the input flag is off, or there is no '<'. */
  lemma OutputOnly(pre: string, part: string, input: bool, fs: Files, stdin: Stream, stdout: Stream, memory: bool)
    requires '>' !in pre
    requires input ==> '<' !in pre && '<' !in part
    ensures var file := FirstToken(part);
      Execute(pre + ['>'] + part, input, true, fs, stdin, stdout, memory) ==
        if file.Some? then OutputAlone(pre, fs.place(file.value), fs, stdin, memory)
        else if Runnable(pre, memory) then (Executes(pre, stdin, stdout), fs)
        else (Fails, fs)
  {
    CutAt(pre, '>', part);
    if input {
      NotThere(pre + ['>'] + part, '<');
      NotThere(pre, '<');
    }
  }

  /** A command whose input redirection comes first in the text has its output
      opened first; what that creates is there when the input is opened.  A
      symbol that no file name follows redirects nothing. */
  lemma InputFirst(pre: string, inpart: string, outpart: string, fs: Files, stdin: Stream, stdout: Stream, memory: bool)
    requires '<' !in pre && '>' !in pre && '>' !in inpart
    ensures var infile, outfile := FirstToken(inpart), FirstToken(outpart);
      Execute(pre + ['<'] + inpart + ['>'] + outpart, true, true, fs, stdin, stdout, memory) ==
        if outfile.None? then (InputAlone(pre, infile, fs, stdin, stdout, memory, Fails), fs)
        else
          var q := fs.place(outfile.value);
          if infile.None? then OutputAlone(pre, q, fs, stdin, memory)
          else
            var p := fs.place(infile.value);
            if !Writable(fs, q) then (Fails, fs)
            else if !Readable(Written(fs, q), p) || !Runnable(pre, memory) then (Fails, Written(fs, q))
            else (Executes(pre, Opened(p), Opened(q)), Written(fs, q))
  {
    CutTwice(pre, '<', inpart, '>', outpart);
  }

  /** A command whose output redirection comes first in the text has its input
      opened first, and returns if that fails. */
  lemma OutputFirst(pre: string, inpart: string, outpart: string, fs: Files, stdin: Stream, stdout: Stream, memory: bool)
    requires '<' !in pre && '>' !in pre && '<' !in outpart
    ensures var infile, outfile := FirstToken(inpart), FirstToken(outpart);
      Execute(pre + ['>'] + outpart + ['<'] + inpart, true, true, fs, stdin, stdout, memory) ==
        if outfile.None? then (InputAlone(pre, infile, fs, stdin, stdout, memory, Returns), fs)
        else
          var q := fs.place(outfile.value);
          if infile.None? then OutputAlone(pre, q, fs, stdin, memory)
          else
            var p := fs.place(infile.value);
            if !Readable(fs, p) then (Returns, fs)
            else if !Writable(fs, q) then (Fails, fs)
            else if !Runnable(pre, memory) then (Fails, Written(fs, q))
            else (Executes(pre, Opened(p), Opened(q)), Written(fs, q))
  {
    CutTwice(pre, '>', outpart, '<', inpart);
  }

  /** Both redirections name one file that is missing, can be created, and is
      readable once it has been. */
  predicate CreatesItsInput(fs: Files, p: nat, q: nat)
  {
    p == q && p !in fs.nodes && p in fs.creatable && fs.created.readable
  }

  /** The two calls execute the same command with the same streams and file
      system, or neither executes anything. */
  predicate SameExecution(a: (Outcome, Files), b: (Outcome, Files))
  {
    if a.0.Executes? then b.0 == a.0 && b.1.nodes == a.1.nodes else !b.0.Executes?
  }

  /** A command that may redirect both streams, with one '<' and one '>', each
      followed by a file name: unless its output creates its input, it is
      executed iff there is a command and both files can be opened, and then with
      the same arguments, streams and file contents whichever redirection comes
      first. */
  lemma OrderDoesNotMatter(pre: string, inpart: string, outpart: string, fs: Files, stdin: Stream, stdout: Stream, memory: bool)
    requires '<' !in pre && '<' !in inpart && '<' !in outpart
    requires '>' !in pre && '>' !in inpart && '>' !in outpart
    requires FirstToken(inpart).Some? && FirstToken(outpart).Some?
    requires !CreatesItsInput(fs, fs.place(FirstToken(inpart).value), fs.place(FirstToken(outpart).value))
    ensures var inFirst := Execute(pre + ['<'] + inpart + ['>'] + outpart, true, true, fs, stdin, stdout, memory);
      var outFirst := Execute(pre + ['>'] + outpart + ['<'] + inpart, true, true, fs, stdin, stdout, memory);
      var p, q := fs.place(FirstToken(inpart).value), fs.place(FirstToken(outpart).value);
      if Readable(fs, p) && Writable(fs, q) && Runnable(pre, memory) then
        inFirst == outFirst == (Executes(pre, Opened(p), Opened(q)), Written(fs, q))
      else
        !inFirst.0.Executes? && !outFirst.0.Executes?
  {
    InputFirst(pre, inpart, outpart, fs, stdin, stdout, memory);
    OutputFirst(pre, inpart, outpart, fs, stdin, stdout, memory);
  }

  /** The order decides whether the command is executed exactly when its output
      creates its input and there is a command and memory for its arguments. */
  lemma WhenOrderMatters(pre: string, inpart: string, outpart: string, fs: Files, stdin: Stream, stdout: Stream, memory: bool)
    requires '<' !in pre && '<' !in inpart && '<' !in outpart
    requires '>' !in pre && '>' !in inpart && '>' !in outpart
    requires FirstToken(inpart).Some? && FirstToken(outpart).Some?
    ensures var inFirst := Execute(pre + ['<'] + inpart + ['>'] + outpart, true, true, fs, stdin, stdout, memory);
      var outFirst := Execute(pre + ['>'] + outpart + ['<'] + inpart, true, true, fs, stdin, stdout, memory);
      var p, q := fs.place(FirstToken(inpart).value), fs.place(FirstToken(outpart).value);
      SameExecution(inFirst, outFirst) <==> !(CreatesItsInput(fs, p, q) && Runnable(pre, memory))
  {
    InputFirst(pre, inpart, outpart, fs, stdin, stdout, memory);
    OutputFirst(pre, inpart, outpart, fs, stdin, stdout, memory);
  }

  /** The order decides what is left in the file system exactly when the input
      cannot be opened beforehand and opening the output changes something. */
  lemma WhenFilesDiffer(pre: string, inpart: string, outpart: string, fs: Files, stdin: Stream, stdout: Stream, memory: bool)
    requires '<' !in pre && '<' !in inpart && '<' !in outpart
    requires '>' !in pre && '>' !in inpart && '>' !in outpart
    requires FirstToken(inpart).Some? && FirstToken(outpart).Some?
    ensures var inFirst := Execute(pre + ['<'] + inpart + ['>'] + outpart, true, true, fs, stdin, stdout, memory);
      var outFirst := Execute(pre + ['>'] + outpart + ['<'] + inpart, true, true, fs, stdin, stdout, memory);
      var p, q := fs.place(FirstToken(inpart).value), fs.place(FirstToken(outpart).value);
      inFirst.1.nodes == outFirst.1.nodes <==>
        !(!Readable(fs, p) && Writable(fs, q) && (q !in fs.nodes || fs.nodes[q].data != ""))
  {
    InputFirst(pre, inpart, outpart, fs, stdin, stdout, memory);
    OutputFirst(pre, inpart, outpart, fs, stdin, stdout, memory);
  }

  lemma OneLetter(w: string)
    requires |w| == 1 && w[0] !in BLANKS
    ensures Runs(w, BLANKS, 0) == [(0, 1)] && FirstToken(w) == Some(w)
  {
    RunsCons(w, BLANKS, 0, 0, 1);
    RunsNil(w, BLANKS, 1);
    assert w[0..1] == w;
  }

  /** An input on which the order matters: `c<f>f` with f missing is executed,
      `c>f<f` is not. */
  lemma OrderCanMatter(fs: Files, stdin: Stream, stdout: Stream)
    requires fs.place("f") == 0 && 0 !in fs.nodes && 0 in fs.creatable && fs.created.readable
    ensures Execute("c<f>f", true, true, fs, stdin, stdout, true)
         == (Executes("c", Opened(0), Opened(0)), Written(fs, 0))
    ensures Execute("c>f<f", true, true, fs, stdin, stdout, true) == (Returns, fs)
  {
    var c, f := "c", "f";
    OneLetter(c);
    OneLetter(f);
    assert c + ['<'] + f + ['>'] + f == "c<f>f";
    assert c + ['>'] + f + ['<'] + f == "c>f<f";
    InputFirst(c, f, f, fs, stdin, stdout, true);
    OutputFirst(c, f, f, fs, stdin, stdout, true);
  }

  // -------------------------------------------------- on the command buffer

  /** The string at the start of the buffer. */
  function Text(m: seq<char>): string
    requires Terminated(m, 0)
  {
    m[..End(m, 0)]
  }

  method StrChr(mem: array<char>, ch: char) returns (r: Pointer)
    requires Terminated(mem[..], 0) && ch != NUL
    ensures var i := Index(Text(mem[..]), ch);
      r == if i == |Text(mem[..])| then Null else At(i)
  {
    ghost var c := Text(mem[..]);
    var i := 0;
    while mem[i] != NUL && mem[i] != ch
      invariant 0 <= i <= |c| && forall k :: 0 <= k < i ==> c[k] != ch
      decreases |c| - i
    {
      assert mem[i] == c[i];
      i := i + 1;
    }
    if mem[i] == NUL {
      r := Null;
    } else {
      assert mem[i] == c[i];
      IndexIs(c, ch, i);
      r := At(i);
    }
  }

  /** The string at p, as open(2) reads it. */
  method ReadString(mem: array<char>, p: nat) returns (name: string)
    requires Terminated(mem[..], p)
    ensures name == mem[p..End(mem[..], p)]
  {
    ghost var n := End(mem[..], p);
    name := [];
    var i := p;
    while mem[i] != NUL
      invariant p <= i <= n && name == mem[p..i]
      decreases n - i
    {
      name := name + [mem[i]];
      i := i + 1;
    }
  }

  lemma FrontIsLeft(m: seq<char>, i: nat, m': seq<char>)
    requires Terminated(m, 0) && i < End(m, 0)
    requires |m'| == |m| && m'[i] == NUL && forall k :: 0 <= k < i ==> m'[k] == m[k]
    ensures Terminated(m', 0) && Text(m') == Text(m)[..i]
  {
    EndIsUnique(m', 0, i);
  }

  lemma StringRead(m: seq<char>, p: nat, text: string)
    requires StringAt(m, p, text)
    ensures Terminated(m, p) && m[p..End(m, p)] == text
  {
    forall q | p <= q < p + |text| ensures m[q] != NUL {
      assert m[q] == text[q - p] && text[q - p] in text;
    }
    EndIsUnique(m, p, p + |text|);
  }

  lemma FirstTokenBehind(c: string, i: nat)
    requires i < |c|
    ensures FirstToken(c[i + 1..]) == TokenIn(c, Runs(c, BLANKS, i + 1))
  {
    var u := c[i + 1..];
    var short, runs := Runs(u, BLANKS, 0), Runs(c, BLANKS, i + 1);
    RunsShift(u, c, BLANKS, i + 1, 0);
    if short != [] {
      TokenOfSuffix(c, i + 1, short[0]);
    }
  }

  lemma CutOfCut(m: seq<char>, n: nat, i: nat, j: nat)
    requires i <= j <= n <= |m|
    ensures m[..n][i..j] == m[i..j]
  {
  }

  /** What strtok finds behind the cut is a string of its own, the first token of
      the text behind it. */
  lemma NameFound(m: seq<char>, i: nat, m1: seq<char>, m': seq<char>, token: Pointer, lasts: nat)
    requires Terminated(m, 0) && i < End(m, 0) && |m1| == |m|
    requires RunFound(m, End(m, 0), BLANKS, m1, i + 1, m', token, lasts)
    requires Untouched(m1, m, i + 1, End(m, 0))
    ensures token.Null? ==> TokenIn(Text(m), Runs(Text(m), BLANKS, i + 1)) == None
    ensures token.At? ==>
              && i < token.offset && Terminated(m', token.offset)
              && TokenIn(Text(m), Runs(Text(m), BLANKS, i + 1)) == Some(m'[token.offset..End(m', token.offset)])
  {
    if token.At? {
      var c := Text(m);
      var j := Scan(c, BLANKS, token.offset);
      TokenIsString(m, |c|, m1, i + 1, token.offset, j);
      CutOfCut(m, |c|, token.offset, j);
      StringRead(m', token.offset, c[token.offset..j]);
    }
  }

  lemma FrontSurvives(m: seq<char>, i: nat, m': seq<char>, token: Pointer, lasts: nat)
    requires Terminated(m, 0) && i < End(m, 0)
    requires RunFound(m, End(m, 0), BLANKS, m[i := NUL], i + 1, m', token, lasts)
    ensures Terminated(m', 0) && Text(m') == Text(m)[..i]
  {
    var m1 := m[i := NUL];
    assert |m'| == |m| && m'[i] == NUL;
    assert forall k :: 0 <= k < i ==> m'[k] == m1[k] && m1[k] == m[k];
    FrontIsLeft(m, i, m');
  }

  /** The file named behind the cut at position i of the command at m. */
  method NameBehind(cmd: array<char>, i: nat, ghost m: seq<char>) returns (file: Option<string>)
    requires Terminated(m, 0) && i < End(m, 0) && cmd[..] == m[i := NUL]
    modifies cmd
    ensures Terminated(cmd[..], 0) && Text(cmd[..]) == Text(m)[..i]
    ensures file == FirstToken(Text(m)[i + 1..])
  {
    ghost var m1 := cmd[..];
    var token, lasts := NextToken(cmd, i + 1, BLANKS, m, End(m, 0));
    FirstTokenBehind(Text(m), i);
    NameFound(m, i, m1, cmd[..], token, lasts);
    FrontSurvives(m, i, cmd[..], token, lasts);
    if token == Null {
      return None;
    }
    var name := ReadString(cmd, token.offset);
    file := Some(name);
  }

  /** Cuts the redirection at the first `ch` out of the command and finds the
      name of its file. */
  method CutRedirection(cmd: array<char>, ch: char) returns (file: Option<string>)
    requires Terminated(cmd[..], 0) && ch != NUL
    modifies cmd
    ensures Terminated(cmd[..], 0)
    ensures (Text(cmd[..]), file) == Cut(old(Text(cmd[..])), ch)
  {
    ghost var m := cmd[..];
    var place := StrChr(cmd, ch);
    if place == Null {
      return None;
    }
    cmd[place.offset] := NUL;
    assert cmd[..] == m[place.offset := NUL];
    file := NameBehind(cmd, place.offset, m);
  }

  /** The standard streams of the process, changed by dup2, and the files. */
  class Process {
    var stdin: Stream
    var stdout: Stream
    var files: Files

    constructor (stdin: Stream, stdout: Stream, files: Files)
      ensures this.stdin == stdin && this.stdout == stdout && this.files == files
    {
      this.stdin, this.stdout, this.files := stdin, stdout, files;
    }

    method ParseAndRedirectIn(cmd: array<char>) returns (r: int)
      requires Terminated(cmd[..], 0)
      modifies this`stdin, cmd
      ensures Terminated(cmd[..], 0)
      ensures var (c, file) := Cut(old(Text(cmd[..])), '<');
        && Text(cmd[..]) == c
        && r == (if InputOpens(files, file) then 0 else -1)
        && stdin == if r == 0 then Redirected(files, old(stdin), file) else old(stdin)
    {
      var file := CutRedirection(cmd, '<');
      if file == None {
        return 0;
      }
      var infile := files.place(file.value);
      if infile !in files.nodes || !files.nodes[infile].mode.readable {
        return -1;
      }
      stdin := Opened(infile);
      r := 0;
    }

    method ParseAndRedirectOut(cmd: array<char>) returns (r: int)
      requires Terminated(cmd[..], 0)
      modifies this`stdout, this`files, cmd
      ensures Terminated(cmd[..], 0)
      ensures var (c, file) := Cut(old(Text(cmd[..])), '>');
        && Text(cmd[..]) == c
        && r == (if OutputOpens(old(files), file) then 0 else -1)
        && files == AfterOutput(old(files), file)
        && stdout == if r == 0 then Redirected(files, old(stdout), file) else old(stdout)
    {
      var file := CutRedirection(cmd, '>');
      if file == None {
        return 0;
      }
      r := OpenOutput(files.place(file.value));
      if r == -1 {
        return -1;
      }
      stdout := Opened(files.place(file.value));
    }

    /** open with FFLAG and FMODE: truncates the file, or creates it. */
    method OpenOutput(p: nat) returns (r: int)
      modifies this`files
      ensures r == (if Writable(old(files), p) then 0 else -1)
      ensures files == if r == 0 then Written(old(files), p) else old(files)
    {
      if p in files.nodes {
        var node := files.nodes[p];
        if !node.mode.writable {
          return -1;
        }
        files := files.(nodes := files.nodes[p := node.(data := "")]);
      } else {
        if p !in files.creatable {
          return -1;
        }
        files := files.(nodes := files.nodes[p := Node(files.created, "")]);
      }
      r := 0;
    }

    /** executeredirect, up to the call of execvp: on Executes the argument array
        is the one for the command that is left, and the streams are set. */
    method ExecuteRedirect(heap: Heap, cmd: array<char>, input: bool, output: bool, memory: bool)
      returns (outcome: Outcome, chargv: array?<CharPtr>, ghost block: array?<char>)
      requires Terminated(cmd[..], 0)
      modifies this, heap, cmd
      ensures (outcome, files) == Execute(old(Text(cmd[..])), input, output, old(files), old(stdin), old(stdout), memory)
      ensures outcome.Executes? ==>
                && outcome.stdin == stdin && outcome.stdout == stdout
                && chargv != null && IsArgv(chargv, block, outcome.command, " \t")
    {
      chargv, block := null, null;
      ghost var c := Text(cmd[..]);
      var inNow := input;
      if input && output {
        var pin := StrChr(cmd, '<');
        var pout := StrChr(cmd, '>');
        if pin != Null && pout != Null && pin.offset > pout.offset {
          var r := ParseAndRedirectIn(cmd);
          if r == -1 {
            return Returns, null, null;
          }
          inNow := false;
        }
      }
      outcome, chargv, block := FinishRedirect(heap, cmd, inNow, output, memory);
    }

    /** Lines 24 to 33. */
    method FinishRedirect(heap: Heap, cmd: array<char>, input: bool, output: bool, memory: bool)
      returns (outcome: Outcome, chargv: array?<CharPtr>, ghost block: array?<char>)
      requires Terminated(cmd[..], 0)
      modifies this, heap, cmd
      ensures (outcome, files) == Finish(old(Text(cmd[..])), input, output, old(files), old(stdin), old(stdout), memory)
      ensures outcome.Executes? ==>
                && outcome.stdin == stdin && outcome.stdout == stdout
                && chargv != null && IsArgv(chargv, block, outcome.command, " \t")
    {
      chargv, block := null, null;
      if output {
        var r := ParseAndRedirectOut(cmd);
        if r == -1 {
          return Fails, null, null;
        }
      }
      if input {
        var r := ParseAndRedirectIn(cmd);
        if r == -1 {
          return Fails, null, null;
        }
      }
      var command := ReadString(cmd, 0);
      var argvp := new ArgvPointer();
      var numtokens;
      numtokens, block := MakeArgv.MakeArgv(heap, Some(command), Some(BLANKS), argvp, memory, memory);
      if numtokens <= 0 {
        outcome := Fails;
      } else {
        outcome, chargv := Executes(command, stdin, stdout), argvp.argv;
      }
    }
  }
}
