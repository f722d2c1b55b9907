/** The loop shared by chapter07/ring.c (lines 31 to 58) and
    chapter11/executecmdpipe.c (lines 27 to 44): each round makes a pipe and
    forks; the parent turns its standard output into the pipe and leaves the
    loop, the child turns its standard input into the pipe and goes on.  Parent
    and child run concurrently, one call at a time, in any interleaving. */
module ForkChain {
  import opened Threads
  import opened Descriptors

  datatype Pc =
    | Top                       // at the loop test
    | Forking                   // has the pipe, about to fork
    | Dup(parent: bool)
    | CloseRead(parent: bool)
    | CloseWrite(parent: bool)
    | Done(last: bool)          // out of the loop; last: the test failed

  /** A process: its loop counter, its `fd` array and its descriptor table. */
  datatype Proc = Proc(pc: Pc, i: nat, r: nat, w: nat, table: Table)

  /** The processes in order of creation and the number of pipes made so far. */
  datatype State = State(procs: seq<Proc>, pipes: nat)

  /** A loop `for (i = first; i < limit; i++)` entered with this table. */
  datatype Start = Start(first: nat, limit: nat, table: Table, pipes: nat)

  ghost predicate Valid(st: Start)
  {
    Usable(st.table, st.pipes) && st.first <= st.limit
  }

  ghost predicate Initial(st: Start, s: State)
  {
    && |s.procs| == 1 && s.pipes == st.pipes
    && s.procs[0].pc == Top && s.procs[0].i == st.first && s.procs[0].table == st.table
  }

  /** Process `k` makes one call; a pipe gets any two free descriptors `r`, `w`. */
  ghost predicate StepBy(st: Start, s: State, s': State, k: nat, r: nat, w: nat)
  {
    && k < |s.procs|
    && var p := s.procs[k];
       match p.pc
       case Top =>
         if p.i < st.limit then
           && r !in p.table && w !in p.table && r != w
           && s' == State(
                      s.procs[k := Proc(Forking, p.i, r, w, Piped(p.table, r, w, s.pipes))],
                      s.pipes + 1)
         else s' == s.(procs := s.procs[k := p.(pc := Done(true))])
       case Forking =>
         s' == s.(procs := s.procs[k := p.(pc := Dup(true))] + [p.(pc := Dup(false))])
       case Dup(parent) =>
         && p.w in p.table && p.r in p.table
         && var table := if parent then Dup2(p.table, p.w, STDOUT) else Dup2(p.table, p.r, STDIN);
            s' == s.(procs := s.procs[k := p.(pc := CloseRead(parent), table := table)])
       case CloseRead(parent) =>
         && p.r in p.table
         && s' == s.(procs := s.procs[k := p.(pc := CloseWrite(parent), table := Close(p.table, p.r))])
       case CloseWrite(parent) =>
         && p.w in p.table
         && s' == s.(procs := s.procs[k :=
                      p.(pc := if parent then Done(false) else Top,
                         i := if parent then p.i else p.i + 1,
                         table := Close(p.table, p.w))])
       case Done(_) => false
  }

  /** The table with which process `k` enters its first loop test. */
  function Entry(st: Start, k: nat): Table
  {
    if k == 0 then st.table else st.table[STDIN := ReadEnd(st.pipes + k - 1)]
  }

  /** The table of process `k`, read off its pc alone. */
  function Expected(st: Start, k: nat, p: Proc): Table
    requires p.pc in {Dup(false), CloseRead(false), CloseWrite(false)} ==> k > 0
  {
    match p.pc
    case Top => Entry(st, k)
    case Forking => Piped(Entry(st, k), p.r, p.w, st.pipes + k)
    case Dup(parent) =>
      var j := if parent then k else k - 1;
      Piped(Entry(st, j), p.r, p.w, st.pipes + j)
    case CloseRead(parent) =>
      if parent then Piped(Entry(st, k), p.r, p.w, st.pipes + k)[STDOUT := WriteEnd(st.pipes + k)]
      else Piped(Entry(st, k - 1), p.r, p.w, st.pipes + k - 1)[STDIN := ReadEnd(st.pipes + k - 1)]
    case CloseWrite(parent) =>
      if parent then Entry(st, k)[STDOUT := WriteEnd(st.pipes + k)][p.w := WriteEnd(st.pipes + k)]
      else Entry(st, k)[p.w := WriteEnd(st.pipes + k - 1)]
    case Done(last) =>
      if last then Entry(st, k) else Entry(st, k)[STDOUT := WriteEnd(st.pipes + k)]
  }

  predicate ParentSide(pc: Pc)
  {
    match pc
    case Top => false
    case Forking => false
    case Dup(parent) => parent
    case CloseRead(parent) => parent
    case CloseWrite(parent) => parent
    case Done(last) => !last
  }

  predicate ChildSide(pc: Pc) { pc in {Dup(false), CloseRead(false), CloseWrite(false)} }

  ghost predicate ProcInv(st: Start, k: nat, p: Proc)
  {
    && (ChildSide(p.pc) ==> k > 0)
    && p.table == Expected(st, k, p)
    && p.i == (if ChildSide(p.pc) then st.first + k - 1 else st.first + k)
    && st.first + k <= st.limit
    && (p.pc.Done? && p.pc.last ==> st.first + k == st.limit)
    && (!p.pc.Top? && !p.pc.Done? ==> p.r !in st.table && p.w !in st.table && p.r != p.w)
    && (p.pc.Forking? || ParentSide(p.pc) ==> st.first + k < st.limit)
  }

  /** The processes form a chain: all but the newest have left the loop. */
  ghost predicate Inv(st: Start, s: State)
  {
    && Valid(st) && |s.procs| > 0
    && (forall k :: 0 <= k < |s.procs| ==> ProcInv(st, k, s.procs[k]))
    && (forall k :: 0 <= k < |s.procs| ==> (ParentSide(s.procs[k].pc) <==> k < |s.procs| - 1))
    && s.pipes == st.pipes + |s.procs| - 1 + (if s.procs[|s.procs| - 1].pc.Forking? then 1 else 0)
  }

  /** The two closes leave just the redirected stream behind. */
  lemma CloseKeepsProc(st: Start, s: State, s': State, k: nat, r: nat, w: nat)
    requires Inv(st, s) && StepBy(st, s, s', k, r, w) && (s.procs[k].pc.CloseRead? || s.procs[k].pc.CloseWrite?)
    ensures k < |s'.procs| && ProcInv(st, k, s'.procs[k])
  {
    var p, q := s.procs[k], s'.procs[k];
    assert q.table == Expected(st, k, q);
  }

  lemma StepKeepsProc(st: Start, s: State, s': State, k: nat, r: nat, w: nat)
    requires Inv(st, s) && StepBy(st, s, s', k, r, w)
    ensures k < |s'.procs| && ProcInv(st, k, s'.procs[k])
  {
    if s.procs[k].pc.CloseRead? || s.procs[k].pc.CloseWrite? {
      CloseKeepsProc(st, s, s', k, r, w);
    }
  }

  /** Only the newest process forks, and its child continues the chain. */
  lemma ChildIsNewest(st: Start, s: State, s': State, k: nat, r: nat, w: nat)
    requires Inv(st, s) && StepBy(st, s, s', k, r, w) && s.procs[k].pc.Forking?
    ensures k == |s.procs| - 1 && |s'.procs| == |s.procs| + 1
    ensures forall j :: 0 <= j < k ==> s'.procs[j] == s.procs[j]
    ensures ParentSide(s'.procs[k].pc) && !ParentSide(s'.procs[k + 1].pc) && !s'.procs[k + 1].pc.Forking?
    ensures ProcInv(st, k + 1, s'.procs[k + 1])
  {
  }

  lemma StepKeepsInv(st: Start, s: State, s': State, k: nat, r: nat, w: nat)
    requires Inv(st, s) && StepBy(st, s, s', k, r, w)
    ensures Inv(st, s')
  {
    StepKeepsProc(st, s, s', k, r, w);
    if s.procs[k].pc.Forking? {
      ChildIsNewest(st, s, s', k, r, w);
    } else {
      assert forall j :: 0 <= j < |s.procs| && j != k ==> s'.procs[j] == s.procs[j];
    }
  }

  ghost predicate Next(st: Start, s: State, s': State)
  {
    exists k, r, w :: StepBy(st, s, s', k, r, w)
  }

  ghost predicate IsRun(st: Start, run: seq<State>)
  {
    && |run| > 0 && Initial(st, run[0])
    && forall i :: 0 <= i < |run| - 1 ==> Next(st, run[i], run[i + 1])
  }

  lemma {:induction false} RunKeepsInv(st: Start, run: seq<State>)
    requires Valid(st) && IsRun(st, run)
    ensures Inv(st, run[|run| - 1])
  {
    var n := |run| - 1;
    if n > 0 {
      RunKeepsInv(st, run[..n]);
      assert Next(st, run[n - 1], run[n]);
      var k, r, w :| StepBy(st, run[n - 1], run[n], k, r, w);
      StepKeepsInv(st, run[n - 1], run[n], k, r, w);
    }
  }

  ghost predicate AllDone(s: State)
  {
    forall k :: 0 <= k < |s.procs| ==> s.procs[k].pc.Done?
  }

  /** Whenever a process has left the loop, however far the others are, its table
      differs from the first one only in standard input and output. */
  lemma DoneTable(st: Start, run: seq<State>, k: nat)
    requires Valid(st) && IsRun(st, run)
    requires k < |run[|run| - 1].procs| && run[|run| - 1].procs[k].pc.Done?
    ensures var p, n := run[|run| - 1].procs[k], st.limit - st.first;
      && k <= n && p.i == st.first + k && p.pc == Done(k == n)
      && p.table.Keys == st.table.Keys
      && p.table[STDIN] == (if k == 0 then st.table[STDIN] else ReadEnd(st.pipes + k - 1))
      && p.table[STDOUT] == (if k == n then st.table[STDOUT] else WriteEnd(st.pipes + k))
      && forall fd :: fd in st.table && fd != STDIN && fd != STDOUT ==> p.table[fd] == st.table[fd]
  {
    RunKeepsInv(st, run);
    assert ProcInv(st, k, run[|run| - 1].procs[k]);
  }

  /** In the end there is one process a loop value and one more, and each table
      differs from the first one only in standard input and output. */
  lemma FinalTables(st: Start, run: seq<State>)
    requires Valid(st) && IsRun(st, run) && AllDone(run[|run| - 1])
    ensures var s, n := run[|run| - 1], st.limit - st.first;
      && |s.procs| == n + 1 && s.pipes == st.pipes + n
      && forall k :: 0 <= k <= n ==>
           var p := s.procs[k];
           && p.i == st.first + k && p.pc == Done(k == n)
           && p.table.Keys == st.table.Keys
           && p.table[STDIN] == (if k == 0 then st.table[STDIN] else ReadEnd(st.pipes + k - 1))
           && p.table[STDOUT] == (if k == n then st.table[STDOUT] else WriteEnd(st.pipes + k))
           && forall fd :: fd in st.table && fd != STDIN && fd != STDOUT ==> p.table[fd] == st.table[fd]
  {
    RunKeepsInv(st, run);
    var s := run[|run| - 1];
    assert s.procs[|s.procs| - 1].pc.last;
  }

  // ------------------------------------------------------------- termination

  function Weight(limit: nat): Proc -> int
  {
    (p: Proc) =>
      var rounds := if p.i < limit then 10 * (limit - p.i) else 0;
      match p.pc
      case Top => rounds + 1
      case Forking => rounds
      case Dup(parent) => if parent then 3 else rounds - 6
      case CloseRead(parent) => if parent then 2 else rounds - 7
      case CloseWrite(parent) => if parent then 1 else rounds - 8
      case Done(_) => 0
  }

  lemma ProcDescends(st: Start, s: State, s': State, k: nat, r: nat, w: nat)
    requires Inv(st, s) && StepBy(st, s, s', k, r, w)
    ensures k < |s'.procs|
    ensures var weight := Weight(st.limit);
      if s.procs[k].pc.Forking? then
        && |s'.procs| == |s.procs| + 1
        && s'.procs == s.procs[k := s'.procs[k]] + [s'.procs[|s.procs|]]
        && weight(s'.procs[k]) + weight(s'.procs[|s.procs|]) < weight(s.procs[k])
      else
        s'.procs == s.procs[k := s'.procs[k]] && weight(s'.procs[k]) < weight(s.procs[k])
  {
  }

  lemma StepDescends(st: Start, s: State, s': State, k: nat, r: nat, w: nat)
    requires Inv(st, s) && StepBy(st, s, s', k, r, w)
    ensures Sum(s'.procs, Weight(st.limit)) < Sum(s.procs, Weight(st.limit))
  {
    ProcDescends(st, s, s', k, r, w);
    SumUpdate(s.procs, k, s'.procs[k], Weight(st.limit));
    if s.procs[k].pc.Forking? {
      SumAppend(s.procs[k := s'.procs[k]], s'.procs[|s.procs|], Weight(st.limit));
    }
  }

  /** A process that is not done can always make its next call. */
  lemma ProcCanMove(st: Start, s: State, k: nat) returns (s': State)
    requires Inv(st, s) && k < |s.procs| && !s.procs[k].pc.Done?
    ensures Next(st, s, s')
  {
    var p := s.procs[k];
    var r := BeyondAll(p.table.Keys);
    match p.pc {
      case Top =>
        s' := if p.i < st.limit then
            State(s.procs[k := Proc(Forking, p.i, r, r + 1, Piped(p.table, r, r + 1, s.pipes))], s.pipes + 1)
          else s.(procs := s.procs[k := p.(pc := Done(true))]);
      case Forking =>
        s' := s.(procs := s.procs[k := p.(pc := Dup(true))] + [p.(pc := Dup(false))]);
      case Dup(parent) =>
        var table := if parent then Dup2(p.table, p.w, STDOUT) else Dup2(p.table, p.r, STDIN);
        s' := s.(procs := s.procs[k := p.(pc := CloseRead(parent), table := table)]);
      case CloseRead(parent) =>
        s' := s.(procs := s.procs[k := p.(pc := CloseWrite(parent), table := Close(p.table, p.r))]);
      case CloseWrite(parent) =>
        s' := s.(procs := s.procs[k :=
                   p.(pc := if parent then Done(false) else Top,
                      i := if parent then p.i else p.i + 1,
                      table := Close(p.table, p.w))]);
    }
    assert StepBy(st, s, s', k, r, r + 1);
  }

  lemma {:induction false} RunWeight(st: Start, run: seq<State>)
    requires Valid(st) && IsRun(st, run)
    ensures Sum(run[|run| - 1].procs, Weight(st.limit)) + |run| - 1 <= 10 * (st.limit - st.first) + 1
  {
    var n := |run| - 1;
    if n == 0 {
      assert run[0].procs == [] + [run[0].procs[0]];
      SumAppend([], run[0].procs[0], Weight(st.limit));
    } else {
      RunWeight(st, run[..n]);
      RunKeepsInv(st, run[..n]);
      assert Next(st, run[n - 1], run[n]);
      var k, r, w :| StepBy(st, run[n - 1], run[n], k, r, w);
      StepDescends(st, run[n - 1], run[n], k, r, w);
    }
  }

  ghost predicate Stuck(st: Start, s: State) { forall s' :: !Next(st, s, s') }

  /** Every interleaving is of bounded length and stops only when all are done. */
  lemma RunsEnd(st: Start, run: seq<State>)
    requires Valid(st) && IsRun(st, run)
    ensures |run| <= 10 * (st.limit - st.first) + 2
    ensures Stuck(st, run[|run| - 1]) ==> AllDone(run[|run| - 1])
  {
    RunWeight(st, run);
    RunKeepsInv(st, run);
    var s := run[|run| - 1];
    SumBounds(s.procs, Weight(st.limit));
    if !AllDone(s) {
      var k: nat :| k < |s.procs| && !s.procs[k].pc.Done?;
      var s' := ProcCanMove(st, s, k);
    }
  }
}
