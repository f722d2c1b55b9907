/** chapter07/ring.c: a ring of n processes. */
module ProcessRing {
  import opened Descriptors
  import opened ForkChain

  /** Lines 18 to 30: one pipe joins standard output to standard input.  The
      kernel makes pipe number `pipes` and hands out the descriptors `r`, `w`. */
  method ConnectSelf(process: Process, pipes: nat, r: nat, w: nat)
    requires Usable(process.table, pipes)
    requires r !in process.table && w !in process.table && r != w
    modifies process
    ensures process.table == SelfConnected(old(process.table), pipes)
  {
    process.Pipe(pipes, r, w);
    process.DoDup2(r, STDIN);
    process.DoDup2(w, STDOUT);
    process.DoClose(r);
    process.DoClose(w);
    assert process.table.Keys == old(process.table).Keys;
  }

  function SelfConnected(table: Table, pipes: nat): Table
  {
    table[STDIN := ReadEnd(pipes)][STDOUT := WriteEnd(pipes)]
  }

  /** How the loop at line 31 is entered. */
  function RingStart(nprocs: nat, table: Table, pipes: nat): Start
  {
    Start(1, nprocs, SelfConnected(table, pipes), pipes + 1)
  }

  /** The process, counting from 0, that reads pipe number `pipes + x`. */
  function Reader(x: nat): nat { x }

  /** The process of `n` that writes pipe number `pipes + x`: the one before. */
  function Writer(n: nat, x: nat): nat
    requires n > 0
  {
    (x + n - 1) % n
  }

  lemma WriterIsPrevious(n: nat, x: nat)
    requires x < n
    ensures Writer(n, x) == if x == 0 then n - 1 else x - 1
  {
    if x > 0 {
      assert (x - 1 + n) % n == x - 1;
    }
  }

  /** In every final state of every interleaving, for every n: there are n
      processes, numbered 1 to n, and n new pipes; pipe x is open for reading
      in process x as its standard input, for writing in the process before it,
      cyclically, as its standard output, and nowhere else; and no process has
      any other descriptor than it started with. */
  lemma RingIsClosed(nprocs: nat, table: Table, pipes: nat, run: seq<State>)
    requires nprocs > 0 && Usable(table, pipes)
    requires IsRun(RingStart(nprocs, table, pipes), run) && AllDone(run[|run| - 1])
    ensures var s := run[|run| - 1];
      && |s.procs| == nprocs && s.pipes == pipes + nprocs
      && (forall k :: 0 <= k < nprocs ==>
           && s.procs[k].i == k + 1 && s.procs[k].table.Keys == table.Keys
           && forall fd :: fd in table && fd != STDIN && fd != STDOUT ==> s.procs[k].table[fd] == table[fd])
      && (forall pipe, k, fd :: pipes <= pipe < pipes + nprocs && 0 <= k < nprocs && fd in s.procs[k].table ==>
           && (s.procs[k].table[fd] == ReadEnd(pipe) <==> k == Reader(pipe - pipes) && fd == STDIN)
           && (s.procs[k].table[fd] == WriteEnd(pipe) <==> k == Writer(nprocs, pipe - pipes) && fd == STDOUT))
  {
    FinalTables(RingStart(nprocs, table, pipes), run);
    var s := run[|run| - 1];
    forall pipe, k, fd | pipes <= pipe < pipes + nprocs && 0 <= k < nprocs && fd in s.procs[k].table
      ensures s.procs[k].table[fd] == ReadEnd(pipe) <==> k == Reader(pipe - pipes) && fd == STDIN
      ensures s.procs[k].table[fd] == WriteEnd(pipe) <==> k == Writer(nprocs, pipe - pipes) && fd == STDOUT
    {
      WriterIsPrevious(nprocs, pipe - pipes);
    }
  }
}
