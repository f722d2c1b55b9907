/** chapter11/executecmdpipe.c: a pipeline of commands. */
module Pipeline {
  import opened Descriptors
  import opened ForkChain

  /** How the loop at line 27 is entered for `count` commands. */
  function PipelineStart(count: nat, table: Table, pipes: nat): Start
    requires count > 0
  {
    Start(0, count - 1, table, pipes)
  }

  /** The call executeredirect(pipelist[command], input, output) with which a
      process ends (lines 37 and 45). */
  datatype Execution = Execution(command: nat, input: bool, output: bool)

  function Executes(p: Proc): Execution
    requires p.pc.Done?
  {
    Execution(p.i, p.i == 0, p.pc.last)
  }

  /** At the exec time of any command, however far the others are, for every
      number of commands and every interleaving: command k reads pipe k - 1, the
      first the original input, and writes pipe k, the last the original output;
      only the first may redirect input and only the last output; and nothing
      else changed. */
  lemma CommandIsConnected(count: nat, table: Table, pipes: nat, run: seq<State>, k: nat)
    requires count > 0 && Usable(table, pipes) && IsRun(PipelineStart(count, table, pipes), run)
    requires k < |run[|run| - 1].procs| && run[|run| - 1].procs[k].pc.Done?
    ensures var p := run[|run| - 1].procs[k];
      && k < count && Executes(p) == Execution(k, k == 0, k == count - 1)
      && p.table.Keys == table.Keys
      && p.table[STDIN] == (if k == 0 then table[STDIN] else ReadEnd(pipes + k - 1))
      && p.table[STDOUT] == (if k == count - 1 then table[STDOUT] else WriteEnd(pipes + k))
      && forall fd :: fd in table && fd != STDIN && fd != STDOUT ==> p.table[fd] == table[fd]
  {
    DoneTable(PipelineStart(count, table, pipes), run, k);
  }

  /** Once all are executing there is one process a command, and each new pipe
      end is open in exactly one place. */
  lemma PipelineIsConnected(count: nat, table: Table, pipes: nat, run: seq<State>)
    requires count > 0 && Usable(table, pipes)
    requires IsRun(PipelineStart(count, table, pipes), run) && AllDone(run[|run| - 1])
    ensures var s := run[|run| - 1];
      && |s.procs| == count && s.pipes == pipes + count - 1
      && (forall k :: 0 <= k < count ==> Executes(s.procs[k]) == Execution(k, k == 0, k == count - 1))
      && (forall pipe, k, fd :: pipes <= pipe < s.pipes && 0 <= k < count && fd in s.procs[k].table ==>
           && (s.procs[k].table[fd] == ReadEnd(pipe) <==> k == pipe - pipes + 1 && fd == STDIN)
           && (s.procs[k].table[fd] == WriteEnd(pipe) <==> k == pipe - pipes && fd == STDOUT))
  {
    FinalTables(PipelineStart(count, table, pipes), run);
  }
}
