/** File-descriptor tables and the three calls that change them. */
module Descriptors {

  const STDIN: nat := 0
  const STDOUT: nat := 1

  /** What a descriptor refers to. */
  datatype End = Other(id: int) | ReadEnd(pipe: nat) | WriteEnd(pipe: nat)

  type Table = map<nat, End>

  function Piped(t: Table, r: nat, w: nat, pipe: nat): Table
  {
    t[r := ReadEnd(pipe)][w := WriteEnd(pipe)]
  }

  function Dup2(t: Table, from: nat, to: nat): Table
    requires from in t
  {
    t[to := t[from]]
  }

  function Close(t: Table, fd: nat): Table
  {
    t - {fd}
  }

  /** Standard input and output are open and no pipe from `pipes` on is. */
  ghost predicate Usable(t: Table, pipes: nat)
  {
    && STDIN in t && STDOUT in t
    && forall fd :: fd in t && !t[fd].Other? ==> t[fd].pipe < pipes
  }

  /** A descriptor table changed in place. */
  class Process {
    var table: Table

    constructor (table: Table)
      ensures this.table == table
    {
      this.table := table;
    }

    /** pipe(fd): the kernel picks two free descriptors, `r` and `w`. */
    method Pipe(pipe: nat, r: nat, w: nat)
      requires r !in table && w !in table && r != w
      modifies this
      ensures table == Piped(old(table), r, w, pipe)
    {
      table := table[r := ReadEnd(pipe)];
      table := table[w := WriteEnd(pipe)];
    }

    method DoDup2(from: nat, to: nat)
      requires from in table
      modifies this
      ensures table == Dup2(old(table), from, to)
    {
      table := table[to := table[from]];
    }

    method DoClose(fd: nat)
      requires fd in table
      modifies this
      ensures table == Close(old(table), fd)
    {
      table := table - {fd};
    }
  }

  /** There is always a descriptor number beyond those in use. */
  lemma {:induction false} BeyondAll(s: set<nat>) returns (n: nat)
    ensures forall x :: x in s ==> x < n
  {
    if s == {} {
      n := 0;
    } else {
      var x :| x in s;
      var m := BeyondAll(s - {x});
      n := if x < m then m else x + 1;
      assert forall y :: y in s ==> y == x || y in s - {x};
    }
  }
}
