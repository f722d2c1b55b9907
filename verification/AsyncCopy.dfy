/** chapter08/asyncmonitorsignal.c: a copy driven by the signal handler that
    runs when an asynchronous read has completed. */
module AsyncCopy {
  import opened Streams

  /** An error number; no call fails with 0. */
  type Errno = x: int | x != 0 witness 1

  const EINVAL: Errno := 22

  /** The control block as aio_error and aio_return see it.  Once the status has
      been retrieved, aio_error reports EINVAL until the next read starts. */
  datatype Request = Retrieved | InProgress | Complete(n: nat) | Errored(errno: Errno)

  datatype State = State(
    input: seq<byte>, bufsize: nat,
    request: Request, offset: nat, buf: seq<byte>,
    totalbytes: nat, doneflag: bool, globalerror: int, output: seq<byte>)

  /** seterror: only the first error is recorded. */
  function SetError(s: State, errno: Errno): State
  {
    s.(globalerror := if s.globalerror == 0 then errno else s.globalerror, doneflag := true)
  }

  /** initread, up to the outcome of the first readstart. */
  ghost predicate Initial(s: State)
  {
    && s.offset == 0 && s.totalbytes == 0 && s.output == [] && s.bufsize > 0
    && (if s.request == InProgress then !s.doneflag && s.globalerror == 0
        else s.request == Retrieved && s.doneflag && s.globalerror != 0)
  }

  /** The kernel finishes the read: some bytes from the offset on, none exactly
      at the end of the input, or an error. */
  ghost predicate KernelStep(s: State, s': State)
  {
    && s.request == InProgress
    && match s'.request
       case Complete(n) =>
         && (if s.offset >= |s.input| then n == 0
             else
               && 1 <= n <= s.bufsize && n <= |s'.buf| && s.offset + n <= |s.input|
               && s'.buf[..n] == s.input[s.offset..s.offset + n])
         && s' == s.(request := Complete(n), buf := s'.buf)
       case Errored(e) => s' == s.(request := Errored(e), buf := s'.buf)
       case _ => false
  }

  /** One run of aiohandler.  r_write gets `k` bytes out and fails with `errno`
      if that is not all; readstart fails with `errno` if not `restarted`. */
  ghost predicate HandlerStep(s: State, s': State, k: nat, restarted: bool, errno: Errno)
  {
    match s.request
    case InProgress => s' == s
    case Errored(e) => s' == SetError(s, e)
    case Retrieved => s' == SetError(s, EINVAL)
    case Complete(n) =>
      var s1 := s.(request := Retrieved, totalbytes := s.totalbytes + n, offset := s.offset + n);
      if n == 0 then s' == s1.(doneflag := true)
      else
        && k <= n <= |s.buf|
        && var s2 := s1.(output := s.output + s.buf[..k]);
           if k == n && restarted then s' == s2.(request := InProgress)
           else s' == SetError(s2, errno)
  }

  ghost predicate Next(s: State, s': State)
  {
    || KernelStep(s, s')
    || exists k, restarted, errno :: HandlerStep(s, s', k, restarted, errno)
  }

  ghost predicate Inv(s: State)
  {
    && s.totalbytes == s.offset <= |s.input|
    && s.output <= s.input[..s.totalbytes]
    && (s.globalerror == 0 ==> s.output == s.input[..s.totalbytes])
    && (s.globalerror != 0 ==> s.doneflag && (s.request.Retrieved? || s.request.Errored?))
    && (s.doneflag && s.globalerror == 0 ==> s.output == s.input && s.request.Retrieved?)
    && (!s.doneflag ==> !s.request.Retrieved?)
    && (s.request.Complete? ==>
          && s.offset + s.request.n <= |s.input|
          && (s.request.n == 0 ==> s.offset == |s.input|)
          && s.request.n <= |s.buf|
          && s.buf[..s.request.n] == s.input[s.offset..s.offset + s.request.n])
  }

  lemma HandlerKeepsInv(s: State, s': State, k: nat, restarted: bool, errno: Errno)
    requires Inv(s) && HandlerStep(s, s', k, restarted, errno)
    ensures Inv(s')
    ensures s.globalerror != 0 ==> s'.globalerror == s.globalerror
  {
    if s.request.Complete? && s.request.n > 0 {
      var n := s.request.n;
      assert s.input[..s.offset + n] == s.input[..s.offset] + s.buf[..n];
      assert s.buf[..k] <= s.buf[..n];
      assert s.output + s.buf[..k] <= s.input[..s.offset + n];
    } else if s.request.Complete? {
      assert s.input[..s.offset] == s.input;
    }
  }

  /** The error that geterror reports from now on. */
  function FirstError(old': int, errno: Errno): int { if old' != 0 then old' else errno }

  /** What one run of the handler does: nothing while the read goes on; the
      errors of the read, of a read whose status was retrieved before, of the
      write and of the next read are recorded and end the copy, as does the end
      of the input; otherwise all that was read has been written and the next read
      is in progress. */
  lemma HandlerEffect(s: State, s': State, k: nat, restarted: bool, errno: Errno)
    requires Inv(s) && HandlerStep(s, s', k, restarted, errno)
    ensures s.request.InProgress? ==> s' == s
    ensures s.request.Errored? || s.request.Retrieved? ==>
              && s'.doneflag && s'.output == s.output && s'.totalbytes == s.totalbytes
              && s'.globalerror == FirstError(s.globalerror, if s.request.Errored? then s.request.errno else 22)
    ensures s.request == Complete(0) ==>
              && s'.doneflag && s'.output == s.output == s.input && s'.totalbytes == |s.input|
              && s'.globalerror == s.globalerror && s'.request.Retrieved?
    ensures s.request.Complete? && s.request.n > 0 ==>
              && s'.totalbytes == s.totalbytes + s.request.n && s'.offset == s.offset + s.request.n
              && k <= s.request.n && s'.output == s.output + s.input[s.offset..s.offset + k]
              && (if k == s.request.n && restarted then
                    s'.request.InProgress? && s'.doneflag == s.doneflag && s'.globalerror == s.globalerror
                  else
                    s'.request.Retrieved? && s'.doneflag && s'.globalerror == FirstError(s.globalerror, errno))
  {
    if s.request.Complete? {
      assert s.buf[..s.request.n] == s.input[s.offset..s.offset + s.request.n];
      if 0 < k <= s.request.n {
        assert s.buf[..k] == s.buf[..s.request.n][..k] == s.input[s.offset..s.offset + k];
      }
      if s.request.n == 0 {
        assert s.input[..s.offset] == s.input;
      }
    }
  }

  lemma KernelKeepsInv(s: State, s': State)
    requires Inv(s) && KernelStep(s, s')
    ensures Inv(s') && s'.globalerror == s.globalerror
  {
  }

  ghost predicate IsRun(run: seq<State>)
  {
    && |run| > 0 && Initial(run[0])
    && forall i :: 0 <= i < |run| - 1 ==> Next(run[i], run[i + 1])
  }

  lemma NextKeepsInv(s: State, s': State)
    requires Inv(s) && Next(s, s')
    ensures Inv(s') && s'.input == s.input && (s.globalerror != 0 ==> s'.globalerror == s.globalerror)
  {
    if KernelStep(s, s') {
      KernelKeepsInv(s, s');
    } else {
      var k, restarted, errno :| HandlerStep(s, s', k, restarted, errno);
      HandlerKeepsInv(s, s', k, restarted, errno);
    }
  }

  lemma {:induction false} RunKeepsInv(run: seq<State>)
    requires IsRun(run)
    ensures Inv(run[|run| - 1])
  {
    var n := |run| - 1;
    if n > 0 {
      RunKeepsInv(run[..n]);
      assert Next(run[n - 1], run[n]);
      NextKeepsInv(run[n - 1], run[n]);
    }
  }

  /** In every run, after every step: the count is the file offset, what has been
      written is a prefix of that many input bytes, and all of them while there
      is no error; done without an error means that the output is the input. */
  lemma CopyIsExact(run: seq<State>)
    requires IsRun(run)
    ensures var s := run[|run| - 1];
      && s.totalbytes == s.offset <= |s.input|
      && s.output <= s.input[..s.totalbytes]
      && (s.globalerror == 0 ==> s.output == s.input[..s.totalbytes])
      && (s.doneflag && s.globalerror == 0 ==> s.output == s.input)
  {
    RunKeepsInv(run);
  }

  /** The first error recorded is the one that geterror reports ever after. */
  lemma {:induction false} FirstErrorIsKept(run: seq<State>, i: nat)
    requires IsRun(run) && i < |run| && run[i].globalerror != 0
    ensures run[|run| - 1].globalerror == run[i].globalerror && run[|run| - 1].doneflag
    decreases |run|
  {
    var n := |run| - 1;
    if i < n {
      FirstErrorIsKept(run[..n], i);
      RunKeepsInv(run[..n]);
      assert Next(run[n - 1], run[n]);
      NextKeepsInv(run[n - 1], run[n]);
    }
    RunKeepsInv(run);
  }

  /** A signal that arrives while a read is in progress changes nothing. */
  lemma BusySignalIsIgnored(s: State, s': State)
    requires s.request.InProgress? && Next(s, s') && s' != s
    ensures KernelStep(s, s')
  {
  }

  // ---------------------------------------------------- the handler in place

  class Copier {
    const input: seq<byte>
    const bufsize: nat
    const buf: array<byte>
    const fdout: Sink
    ghost const before: seq<byte>  // what fdout held at the start
    var request: Request
    var offset: nat
    var totalbytes: nat
    var doneflag: bool
    var globalerror: int

    /** Nothing that fdout held at the start is overwritten. */
    ghost predicate Valid()
      reads this, fdout
    {
      before <= fdout.contents
    }

    /** The output is what has been written since the start. */
    ghost function View(): State
      requires Valid()
      reads this, buf, fdout
    {
      State(input, bufsize, request, offset, buf[..], totalbytes, doneflag, globalerror, fdout.contents[|before|..])
    }

    /** initread */
    constructor (input: seq<byte>, buf: array<byte>, fdout: Sink, started: bool, errno: Errno)
      requires buf.Length > 0
      ensures Valid() && Initial(View()) && before == fdout.contents
      ensures this.input == input && this.buf == buf && this.fdout == fdout
      ensures bufsize == buf.Length
      ensures if started then request == InProgress else request == Retrieved && doneflag && globalerror == errno
    {
      this.input, this.bufsize, this.buf, this.fdout := input, buf.Length, buf, fdout;
      before := fdout.contents;
      offset, totalbytes, doneflag, globalerror := 0, 0, false, 0;
      request := Retrieved;
      new;
      var r := ReadStart(started, errno);
    }

    method DoSetError(errno: Errno)
      requires Valid()
      modifies this`globalerror, this`doneflag
      ensures Valid() && View() == SetError(old(View()), errno)
      ensures doneflag && globalerror == FirstError(old(globalerror), errno)
    {
      if globalerror == 0 {
        globalerror := errno;
      }
      doneflag := true;
    }

    method ReadStart(started: bool, errno: Errno) returns (r: int)
      requires Valid()
      modifies this`request, this`globalerror, this`doneflag
      ensures r == (if started then 0 else -1)
      ensures Valid() && View() == if started then old(View()).(request := InProgress) else SetError(old(View()), errno)
    {
      if !started {
        DoSetError(errno);
        return -1;
      }
      request := InProgress;
      r := 0;
    }

    /** Lines 31 to 34: writes what was read and starts the next read. */
    method WriteAndRestart(mystatus: nat, restarted: bool, errno: Errno) returns (ghost k: nat)
      requires Valid() && 0 < mystatus <= buf.Length
      modifies this`request, this`globalerror, this`doneflag, fdout
      ensures Valid() && k <= mystatus && (k == mystatus <==> fdout.failures == old(fdout.failures))
      ensures var s := old(View()).(output := old(View()).output + buf[..k]);
        View() == if k == mystatus && restarted then s.(request := InProgress) else SetError(s, errno)
    {
      ghost var was := fdout.contents;
      var written := RWrite(fdout, buf, mystatus);
      k := |fdout.contents| - |was|;
      assert fdout.contents[|before|..] == was[|before|..] + buf[..k];
      if written == -1 {
        DoSetError(errno);
      } else {
        var r := ReadStart(restarted, errno);
        if r == -1 {
          DoSetError(errno);
        }
      }
    }

    /** aiohandler; `errno` is the error of whichever call fails in it. */
    method AioHandler(restarted: bool, errno: Errno) returns (ghost k: nat)
      requires Valid() && Inv(View())
      modifies this, fdout
      ensures Valid() && HandlerStep(old(View()), View(), k, restarted, errno)
      ensures old(request).Complete? && old(request).n > 0 ==>
                (k == old(request).n <==> fdout.failures == old(fdout.failures))
      ensures Inv(View())
    {
      ghost var s := View();
      k := 0;
      match request {
        case InProgress =>
        case Errored(e) =>
          DoSetError(e);
        case Retrieved =>
          DoSetError(EINVAL);
        case Complete(mystatus) =>
          request := Retrieved;
          totalbytes := totalbytes + mystatus;
          offset := offset + mystatus;
          if mystatus == 0 {
            doneflag := true;
          } else {
            k := WriteAndRestart(mystatus, restarted, errno);
          }
      }
      HandlerKeepsInv(s, View(), k, restarted, errno);
    }
  }
}
