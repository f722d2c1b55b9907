/** The thread barrier of chapter13/tbarrier.c.  Each entry of the call table is
    one call of `initbarrier` or `waitbarrier`, made by some thread at some
    time; waiting calls may wake up spuriously. */
module Barrier {
  import opened Threads

  datatype Code = Ok | Einval

  datatype Pc =
    | NotCalled
    | InitLock(n: int)
    | InitIn(n: int)         // initbarrier, holding the lock
    | InitUnlock(n: int, code: Code)
    | InitReturned(n: int, code: Code)
    | Lock
    | Arrive                 // waitbarrier, holding the lock, before count++
    | Test                   // holding the lock at the while test
    | Asleep
    | Woken
    | Broadcast
    | Unlock(code: Code)
    | Returned(code: Code)
  {
    predicate HoldsLock()
    {
      InitIn? || InitUnlock? || Arrive? || Test? || Broadcast? || Unlock?
    }

    predicate Finished() { InitReturned? || Returned? }

    predicate InProgress() { !Finished() && !NotCalled? }
  }

  datatype State = State(limit: int, count: int, lock: Owner, calls: seq<Pc>)

  /** The statics and the two regions executed under the lock, in place. */
  class Statics {
    var limit: int
    var count: int

    constructor ()
      ensures limit == 0 && count == 0
    {
      limit, count := 0, 0;
    }

    /** Lines 14 to 18: the barrier can be initialised only once. */
    method SetLimit(n: int) returns (code: Code)
      modifies this
      ensures old(limit) == 0 ==> code == Ok && limit == n
      ensures old(limit) != 0 ==> code == Einval && limit == old(limit)
      ensures (limit, code) == LimitRegion(old(limit), n) && count == old(count)
    {
      if limit != 0 {
        return Einval;
      }
      limit := n;
      code := Ok;
    }

    /** Lines 28 to 32: count the arrival, if there is a barrier. */
    method Arrive() returns (code: Code)
      modifies this
      ensures old(limit) > 0 ==> code == Ok && count == old(count) + 1
      ensures old(limit) <= 0 ==> code == Einval && count == old(count)
      ensures (count, code) == ArriveRegion(old(limit), old(count)) && limit == old(limit)
    {
      if limit <= 0 {
        return Einval;
      }
      count := count + 1;
      code := Ok;
    }
  }

  function LimitRegion(limit: int, n: int): (int, Code)
  {
    if limit != 0 then (limit, Einval) else (n, Ok)
  }

  function ArriveRegion(limit: int, count: int): (int, Code)
  {
    if limit <= 0 then (count, Einval) else (count + 1, Ok)
  }

  ghost predicate Initial(s: State)
  {
    && s.limit == 0 && s.count == 0 && s.lock == Free
    && forall c :: 0 <= c < |s.calls| ==> s.calls[c] == NotCalled
  }

  function Go(s: State, c: nat, pc: Pc): State
    requires c < |s.calls|
  {
    s.(calls := s.calls[c := pc])
  }

  function Wake(p: Pc): Pc { if p.Asleep? then Woken else p }

  function WakeAll(calls: seq<Pc>): (r: seq<Pc>)
  {
    seq(|calls|, i requires 0 <= i < |calls| => Wake(calls[i]))
  }

  /** Call `c` takes one step; `start` is what a call that starts now does. */
  ghost predicate StepBy(s: State, s': State, c: nat, start: Pc)
  {
    && c < |s.calls|
    && match s.calls[c]
       case NotCalled => (start.Lock? || start.InitLock?) && s' == Go(s, c, start)
       case InitLock(n) => s.lock == Free && s' == Go(s, c, InitIn(n)).(lock := Held(c))
       case InitIn(n) =>
         var (limit, code) := LimitRegion(s.limit, n);
         s' == Go(s, c, InitUnlock(n, code)).(limit := limit)
       case InitUnlock(n, code) => s' == Go(s, c, InitReturned(n, code)).(lock := Free)
       case Lock => s.lock == Free && s' == Go(s, c, Arrive).(lock := Held(c))
       case Arrive =>
         var (count, code) := ArriveRegion(s.limit, s.count);
         s' == Go(s, c, if code == Ok then Test else Unlock(code)).(count := count)
       case Test =>
         if s.count < s.limit then s' == Go(s, c, Asleep).(lock := Free)
         else s' == Go(s, c, Broadcast)
       case Asleep => s' == Go(s, c, Woken)  // a spurious wakeup
       case Woken => s.lock == Free && s' == Go(s, c, Test).(lock := Held(c))
       case Broadcast => s' == s.(calls := WakeAll(s.calls)[c := Unlock(Ok)])
       case Unlock(code) => s' == Go(s, c, Returned(code)).(lock := Free)
       case InitReturned(_, _) => false
       case Returned(_) => false
  }

  /** A waitbarrier call that has been counted. */
  predicate HasArrived(p: Pc)
  {
    p.Test? || p.Asleep? || p.Woken? || p.Broadcast? || p == Unlock(Ok) || p == Returned(Ok)
  }

  function Arrivals(p: Pc): int { if HasArrived(p) then 1 else 0 }

  ghost predicate LockInv(s: State)
  {
    && (s.lock.Held? ==> s.lock.tid < |s.calls|)
    && forall c :: 0 <= c < |s.calls| ==> (s.calls[c].HoldsLock() <==> s.lock == Held(c))
  }

  ghost predicate CountInv(s: State)
  {
    && s.count == Sum(s.calls, Arrivals)
    && (s.limit <= 0 ==> s.count == 0)
  }

  /** Past the loop means that enough calls have arrived. */
  ghost predicate OpenInv(s: State)
  {
    forall c :: 0 <= c < |s.calls| ==>
      && (HasArrived(s.calls[c]) ==> s.limit > 0)
      && (s.calls[c].Broadcast? || s.calls[c] == Unlock(Ok) || s.calls[c] == Returned(Ok) ==>
            s.count >= s.limit)
  }

  /** Once the barrier is open, whoever still sleeps is about to be woken. */
  ghost predicate SleepInv(s: State)
  {
    s.limit > 0 && s.count >= s.limit && (exists c :: 0 <= c < |s.calls| && s.calls[c].Asleep?) ==>
      && s.lock.Held? && s.lock.tid < |s.calls|
      && (s.calls[s.lock.tid].Test? || s.calls[s.lock.tid].Broadcast?)
  }

  /** This call of initbarrier(n) has set the limit. */
  predicate HasSet(p: Pc, n: int)
  {
    (p.InitUnlock? || p.InitReturned?) && p.n == n && n != 0 && p.code == Ok
  }

  /** The limit is the argument of the one initbarrier that set it. */
  ghost predicate LimitInv(s: State)
  {
    && (s.limit != 0 ==> exists c :: 0 <= c < |s.calls| && HasSet(s.calls[c], s.limit))
    && (forall c, n :: 0 <= c < |s.calls| && HasSet(s.calls[c], n) ==> n == s.limit)
    && (forall c, d, n, m :: 0 <= c < d < |s.calls| && HasSet(s.calls[c], n) ==> !HasSet(s.calls[d], m))
  }

  ghost predicate Inv(s: State)
  {
    LockInv(s) && CountInv(s) && OpenInv(s) && SleepInv(s) && LimitInv(s)
  }

  lemma StepKeepsLock(s: State, s': State, c: nat, start: Pc)
    requires LockInv(s) && StepBy(s, s', c, start)
    ensures LockInv(s')
  {
  }

  lemma StepKeepsCount(s: State, s': State, c: nat, start: Pc)
    requires CountInv(s) && OpenInv(s) && StepBy(s, s', c, start)
    ensures CountInv(s')
  {
    if s.calls[c].Broadcast? {
      var woken := WakeAll(s.calls);
      SumMonotone(s.calls, Arrivals, woken, Arrivals);
      SumMonotone(woken, Arrivals, s.calls, Arrivals);
      SumUpdate(woken, c, Unlock(Ok), Arrivals);
    } else {
      SumUpdate(s.calls, c, s'.calls[c], Arrivals);
      assert s'.calls == s.calls[c := s'.calls[c]];
    }
  }

  lemma StepKeepsOpen(s: State, s': State, c: nat, start: Pc)
    requires CountInv(s) && OpenInv(s) && StepBy(s, s', c, start)
    ensures OpenInv(s')
  {
    assert forall i :: 0 <= i < |s.calls| && i != c ==> s'.calls[i] == s.calls[i] || s.calls[i].Asleep?;
  }

  lemma StepKeepsSleep(s: State, s': State, c: nat, start: Pc)
    requires Inv(s) && StepBy(s, s', c, start)
    ensures SleepInv(s')
  {
    if !s.calls[c].Broadcast? {
      assert forall i :: 0 <= i < |s.calls| && i != c ==> s'.calls[i] == s.calls[i];
      assert !s.calls[c].InitIn? ==> s'.limit == s.limit;
    }
  }

  lemma StepMoves(s: State, s': State, c: nat, start: Pc)
    requires StepBy(s, s', c, start)
    ensures |s'.calls| == |s.calls|
    ensures forall d :: 0 <= d < |s.calls| && d != c ==> s'.calls[d] == Wake(s.calls[d]) || s'.calls[d] == s.calls[d]
    ensures s.calls[c].NotCalled? ==> s'.calls[c] == start
    ensures s'.limit == s.limit || (s.limit == 0 && s.calls[c].InitIn? && HasSet(s'.calls[c], s'.limit))
    ensures forall n :: HasSet(s'.calls[c], n) ==> HasSet(s.calls[c], n) || (s.limit == 0 && s'.limit == n)
    ensures forall n :: HasSet(s.calls[c], n) ==> HasSet(s'.calls[c], n)
  {
  }

  lemma StepKeepsLimit(s: State, s': State, c: nat, start: Pc)
    requires LimitInv(s) && StepBy(s, s', c, start)
    ensures LimitInv(s')
  {
    StepMoves(s, s', c, start);
    assert forall d, n :: 0 <= d < |s.calls| && d != c ==> (HasSet(s'.calls[d], n) <==> HasSet(s.calls[d], n));
    if s.limit != 0 {
      var d :| 0 <= d < |s.calls| && HasSet(s.calls[d], s.limit);
      assert HasSet(s'.calls[d], s'.limit);
    }
  }

  lemma StepKeepsInv(s: State, s': State, c: nat, start: Pc)
    requires Inv(s) && StepBy(s, s', c, start)
    ensures Inv(s')
  {
    StepKeepsLimit(s, s', c, start);
    StepKeepsLock(s, s', c, start);
    StepKeepsCount(s, s', c, start);
    StepKeepsOpen(s, s', c, start);
    StepKeepsSleep(s, s', c, start);
  }

  ghost predicate Next(s: State, s': State)
  {
    exists c, start :: StepBy(s, s', c, start)
  }

  ghost predicate Steps(run: seq<State>)
  {
    && |run| > 0
    && forall i :: 0 <= i < |run| - 1 ==> Next(run[i], run[i + 1])
  }

  ghost predicate IsRun(run: seq<State>)
  {
    Steps(run) && Initial(run[0])
  }

  lemma InitialInv(s: State)
    requires Initial(s)
    ensures Inv(s)
  {
    SumZero(s.calls, Arrivals);
  }

  lemma {:induction false} RunKeepsInv(run: seq<State>)
    requires IsRun(run)
    ensures Inv(run[|run| - 1])
  {
    var n := |run| - 1;
    if n == 0 {
      InitialInv(run[0]);
    } else {
      RunKeepsInv(run[..n]);
      assert Next(run[n - 1], run[n]);
      var c, start :| StepBy(run[n - 1], run[n], c, start);
      StepKeepsInv(run[n - 1], run[n], c, start);
    }
  }

  // ------------------------------------------- calls, arguments and results

  function CallAt(s: State, c: nat): Pc { if c < |s.calls| then s.calls[c] else NotCalled }

  /** A call of initbarrier(n), however far it is. */
  predicate Initialises(p: Pc, n: int)
  {
    (p.InitLock? || p.InitIn? || p.InitUnlock? || p.InitReturned?) && p.n == n
  }

  /** Any call can be made, and a call is started as it is made. */
  lemma CallStarts(s: State, c: nat, start: Pc) returns (s': State)
    requires CallAt(s, c).NotCalled? && c < |s.calls| && (start.Lock? || start.InitLock?)
    ensures StepBy(s, s', c, start) && s' == Go(s, c, start)
    ensures forall s'' :: StepBy(s, s'', c, start) ==> CallAt(s'', c) == start
  {
    s' := Go(s, c, start);
  }

  lemma NextKeepsCalls(s: State, s': State, d: nat)
    requires Next(s, s')
    ensures forall n :: Initialises(CallAt(s', d), n) ==>
              Initialises(CallAt(s, d), n) || (CallAt(s, d).NotCalled? && CallAt(s', d) == InitLock(n))
    ensures s.limit != 0 ==> s'.limit == s.limit
    ensures s.limit != 0 && !Decided(CallAt(s, d)) && Decided(CallAt(s', d)) ==> CallAt(s', d).code == Einval
    ensures Decided(CallAt(s, d)) ==> Decided(CallAt(s', d)) && CallAt(s', d).code == CallAt(s, d).code
    ensures s.limit > 0 && !Refused(CallAt(s, d)) ==> !Refused(CallAt(s', d))
  {
    var c, start :| StepBy(s, s', c, start);
    StepMoves(s, s', c, start);
  }

  /** An initbarrier that has been decided. */
  predicate Decided(p: Pc) { p.InitUnlock? || p.InitReturned? }

  /** A waitbarrier that found no barrier. */
  predicate Refused(p: Pc) { p == Unlock(Einval) || p == Returned(Einval) }

  /** A call of initbarrier works with the argument that it was made with. */
  lemma {:induction false} ArgumentIsKept(run: seq<State>, j: nat, d: nat, n: int) returns (m: nat)
    requires IsRun(run) && j < |run| && Initialises(CallAt(run[j], d), n)
    ensures m < j && CallAt(run[m], d).NotCalled? && CallAt(run[m + 1], d) == InitLock(n)
  {
    assert j > 0;
    assert Next(run[j - 1], run[j]);
    NextKeepsCalls(run[j - 1], run[j], d);
    if Initialises(CallAt(run[j - 1], d), n) {
      m := ArgumentIsKept(run, j - 1, d, n);
    } else {
      m := j - 1;
    }
  }

  /** Once set the limit stays, and every initbarrier decided later is refused. */
  lemma {:induction false} LimitIsFinal(run: seq<State>, i: nat, j: nat, d: nat)
    requires IsRun(run) && i <= j < |run| && run[i].limit != 0
    ensures run[j].limit == run[i].limit
    ensures !Decided(CallAt(run[i], d)) && Decided(CallAt(run[j], d)) ==> CallAt(run[j], d).code == Einval
    decreases j
  {
    if i < j {
      LimitIsFinal(run, i, j - 1, d);
      assert Next(run[j - 1], run[j]);
      NextKeepsCalls(run[j - 1], run[j], d);
    }
  }

  /** Once an initbarrier(n) with n != 0 has returned 0, the limit is n. */
  lemma InitSetsLimit(run: seq<State>, j: nat, d: nat, n: int)
    requires IsRun(run) && j < |run| && CallAt(run[j], d) == InitReturned(n, Ok) && n != 0
    ensures run[j].limit == n
  {
    InvAt(run, j);
    assert HasSet(run[j].calls[d], n);
  }

  /** A waitbarrier that has not been refused when the barrier is initialised
      never is. */
  lemma {:induction false} LateCallsSucceed(run: seq<State>, i: nat, j: nat, c: nat)
    requires IsRun(run) && i <= j < |run| && run[i].limit > 0 && !Refused(CallAt(run[i], c))
    ensures !Refused(CallAt(run[j], c))
    decreases j
  {
    if i < j {
      LateCallsSucceed(run, i, j - 1, c);
      LimitIsFinal(run, i, j - 1, c);
      assert Next(run[j - 1], run[j]);
      NextKeepsCalls(run[j - 1], run[j], c);
    }
  }

  lemma InvAt(run: seq<State>, j: nat)
    requires IsRun(run) && j < |run|
    ensures Inv(run[j])
  {
    var init := run[..j + 1];
    assert init[0] == run[0];
    assert forall i :: 0 <= i < j ==> Next(run[i], run[i + 1]);
    RunKeepsInv(init);
  }

  /** No waitbarrier call has returned success before some initbarrier(n) was
      called and n waitbarrier calls have arrived. */
  lemma NoEarlyReturn(run: seq<State>, c: nat) returns (d: nat, m: nat, n: int)
    requires IsRun(run)
    requires c < |run[|run| - 1].calls| && run[|run| - 1].calls[c] == Returned(Ok)
    ensures m < |run| - 1 && CallAt(run[m], d).NotCalled? && CallAt(run[m + 1], d) == InitLock(n)
    ensures HasSet(CallAt(run[|run| - 1], d), n)
    ensures 0 < n <= Sum(run[|run| - 1].calls, Arrivals)
  {
    RunKeepsInv(run);
    var s := run[|run| - 1];
    d :| d < |s.calls| && HasSet(s.calls[d], s.limit);
    n := s.limit;
    m := ArgumentIsKept(run, |run| - 1, d, n);
  }

  /** Once an initbarrier(n) has returned 0 and n calls have arrived, nobody is
      left asleep when the lock is free. */
  lemma NobodyLeftAsleep(run: seq<State>, d: nat, n: int, c: nat)
    requires IsRun(run) && run[|run| - 1].lock == Free
    requires CallAt(run[|run| - 1], d) == InitReturned(n, Ok) && 0 < n <= Sum(run[|run| - 1].calls, Arrivals)
    requires c < |run[|run| - 1].calls|
    ensures !run[|run| - 1].calls[c].Asleep?
  {
    RunKeepsInv(run);
    InitSetsLimit(run, |run| - 1, d, n);
  }

  function Weight(p: Pc): int
  {
    match p
    case NotCalled => 9
    case InitLock(_) => 3
    case InitIn(_) => 2
    case InitUnlock(_, _) => 1
    case InitReturned(_, _) => 0
    case Lock => 8
    case Arrive => 7
    case Asleep => 6
    case Woken => 5
    case Test => 4
    case Broadcast => 3
    case Unlock(_) => 1
    case Returned(_) => 0
  }

  ghost predicate Open(s: State) { 0 < s.limit <= s.count }

  /** Once the barrier is open, every step brings the calls closer to the end. */
  lemma StepDescends(s: State, s': State, c: nat, start: Pc)
    requires Open(s) && StepBy(s, s', c, start)
    ensures Open(s') && Sum(s'.calls, Weight) < Sum(s.calls, Weight)
  {
    var calls := if s.calls[c].Broadcast? then WakeAll(s.calls) else s.calls;
    SumMonotone(s.calls, Weight, calls, Weight);
    SumUpdate(calls, c, s'.calls[c], Weight);
    assert s'.calls == calls[c := s'.calls[c]];
  }

  /** Call `c` can take a step that is not a spurious wakeup. */
  ghost predicate CanMove(s: State, c: nat)
  {
    && c < |s.calls| && s.calls[c].InProgress() && !s.calls[c].Asleep?
    && exists s', start :: StepBy(s, s', c, start)
  }

  ghost predicate Stuck(s: State) { forall c :: 0 <= c < |s.calls| ==> !CanMove(s, c) }

  ghost predicate AllReturned(s: State) { forall c :: 0 <= c < |s.calls| ==> !s.calls[c].InProgress() }

  /** While some call is in progress, some call in progress can move. */
  lemma SomeCallMoves(s: State) returns (c: nat)
    requires Inv(s) && Open(s)
    requires !AllReturned(s)
    ensures CanMove(s, c)
  {
    if s.lock.Held? {
      c := s.lock.tid;
    } else {
      c :| c < |s.calls| && s.calls[c].InProgress();
    }
    var p := s.calls[c];
    var (limit, code) := LimitRegion(s.limit, if p.InitIn? then p.n else 0);
    var s' :=
      if p.InitLock? then Go(s, c, InitIn(p.n)).(lock := Held(c))
      else if p.InitIn? then Go(s, c, InitUnlock(p.n, code)).(limit := limit)
      else if p.InitUnlock? then Go(s, c, InitReturned(p.n, p.code)).(lock := Free)
      else if p.Lock? then Go(s, c, Arrive).(lock := Held(c))
      else if p.Arrive? then Go(s, c, Test).(count := s.count + 1)
      else if p.Test? then Go(s, c, Broadcast)
      else if p.Woken? then Go(s, c, Test).(lock := Held(c))
      else if p.Broadcast? then s.(calls := WakeAll(s.calls)[c := Unlock(Ok)])
      else Go(s, c, Returned(p.code)).(lock := Free);
    assert StepBy(s, s', c, Lock);
  }

  lemma NextDescends(s: State, s': State)
    requires Open(s) && Inv(s) && Next(s, s')
    ensures Open(s') && Inv(s') && Sum(s'.calls, Weight) < Sum(s.calls, Weight)
  {
    var c, start :| StepBy(s, s', c, start);
    StepDescends(s, s', c, start);
    StepKeepsInv(s, s', c, start);
  }

  lemma {:induction false} StepsDescend(run: seq<State>)
    requires Steps(run) && Open(run[0]) && Inv(run[0])
    ensures Open(run[|run| - 1]) && Inv(run[|run| - 1])
    ensures Sum(run[|run| - 1].calls, Weight) + |run| - 1 <= Sum(run[0].calls, Weight)
  {
    var n := |run| - 1;
    if n > 0 {
      var init := run[..n];
      assert init[0] == run[0] && init[|init| - 1] == run[n - 1];
      assert forall i :: 0 <= i < n - 1 ==> Next(run[i], run[i + 1]);
      StepsDescend(init);
      assert Next(run[n - 1], run[n]);
      NextDescends(run[n - 1], run[n]);
    }
  }

  /** Once an initbarrier(n) has returned 0 and n calls have arrived, every
      continuation is of bounded length and can stop only when every call that
      was made has returned. */
  lemma EveryArrivalReturns(run: seq<State>, d: nat, n: int, more: seq<State>)
    requires IsRun(run) && Steps(more) && more[0] == run[|run| - 1]
    requires CallAt(run[|run| - 1], d) == InitReturned(n, Ok) && 0 < n <= Sum(run[|run| - 1].calls, Arrivals)
    ensures |more| <= 1 + Sum(more[0].calls, Weight)
    ensures Stuck(more[|more| - 1]) ==> AllReturned(more[|more| - 1])
  {
    RunKeepsInv(run);
    InitSetsLimit(run, |run| - 1, d, n);
    StepsDescend(more);
    var last := more[|more| - 1];
    SumBounds(last.calls, Weight);
    if !AllReturned(last) {
      var c := SomeCallMoves(last);
    }
  }
}
