/** The bounded buffer built from two condition variables and single signals
    (chapter16/buffercond.c).  Any number of threads call `getitem` and
    `putitem`; waiting threads may also wake up spuriously. */
module CondBuffer {
  import opened Threads
  import opened BoundedRing

  /** The shared statics. */
  datatype Vars = Vars(ring: Ring, totalitems: int)

  datatype Outcome = MustWait | Took(item: Item) | Stored

  /** What `getitem` does under the lock at its loop test: wait, or remove. */
  function GetRegion(v: Vars): (Vars, Outcome)
    requires v.ring.bufout < |v.ring.slots|
  {
    if v.totalitems <= 0 then (v, MustWait)
    else (Vars(Remove(v.ring), v.totalitems - 1), Took(Front(v.ring)))
  }

  /** What `putitem` does under the lock at its loop test: wait, or insert. */
  function PutRegion(v: Vars, x: Item): (Vars, Outcome)
    requires v.ring.bufin < |v.ring.slots|
  {
    if v.totalitems >= BUFSIZE then (v, MustWait)
    else (Vars(Insert(v.ring, x), v.totalitems + 1), Stored)
  }

  ghost predicate Counted(v: Vars) { Holds(v.ring, v.totalitems) }

  /** The stored items, oldest first. */
  ghost function Queue(v: Vars): (q: seq<Item>)
    requires Counted(v)
    ensures |q| == v.totalitems
  {
    Contents(v.ring, v.totalitems)
  }

  /** getitem waits iff nothing is stored, and otherwise takes the oldest item. */
  lemma GetTakesOldest(v: Vars)
    requires Counted(v)
    ensures var (v', o) := GetRegion(v);
      && Counted(v')
      && (Queue(v) == [] ==> o == MustWait && Queue(v') == [])
      && (Queue(v) != [] ==> o == Took(Queue(v)[0]) && Queue(v') == Queue(v)[1..])
  {
    if v.totalitems > 0 {
      RemoveTakesOldest(v.ring, v.totalitems);
    }
  }

  /** putitem waits iff eight items are stored, and otherwise adds its item. */
  lemma PutAppends(v: Vars, x: Item)
    requires Counted(v)
    ensures var (v', o) := PutRegion(v, x);
      && Counted(v')
      && (|Queue(v)| == 8 ==> o == MustWait && Queue(v') == Queue(v))
      && (|Queue(v)| < 8 ==> o == Stored && Queue(v') == Queue(v) + [x])
  {
    if v.totalitems < BUFSIZE {
      InsertAppends(v.ring, v.totalitems, x);
    }
  }

  /** The same two regions on the static array, updated in place. */
  class Shared {
    const ring: Statics
    var totalitems: int

    ghost predicate Valid()
      reads this, ring, ring.buffer
    {
      ring.Valid() && Holds(ring.View(), totalitems)
    }

    ghost function View(): Vars
      reads this, ring, ring.buffer
      requires Valid()
    {
      Vars(ring.View(), totalitems)
    }

    ghost function Items(): seq<Item>
      reads this, ring, ring.buffer
      requires Valid()
    {
      Queue(View())
    }

    constructor ()
      ensures Valid() && fresh(ring) && fresh(ring.buffer)
      ensures View().totalitems == 0 && Items() == []
    {
      ring := new Statics();
      totalitems := 0;
    }

    method Get() returns (outcome: Outcome)
      requires Valid()
      modifies this, ring
      ensures Valid() && (View(), outcome) == GetRegion(old(View()))
      ensures old(Items()) == [] ==> outcome == MustWait && Items() == []
      ensures old(Items()) != [] ==> outcome == Took(old(Items())[0]) && Items() == old(Items())[1..]
    {
      GetTakesOldest(View());
      if totalitems <= 0 {
        return MustWait;
      }
      var item := ring.TakeOut();
      totalitems := totalitems - 1;
      outcome := Took(item);
    }

    method Put(item: Item) returns (outcome: Outcome)
      requires Valid()
      modifies this, ring, ring.buffer
      ensures Valid() && (View(), outcome) == PutRegion(old(View()), item)
      ensures |old(Items())| == 8 ==> outcome == MustWait && Items() == old(Items())
      ensures |old(Items())| < 8 ==> outcome == Stored && Items() == old(Items()) + [item]
    {
      PutAppends(View(), item);
      if totalitems >= BUFSIZE {
        return MustWait;
      }
      ring.PutIn(item);
      totalitems := totalitems + 1;
      outcome := Stored;
    }
  }

  datatype Pc =
    | Idle
    | GetLock               // getitem wants the lock
    | GetTest               // holds the lock at the while test
    | GetAsleep             // in the wait set of items
    | GetWoken              // woken, wants the lock back
    | GetSignal(got: Item)  // holds the lock, about to signal slots
    | GetUnlock(got: Item)
    | PutLock(item: Item)
    | PutTest(item: Item)
    | PutAsleep(item: Item) // in the wait set of slots
    | PutWoken(item: Item)
    | PutSignal             // holds the lock, about to signal items
    | PutUnlock
  {
    predicate HoldsLock()
    {
      GetTest? || GetSignal? || GetUnlock? || PutTest? || PutSignal? || PutUnlock?
    }

    predicate Asleep() { GetAsleep? || PutAsleep? }

    predicate Getting()
    {
      GetLock? || GetTest? || GetAsleep? || GetWoken? || GetSignal? || GetUnlock?
    }

    predicate Putting()
    {
      PutLock? || PutTest? || PutAsleep? || PutWoken? || PutSignal? || PutUnlock?
    }
  }

  datatype State = State(
    vars: Vars, lock: Owner, pcs: seq<Pc>, inserted: seq<Item>, removed: seq<Item>)

  ghost predicate Initial(s: State)
  {
    && Holds(s.vars.ring, 0) && s.vars.totalitems == 0 && s.lock == Free
    && s.inserted == [] && s.removed == []
    && forall t :: 0 <= t < |s.pcs| ==> s.pcs[t] == Idle
  }

  function Go(s: State, t: nat, pc: Pc): State
    requires t < |s.pcs|
  {
    s.(pcs := s.pcs[t := pc])
  }

  /** In the wait set of items. */
  predicate AwaitsItem(p: Pc) { p.GetAsleep? }

  /** In the wait set of slots. */
  predicate AwaitsSlot(p: Pc) { p.PutAsleep? }

  function Wake(p: Pc): Pc
  {
    if p.GetAsleep? then GetWoken else if p.PutAsleep? then PutWoken(p.item) else p
  }

  /** Thread `t` takes one step.  `start` is the call an idle thread makes and
      `woken` the table after a signal, which wakes `u`. */
  ghost predicate StepBy(s: State, s': State, t: nat, start: Pc, u: nat, woken: seq<Pc>)
  {
    && WellFormed(s.vars.ring) && t < |s.pcs|
    && match s.pcs[t]
       case Idle => (start.GetLock? || start.PutLock?) && s' == Go(s, t, start)
       case GetLock => s.lock == Free && s' == Go(s, t, GetTest).(lock := Held(t))
       case GetWoken => s.lock == Free && s' == Go(s, t, GetTest).(lock := Held(t))
       case GetAsleep => s' == Go(s, t, GetWoken)  // a spurious wakeup
       case GetTest =>
         (match GetRegion(s.vars)
          case (v, Took(x)) =>
            s' == Go(s, t, GetSignal(x)).(vars := v, removed := s.removed + [x])
          case (v, _) => s' == Go(s, t, GetAsleep).(lock := Free))
       case GetSignal(x) =>
         Signal(s.pcs, AwaitsSlot, Wake, u, woken) && s' == s.(pcs := woken[t := GetUnlock(x)])
       case GetUnlock(x) => s' == Go(s, t, Idle).(lock := Free)
       case PutLock(x) => s.lock == Free && s' == Go(s, t, PutTest(x)).(lock := Held(t))
       case PutWoken(x) => s.lock == Free && s' == Go(s, t, PutTest(x)).(lock := Held(t))
       case PutAsleep(x) => s' == Go(s, t, PutWoken(x))  // a spurious wakeup
       case PutTest(x) =>
         (match PutRegion(s.vars, x)
          case (v, Stored) =>
            s' == Go(s, t, PutSignal).(vars := v, inserted := s.inserted + [x])
          case (v, _) => s' == Go(s, t, PutAsleep(x)).(lock := Free))
       case PutSignal =>
         Signal(s.pcs, AwaitsItem, Wake, u, woken) && s' == s.(pcs := woken[t := PutUnlock])
       case PutUnlock => s' == Go(s, t, Idle).(lock := Free)
  }

  ghost predicate LockInv(s: State)
  {
    && (s.lock.Held? ==> s.lock.tid < |s.pcs|)
    && forall t :: 0 <= t < |s.pcs| ==> (s.pcs[t].HoldsLock() <==> s.lock == Held(t))
  }

  ghost predicate RingInv(s: State)
  {
    && s.vars.totalitems == |s.inserted| - |s.removed|
    && Queued(s.vars.ring, s.inserted, s.removed)
  }

  /** Consumers that will look at the buffer again, or are about to be told to. */
  function GetterDue(p: Pc): int { if p.GetWoken? || p.GetTest? || p.PutSignal? then 1 else 0 }

  function PutterDue(p: Pc): int { if p.PutWoken? || p.PutTest? || p.GetSignal? then 1 else 0 }

  ghost predicate WakeInv(s: State)
  {
    && (SomeAsleep(s.pcs, AwaitsItem) ==> s.vars.totalitems <= Sum(s.pcs, GetterDue))
    && (SomeAsleep(s.pcs, AwaitsSlot) ==> BUFSIZE - s.vars.totalitems <= Sum(s.pcs, PutterDue))
  }

  ghost predicate Inv(s: State)
  {
    LockInv(s) && RingInv(s) && WakeInv(s)
  }

  lemma StepKeepsLock(s: State, s': State, t: nat, start: Pc, u: nat, woken: seq<Pc>)
    requires LockInv(s) && StepBy(s, s', t, start, u, woken)
    ensures LockInv(s')
  {
  }

  lemma StepKeepsRing(s: State, s': State, t: nat, start: Pc, u: nat, woken: seq<Pc>)
    requires RingInv(s) && StepBy(s, s', t, start, u, woken)
    ensures RingInv(s')
  {
    if s.pcs[t].PutTest? && s.vars.totalitems < BUFSIZE {
      InsertQueues(s.vars.ring, s.inserted, s.removed, s.pcs[t].item);
    } else if s.pcs[t].GetTest? && s.vars.totalitems > 0 {
      RemoveQueues(s.vars.ring, s.inserted, s.removed);
    }
  }

  lemma Weigh(pcs: seq<Pc>, t: nat, p: Pc)
    requires t < |pcs|
    ensures Sum(pcs[t := p], GetterDue) == Sum(pcs, GetterDue) - GetterDue(pcs[t]) + GetterDue(p)
    ensures Sum(pcs[t := p], PutterDue) == Sum(pcs, PutterDue) - PutterDue(pcs[t]) + PutterDue(p)
  {
    SumUpdate(pcs, t, p, GetterDue);
    SumUpdate(pcs, t, p, PutterDue);
  }

  lemma NonNegative(pcs: seq<Pc>)
    ensures Sum(pcs, GetterDue) >= 0 && Sum(pcs, PutterDue) >= 0
  {
    SumBounds(pcs, GetterDue);
    SumBounds(pcs, PutterDue);
  }

  /** A signal to `slots` wakes a producer for the slot just freed. */
  lemma SignalSlotsKeepsWake(s: State, s': State, t: nat, start: Pc, u: nat, woken: seq<Pc>)
    requires WakeInv(s) && StepBy(s, s', t, start, u, woken) && s.pcs[t].GetSignal?
    ensures WakeInv(s')
  {
    if woken != s.pcs {
      Weigh(s.pcs, u, woken[u]);
    }
    Weigh(woken, t, s'.pcs[t]);
    assert forall i :: 0 <= i < |s.pcs| && s'.pcs[i].Asleep() ==> s'.pcs[i] == s.pcs[i];
  }

  /** A signal to `items` wakes a consumer for the item just stored. */
  lemma SignalItemsKeepsWake(s: State, s': State, t: nat, start: Pc, u: nat, woken: seq<Pc>)
    requires WakeInv(s) && StepBy(s, s', t, start, u, woken) && s.pcs[t].PutSignal?
    ensures WakeInv(s')
  {
    if woken != s.pcs {
      Weigh(s.pcs, u, woken[u]);
    }
    Weigh(woken, t, s'.pcs[t]);
    assert forall i :: 0 <= i < |s.pcs| && s'.pcs[i].Asleep() ==> s'.pcs[i] == s.pcs[i];
  }

  lemma StepKeepsWake(s: State, s': State, t: nat, start: Pc, u: nat, woken: seq<Pc>)
    requires WakeInv(s) && StepBy(s, s', t, start, u, woken)
    ensures WakeInv(s')
  {
    if s.pcs[t].GetSignal? {
      SignalSlotsKeepsWake(s, s', t, start, u, woken);
    } else if s.pcs[t].PutSignal? {
      SignalItemsKeepsWake(s, s', t, start, u, woken);
    } else {
      var p := s'.pcs[t];
      assert s'.pcs == s.pcs[t := p];
      Weigh(s.pcs, t, p);
      NonNegative(s'.pcs);
      assert forall i :: 0 <= i < |s.pcs| && i != t ==> s'.pcs[i] == s.pcs[i];
    }
  }

  lemma StepKeepsInv(s: State, s': State, t: nat, start: Pc, u: nat, woken: seq<Pc>)
    requires Inv(s) && StepBy(s, s', t, start, u, woken)
    ensures Inv(s')
  {
    StepKeepsLock(s, s', t, start, u, woken);
    StepKeepsRing(s, s', t, start, u, woken);
    StepKeepsWake(s, s', t, start, u, woken);
  }

  ghost predicate Next(s: State, s': State)
  {
    exists t, start, u, woken :: StepBy(s, s', t, start, u, woken)
  }

  ghost predicate IsRun(run: seq<State>)
  {
    && |run| > 0 && Initial(run[0])
    && forall i :: 0 <= i < |run| - 1 ==> Next(run[i], run[i + 1])
  }

  lemma {:induction false} RunKeepsInv(run: seq<State>)
    requires IsRun(run)
    ensures Inv(run[|run| - 1])
  {
    var n := |run| - 1;
    if n > 0 {
      RunKeepsInv(run[..n]);
      assert Next(run[n - 1], run[n]);
      var t, start, u, woken :| StepBy(run[n - 1], run[n], t, start, u, woken);
      StepKeepsInv(run[n - 1], run[n], t, start, u, woken);
    }
  }

  function WokenGetter(p: Pc): int { if p.GetWoken? then 1 else 0 }

  function WokenPutter(p: Pc): int { if p.PutWoken? then 1 else 0 }

  /** In every run, wherever it stops with the lock free: if a consumer still
      waits, every stored item is matched by a woken consumer that has yet to
      recheck; if a producer still waits, every free slot is matched likewise. */
  lemma NoLostWakeup(run: seq<State>)
    requires IsRun(run) && run[|run| - 1].lock == Free
    ensures var s := run[|run| - 1];
      && (SomeAsleep(s.pcs, AwaitsItem) ==> s.vars.totalitems <= Sum(s.pcs, WokenGetter))
      && (SomeAsleep(s.pcs, AwaitsSlot) ==> BUFSIZE - s.vars.totalitems <= Sum(s.pcs, WokenPutter))
  {
    RunKeepsInv(run);
    var s := run[|run| - 1];
    assert forall t :: 0 <= t < |s.pcs| ==> !s.pcs[t].HoldsLock();
    SumMonotone(s.pcs, WokenGetter, s.pcs, GetterDue);
    SumMonotone(s.pcs, WokenPutter, s.pcs, PutterDue);
  }

  /** The buffer is a FIFO queue of at most BUFSIZE items in every run. */
  lemma FifoOrder(run: seq<State>)
    requires IsRun(run)
    ensures var s := run[|run| - 1];
      && s.removed <= s.inserted && |s.inserted| <= |s.removed| + 8
      && s.vars.totalitems == |s.inserted| - |s.removed|
  {
    RunKeepsInv(run);
  }

  /** Thread `t` can take a step of its own, not a spurious wakeup. */
  ghost predicate CanMove(s: State, t: nat)
  {
    && t < |s.pcs| && !s.pcs[t].Asleep() && s.pcs[t] != Idle
    && exists s', start, u, woken :: StepBy(s, s', t, start, u, woken)
  }

  ghost predicate SomeoneCanMove(s: State) { exists t :: CanMove(s, t) }

  lemma HolderCanMove(s: State, t: nat)
    requires Inv(s) && s.lock == Held(t)
    ensures CanMove(s, t)
  {
    var p := s.pcs[t];
    if p.GetTest? {
      var (v, o) := GetRegion(s.vars);
      var s' := if o.Took? then Go(s, t, GetSignal(o.item)).(vars := v, removed := s.removed + [o.item])
                else Go(s, t, GetAsleep).(lock := Free);
      assert StepBy(s, s', t, Idle, 0, s.pcs);
    } else if p.PutTest? {
      var (v, o) := PutRegion(s.vars, p.item);
      var s' := if o.Stored? then Go(s, t, PutSignal).(vars := v, inserted := s.inserted + [p.item])
                else Go(s, t, PutAsleep(p.item)).(lock := Free);
      assert StepBy(s, s', t, Idle, 0, s.pcs);
    } else if p.GetSignal? {
      var u: nat, woken := 0, s.pcs;
      if SomeAsleep(s.pcs, AwaitsSlot) {
        u :| u < |s.pcs| && s.pcs[u].PutAsleep?;
        woken := s.pcs[u := PutWoken(s.pcs[u].item)];
      }
      assert StepBy(s, s.(pcs := woken[t := GetUnlock(p.got)]), t, Idle, u, woken);
    } else if p.PutSignal? {
      var u: nat, woken := 0, s.pcs;
      if SomeAsleep(s.pcs, AwaitsItem) {
        u :| u < |s.pcs| && s.pcs[u].GetAsleep?;
        woken := s.pcs[u := GetWoken];
      }
      assert StepBy(s, s.(pcs := woken[t := PutUnlock]), t, Idle, u, woken);
    } else {
      assert StepBy(s, Go(s, t, Idle).(lock := Free), t, Idle, 0, s.pcs);
    }
  }

  /** With at least one producer and one consumer in a call, no run reaches a
      state where everybody sleeps: some thread inside a call can still move. */
  lemma NeverAllAsleep(run: seq<State>, p: nat, c: nat)
    requires IsRun(run)
    requires p < |run[|run| - 1].pcs| && run[|run| - 1].pcs[p].Putting()
    requires c < |run[|run| - 1].pcs| && run[|run| - 1].pcs[c].Getting()
    ensures SomeoneCanMove(run[|run| - 1])
  {
    RunKeepsInv(run);
    var s := run[|run| - 1];
    if s.lock.Held? {
      HolderCanMove(s, s.lock.tid);
    } else if exists t :: 0 <= t < |s.pcs| && s.pcs[t] != Idle && !s.pcs[t].Asleep() {
      var t: nat :| t < |s.pcs| && s.pcs[t] != Idle && !s.pcs[t].Asleep();
      assert !s.pcs[t].HoldsLock();
      var next := if s.pcs[t].GetLock? || s.pcs[t].GetWoken? then GetTest else PutTest(s.pcs[t].item);
      assert StepBy(s, Go(s, t, next).(lock := Held(t)), t, Idle, 0, s.pcs);
      assert CanMove(s, t);
    } else {
      assert SomeAsleep(s.pcs, AwaitsItem) && SomeAsleep(s.pcs, AwaitsSlot);
      SumZero(s.pcs, GetterDue);
      SumZero(s.pcs, PutterDue);
      assert false;
    }
  }

  // -------------------------------------------- calls, arguments and results

  function PcAt(s: State, v: nat): Pc { if v < |s.pcs| then s.pcs[v] else Idle }

  /** In a getitem that has not yet removed an item. */
  predicate ToGet(p: Pc) { p.GetLock? || p.GetTest? || p.GetAsleep? || p.GetWoken? }

  /** In a putitem that has not yet inserted its item. */
  predicate ToPut(p: Pc) { p.PutLock? || p.PutTest? || p.PutAsleep? || p.PutWoken? }

  predicate HasGot(p: Pc) { p.GetSignal? || p.GetUnlock? }

  predicate HasPut(p: Pc) { p.PutSignal? || p.PutUnlock? }

  /** How one step may change the pc of thread `v`. */
  ghost predicate ThreadStep(s: State, s': State, v: nat)
  {
    var p, q := PcAt(s, v), PcAt(s', v);
    || q == p
    || (p.Idle? && (q.GetLock? || q.PutLock?))
    || (ToGet(p) && ToGet(q))
    || (ToPut(p) && ToPut(q) && q.item == p.item)
    || (p.GetTest? && HasGot(q) && s'.removed == s.removed + [q.got] && s'.inserted == s.inserted)
    || (p.PutTest? && HasPut(q) && s'.inserted == s.inserted + [p.item] && s'.removed == s.removed)
    || (HasGot(p) && HasGot(q) && q.got == p.got)
    || (HasPut(p) && HasPut(q))
    || ((p.GetUnlock? || p.PutUnlock?) && q.Idle?)
  }

  lemma NextMovesThread(s: State, s': State, v: nat)
    requires Next(s, s')
    ensures ThreadStep(s, s', v)
  {
    var t, start, u, woken :| StepBy(s, s', t, start, u, woken);
  }

  /** Any call can be made, and a call is started as it is made. */
  lemma CallStarts(s: State, t: nat, start: Pc) returns (s': State)
    requires WellFormed(s.vars.ring) && t < |s.pcs| && s.pcs[t].Idle? && (start.GetLock? || start.PutLock?)
    ensures StepBy(s, s', t, start, 0, []) && s'.pcs == s.pcs[t := start]
    ensures forall s'' :: StepBy(s, s'', t, start, 0, []) ==> PcAt(s'', t) == start
  {
    s' := Go(s, t, start);
  }

  ghost predicate Link(run: seq<State>, i: nat, v: nat)
  {
    i + 1 < |run| && ThreadStep(run[i], run[i + 1], v)
  }

  /** A run as thread `v` sees it. */
  ghost predicate ThreadRun(run: seq<State>, v: nat)
  {
    && |run| > 0 && PcAt(run[0], v).Idle?
    && forall i: nat :: i + 1 < |run| ==> Link(run, i, v)
  }

  lemma RunOfThread(run: seq<State>, v: nat)
    requires IsRun(run)
    ensures ThreadRun(run, v)
  {
    forall i: nat | i + 1 < |run| ensures Link(run, i, v) {
      assert Next(run[i], run[i + 1]);
      NextMovesThread(run[i], run[i + 1], v);
    }
  }

  /** Thread `v` is inside a call from state m + 1 to state j. */
  ghost predicate InCall(run: seq<State>, m: nat, j: nat, v: nat)
    requires j < |run|
  {
    forall i :: m < i <= j ==> !PcAt(run[i], v).Idle?
  }

  lemma InCallLonger(run: seq<State>, m: nat, j: nat, v: nat)
    requires j + 1 < |run| && InCall(run, m, j, v) && !PcAt(run[j + 1], v).Idle?
    ensures InCall(run, m, j + 1, v)
  {
  }

  /** A call that has not yet been served is still the one that was made. */
  lemma {:induction false} CalledSince(run: seq<State>, j: nat, v: nat) returns (m: nat)
    requires ThreadRun(run, v) && j < |run| && (ToGet(PcAt(run[j], v)) || ToPut(PcAt(run[j], v)))
    ensures m < j && PcAt(run[m], v).Idle? && InCall(run, m, j, v)
    ensures PcAt(run[m + 1], v) == if ToGet(PcAt(run[j], v)) then GetLock else PutLock(PcAt(run[j], v).item)
  {
    assert Link(run, j - 1, v);
    if PcAt(run[j - 1], v).Idle? {
      m := j - 1;
    } else {
      m := CalledSince(run, j - 1, v);
      InCallLonger(run, m, j - 1, v);
    }
  }

  lemma {:induction false} GotSince(run: seq<State>, j: nat, v: nat) returns (k: nat)
    requires ThreadRun(run, v) && j < |run| && HasGot(PcAt(run[j], v))
    ensures k < j && PcAt(run[k], v).GetTest? && InCall(run, k, j, v)
    ensures run[k + 1].removed == run[k].removed + [PcAt(run[j], v).got] && run[k + 1].inserted == run[k].inserted
  {
    assert Link(run, j - 1, v);
    if PcAt(run[j - 1], v).GetTest? {
      k := j - 1;
    } else {
      k := GotSince(run, j - 1, v);
      InCallLonger(run, k, j - 1, v);
    }
  }

  lemma {:induction false} PutSince(run: seq<State>, j: nat, v: nat) returns (k: nat)
    requires ThreadRun(run, v) && j < |run| && HasPut(PcAt(run[j], v))
    ensures k < j && PcAt(run[k], v).PutTest? && InCall(run, k, j, v)
    ensures run[k + 1].inserted == run[k].inserted + [PcAt(run[k], v).item] && run[k + 1].removed == run[k].removed
  {
    assert Link(run, j - 1, v);
    if PcAt(run[j - 1], v).PutTest? {
      k := j - 1;
    } else {
      k := PutSince(run, j - 1, v);
      InCallLonger(run, k, j - 1, v);
    }
  }

  /** What a call that thread `v` made at step `m` has done to the histories by
      step `k`, when it returns from state `last`. */
  ghost predicate Served(run: seq<State>, m: nat, k: nat, last: State, v: nat)
    requires m < k && k + 1 < |run|
  {
    var call, before, after := PcAt(run[m + 1], v), run[k], run[k + 1];
    if call.PutLock? then
      after.inserted == before.inserted + [call.item] && after.removed == before.removed
    else
      && call.GetLock? && PcAt(last, v).GetUnlock?
      && after.removed == before.removed + [PcAt(last, v).got] && after.inserted == before.inserted
  }

  lemma CallOfThread(run: seq<State>, j: nat, v: nat) returns (m: nat, k: nat)
    requires ThreadRun(run, v) && j < |run| && (PcAt(run[j], v).GetUnlock? || PcAt(run[j], v).PutUnlock?)
    ensures m < k < j && PcAt(run[m], v).Idle? && InCall(run, m, k, v) && InCall(run, k, j, v)
    ensures Served(run, m, k, run[j], v)
  {
    if PcAt(run[j], v).GetUnlock? {
      k := GotSince(run, j, v);
    } else {
      k := PutSince(run, j, v);
    }
    m := CalledSince(run, k, v);
  }

  /** In every run, when thread `v` returns from a call at step `j`: it made that
      call at some step `m` and was served once, at `k`.  A putitem has then
      inserted exactly the item that it was called with; a getitem has removed
      exactly the item that it returns. */
  lemma CallIsServed(run: seq<State>, j: nat, v: nat) returns (m: nat, k: nat)
    requires IsRun(run) && j + 1 < |run|
    requires !PcAt(run[j], v).Idle? && PcAt(run[j + 1], v).Idle?
    ensures m < k < j && PcAt(run[m], v).Idle? && InCall(run, m, k, v) && InCall(run, k, j, v)
    ensures Served(run, m, k, run[j], v)
  {
    RunOfThread(run, v);
    assert Link(run, j, v);
    m, k := CallOfThread(run, j, v);
  }
}
