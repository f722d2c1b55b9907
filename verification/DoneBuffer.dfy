/** The producer/consumer program with shutdown: the condition-variable buffer
    with a done flag (chapter16/bufferconddone.c), its producer and consumer
    threads, the shared accumulator and the main thread that starts them, sets
    the flag, joins them and reports. */
module DoneBuffer {
  import opened Threads
  import opened BoundedRing

  /** The shared statics of bufferconddone.c. */
  datatype Vars = Vars(ring: Ring, totalitems: int, doneflag: bool)

  datatype Outcome = MustWait | Canceled | Took(item: Item) | Stored

  /** What `getitem` does under the lock at its loop test. */
  function GetRegion(v: Vars): (Vars, Outcome)
    requires v.ring.bufout < |v.ring.slots|
  {
    if v.totalitems <= 0 then (v, if v.doneflag then Canceled else MustWait)
    else (v.(ring := Remove(v.ring), totalitems := v.totalitems - 1), Took(Front(v.ring)))
  }

  /** What `putitem` does under the lock at its loop test. */
  function PutRegion(v: Vars, x: Item): (Vars, Outcome)
    requires v.ring.bufin < |v.ring.slots|
  {
    if v.doneflag then (v, Canceled)
    else if v.totalitems >= BUFSIZE then (v, MustWait)
    else (v.(ring := Insert(v.ring, x), totalitems := v.totalitems + 1), Stored)
  }

  ghost predicate Counted(v: Vars) { Holds(v.ring, v.totalitems) }

  /** The stored items, oldest first. */
  ghost function Queue(v: Vars): (q: seq<Item>)
    requires Counted(v)
    ensures |q| == v.totalitems
  {
    Contents(v.ring, v.totalitems)
  }

  /** With nothing stored getitem waits, or gives up once the flag is set; with
      something stored it takes the oldest item, flag or not. */
  lemma GetTakesOldest(v: Vars)
    requires Counted(v)
    ensures var (v', o) := GetRegion(v);
      && Counted(v') && v'.doneflag == v.doneflag
      && (Queue(v) == [] ==> o == (if v.doneflag then Canceled else MustWait) && Queue(v') == [])
      && (Queue(v) != [] ==> o == Took(Queue(v)[0]) && Queue(v') == Queue(v)[1..])
  {
    if v.totalitems > 0 {
      RemoveTakesOldest(v.ring, v.totalitems);
    }
  }

  /** Once the flag is set putitem gives up; until then it waits iff eight items
      are stored, and otherwise adds its item. */
  lemma PutAppends(v: Vars, x: Item)
    requires Counted(v)
    ensures var (v', o) := PutRegion(v, x);
      && Counted(v') && v'.doneflag == v.doneflag
      && (v.doneflag ==> o == Canceled && Queue(v') == Queue(v))
      && (!v.doneflag && |Queue(v)| == 8 ==> o == MustWait && Queue(v') == Queue(v))
      && (!v.doneflag && |Queue(v)| < 8 ==> o == Stored && Queue(v') == Queue(v) + [x])
  {
    if v.totalitems < BUFSIZE {
      InsertAppends(v.ring, v.totalitems, x);
    }
  }

  /** The same regions on the static variables, updated in place. */
  class Shared {
    const ring: Statics
    var totalitems: int
    var doneflag: bool

    ghost predicate Valid()
      reads this, ring, ring.buffer
    {
      ring.Valid() && Holds(ring.View(), totalitems)
    }

    ghost function View(): Vars
      reads this, ring, ring.buffer
      requires Valid()
    {
      Vars(ring.View(), totalitems, doneflag)
    }

    ghost function Items(): seq<Item>
      reads this, ring, ring.buffer
      requires Valid()
    {
      Queue(View())
    }

    constructor ()
      ensures Valid() && fresh(ring) && fresh(ring.buffer)
      ensures Items() == [] && View().totalitems == 0 && !View().doneflag
    {
      ring := new Statics();
      totalitems := 0;
      doneflag := false;
    }

    method Get() returns (outcome: Outcome)
      requires Valid()
      modifies this, ring
      ensures Valid() && doneflag == old(doneflag)
      ensures (View(), outcome) == GetRegion(old(View()))
      ensures old(Items()) == [] ==> outcome == (if doneflag then Canceled else MustWait) && Items() == []
      ensures old(Items()) != [] ==> outcome == Took(old(Items())[0]) && Items() == old(Items())[1..]
    {
      GetTakesOldest(View());
      if totalitems <= 0 && !doneflag {
        return MustWait;
      }
      if doneflag && totalitems <= 0 {
        return Canceled;
      }
      var item := ring.TakeOut();
      totalitems := totalitems - 1;
      outcome := Took(item);
    }

    method Put(item: Item) returns (outcome: Outcome)
      requires Valid()
      modifies this, ring, ring.buffer
      ensures Valid() && doneflag == old(doneflag)
      ensures (View(), outcome) == PutRegion(old(View()), item)
      ensures doneflag ==> outcome == Canceled && Items() == old(Items())
      ensures !doneflag && |old(Items())| == 8 ==> outcome == MustWait && Items() == old(Items())
      ensures !doneflag && |old(Items())| < 8 ==> outcome == Stored && Items() == old(Items()) + [item]
    {
      PutAppends(View(), item);
      if totalitems >= BUFSIZE && !doneflag {
        return MustWait;
      }
      if doneflag {
        return Canceled;
      }
      ring.PutIn(item);
      totalitems := totalitems + 1;
      outcome := Stored;
    }
  }

  /** What `add` does to count and sum while it holds sumlock. */
  function AddRegion(count: int, sum: int, x: int): (int, int)
  {
    (count + 1, sum + x)
  }

  function Value(x: int): int { x }

  /** sharedsum.c: the totals, updated in place, of all values added so far. */
  class SharedSum {
    var count: int
    var sum: int
    ghost var added: seq<int>

    ghost predicate Valid()
      reads this
    {
      count == |added| && sum == Sum(added, Value)
    }

    constructor ()
      ensures Valid() && added == []
    {
      count, sum, added := 0, 0, [];
    }

    method Add(x: int)
      requires Valid()
      modifies this
      ensures Valid() && added == old(added) + [x]
      ensures (count, sum) == AddRegion(old(count), old(sum), x)
    {
      SumAppend(added, x, Value);
      sum := sum + x;
      count := count + 1;
      added := added + [x];
    }

    /** However the values were added, the results are their number and sum. */
    method GetCountAndSum() returns (c: int, s: int)
      requires Valid()
      ensures c == |added| && s == Sum(added, Value)
    {
      c, s := count, sum;
    }
  }

  datatype Pc =
    | Unborn
    | Exited
    // consumer: getitem, then add
    | GetLock
    | GetTest
    | GetAsleep
    | GetWoken
    | GetSignal(x: Item)
    | GetUnlock(x: Item)
    | GetCancel
    | AddLock(x: Item)
    | AddSum(x: Item)
    | AddUnlock
    // producer: randsafe, putitem, getdone
    | Produce
    | PutLock(x: Item)
    | PutTest(x: Item)
    | PutAsleep(x: Item)
    | PutWoken(x: Item)
    | PutSignal
    | PutUnlock
    | PutCancel
    | FlagLock
    | FlagRead
    | FlagUnlock(localdone: bool)
    // main: create, setdone, join, report
    | Create(k: nat)
    | DoneLock
    | DoneSet
    | DoneItems
    | DoneSlots
    | DoneUnlock
    | Join(k: nat)
    | ShowLock
    | ShowRead
    | ShowUnlock(shownCount: int, shownSum: int)
    | Reported(shownCount: int, shownSum: int)
  {
    predicate HoldsLock()
    {
      || GetTest? || GetSignal? || GetUnlock? || GetCancel?
      || PutTest? || PutSignal? || PutUnlock? || PutCancel? || FlagRead? || FlagUnlock?
      || DoneSet? || DoneItems? || DoneSlots? || DoneUnlock?
    }

    predicate HoldsSumLock() { AddSum? || AddUnlock? || ShowRead? || ShowUnlock? }

    predicate Consumer()
    {
      || GetLock? || GetTest? || GetAsleep? || GetWoken? || GetSignal? || GetUnlock? || GetCancel?
      || AddLock? || AddSum? || AddUnlock?
    }

    predicate Producer()
    {
      || Produce? || PutLock? || PutTest? || PutAsleep? || PutWoken? || PutSignal? || PutUnlock?
      || PutCancel? || FlagLock? || FlagRead? || FlagUnlock?
    }

    predicate AfterDone()
    {
      || DoneItems? || DoneSlots? || DoneUnlock? || Join?
      || ShowLock? || ShowRead? || ShowUnlock? || Reported?
    }

    predicate AfterJoins() { ShowLock? || ShowRead? || ShowUnlock? || Reported? }

    predicate Main() { Create? || DoneLock? || DoneSet? || AfterDone() }
  }

  /** Thread 0 is main, threads 1 to `consumers` are the consumers and the
      `producers` threads after them the producers, in order of creation. */
  datatype State = State(
    consumers: nat, producers: nat,
    vars: Vars, lock: Owner, sumlock: Owner, count: int, sum: int, pcs: seq<Pc>,
    inserted: seq<Item>, removed: seq<Item>,
    accepted: int)  // the number of putitem calls that have returned 0

  ghost predicate Initial(s: State)
  {
    && |s.pcs| == 1 + s.consumers + s.producers
    && Holds(s.vars.ring, 0) && s.vars.totalitems == 0 && !s.vars.doneflag
    && s.lock == Free && s.sumlock == Free && s.count == 0 && s.sum == 0
    && s.inserted == [] && s.removed == [] && s.accepted == 0
    && s.pcs[0] == Create(1)
    && forall t :: 1 <= t < |s.pcs| ==> s.pcs[t] == Unborn
  }

  function Go(s: State, t: nat, pc: Pc): State
    requires t < |s.pcs|
  {
    s.(pcs := s.pcs[t := pc])
  }

  /** main joins the producers first, then the consumers. */
  function JoinTarget(consumers: nat, producers: nat, k: nat): nat
    requires k < consumers + producers
  {
    if k < producers then 1 + consumers + k else 1 + (k - producers)
  }

  /** In the wait set of items. */
  predicate AwaitsItem(p: Pc) { p.GetAsleep? }

  /** In the wait set of slots. */
  predicate AwaitsSlot(p: Pc) { p.PutAsleep? }

  function Wake(p: Pc): Pc
  {
    if p.GetAsleep? then GetWoken else if p.PutAsleep? then PutWoken(p.x) else p
  }

  /** pthread_cond_broadcast(&items) */
  function WakeGetters(pcs: seq<Pc>): seq<Pc>
  {
    seq(|pcs|, i requires 0 <= i < |pcs| => if AwaitsItem(pcs[i]) then Wake(pcs[i]) else pcs[i])
  }

  /** pthread_cond_broadcast(&slots) */
  function WakePutters(pcs: seq<Pc>): seq<Pc>
  {
    seq(|pcs|, i requires 0 <= i < |pcs| => if AwaitsSlot(pcs[i]) then Wake(pcs[i]) else pcs[i])
  }

  /** randconsumerdone.c's loop over getitem and add. */
  ghost predicate ConsumerStep(s: State, s': State, t: nat, f: Item -> int, u: nat, woken: seq<Pc>)
    requires WellFormed(s.vars.ring) && t < |s.pcs|
  {
    match s.pcs[t]
    case GetLock => s.lock == Free && s' == Go(s, t, GetTest).(lock := Held(t))
    case GetWoken => s.lock == Free && s' == Go(s, t, GetTest).(lock := Held(t))
    case GetAsleep => s' == Go(s, t, GetWoken)  // a spurious wakeup
    case GetTest =>
      (match GetRegion(s.vars)
       case (v, Took(x)) => s' == Go(s, t, GetSignal(x)).(vars := v, removed := s.removed + [x])
       case (_, Canceled) => s' == Go(s, t, GetCancel)
       case (_, _) => s' == Go(s, t, GetAsleep).(lock := Free))
    case GetSignal(x) => Signal(s.pcs, AwaitsSlot, Wake, u, woken) && s' == s.(pcs := woken[t := GetUnlock(x)])
    case GetUnlock(x) => s' == Go(s, t, AddLock(x)).(lock := Free)
    case GetCancel => s' == Go(s, t, Exited).(lock := Free)
    case AddLock(x) => s.sumlock == Free && s' == Go(s, t, AddSum(x)).(sumlock := Held(t))
    case AddSum(x) =>
      var (count, sum) := AddRegion(s.count, s.sum, f(x));
      s' == Go(s, t, AddUnlock).(count := count, sum := sum)
    case AddUnlock => s' == Go(s, t, GetLock).(sumlock := Free)
    case _ => false
  }

  /** randproducerdone.c's loop over randsafe, putitem and getdone. */
  ghost predicate ProducerStep(s: State, s': State, t: nat, item: Item, u: nat, woken: seq<Pc>)
    requires WellFormed(s.vars.ring) && t < |s.pcs|
  {
    match s.pcs[t]
    case Produce => s' == Go(s, t, PutLock(item))
    case PutLock(x) => s.lock == Free && s' == Go(s, t, PutTest(x)).(lock := Held(t))
    case PutWoken(x) => s.lock == Free && s' == Go(s, t, PutTest(x)).(lock := Held(t))
    case PutAsleep(x) => s' == Go(s, t, PutWoken(x))  // a spurious wakeup
    case PutTest(x) =>
      (match PutRegion(s.vars, x)
       case (v, Stored) => s' == Go(s, t, PutSignal).(vars := v, inserted := s.inserted + [x])
       case (_, Canceled) => s' == Go(s, t, PutCancel)
       case (_, _) => s' == Go(s, t, PutAsleep(x)).(lock := Free))
    case PutSignal => Signal(s.pcs, AwaitsItem, Wake, u, woken) && s' == s.(pcs := woken[t := PutUnlock])
    case PutUnlock => s' == Go(s, t, FlagLock).(lock := Free, accepted := s.accepted + 1)
    case PutCancel => s' == Go(s, t, Exited).(lock := Free)
    case FlagLock => s.lock == Free && s' == Go(s, t, FlagRead).(lock := Held(t))
    case FlagRead => s' == Go(s, t, FlagUnlock(s.vars.doneflag))
    case FlagUnlock(done) => s' == Go(s, t, if done then Exited else Produce).(lock := Free)
    case _ => false
  }

  /** randpcdone.c's create, setdone, join and report. */
  ghost predicate MainStep(s: State, s': State, t: nat)
    requires t < |s.pcs| == 1 + s.consumers + s.producers
  {
    match s.pcs[t]
    case Create(k) =>
      if 1 <= k < |s.pcs| then
        s' == s.(pcs := s.pcs[k := if k <= s.consumers then GetLock else Produce][t := Create(k + 1)])
      else s' == Go(s, t, DoneLock)
    case DoneLock => s.lock == Free && s' == Go(s, t, DoneSet).(lock := Held(t))
    case DoneSet => s' == Go(s, t, DoneItems).(vars := s.vars.(doneflag := true))
    case DoneItems => s' == s.(pcs := WakeGetters(s.pcs)[t := DoneSlots])
    case DoneSlots => s' == s.(pcs := WakePutters(s.pcs)[t := DoneUnlock])
    case DoneUnlock => s' == Go(s, t, Join(0)).(lock := Free)
    case Join(k) =>
      if k < s.consumers + s.producers then
        s.pcs[JoinTarget(s.consumers, s.producers, k)] == Exited && s' == Go(s, t, Join(k + 1))
      else s' == Go(s, t, ShowLock)
    case ShowLock => s.sumlock == Free && s' == Go(s, t, ShowRead).(sumlock := Held(t))
    case ShowRead => s' == Go(s, t, ShowUnlock(s.count, s.sum))
    case ShowUnlock(count, sum) => s' == Go(s, t, Reported(count, sum)).(sumlock := Free)
    case _ => false
  }

  /** Thread `t` takes one step.  `item` is what randsafe yields, `woken` the
      table after a signal, which wakes `u`, and `f` the function added up. */
  ghost predicate StepBy(s: State, s': State, t: nat, f: Item -> int, item: Item, u: nat, woken: seq<Pc>)
  {
    && WellFormed(s.vars.ring) && t < |s.pcs| == 1 + s.consumers + s.producers
    && (ConsumerStep(s, s', t, f, u, woken) || ProducerStep(s, s', t, item, u, woken) || MainStep(s, s', t))
  }

  // ---------------------------------------------------------------- invariant

  ghost predicate RoleInv(s: State)
  {
    && |s.pcs| == 1 + s.consumers + s.producers
    && s.pcs[0].Main()
    && (forall t :: 1 <= t <= s.consumers ==> s.pcs[t].Consumer() || s.pcs[t].Unborn? || s.pcs[t].Exited?)
    && (forall t :: s.consumers < t < |s.pcs| ==> s.pcs[t].Producer() || s.pcs[t].Unborn? || s.pcs[t].Exited?)
  }

  ghost predicate LockInv(s: State)
  {
    && (s.lock.Held? ==> s.lock.tid < |s.pcs|)
    && forall t :: 0 <= t < |s.pcs| ==> (s.pcs[t].HoldsLock() <==> s.lock == Held(t))
  }

  ghost predicate SumLockInv(s: State)
  {
    && (s.sumlock.Held? ==> s.sumlock.tid < |s.pcs|)
    && forall t :: 0 <= t < |s.pcs| ==> (s.pcs[t].HoldsSumLock() <==> s.sumlock == Held(t))
  }

  ghost predicate RingInv(s: State)
  {
    && s.vars.totalitems == |s.inserted| - |s.removed|
    && Queued(s.vars.ring, s.inserted, s.removed)
  }

  /** An item removed but not yet added to the shared sum. */
  predicate InHand(p: Pc) { p.GetSignal? || p.GetUnlock? || p.AddLock? || p.AddSum? }

  function HandCount(p: Pc): int { if InHand(p) then 1 else 0 }

  function HandSum(f: Item -> int): Pc -> int { p => if InHand(p) then f(p.x) else 0 }

  /** An item inserted whose putitem call has not returned yet. */
  function PutPending(p: Pc): int { if p.PutSignal? || p.PutUnlock? then 1 else 0 }

  /** No item is lost or counted twice between the buffer and the sum. */
  ghost predicate TallyInv(s: State, f: Item -> int)
  {
    && |s.inserted| == s.accepted + Sum(s.pcs, PutPending)
    && |s.removed| == s.count + Sum(s.pcs, HandCount)
    && Sum(s.removed, f) == s.sum + Sum(s.pcs, HandSum(f))
  }

  /** A consumer leaves only a buffer that is empty for good. */
  ghost predicate DrainInv(s: State)
    requires RoleInv(s)
  {
    && (s.vars.doneflag <==> s.pcs[0].AfterDone())
    && (forall t :: 1 <= t <= s.consumers && (s.pcs[t].GetCancel? || s.pcs[t].Exited?) ==>
          s.vars.doneflag && s.vars.totalitems == 0)
    && (s.removed != [] ==> s.consumers > 0)
  }

  /** A producer on its way out has seen the flag, or had its putitem canceled. */
  predicate Leaving(p: Pc) { p.PutCancel? || p.Exited? || p == FlagUnlock(true) }

  /** A producer leaves only once the flag is set. */
  ghost predicate LeaveInv(s: State)
    requires RoleInv(s)
  {
    forall t :: s.consumers < t < |s.pcs| && Leaving(s.pcs[t]) ==> s.vars.doneflag
  }

  /** After the broadcasts nobody sleeps. */
  ghost predicate AwakeInv(s: State)
    requires RoleInv(s)
  {
    && (s.vars.doneflag && !s.pcs[0].DoneItems? ==> !SomeAsleep(s.pcs, AwaitsItem))
    && (s.vars.doneflag && !s.pcs[0].DoneItems? && !s.pcs[0].DoneSlots? ==> !SomeAsleep(s.pcs, AwaitsSlot))
  }

  /** What main knows about the other threads. */
  ghost predicate MainInv(s: State)
    requires RoleInv(s)
  {
    && (s.pcs[0].Create? ==> 1 <= s.pcs[0].k <= |s.pcs|)
    && (forall t :: 1 <= t < |s.pcs| ==>
          (s.pcs[t].Unborn? <==> (s.pcs[0].Create? && s.pcs[0].k <= t)))
    && (s.pcs[0].Join? ==>
          && s.pcs[0].k <= s.consumers + s.producers
          && forall j :: 0 <= j < s.pcs[0].k ==> s.pcs[JoinTarget(s.consumers, s.producers, j)] == Exited)
    && (s.pcs[0].AfterJoins() ==> forall t :: 1 <= t < |s.pcs| ==> s.pcs[t] == Exited)
    && (s.pcs[0].ShowUnlock? || s.pcs[0].Reported? ==>
          s.pcs[0].shownCount == s.count && s.pcs[0].shownSum == s.sum)
  }

  ghost predicate Inv(s: State, f: Item -> int)
  {
    && RoleInv(s) && LockInv(s) && SumLockInv(s) && RingInv(s)
    && TallyInv(s, f) && DrainInv(s) && LeaveInv(s) && AwakeInv(s) && MainInv(s)
  }

  lemma InitialInv(s: State, f: Item -> int)
    requires Initial(s)
    ensures Inv(s, f)
  {
    SumZero(s.pcs, PutPending);
    SumZero(s.pcs, HandCount);
    SumZero(s.pcs, HandSum(f));
  }

  // ------------------------------------------------ the shape of a single step

  /** The table before thread `t` moves on to its next pc: a step may also
      start a thread or wake sleepers. */
  ghost predicate SideEffect(s: State, t: nat, base: seq<Pc>)
    requires t < |s.pcs|
  {
    && |base| == |s.pcs| && base[t] == s.pcs[t]
    && forall i :: 0 <= i < |s.pcs| ==>
         || base[i] == s.pcs[i]
         || (s.pcs[i].GetAsleep? && base[i] == GetWoken)
         || (s.pcs[i].PutAsleep? && base[i] == PutWoken(s.pcs[i].x))
         || (s.pcs[t].Create? && i == s.pcs[t].k && base[i] == if i <= s.consumers then GetLock else Produce)
  }

  /** A mutex is taken when free, given back by its holder, or left alone. */
  ghost predicate MutexMove(owner: Owner, owner': Owner, t: nat, held: bool, held': bool)
  {
    || (owner' == owner && held == held')
    || (owner == Free && owner' == Held(t) && !held && held')
    || (owner' == Free && held && !held')
  }

  ghost predicate Moved(s: State, s': State, t: nat, base: seq<Pc>)
  {
    && t < |s.pcs| && SideEffect(s, t, base)
    && |s'.pcs| == |s.pcs| && s'.pcs == base[t := s'.pcs[t]]
    && s'.consumers == s.consumers && s'.producers == s.producers
    && MutexMoves(s, s', s.pcs[t], s'.pcs[t], t)
    && KeepsRole(s.pcs[t], s'.pcs[t])
  }

  ghost predicate MutexMoves(s: State, s': State, p: Pc, p': Pc, t: nat)
  {
    && MutexMove(s.lock, s'.lock, t, p.HoldsLock(), p'.HoldsLock())
    && MutexMove(s.sumlock, s'.sumlock, t, p.HoldsSumLock(), p'.HoldsSumLock())
  }

  ghost predicate KeepsRole(p: Pc, p': Pc)
  {
    || (p.Main() && p'.Main())
    || (p.Consumer() && (p'.Consumer() || p'.Exited?))
    || (p.Producer() && (p'.Producer() || p'.Exited?))
  }

  lemma ConsumerMutexes(s: State, s': State, t: nat, f: Item -> int, u: nat, woken: seq<Pc>)
    requires WellFormed(s.vars.ring) && t < |s.pcs| == |s'.pcs| && ConsumerStep(s, s', t, f, u, woken)
    ensures MutexMoves(s, s', s.pcs[t], s'.pcs[t], t)
  {
  }

  lemma ConsumerMoves(s: State, s': State, t: nat, f: Item -> int, u: nat, woken: seq<Pc>)
    returns (base: seq<Pc>)
    requires WellFormed(s.vars.ring) && t < |s.pcs| && ConsumerStep(s, s', t, f, u, woken)
    ensures s.pcs[t].Consumer() && Moved(s, s', t, base)
  {
    base := if s.pcs[t].GetSignal? then woken else s.pcs;
    assert |s'.pcs| == |base| && s'.pcs == base[t := s'.pcs[t]];
    ConsumerMutexes(s, s', t, f, u, woken);
  }

  lemma ProducerMutexes(s: State, s': State, t: nat, item: Item, u: nat, woken: seq<Pc>)
    requires WellFormed(s.vars.ring) && t < |s.pcs| == |s'.pcs| && ProducerStep(s, s', t, item, u, woken)
    ensures MutexMoves(s, s', s.pcs[t], s'.pcs[t], t)
  {
  }

  lemma ProducerMoves(s: State, s': State, t: nat, item: Item, u: nat, woken: seq<Pc>)
    returns (base: seq<Pc>)
    requires WellFormed(s.vars.ring) && t < |s.pcs| && ProducerStep(s, s', t, item, u, woken)
    ensures s.pcs[t].Producer() && Moved(s, s', t, base)
  {
    base := if s.pcs[t].PutSignal? then woken else s.pcs;
    assert |s'.pcs| == |base| && s'.pcs == base[t := s'.pcs[t]];
    ProducerMutexes(s, s', t, item, u, woken);
  }

  lemma MainMoves(s: State, s': State, t: nat) returns (base: seq<Pc>)
    requires RoleInv(s) && t < |s.pcs| && MainStep(s, s', t)
    ensures t == 0 && s.pcs[t].Main() && Moved(s, s', t, base)
    ensures s.pcs[t].DoneItems? ==> base == WakeGetters(s.pcs)
    ensures s.pcs[t].DoneSlots? ==> base == WakePutters(s.pcs)
  {
    var p := s.pcs[t];
    if p.Create? {
      base := if 1 <= p.k < |s.pcs| then s.pcs[p.k := if p.k <= s.consumers then GetLock else Produce] else s.pcs;
    } else if p.DoneItems? {
      base := WakeGetters(s.pcs);
    } else if p.DoneSlots? {
      base := WakePutters(s.pcs);
    } else {
      base := s.pcs;
    }
  }

  lemma StepMoves(s: State, s': State, t: nat, f: Item -> int, item: Item, u: nat, woken: seq<Pc>)
    returns (base: seq<Pc>)
    requires RoleInv(s) && StepBy(s, s', t, f, item, u, woken)
    ensures Moved(s, s', t, base)
    ensures s.pcs[t].DoneItems? ==> base == WakeGetters(s.pcs)
    ensures s.pcs[t].DoneSlots? ==> base == WakePutters(s.pcs)
  {
    if ConsumerStep(s, s', t, f, u, woken) {
      base := ConsumerMoves(s, s', t, f, u, woken);
    } else if ProducerStep(s, s', t, item, u, woken) {
      base := ProducerMoves(s, s', t, item, u, woken);
    } else {
      base := MainMoves(s, s', t);
    }
  }

  lemma MovedKeepsRole(s: State, s': State, t: nat, base: seq<Pc>)
    requires RoleInv(s) && Moved(s, s', t, base)
    ensures RoleInv(s')
  {
    assert forall i :: 0 <= i < |s.pcs| && i != t ==> s'.pcs[i] == base[i];
    assert s.pcs[t].Main() ==> t == 0;
  }

  lemma MovedKeepsLock(s: State, s': State, t: nat, base: seq<Pc>)
    requires RoleInv(s) && MainInv(s) && LockInv(s) && Moved(s, s', t, base)
    ensures LockInv(s')
  {
  }

  lemma MovedKeepsSumLock(s: State, s': State, t: nat, base: seq<Pc>)
    requires RoleInv(s) && MainInv(s) && SumLockInv(s) && Moved(s, s', t, base)
    ensures SumLockInv(s')
  {
  }

  lemma ConsumerKeepsRing(s: State, s': State, t: nat, f: Item -> int, u: nat, woken: seq<Pc>)
    requires RingInv(s) && t < |s.pcs| && ConsumerStep(s, s', t, f, u, woken)
    ensures RingInv(s')
  {
    if s.pcs[t].GetTest? && s.vars.totalitems > 0 {
      RemoveQueues(s.vars.ring, s.inserted, s.removed);
    }
  }

  lemma ProducerKeepsRing(s: State, s': State, t: nat, item: Item, u: nat, woken: seq<Pc>)
    requires RingInv(s) && t < |s.pcs| && ProducerStep(s, s', t, item, u, woken)
    ensures RingInv(s')
  {
    if s.pcs[t].PutTest? && PutRegion(s.vars, s.pcs[t].x).1.Stored? {
      InsertQueues(s.vars.ring, s.inserted, s.removed, s.pcs[t].x);
    }
  }

  lemma StepKeepsRing(s: State, s': State, t: nat, f: Item -> int, item: Item, u: nat, woken: seq<Pc>)
    requires RingInv(s) && StepBy(s, s', t, f, item, u, woken)
    ensures RingInv(s')
  {
    if ConsumerStep(s, s', t, f, u, woken) {
      ConsumerKeepsRing(s, s', t, f, u, woken);
    } else if ProducerStep(s, s', t, item, u, woken) {
      ProducerKeepsRing(s, s', t, item, u, woken);
    }
  }

  // ------------------------------------------------------- counting the items

  /** What a step adds to the histories it takes from the stepping thread. */
  ghost predicate Balanced(s: State, s': State, p: Pc, q: Pc, f: Item -> int)
  {
    && |s'.inserted| - |s.inserted| == s'.accepted - s.accepted + PutPending(q) - PutPending(p)
    && |s'.removed| - |s.removed| == s'.count - s.count + HandCount(q) - HandCount(p)
    && Sum(s'.removed, f) - Sum(s.removed, f) == s'.sum - s.sum + HandSum(f)(q) - HandSum(f)(p)
  }

  lemma ConsumerBalances(s: State, s': State, t: nat, f: Item -> int, u: nat, woken: seq<Pc>)
    requires WellFormed(s.vars.ring) && t < |s.pcs| && ConsumerStep(s, s', t, f, u, woken)
    requires |s'.pcs| == |s.pcs|
    ensures Balanced(s, s', s.pcs[t], s'.pcs[t], f)
  {
    if s.pcs[t].GetTest? && s.vars.totalitems > 0 {
      var x := Front(s.vars.ring);
      assert s'.removed == s.removed + [x] && s'.pcs[t] == GetSignal(x);
      SumAppend(s.removed, x, f);
    } else {
      assert s'.removed == s.removed;
    }
  }

  lemma StepBalances(s: State, s': State, t: nat, f: Item -> int, item: Item, u: nat, woken: seq<Pc>)
    requires StepBy(s, s', t, f, item, u, woken) && |s'.pcs| == |s.pcs|
    ensures Balanced(s, s', s.pcs[t], s'.pcs[t], f)
  {
    if ConsumerStep(s, s', t, f, u, woken) {
      ConsumerBalances(s, s', t, f, u, woken);
    }
  }

  /** A thread outside the regions that the tallies count. */
  predicate Weightless(p: Pc) { !InHand(p) && PutPending(p) == 0 }

  lemma SideEffectIsWeightless(s: State, t: nat, base: seq<Pc>, i: nat)
    requires RoleInv(s) && MainInv(s) && t < |s.pcs| && SideEffect(s, t, base) && i < |s.pcs|
    ensures base[i] == s.pcs[i] || (Weightless(base[i]) && Weightless(s.pcs[i]))
  {
    if s.pcs[t].Create? && i == s.pcs[t].k && base[i] != s.pcs[i] {
      assert t == 0 && i >= 1;
      assert s.pcs[i].Unborn?;
    }
  }

  lemma WeightlessSum(s: seq<Pc>, base: seq<Pc>, w: Pc -> int)
    requires |s| == |base|
    requires forall i :: 0 <= i < |s| ==> base[i] == s[i] || (w(base[i]) == 0 && w(s[i]) == 0)
    ensures Sum(base, w) == Sum(s, w)
  {
    SumMonotone(s, w, base, w);
    SumMonotone(base, w, s, w);
  }

  /** Starting a thread or waking sleepers changes no tally. */
  lemma SideEffectWeighsNothing(s: State, t: nat, base: seq<Pc>, f: Item -> int)
    requires RoleInv(s) && MainInv(s) && t < |s.pcs| && SideEffect(s, t, base)
    ensures Sum(base, PutPending) == Sum(s.pcs, PutPending)
    ensures Sum(base, HandCount) == Sum(s.pcs, HandCount)
    ensures Sum(base, HandSum(f)) == Sum(s.pcs, HandSum(f))
  {
    forall i | 0 <= i < |s.pcs|
      ensures base[i] == s.pcs[i] || (Weightless(base[i]) && Weightless(s.pcs[i]))
    {
      SideEffectIsWeightless(s, t, base, i);
    }
    WeightlessSum(s.pcs, base, PutPending);
    WeightlessSum(s.pcs, base, HandCount);
    WeightlessSum(s.pcs, base, HandSum(f));
  }

  lemma MovedKeepsTally(s: State, s': State, t: nat, base: seq<Pc>, f: Item -> int)
    requires RoleInv(s) && MainInv(s) && TallyInv(s, f) && Moved(s, s', t, base)
    requires Balanced(s, s', s.pcs[t], s'.pcs[t], f)
    ensures TallyInv(s', f)
  {
    SideEffectWeighsNothing(s, t, base, f);
    SumUpdate(base, t, s'.pcs[t], PutPending);
    SumUpdate(base, t, s'.pcs[t], HandCount);
    SumUpdate(base, t, s'.pcs[t], HandSum(f));
  }

  // ------------------------------------------------------ shutdown and main

  /** How a step may change the done flag and the number of stored items. */
  ghost predicate FlagMove(s: State, s': State, t: nat)
    requires RoleInv(s) && t < |s.pcs| == |s'.pcs|
  {
    var p, q := s.pcs[t], s'.pcs[t];
    && (s'.vars.doneflag == s.vars.doneflag || (p.DoneSet? && s'.vars.doneflag))
    && (p.DoneSet? ==> s'.vars.doneflag)
    && (p.Main() && q.AfterDone() ==> p.AfterDone() || p.DoneSet?)
    && (p.Main() && p.AfterDone() ==> q.AfterDone())
    && (p.DoneSet? ==> q.DoneItems?)
    && (p.DoneItems? ==> q.DoneSlots?)
    && (p.Main() && q.DoneItems? ==> p.DoneSet?)
    && (p.Main() && q.DoneSlots? ==> p.DoneItems?)
    && (s.vars.doneflag ==> s'.vars.totalitems <= s.vars.totalitems)
    && (p.Consumer() && (q.GetCancel? || q.Exited?) ==>
          p.GetCancel? || (s.vars.doneflag && s.vars.totalitems <= 0))
    && (p.Producer() && Leaving(q) ==> Leaving(p) || s.vars.doneflag)
    && (s'.removed != s.removed ==> p.Consumer())
    && (q.GetAsleep? || q.PutAsleep? ==> !s.vars.doneflag)
  }

  lemma ConsumerMovesFlag(s: State, s': State, t: nat, f: Item -> int, u: nat, woken: seq<Pc>)
    requires RoleInv(s) && WellFormed(s.vars.ring) && t < |s.pcs| == |s'.pcs|
    requires ConsumerStep(s, s', t, f, u, woken)
    ensures FlagMove(s, s', t)
  {
  }

  lemma ProducerMovesFlag(s: State, s': State, t: nat, item: Item, u: nat, woken: seq<Pc>)
    requires RoleInv(s) && WellFormed(s.vars.ring) && t < |s.pcs| == |s'.pcs|
    requires ProducerStep(s, s', t, item, u, woken)
    ensures FlagMove(s, s', t)
  {
  }

  lemma MainMovesFlag(s: State, s': State, t: nat)
    requires RoleInv(s) && t < |s.pcs| == |s'.pcs| && MainStep(s, s', t)
    ensures FlagMove(s, s', t)
  {
  }

  lemma StepMovesFlag(s: State, s': State, t: nat, f: Item -> int, item: Item, u: nat, woken: seq<Pc>)
    requires RoleInv(s) && StepBy(s, s', t, f, item, u, woken) && |s'.pcs| == |s.pcs|
    ensures FlagMove(s, s', t)
  {
    if ConsumerStep(s, s', t, f, u, woken) {
      ConsumerMovesFlag(s, s', t, f, u, woken);
    } else if ProducerStep(s, s', t, item, u, woken) {
      ProducerMovesFlag(s, s', t, item, u, woken);
    } else {
      MainMovesFlag(s, s', t);
    }
  }

  lemma MovedKeepsDrain(s: State, s': State, t: nat, base: seq<Pc>)
    requires RoleInv(s) && MainInv(s) && DrainInv(s) && RingInv(s) && RingInv(s')
    requires Moved(s, s', t, base) && FlagMove(s, s', t)
    ensures RoleInv(s') && DrainInv(s')
  {
    MovedKeepsRole(s, s', t, base);
  }

  lemma MovedKeepsLeave(s: State, s': State, t: nat, base: seq<Pc>)
    requires RoleInv(s) && DrainInv(s) && LeaveInv(s)
    requires Moved(s, s', t, base) && FlagMove(s, s', t)
    ensures RoleInv(s') && LeaveInv(s')
  {
    MovedKeepsRole(s, s', t, base);
    assert s.vars.doneflag ==> s'.vars.doneflag;
    assert forall i :: 0 <= i < |s.pcs| && i != t && Leaving(s'.pcs[i]) ==> Leaving(s.pcs[i]);
  }

  lemma ConsumersStayAwake(s: State, s': State, t: nat, base: seq<Pc>)
    requires RoleInv(s) && MainInv(s) && DrainInv(s) && AwakeInv(s) && RoleInv(s')
    requires Moved(s, s', t, base) && FlagMove(s, s', t)
    requires s.pcs[t].DoneItems? ==> base == WakeGetters(s.pcs)
    ensures s'.vars.doneflag && !s'.pcs[0].DoneItems? ==> !SomeAsleep(s'.pcs, AwaitsItem)
  {
  }

  lemma ProducersStayAwake(s: State, s': State, t: nat, base: seq<Pc>)
    requires RoleInv(s) && MainInv(s) && DrainInv(s) && AwakeInv(s) && RoleInv(s')
    requires Moved(s, s', t, base) && FlagMove(s, s', t)
    requires s.pcs[t].DoneSlots? ==> base == WakePutters(s.pcs)
    ensures s'.vars.doneflag && !s'.pcs[0].DoneItems? && !s'.pcs[0].DoneSlots? ==> !SomeAsleep(s'.pcs, AwaitsSlot)
  {
  }

  lemma MovedKeepsAwake(s: State, s': State, t: nat, base: seq<Pc>)
    requires RoleInv(s) && MainInv(s) && DrainInv(s) && AwakeInv(s)
    requires Moved(s, s', t, base) && FlagMove(s, s', t)
    requires s.pcs[t].DoneItems? ==> base == WakeGetters(s.pcs)
    requires s.pcs[t].DoneSlots? ==> base == WakePutters(s.pcs)
    ensures RoleInv(s') && AwakeInv(s')
  {
    MovedKeepsRole(s, s', t, base);
    ConsumersStayAwake(s, s', t, base);
    ProducersStayAwake(s, s', t, base);
  }

  lemma OthersKeepMain(s: State, s': State, t: nat, base: seq<Pc>)
    requires RoleInv(s) && MainInv(s) && Moved(s, s', t, base) && t > 0
    ensures RoleInv(s') && MainInv(s')
  {
    MovedKeepsRole(s, s', t, base);
    assert s'.pcs[0] == s.pcs[0];
    assert !s.pcs[t].Exited? && !s.pcs[t].Unborn? && !s'.pcs[t].Unborn?;
    assert forall i :: 1 <= i < |s.pcs| ==> (s'.pcs[i].Unborn? <==> s.pcs[i].Unborn?);
    assert forall i :: 1 <= i < |s.pcs| && s.pcs[i].Exited? ==> s'.pcs[i].Exited?;
  }

  lemma JoinTargetsAreThreads(s: State, i: nat) returns (j: nat)
    requires 1 <= i <= s.consumers + s.producers
    ensures j < s.consumers + s.producers && JoinTarget(s.consumers, s.producers, j) == i
  {
    j := if i > s.consumers then i - 1 - s.consumers else i - 1 + s.producers;
  }

  lemma CreateKeepsMain(s: State, s': State)
    requires RoleInv(s) && RoleInv(s') && MainInv(s) && s.pcs[0].Create? && MainStep(s, s', 0)
    ensures MainInv(s')
  {
  }

  lemma JoinKeepsMain(s: State, s': State)
    requires RoleInv(s) && RoleInv(s') && MainInv(s) && s.pcs[0].Join? && MainStep(s, s', 0)
    ensures MainInv(s')
  {
    assert forall i :: 1 <= i < |s.pcs| ==> s'.pcs[i] == s.pcs[i];
    if s.pcs[0].k == s.consumers + s.producers {
      forall i | 1 <= i < |s.pcs| ensures s'.pcs[i] == Exited {
        var j := JoinTargetsAreThreads(s, i);
      }
    }
  }

  lemma MainKeepsMain(s: State, s': State)
    requires RoleInv(s) && RoleInv(s') && MainInv(s) && MainStep(s, s', 0)
    ensures MainInv(s')
  {
    if s.pcs[0].Create? {
      CreateKeepsMain(s, s');
    } else if s.pcs[0].Join? {
      JoinKeepsMain(s, s');
    } else {
      assert forall i :: 1 <= i < |s.pcs| && !s.pcs[i].GetAsleep? && !s.pcs[i].PutAsleep? ==> s'.pcs[i] == s.pcs[i];
      assert forall i :: 1 <= i < |s.pcs| ==> (s'.pcs[i].Unborn? <==> s.pcs[i].Unborn?);
    }
  }

  lemma StepKeepsShutdown(s: State, s': State, t: nat, base: seq<Pc>, f: Item -> int, item: Item, u: nat, woken: seq<Pc>)
    requires RoleInv(s) && MainInv(s) && DrainInv(s) && LeaveInv(s) && AwakeInv(s) && RingInv(s) && RingInv(s')
    requires StepBy(s, s', t, f, item, u, woken) && Moved(s, s', t, base)
    requires s.pcs[t].DoneItems? ==> base == WakeGetters(s.pcs)
    requires s.pcs[t].DoneSlots? ==> base == WakePutters(s.pcs)
    ensures RoleInv(s') && DrainInv(s') && LeaveInv(s') && AwakeInv(s')
  {
    StepMovesFlag(s, s', t, f, item, u, woken);
    MovedKeepsDrain(s, s', t, base);
    MovedKeepsLeave(s, s', t, base);
    MovedKeepsAwake(s, s', t, base);
  }

  lemma StepKeepsMain(s: State, s': State, t: nat, base: seq<Pc>, f: Item -> int, item: Item, u: nat, woken: seq<Pc>)
    requires RoleInv(s) && MainInv(s) && StepBy(s, s', t, f, item, u, woken) && Moved(s, s', t, base)
    ensures RoleInv(s') && MainInv(s')
  {
    MovedKeepsRole(s, s', t, base);
    if t == 0 {
      assert s.pcs[0].Main();
      MainKeepsMain(s, s');
    } else {
      OthersKeepMain(s, s', t, base);
    }
  }

  lemma StepKeepsInv(s: State, s': State, t: nat, f: Item -> int, item: Item, u: nat, woken: seq<Pc>)
    requires Inv(s, f) && StepBy(s, s', t, f, item, u, woken)
    ensures Inv(s', f)
  {
    var base := StepMoves(s, s', t, f, item, u, woken);
    MovedKeepsLock(s, s', t, base);
    MovedKeepsSumLock(s, s', t, base);
    StepKeepsRing(s, s', t, f, item, u, woken);
    StepBalances(s, s', t, f, item, u, woken);
    MovedKeepsTally(s, s', t, base, f);
    StepKeepsShutdown(s, s', t, base, f, item, u, woken);
    StepKeepsMain(s, s', t, base, f, item, u, woken);
  }

  // ------------------------------------------------------------ whole runs

  ghost predicate Next(s: State, s': State, f: Item -> int)
  {
    exists t, item, u, woken :: StepBy(s, s', t, f, item, u, woken)
  }

  ghost predicate Steps(run: seq<State>, f: Item -> int)
  {
    && |run| > 0
    && forall i :: 0 <= i < |run| - 1 ==> Next(run[i], run[i + 1], f)
  }

  ghost predicate IsRun(run: seq<State>, f: Item -> int)
  {
    Steps(run, f) && Initial(run[0])
  }

  lemma {:induction false} RunKeepsInv(run: seq<State>, f: Item -> int)
    requires IsRun(run, f)
    ensures Inv(run[|run| - 1], f)
  {
    var n := |run| - 1;
    if n == 0 {
      InitialInv(run[0], f);
    } else {
      var init := run[..n];
      assert init[0] == run[0] && init[|init| - 1] == run[n - 1];
      assert forall i :: 0 <= i < n - 1 ==> Next(run[i], run[i + 1], f);
      RunKeepsInv(init, f);
      assert Next(run[n - 1], run[n], f);
      var t, item, u, woken :| StepBy(run[n - 1], run[n], t, f, item, u, woken);
      StepKeepsInv(run[n - 1], run[n], t, f, item, u, woken);
    }
  }

  /** All producers and consumers have exited. */
  ghost predicate AllExited(s: State) { forall t :: 1 <= t < |s.pcs| ==> s.pcs[t] == Exited }

  /** In every run of any number of producers and at least one consumer, as soon
      as all of them have exited: the buffer is empty, every item whose putitem
      returned 0 was consumed, in order, and the shared count and sum are those
      of exactly these items.  Without any consumer nothing was consumed and
      every accepted item is still stored. */
  lemma TotalsAreExact(run: seq<State>, f: Item -> int)
    requires IsRun(run, f) && AllExited(run[|run| - 1])
    ensures var s := run[|run| - 1];
      && s.accepted == |s.inserted|
      && s.count == |s.removed| && s.sum == Sum(s.removed, f)
      && (s.consumers + s.producers > 0 ==> s.vars.doneflag)
      && (s.consumers > 0 ==> s.vars.totalitems == 0 && s.removed == s.inserted)
      && (s.consumers == 0 ==> s.vars.totalitems == s.accepted && s.removed == [])
  {
    RunKeepsInv(run, f);
    var s := run[|run| - 1];
    assert s.pcs[0].Main();
    SumZero(s.pcs, PutPending);
    SumZero(s.pcs, HandCount);
    SumZero(s.pcs, HandSum(f));
    if s.consumers + s.producers > 0 {
      assert s.pcs[1] == Exited;
    }
  }

  /** What main reports after its joins is exact, and by then all have exited. */
  lemma ReportIsExact(run: seq<State>, f: Item -> int)
    requires IsRun(run, f) && |run[|run| - 1].pcs| > 0 && run[|run| - 1].pcs[0].Reported?
    ensures var s := run[|run| - 1];
      && AllExited(s) && s.accepted == |s.inserted|
      && s.pcs[0].shownCount == |s.removed| && s.pcs[0].shownSum == Sum(s.removed, f)
      && (s.consumers > 0 ==> s.vars.totalitems == 0 && s.removed == s.inserted)
      && (s.consumers == 0 ==> s.vars.totalitems == s.accepted && s.removed == [])
  {
    RunKeepsInv(run, f);
    TotalsAreExact(run, f);
  }

  /** The most steps a thread has left once the flag is set. */
  function Weight(threads: nat): Pc -> int
  {
    (p: Pc) =>
      match p
      case Unborn => 0
      case Exited => 0
      case GetCancel => 1
      case GetTest => 2
      case GetLock => 3
      case GetWoken => 3
      case GetAsleep => 4
      case AddUnlock => 4
      case AddSum(_) => 5
      case AddLock(_) => 6
      case GetUnlock(_) => 7
      case GetSignal(_) => 8
      case PutCancel => 1
      case PutTest(_) => 2
      case PutLock(_) => 3
      case PutWoken(_) => 3
      case PutAsleep(_) => 4
      case Produce => 4
      case FlagUnlock(localdone) => if localdone then 1 else 5
      case FlagRead => 6
      case FlagLock => 7
      case PutUnlock => 8
      case PutSignal => 9
      case DoneItems => threads + 7
      case DoneSlots => threads + 6
      case DoneUnlock => threads + 5
      case Join(k) => if k <= threads then threads - k + 4 else 0
      case ShowLock => 3
      case ShowRead => 2
      case ShowUnlock(_, _) => 1
      case _ => 0
  }

  ghost function Measure(s: State): int
  {
    7 * s.vars.totalitems + Sum(s.pcs, Weight(s.consumers + s.producers))
  }

  lemma MeasureNonNegative(s: State, f: Item -> int)
    requires Inv(s, f)
    ensures Measure(s) >= 0
  {
    SumBounds(s.pcs, Weight(s.consumers + s.producers));
  }

  lemma ConsumerDescends(s: State, s': State, t: nat, f: Item -> int, u: nat, woken: seq<Pc>, threads: nat)
    requires WellFormed(s.vars.ring) && t < |s.pcs| == |s'.pcs| && s.vars.doneflag
    requires ConsumerStep(s, s', t, f, u, woken)
    ensures 7 * s'.vars.totalitems + Weight(threads)(s'.pcs[t]) < 7 * s.vars.totalitems + Weight(threads)(s.pcs[t])
  {
  }

  lemma ProducerDescends(s: State, s': State, t: nat, item: Item, u: nat, woken: seq<Pc>, threads: nat)
    requires WellFormed(s.vars.ring) && t < |s.pcs| == |s'.pcs| && s.vars.doneflag
    requires ProducerStep(s, s', t, item, u, woken)
    ensures 7 * s'.vars.totalitems + Weight(threads)(s'.pcs[t]) < 7 * s.vars.totalitems + Weight(threads)(s.pcs[t])
  {
  }

  lemma MainDescends(s: State, s': State)
    requires RoleInv(s) && MainInv(s) && DrainInv(s) && s.vars.doneflag && |s'.pcs| == |s.pcs|
    requires MainStep(s, s', 0)
    ensures var w := Weight(s.consumers + s.producers);
      s'.vars.totalitems == s.vars.totalitems && w(s'.pcs[0]) < w(s.pcs[0])
  {
    assert s.pcs[0].AfterDone();
  }

  lemma ThreadDescends(s: State, s': State, t: nat, f: Item -> int, item: Item, u: nat, woken: seq<Pc>)
    requires RoleInv(s) && MainInv(s) && DrainInv(s) && s.vars.doneflag
    requires StepBy(s, s', t, f, item, u, woken) && |s'.pcs| == |s.pcs|
    ensures var w := Weight(s.consumers + s.producers);
      7 * s'.vars.totalitems + w(s'.pcs[t]) < 7 * s.vars.totalitems + w(s.pcs[t])
  {
    if ConsumerStep(s, s', t, f, u, woken) {
      ConsumerDescends(s, s', t, f, u, woken, s.consumers + s.producers);
    } else if ProducerStep(s, s', t, item, u, woken) {
      ProducerDescends(s, s', t, item, u, woken, s.consumers + s.producers);
    } else {
      var base := MainMoves(s, s', t);
      MainDescends(s, s');
    }
  }

  /** Waking sleepers does not raise the measure. */
  lemma WakingDescends(s: State, t: nat, base: seq<Pc>, threads: nat)
    requires t < |s.pcs| && SideEffect(s, t, base) && !s.pcs[t].Create?
    ensures Sum(base, Weight(threads)) <= Sum(s.pcs, Weight(threads))
  {
    var w := Weight(threads);
    assert w(GetWoken) <= w(GetAsleep);
    forall i | 0 <= i < |s.pcs| ensures w(base[i]) <= w(s.pcs[i]) {
      if s.pcs[i].PutAsleep? {
        assert w(PutWoken(s.pcs[i].x)) <= w(PutAsleep(s.pcs[i].x));
      }
    }
    SumMonotone(s.pcs, w, base, w);
  }

  lemma MovedDescends(s: State, s': State, t: nat, base: seq<Pc>, w: Pc -> int)
    requires Moved(s, s', t, base) && Sum(base, w) <= Sum(s.pcs, w)
    requires 7 * s'.vars.totalitems + w(s'.pcs[t]) < 7 * s.vars.totalitems + w(s.pcs[t])
    ensures 7 * s'.vars.totalitems + Sum(s'.pcs, w) < 7 * s.vars.totalitems + Sum(s.pcs, w)
  {
    SumUpdate(base, t, s'.pcs[t], w);
  }

  lemma NoMoreThreads(s: State, t: nat)
    requires RoleInv(s) && DrainInv(s) && s.vars.doneflag && t < |s.pcs|
    ensures !s.pcs[t].Create?
  {
    assert s.pcs[0].AfterDone();
  }

  lemma MeasureUnfolds(s: State, threads: nat)
    requires threads == s.consumers + s.producers
    ensures Measure(s) == 7 * s.vars.totalitems + Sum(s.pcs, Weight(threads))
  {
  }

  lemma MeasureDescends(s: State, s': State, t: nat, base: seq<Pc>)
    requires Moved(s, s', t, base) && !s.pcs[t].Create?
    requires var w := Weight(s.consumers + s.producers);
      7 * s'.vars.totalitems + w(s'.pcs[t]) < 7 * s.vars.totalitems + w(s.pcs[t])
    ensures Measure(s') < Measure(s)
  {
    var threads := s.consumers + s.producers;
    WakingDescends(s, t, base, threads);
    MovedDescends(s, s', t, base, Weight(threads));
    MeasureUnfolds(s, threads);
    MeasureUnfolds(s', threads);
  }

  lemma FlagStays(s: State, s': State, t: nat, f: Item -> int, item: Item, u: nat, woken: seq<Pc>)
    requires RoleInv(s) && s.vars.doneflag && StepBy(s, s', t, f, item, u, woken) && |s'.pcs| == |s.pcs|
    ensures s'.vars.doneflag
  {
    StepMovesFlag(s, s', t, f, item, u, woken);
  }

  /** Once the flag is set every step of every thread, a spurious wakeup
      included, lowers the measure, and the flag stays set. */
  lemma StepDescends(s: State, s': State, t: nat, f: Item -> int, item: Item, u: nat, woken: seq<Pc>)
    requires Inv(s, f) && s.vars.doneflag && StepBy(s, s', t, f, item, u, woken)
    ensures s'.vars.doneflag && Measure(s') < Measure(s)
  {
    var base := StepMoves(s, s', t, f, item, u, woken);
    NoMoreThreads(s, t);
    ThreadDescends(s, s', t, f, item, u, woken);
    MeasureDescends(s, s', t, base);
    FlagStays(s, s', t, f, item, u, woken);
  }

  /** Thread `t` can take a step that is not a spurious wakeup. */
  ghost predicate CanMove(s: State, t: nat, f: Item -> int)
  {
    && t < |s.pcs| && !s.pcs[t].GetAsleep? && !s.pcs[t].PutAsleep?
    && exists s', item, u, woken :: StepBy(s, s', t, f, item, u, woken)
  }

  /** The thread's next step waits for no mutex that is taken. */
  ghost predicate Unblocked(s: State, t: nat)
    requires t < |s.pcs|
  {
    var p := s.pcs[t];
    && (p.GetLock? || p.GetWoken? || p.PutLock? || p.PutWoken? || p.FlagLock? || p.DoneLock? ==> s.lock == Free)
    && (p.AddLock? || p.ShowLock? ==> s.sumlock == Free)
  }

  lemma ConsumerCanMove(s: State, t: nat, f: Item -> int)
    requires WellFormed(s.vars.ring) && t < |s.pcs| == 1 + s.consumers + s.producers
    requires s.pcs[t].Consumer() && !s.pcs[t].GetAsleep? && Unblocked(s, t)
    ensures CanMove(s, t, f)
  {
    var p := s.pcs[t];
    var u: nat, woken := 0, s.pcs;
    if p.GetSignal? && SomeAsleep(s.pcs, AwaitsSlot) {
      u :| u < |s.pcs| && s.pcs[u].PutAsleep?;
      woken := s.pcs[u := PutWoken(s.pcs[u].x)];
    }
    var (v, o) := GetRegion(s.vars);
    var s' :=
      if p.GetLock? || p.GetWoken? then Go(s, t, GetTest).(lock := Held(t))
      else if p.GetTest? && o.Took? then Go(s, t, GetSignal(o.item)).(vars := v, removed := s.removed + [o.item])
      else if p.GetTest? && o.Canceled? then Go(s, t, GetCancel)
      else if p.GetTest? then Go(s, t, GetAsleep).(lock := Free)
      else if p.GetSignal? then s.(pcs := woken[t := GetUnlock(p.x)])
      else if p.GetUnlock? then Go(s, t, AddLock(p.x)).(lock := Free)
      else if p.GetCancel? then Go(s, t, Exited).(lock := Free)
      else if p.AddLock? then Go(s, t, AddSum(p.x)).(sumlock := Held(t))
      else if p.AddSum? then Go(s, t, AddUnlock).(sum := s.sum + f(p.x), count := s.count + 1)
      else Go(s, t, GetLock).(sumlock := Free);
    assert ConsumerStep(s, s', t, f, u, woken);
    assert StepBy(s, s', t, f, 0, u, woken);
  }

  lemma ProducerCanMove(s: State, t: nat, f: Item -> int)
    requires WellFormed(s.vars.ring) && t < |s.pcs| == 1 + s.consumers + s.producers
    requires s.pcs[t].Producer() && !s.pcs[t].PutAsleep? && Unblocked(s, t)
    ensures CanMove(s, t, f)
  {
    var p := s.pcs[t];
    var u: nat, woken := 0, s.pcs;
    if p.PutSignal? && SomeAsleep(s.pcs, AwaitsItem) {
      u :| u < |s.pcs| && s.pcs[u].GetAsleep?;
      woken := s.pcs[u := GetWoken];
    }
    var (v, o) := PutRegion(s.vars, if p.PutTest? then p.x else 0);
    var s' :=
      if p.Produce? then Go(s, t, PutLock(0))
      else if p.PutLock? || p.PutWoken? then Go(s, t, PutTest(p.x)).(lock := Held(t))
      else if p.PutTest? && o.Stored? then Go(s, t, PutSignal).(vars := v, inserted := s.inserted + [p.x])
      else if p.PutTest? && o.Canceled? then Go(s, t, PutCancel)
      else if p.PutTest? then Go(s, t, PutAsleep(p.x)).(lock := Free)
      else if p.PutSignal? then s.(pcs := woken[t := PutUnlock])
      else if p.PutUnlock? then Go(s, t, FlagLock).(lock := Free, accepted := s.accepted + 1)
      else if p.PutCancel? then Go(s, t, Exited).(lock := Free)
      else if p.FlagLock? then Go(s, t, FlagRead).(lock := Held(t))
      else if p.FlagRead? then Go(s, t, FlagUnlock(s.vars.doneflag))
      else Go(s, t, if p.localdone then Exited else Produce).(lock := Free);
    assert ProducerStep(s, s', t, 0, u, woken);
    assert StepBy(s, s', t, f, 0, u, woken);
  }

  lemma MainCanMove(s: State, f: Item -> int)
    requires RoleInv(s) && MainInv(s) && DrainInv(s) && WellFormed(s.vars.ring) && s.vars.doneflag
    requires !s.pcs[0].Reported? && Unblocked(s, 0)
    requires s.pcs[0].Join? ==> forall t :: 1 <= t < |s.pcs| ==> s.pcs[t] == Exited
    ensures CanMove(s, 0, f)
  {
    var p := s.pcs[0];
    assert p.AfterDone();
    var s' :=
      if p.DoneItems? then s.(pcs := WakeGetters(s.pcs)[0 := DoneSlots])
      else if p.DoneSlots? then s.(pcs := WakePutters(s.pcs)[0 := DoneUnlock])
      else if p.DoneUnlock? then Go(s, 0, Join(0)).(lock := Free)
      else if p.Join? && p.k < s.consumers + s.producers then Go(s, 0, Join(p.k + 1))
      else if p.Join? then Go(s, 0, ShowLock)
      else if p.ShowLock? then Go(s, 0, ShowRead).(sumlock := Held(0))
      else if p.ShowRead? then Go(s, 0, ShowUnlock(s.count, s.sum))
      else Go(s, 0, Reported(p.shownCount, p.shownSum)).(sumlock := Free);
    assert MainStep(s, s', 0);
    assert StepBy(s, s', 0, f, 0, 0, s.pcs);
  }

  ghost predicate Stuck(s: State, f: Item -> int)
  {
    forall t :: 0 <= t < |s.pcs| ==> !CanMove(s, t, f)
  }

  lemma HolderMoves(s: State, t: nat, f: Item -> int)
    requires Inv(s, f) && s.vars.doneflag
    requires s.lock == Held(t) || s.sumlock == Held(t)
    ensures CanMove(s, t, f)
  {
    assert s.pcs[t].HoldsLock() || s.pcs[t].HoldsSumLock();
    if s.pcs[t].Consumer() {
      ConsumerCanMove(s, t, f);
    } else if s.pcs[t].Producer() {
      ProducerCanMove(s, t, f);
    } else {
      assert t == 0;
      MainCanMove(s, f);
    }
  }

  /** After shutdown a state is stuck only when main has reported. */
  lemma StuckMeansReported(s: State, f: Item -> int)
    requires Inv(s, f) && s.vars.doneflag && Stuck(s, f)
    ensures s.pcs[0].Reported?
  {
    if s.lock.Held? || s.sumlock.Held? {
      var t := if s.lock.Held? then s.lock.tid else s.sumlock.tid;
      HolderMoves(s, t, f);
    } else if exists t :: 1 <= t < |s.pcs| && s.pcs[t] != Exited {
      var t: nat :| 1 <= t < |s.pcs| && s.pcs[t] != Exited;
      assert !s.pcs[0].DoneItems? && !s.pcs[0].DoneSlots?;
      if t <= s.consumers {
        ConsumerCanMove(s, t, f);
      } else {
        ProducerCanMove(s, t, f);
      }
    } else if !s.pcs[0].Reported? {
      MainCanMove(s, f);
    }
  }

  lemma NextDescends(s: State, s': State, f: Item -> int)
    requires Inv(s, f) && s.vars.doneflag && Next(s, s', f)
    ensures Inv(s', f) && s'.vars.doneflag && Measure(s') < Measure(s)
  {
    var t, item, u, woken :| StepBy(s, s', t, f, item, u, woken);
    StepDescends(s, s', t, f, item, u, woken);
    StepKeepsInv(s, s', t, f, item, u, woken);
  }

  lemma {:induction false} StepsDescend(run: seq<State>, f: Item -> int)
    requires Steps(run, f) && Inv(run[0], f) && run[0].vars.doneflag
    ensures Inv(run[|run| - 1], f) && run[|run| - 1].vars.doneflag
    ensures Measure(run[|run| - 1]) + |run| - 1 <= Measure(run[0])
  {
    var n := |run| - 1;
    if n > 0 {
      var init := run[..n];
      assert init[0] == run[0] && init[|init| - 1] == run[n - 1];
      assert forall i :: 0 <= i < n - 1 ==> Next(run[i], run[i + 1], f);
      StepsDescend(init, f);
      assert Next(run[n - 1], run[n], f);
      NextDescends(run[n - 1], run[n], f);
    }
  }

  /** Once setdone has set the flag, every continuation of every run is of
      bounded length, and one that cannot go on has all threads joined and the
      totals reported: the joins complete under every schedule. */
  lemma ShutdownCompletes(run: seq<State>, more: seq<State>, f: Item -> int)
    requires IsRun(run, f) && run[|run| - 1].vars.doneflag
    requires Steps(more, f) && more[0] == run[|run| - 1]
    ensures |more| <= 1 + Measure(more[0])
    ensures Stuck(more[|more| - 1], f) ==>
              |more[|more| - 1].pcs| > 0 && more[|more| - 1].pcs[0].Reported?
  {
    RunKeepsInv(run, f);
    StepsDescend(more, f);
    MeasureNonNegative(more[|more| - 1], f);
    if Stuck(more[|more| - 1], f) {
      StuckMeansReported(more[|more| - 1], f);
    }
  }
}
