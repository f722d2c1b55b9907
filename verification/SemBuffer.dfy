/** The bounded buffer built from two counting semaphores (chapter16/buffersem.c),
    as a machine whose steps are the semaphore, mutex and `pthread_once`
    operations.  Any number of threads call `getitem` and `putitem` in any order. */
module SemBuffer {
  import opened Threads
  import opened BoundedRing

  /** What a thread is in the middle of; a `Get` becomes `Got` when it removes. */
  datatype Call = Get | Got(got: Item) | Put(item: Item)

  datatype Pc =
    | Idle
    | CheckInit(call: Call)         // reads initdone
    | Once(call: Call)              // calls pthread_once
    | Init(call: Call, stage: nat)  // runs initialization inside pthread_once
    | SemWait(call: Call)
    | Lock(call: Call)
    | Critical(call: Call)
    | Unlock(call: Call)
    | Post(call: Call)

  datatype OnceControl = Never | Running(tid: nat) | Finished

  datatype State = State(
    ring: Ring, semitems: int, semslots: int, lock: Owner,
    initdone: bool, once: OnceControl, pcs: seq<Pc>,
    inserted: seq<Item>, removed: seq<Item>)

  ghost predicate Initial(s: State)
  {
    && Holds(s.ring, 0)
    && s.lock == Free && !s.initdone && s.once == Never
    && s.inserted == [] && s.removed == []
    && forall t :: 0 <= t < |s.pcs| ==> s.pcs[t] == Idle
  }

  /** Thread `t` takes one step; `call` is what an idle thread asks for. */
  ghost predicate StepBy(s: State, s': State, t: nat, call: Call)
  {
    && WellFormed(s.ring)
    && t < |s.pcs|
    && match s.pcs[t]
       case Idle =>
         !call.Got? && s' == Go(s, t, CheckInit(call))
       case CheckInit(c) =>
         s' == Go(s, t, if s.initdone then SemWait(c) else Once(c))
       case Once(c) =>
         || (s.once == Never && s' == Go(s, t, Init(c, 0)).(once := Running(t)))
         || (s.once == Finished && s' == Go(s, t, SemWait(c)))
       case Init(c, stage) =>
         if stage == 0 then s' == Go(s, t, Init(c, 1)).(semitems := 0)
         else if stage == 1 then s' == Go(s, t, Init(c, 2)).(semslots := BUFSIZE)
         else if stage == 2 then s' == Go(s, t, Init(c, 3)).(initdone := true)
         else s' == Go(s, t, SemWait(c)).(once := Finished)
       case SemWait(c) =>
         || s' == s  // interrupted by a signal: errno is EINTR and the loop retries
         || (c.Get? && s.semitems > 0 && s' == Go(s, t, Lock(c)).(semitems := s.semitems - 1))
         || (c.Put? && s.semslots > 0 && s' == Go(s, t, Lock(c)).(semslots := s.semslots - 1))
       case Lock(c) =>
         s.lock == Free && s' == Go(s, t, Critical(c)).(lock := Held(t))
       case Critical(c) =>
         if c.Put? then
           s' == Go(s, t, Unlock(c)).(ring := Insert(s.ring, c.item), inserted := s.inserted + [c.item])
         else
           s' == Go(s, t, Unlock(Got(Front(s.ring)))).(
                   ring := Remove(s.ring), removed := s.removed + [Front(s.ring)])
       case Unlock(c) =>
         s' == Go(s, t, Post(c)).(lock := Free)
       case Post(c) =>
         if c.Put? then s' == Go(s, t, Idle).(semitems := s.semitems + 1)
         else s' == Go(s, t, Idle).(semslots := s.semslots + 1)
  }

  function Go(s: State, t: nat, pc: Pc): State
    requires t < |s.pcs|
  {
    s.(pcs := s.pcs[t := pc])
  }

  // The four kinds of thread between a semaphore operation and its partner.

  function ItemReserved(p: Pc): int { if (p.Lock? || p.Critical?) && !p.call.Put? then 1 else 0 }

  function SlotReserved(p: Pc): int { if (p.Lock? || p.Critical?) && p.call.Put? then 1 else 0 }

  function WrittenNotPosted(p: Pc): int { if (p.Unlock? || p.Post?) && p.call.Put? then 1 else 0 }

  function RemovedNotPosted(p: Pc): int { if (p.Unlock? || p.Post?) && !p.call.Put? then 1 else 0 }

  function Stored(s: State): int { |s.inserted| - |s.removed| }

  /** The semaphores have been initialised. */
  predicate Ready(s: State)
  {
    match s.once
    case Never => false
    case Finished => true
    case Running(t) => t < |s.pcs| && s.pcs[t].Init? && s.pcs[t].stage >= 2
  }

  predicate PastInit(p: Pc) { p.SemWait? || p.Lock? || p.Critical? || p.Unlock? || p.Post? }

  ghost predicate LockInv(s: State)
  {
    && (s.lock.Held? ==> s.lock.tid < |s.pcs|)
    && forall t :: 0 <= t < |s.pcs| ==>
         ((s.pcs[t].Critical? || s.pcs[t].Unlock?) <==> s.lock == Held(t))
  }

  predicate CallOk(p: Pc)
  {
    match p
    case Idle => true
    case Unlock(c) => !c.Get?
    case Post(c) => !c.Get?
    case _ => !p.call.Got?
  }

  ghost predicate CallsInv(s: State)
  {
    forall t :: 0 <= t < |s.pcs| ==> CallOk(s.pcs[t])
  }

  /** Initialisation is run by one thread. */
  ghost predicate RunnerInv(s: State)
  {
    && (s.once.Running? ==> s.once.tid < |s.pcs|)
    && (forall t :: 0 <= t < |s.pcs| ==> (s.pcs[t].Init? <==> s.once == Running(t)))
  }

  /** Initialisation comes before any semaphore is waited on. */
  ghost predicate ReadyInv(s: State)
  {
    && (s.once.Running? && s.once.tid < |s.pcs| && s.pcs[s.once.tid].Init? && s.pcs[s.once.tid].stage == 1 ==> s.semitems == 0)
    && (s.initdone ==> Ready(s))
    && (!Ready(s) ==> s.inserted == [] && s.removed == [])
    && (forall t :: 0 <= t < |s.pcs| && PastInit(s.pcs[t]) ==> Ready(s))
  }

  /** Initialisation runs at most once, and before any semaphore is waited on. */
  ghost predicate OnceInv(s: State)
  {
    RunnerInv(s) && ReadyInv(s)
  }

  ghost predicate CountInv(s: State)
  {
    Ready(s) ==>
      && s.semitems >= 0 && s.semslots >= 0
      && Stored(s) == s.semitems + Sum(s.pcs, WrittenNotPosted) + Sum(s.pcs, ItemReserved)
      && BUFSIZE - Stored(s) == s.semslots + Sum(s.pcs, SlotReserved) + Sum(s.pcs, RemovedNotPosted)
  }

  ghost predicate RingInv(s: State)
  {
    Queued(s.ring, s.inserted, s.removed)
  }

  ghost predicate Inv(s: State)
  {
    LockInv(s) && CallsInv(s) && OnceInv(s) && CountInv(s) && RingInv(s)
  }

  lemma InitialInv(s: State)
    requires Initial(s)
    ensures Inv(s)
  {
  }

  lemma Weigh(s: State, t: nat, p: Pc)
    requires t < |s.pcs|
    ensures Sum(s.pcs[t := p], WrittenNotPosted) == Sum(s.pcs, WrittenNotPosted) - WrittenNotPosted(s.pcs[t]) + WrittenNotPosted(p)
    ensures Sum(s.pcs[t := p], ItemReserved) == Sum(s.pcs, ItemReserved) - ItemReserved(s.pcs[t]) + ItemReserved(p)
    ensures Sum(s.pcs[t := p], SlotReserved) == Sum(s.pcs, SlotReserved) - SlotReserved(s.pcs[t]) + SlotReserved(p)
    ensures Sum(s.pcs[t := p], RemovedNotPosted) == Sum(s.pcs, RemovedNotPosted) - RemovedNotPosted(s.pcs[t]) + RemovedNotPosted(p)
  {
    SumUpdate(s.pcs, t, p, WrittenNotPosted);
    SumUpdate(s.pcs, t, p, ItemReserved);
    SumUpdate(s.pcs, t, p, SlotReserved);
    SumUpdate(s.pcs, t, p, RemovedNotPosted);
  }

  lemma NonNegative(s: State)
    ensures Sum(s.pcs, WrittenNotPosted) >= 0 && Sum(s.pcs, ItemReserved) >= 0
    ensures Sum(s.pcs, SlotReserved) >= 0 && Sum(s.pcs, RemovedNotPosted) >= 0
    ensures forall t :: 0 <= t < |s.pcs| ==> ItemReserved(s.pcs[t]) <= Sum(s.pcs, ItemReserved)
    ensures forall t :: 0 <= t < |s.pcs| ==> SlotReserved(s.pcs[t]) <= Sum(s.pcs, SlotReserved)
  {
    SumBounds(s.pcs, WrittenNotPosted);
    SumBounds(s.pcs, ItemReserved);
    SumBounds(s.pcs, SlotReserved);
    SumBounds(s.pcs, RemovedNotPosted);
  }

  /** A thread about to write has a free slot and one about to read an item. */
  lemma NoOverwriteNoEmptyRead(s: State, t: nat)
    requires Inv(s) && t < |s.pcs| && s.pcs[t].Critical?
    ensures s.pcs[t].call.Put? ==> Stored(s) < BUFSIZE
    ensures s.pcs[t].call.Get? ==> Stored(s) > 0
  {
    NonNegative(s);
    assert PastInit(s.pcs[t]);
    assert SlotReserved(s.pcs[t]) + ItemReserved(s.pcs[t]) == 1;
  }

  lemma StepKeepsLock(s: State, s': State, t: nat, call: Call)
    requires LockInv(s) && StepBy(s, s', t, call)
    ensures LockInv(s')
  {
  }

  lemma StepMoves(s: State, s': State, t: nat, call: Call)
    requires StepBy(s, s', t, call)
    ensures |s'.pcs| == |s.pcs| && forall i :: 0 <= i < |s.pcs| && i != t ==> s'.pcs[i] == s.pcs[i]
  {
  }

  lemma StepKeepsCalls(s: State, s': State, t: nat, call: Call)
    requires CallsInv(s) && StepBy(s, s', t, call)
    ensures CallsInv(s')
  {
    StepMoves(s, s', t, call);
    assert CallOk(s'.pcs[t]);
  }

  lemma StepKeepsRunner(s: State, s': State, t: nat, call: Call)
    requires RunnerInv(s) && StepBy(s, s', t, call)
    ensures RunnerInv(s')
  {
    StepMoves(s, s', t, call);
  }

  lemma StepKeepsReady(s: State, s': State, t: nat, call: Call)
    requires OnceInv(s) && StepBy(s, s', t, call)
    ensures ReadyInv(s')
  {
    StepMoves(s, s', t, call);
    assert PastInit(s'.pcs[t]) ==> Ready(s');
  }

  lemma StepKeepsOnce(s: State, s': State, t: nat, call: Call)
    requires OnceInv(s) && StepBy(s, s', t, call)
    ensures OnceInv(s')
  {
    StepKeepsRunner(s, s', t, call);
    StepKeepsReady(s, s', t, call);
  }

  /** The semaphores become ready once, with no items, and stay so. */
  lemma ReadyIsStable(s: State, s': State, t: nat, call: Call)
    requires OnceInv(s) && StepBy(s, s', t, call)
    ensures Ready(s) ==> Ready(s')
    ensures !Ready(s) && Ready(s') ==> s.semitems == 0 && s.pcs[t].Init? && s.pcs[t].stage == 1
  {
  }

  lemma FirstCounts(s: State, s': State, t: nat, call: Call)
    requires OnceInv(s) && StepBy(s, s', t, call)
    requires !Ready(s) && Ready(s')
    ensures CountInv(s')
  {
    ReadyIsStable(s, s', t, call);
    assert s'.pcs == s.pcs[t := Init(s.pcs[t].call, 2)];
    SumZero(s'.pcs, WrittenNotPosted);
    SumZero(s'.pcs, ItemReserved);
    SumZero(s'.pcs, SlotReserved);
    SumZero(s'.pcs, RemovedNotPosted);
  }

  /** One step moves as much into a semaphore as the stepping thread gives up. */
  lemma ItemsBalance(s: State, s': State, t: nat, call: Call)
    requires CallsInv(s) && OnceInv(s) && Ready(s) && StepBy(s, s', t, call)
    ensures |s'.pcs| == |s.pcs|
    ensures s'.semitems >= s.semitems || s'.semitems == s.semitems - 1 >= 0
    ensures Stored(s') - Stored(s) == s'.semitems - s.semitems
              + WrittenNotPosted(s'.pcs[t]) - WrittenNotPosted(s.pcs[t])
              + ItemReserved(s'.pcs[t]) - ItemReserved(s.pcs[t])
  {
  }

  lemma SlotsBalance(s: State, s': State, t: nat, call: Call)
    requires CallsInv(s) && OnceInv(s) && Ready(s) && StepBy(s, s', t, call)
    ensures s'.pcs == s.pcs[t := s'.pcs[t]]
    ensures s'.semslots >= s.semslots || s'.semslots == s.semslots - 1 >= 0
    ensures Stored(s) - Stored(s') == s'.semslots - s.semslots
              + SlotReserved(s'.pcs[t]) - SlotReserved(s.pcs[t])
              + RemovedNotPosted(s'.pcs[t]) - RemovedNotPosted(s.pcs[t])
  {
  }

  lemma StepKeepsCounts(s: State, s': State, t: nat, call: Call)
    requires CallsInv(s) && OnceInv(s) && CountInv(s) && StepBy(s, s', t, call)
    ensures CountInv(s')
  {
    if !Ready(s) {
      if Ready(s') {
        FirstCounts(s, s', t, call);
      }
    } else {
      ItemsBalance(s, s', t, call);
      SlotsBalance(s, s', t, call);
      Weigh(s, t, s'.pcs[t]);
    }
  }

  lemma StepKeepsRing(s: State, s': State, t: nat, call: Call)
    requires Inv(s) && StepBy(s, s', t, call)
    ensures RingInv(s')
  {
    if s.pcs[t].Critical? {
      NoOverwriteNoEmptyRead(s, t);
      if s.pcs[t].call.Put? {
        InsertQueues(s.ring, s.inserted, s.removed, s.pcs[t].call.item);
      } else {
        RemoveQueues(s.ring, s.inserted, s.removed);
      }
    }
  }

  lemma StepKeepsInv(s: State, s': State, t: nat, call: Call)
    requires Inv(s) && StepBy(s, s', t, call)
    ensures Inv(s')
  {
    StepKeepsLock(s, s', t, call);
    StepKeepsCalls(s, s', t, call);
    StepKeepsOnce(s, s', t, call);
    StepKeepsCounts(s, s', t, call);
    StepKeepsRing(s, s', t, call);
  }

  /** The bounded queue the machine implements, read off the ring itself. */
  ghost function Queue(s: State): seq<Item>
    requires Inv(s)
  {
    Contents(s.ring, Stored(s))
  }

  /** Every step is a step of a FIFO queue of capacity BUFSIZE, or leaves the
      queue alone: a critical `putitem` enqueues its own item, a critical
      `getitem` dequeues the oldest and keeps it as its result. */
  lemma StepRefinesQueue(s: State, s': State, t: nat, call: Call)
    requires Inv(s) && StepBy(s, s', t, call)
    ensures Inv(s')
    ensures !s.pcs[t].Critical? ==> Queue(s') == Queue(s)
    ensures s.pcs[t].Critical? && s.pcs[t].call.Put? ==>
              |Queue(s)| < BUFSIZE && Queue(s') == Queue(s) + [s.pcs[t].call.item]
    ensures s.pcs[t].Critical? && s.pcs[t].call.Get? ==>
              s'.pcs[t].Unlock? && s'.pcs[t].call.Got? && Queue(s) == [s'.pcs[t].call.got] + Queue(s')
  {
    StepKeepsInv(s, s', t, call);
    if s.pcs[t].Critical? {
      NoOverwriteNoEmptyRead(s, t);
      if s.pcs[t].call.Put? {
        InsertAppends(s.ring, Stored(s), s.pcs[t].call.item);
      } else {
        RemoveTakesOldest(s.ring, Stored(s));
      }
    }
  }

  ghost predicate Next(s: State, s': State)
  {
    exists t, call :: StepBy(s, s', t, call)
  }

  ghost predicate IsRun(run: seq<State>)
  {
    && |run| > 0 && Initial(run[0])
    && forall i :: 0 <= i < |run| - 1 ==> Next(run[i], run[i + 1])
  }

  lemma {:induction false} RunKeepsInv(run: seq<State>)
    requires IsRun(run)
    ensures Inv(run[|run| - 1])
  {
    var n := |run| - 1;
    if n == 0 {
      InitialInv(run[0]);
    } else {
      RunKeepsInv(run[..n]);
      assert Next(run[n - 1], run[n]);
      var t, call :| StepBy(run[n - 1], run[n], t, call);
      StepKeepsInv(run[n - 1], run[n], t, call);
    }
  }

  /** In every run of any number of threads, wherever it stops: the items stored
      and the free slots are exactly accounted for by the semaphores and the
      threads between two semaphore operations, no thread is about to
      overwrite an unread item or read an empty slot, and what has been
      removed is what was inserted first. */
  lemma Safety(run: seq<State>)
    requires IsRun(run)
    ensures var s := run[|run| - 1];
      && s.removed <= s.inserted && |s.inserted| <= |s.removed| + 8
      && (Ready(s) ==>
            && Stored(s) == s.semitems + Sum(s.pcs, WrittenNotPosted) + Sum(s.pcs, ItemReserved)
            && BUFSIZE - Stored(s) == s.semslots + Sum(s.pcs, SlotReserved) + Sum(s.pcs, RemovedNotPosted))
      && (forall t :: 0 <= t < |s.pcs| && s.pcs[t].Critical? ==>
            if s.pcs[t].call.Put? then Stored(s) < BUFSIZE
            else Holds(s.ring, Stored(s)) && Stored(s) > 0 && Front(s.ring) == s.inserted[|s.removed|])
  {
    var s := run[|run| - 1];
    RunKeepsInv(run);
    forall t | 0 <= t < |s.pcs| && s.pcs[t].Critical?
      ensures if s.pcs[t].call.Put? then Stored(s) < BUFSIZE
              else Stored(s) > 0 && Front(s.ring) == s.inserted[|s.removed|]
    {
      NoOverwriteNoEmptyRead(s, t);
      if !s.pcs[t].call.Put? {
        assert Contents(s.ring, Stored(s))[0] == Front(s.ring);
      }
    }
  }

  /** Thread `t` is inside a call and can take a step that changes something. */
  ghost predicate CanMove(s: State, t: nat)
  {
    && t < |s.pcs| && s.pcs[t] != Idle
    && exists s', call :: s' != s && StepBy(s, s', t, call)
  }

  ghost predicate SomeoneCanMove(s: State) { exists t :: CanMove(s, t) }

  /** The thread's next step waits for nothing. */
  ghost predicate Unblocked(s: State, t: nat)
    requires t < |s.pcs|
  {
    match s.pcs[t]
    case Idle => false
    case Once(_) => !s.once.Running?
    case SemWait(c) => if c.Put? then s.semslots > 0 else s.semitems > 0
    case Lock(_) => s.lock == Free
    case _ => true
  }

  lemma UnblockedCanMove(s: State, t: nat)
    requires Inv(s) && t < |s.pcs| && Unblocked(s, t)
    ensures CanMove(s, t)
  {
    var p := s.pcs[t];
    var c := p.call;
    var s' :=
      if p.CheckInit? then Go(s, t, if s.initdone then SemWait(c) else Once(c))
      else if p.Once? && s.once.Never? then Go(s, t, Init(c, 0)).(once := Running(t))
      else if p.Once? then Go(s, t, SemWait(c))
      else if p.Init? && p.stage == 0 then Go(s, t, Init(c, 1)).(semitems := 0)
      else if p.Init? && p.stage == 1 then Go(s, t, Init(c, 2)).(semslots := BUFSIZE)
      else if p.Init? && p.stage == 2 then Go(s, t, Init(c, 3)).(initdone := true)
      else if p.Init? then Go(s, t, SemWait(c)).(once := Finished)
      else if p.SemWait? && c.Put? then Go(s, t, Lock(c)).(semslots := s.semslots - 1)
      else if p.SemWait? then Go(s, t, Lock(c)).(semitems := s.semitems - 1)
      else if p.Lock? then Go(s, t, Critical(c)).(lock := Held(t))
      else if p.Critical? && c.Put? then
        Go(s, t, Unlock(c)).(ring := Insert(s.ring, c.item), inserted := s.inserted + [c.item])
      else if p.Critical? then
        Go(s, t, Unlock(Got(Front(s.ring)))).(ring := Remove(s.ring), removed := s.removed + [Front(s.ring)])
      else if p.Unlock? then Go(s, t, Post(c)).(lock := Free)
      else if c.Put? then Go(s, t, Idle).(semitems := s.semitems + 1)
      else Go(s, t, Idle).(semslots := s.semslots + 1);
    assert s'.pcs[t] != s.pcs[t];
    assert StepBy(s, s', t, Get);
  }

  /** With at least one producer and one consumer in a call, no run reaches a
      state where everybody is blocked: the semaphores cannot both be used up
      while nobody is between a semaphore operation and its partner. */
  lemma NeverAllBlocked(run: seq<State>, p: nat, c: nat)
    requires IsRun(run)
    requires var s := run[|run| - 1]; p < |s.pcs| && s.pcs[p] != Idle && s.pcs[p].call.Put?
    requires var s := run[|run| - 1]; c < |s.pcs| && s.pcs[c] != Idle && !s.pcs[c].call.Put?
    ensures SomeoneCanMove(run[|run| - 1])
  {
    RunKeepsInv(run);
    var s := run[|run| - 1];
    if s.once.Running? {
      UnblockedCanMove(s, s.once.tid);
    } else if s.lock.Held? {
      UnblockedCanMove(s, s.lock.tid);
    } else if exists t: nat :: t < |s.pcs| && s.pcs[t] != Idle && !s.pcs[t].SemWait? {
      var t: nat :| t < |s.pcs| && s.pcs[t] != Idle && !s.pcs[t].SemWait?;
      UnblockedCanMove(s, t);
    } else {
      assert PastInit(s.pcs[p]) && Ready(s);
      SumZero(s.pcs, ItemReserved);
      SumZero(s.pcs, SlotReserved);
      SumZero(s.pcs, WrittenNotPosted);
      SumZero(s.pcs, RemovedNotPosted);
      UnblockedCanMove(s, if s.semslots > 0 then p else c);
    }
  }

  // -------------------------------------------- calls, arguments and results

  function PcAt(s: State, v: nat): Pc { if v < |s.pcs| then s.pcs[v] else Idle }

  /** Before and in the critical section, and behind it. */
  predicate Ahead(p: Pc) { p.CheckInit? || p.Once? || p.Init? || p.SemWait? || p.Lock? || p.Critical? }

  predicate Behind(p: Pc) { p.Unlock? || p.Post? }

  /** What the critical section does for a call: it ends as `q`. */
  ghost predicate Served(s: State, s': State, p: Pc, q: Pc)
    requires p.Critical? && Behind(q)
  {
    if p.call.Put? then
      q.call == p.call && s'.inserted == s.inserted + [p.call.item] && s'.removed == s.removed
    else
      q.call.Got? && s'.removed == s.removed + [q.call.got] && s'.inserted == s.inserted
  }

  /** Any call can be made, and a call is started as it is made. */
  lemma CallStarts(s: State, t: nat, call: Call) returns (s': State)
    requires WellFormed(s.ring) && t < |s.pcs| && s.pcs[t].Idle? && !call.Got?
    ensures StepBy(s, s', t, call) && s'.pcs == s.pcs[t := CheckInit(call)]
    ensures forall s'' :: StepBy(s, s'', t, call) ==> PcAt(s'', t) == CheckInit(call)
  {
    s' := Go(s, t, CheckInit(call));
  }

  /** How one step may change the pc of thread `v`. */
  ghost predicate ThreadStep(s: State, s': State, v: nat)
  {
    var p, q := PcAt(s, v), PcAt(s', v);
    || q == p
    || (p.Idle? && q.CheckInit?)
    || (Ahead(p) && Ahead(q) && q.call == p.call)
    || (p.Critical? && Behind(q) && Served(s, s', p, q))
    || (p.Unlock? && q.Post? && q.call == p.call)
    || (p.Post? && q.Idle?)
  }

  lemma NextMovesThread(s: State, s': State, v: nat)
    requires Next(s, s')
    ensures ThreadStep(s, s', v)
  {
    var t, call :| StepBy(s, s', t, call);
    StepMoves(s, s', t, call);
  }

  /** Thread `v` is inside a call from state m + 1 to state j. */
  ghost predicate InCall(run: seq<State>, m: nat, j: nat, v: nat)
    requires j < |run|
  {
    forall i :: m < i <= j ==> !PcAt(run[i], v).Idle?
  }

  ghost predicate Link(run: seq<State>, i: nat, v: nat)
  {
    i + 1 < |run| && ThreadStep(run[i], run[i + 1], v)
  }

  /** A run as thread `v` sees it. */
  ghost predicate ThreadRun(run: seq<State>, v: nat)
  {
    && |run| > 0 && PcAt(run[0], v).Idle?
    && forall i: nat :: i + 1 < |run| ==> Link(run, i, v)
  }

  lemma RunOfThread(run: seq<State>, v: nat)
    requires IsRun(run)
    ensures ThreadRun(run, v)
  {
    forall i: nat | i + 1 < |run| ensures Link(run, i, v) {
      assert Next(run[i], run[i + 1]);
      NextMovesThread(run[i], run[i + 1], v);
    }
  }

  lemma InCallLonger(run: seq<State>, m: nat, j: nat, v: nat)
    requires j + 1 < |run| && InCall(run, m, j, v) && !PcAt(run[j + 1], v).Idle?
    ensures InCall(run, m, j + 1, v)
  {
  }

  /** A thread ahead of its critical section still has the call it started. */
  lemma {:induction false} AheadSince(run: seq<State>, j: nat, v: nat) returns (m: nat)
    requires ThreadRun(run, v) && j < |run| && Ahead(PcAt(run[j], v))
    ensures m < j && PcAt(run[m], v).Idle? && PcAt(run[m + 1], v) == CheckInit(PcAt(run[j], v).call)
    ensures InCall(run, m, j, v)
  {
    assert Link(run, j - 1, v);
    if Ahead(PcAt(run[j - 1], v)) {
      m := AheadSince(run, j - 1, v);
      InCallLonger(run, m, j - 1, v);
    } else {
      m := j - 1;
    }
  }

  /** A thread behind its critical section still has what it got there. */
  lemma {:induction false} BehindSince(run: seq<State>, j: nat, v: nat) returns (k: nat)
    requires ThreadRun(run, v) && j < |run| && Behind(PcAt(run[j], v))
    ensures k < j && PcAt(run[k], v).Critical? && Behind(PcAt(run[k + 1], v))
    ensures PcAt(run[k + 1], v).call == PcAt(run[j], v).call
    ensures Served(run[k], run[k + 1], PcAt(run[k], v), PcAt(run[k + 1], v))
    ensures InCall(run, k, j, v)
  {
    assert Link(run, j - 1, v);
    if Behind(PcAt(run[j - 1], v)) {
      k := BehindSince(run, j - 1, v);
      InCallLonger(run, k, j - 1, v);
    } else {
      k := j - 1;
    }
  }

  /** In every run, when thread `v` returns from a call at step `j`: it made that
      call at some step `m` and went through the critical section once, at `k`.  A
      putitem has then inserted exactly the item that it was called with; a
      getitem has removed exactly the item that it returns. */
  lemma CallIsServed(run: seq<State>, j: nat, v: nat) returns (m: nat, k: nat)
    requires IsRun(run) && j + 1 < |run|
    requires !PcAt(run[j], v).Idle? && PcAt(run[j + 1], v).Idle?
    ensures m < k < j && PcAt(run[m], v).Idle? && PcAt(run[m + 1], v).CheckInit? && PcAt(run[k], v).Critical?
    ensures InCall(run, m, j, v)
    ensures PcAt(run[m + 1], v).call.Put? ==>
              && run[k + 1].inserted == run[k].inserted + [PcAt(run[m + 1], v).call.item]
              && run[k + 1].removed == run[k].removed
    ensures !PcAt(run[m + 1], v).call.Put? ==>
              && PcAt(run[j], v).call.Got?
              && run[k + 1].removed == run[k].removed + [PcAt(run[j], v).call.got]
              && run[k + 1].inserted == run[k].inserted
  {
    RunOfThread(run, v);
    assert Link(run, j, v);
    k := BehindSince(run, j, v);
    m := AheadSince(run, k, v);
  }
}
