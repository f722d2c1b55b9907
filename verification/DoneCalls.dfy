/** The producer/consumer program with shutdown, call by call: which items the
    calls of chapter16/bufferconddone.c hand in and out, and that no wakeup is
    lost before the shutdown. */
module DoneCalls {
  import opened Threads
  import opened BoundedRing
  import opened DoneBuffer

  // --------------------------------------------------- wakeups before shutdown

  /** Consumers that will look at the buffer again, or are about to be told to. */
  function GetterDue(p: Pc): int { if p.GetWoken? || p.GetTest? || p.PutSignal? then 1 else 0 }

  function PutterDue(p: Pc): int { if p.PutWoken? || p.PutTest? || p.GetSignal? then 1 else 0 }

  /** While a consumer sleeps each item is matched by a consumer that is due, and
      while a producer sleeps each free slot by a producer that is. */
  ghost predicate Covered(pcs: seq<Pc>, total: int)
  {
    && (SomeAsleep(pcs, AwaitsItem) ==> total <= Sum(pcs, GetterDue))
    && (SomeAsleep(pcs, AwaitsSlot) ==> BUFSIZE - total <= Sum(pcs, PutterDue))
  }

  ghost predicate WakeInv(s: State) { !s.vars.doneflag ==> Covered(s.pcs, s.vars.totalitems) }

  lemma Weigh(pcs: seq<Pc>, t: nat, p: Pc)
    requires t < |pcs|
    ensures Sum(pcs[t := p], GetterDue) == Sum(pcs, GetterDue) - GetterDue(pcs[t]) + GetterDue(p)
    ensures Sum(pcs[t := p], PutterDue) == Sum(pcs, PutterDue) - PutterDue(pcs[t]) + PutterDue(p)
  {
    SumUpdate(pcs, t, p, GetterDue);
    SumUpdate(pcs, t, p, PutterDue);
  }

  /** A move from `p` to `q` that leaves no more to be looked at than it adds
      looks, or goes to sleep with nothing to look at. */
  predicate Pays(p: Pc, q: Pc, total: int, total': int)
  {
    && (if AwaitsItem(q) then total' <= 0 else total' - total <= GetterDue(q) - GetterDue(p))
    && (if AwaitsSlot(q) then total' >= BUFSIZE else total - total' <= PutterDue(q) - PutterDue(p))
  }

  lemma PayingKeepsCovered(pcs: seq<Pc>, total: int, t: nat, q: Pc, total': int)
    requires t < |pcs| && Covered(pcs, total) && Pays(pcs[t], q, total, total')
    ensures Covered(pcs[t := q], total')
  {
    var pcs' := pcs[t := q];
    Weigh(pcs, t, q);
    SumBounds(pcs', GetterDue);
    SumBounds(pcs', PutterDue);
    assert forall i :: 0 <= i < |pcs| && i != t ==> pcs'[i] == pcs[i];
  }

  /** A signal to `slots` wakes a producer for the slot just freed. */
  lemma SignalSlotsKeepsCovered(pcs: seq<Pc>, total: int, t: nat, q: Pc, u: nat, woken: seq<Pc>)
    requires t < |pcs| && Covered(pcs, total) && pcs[t].GetSignal? && q.GetUnlock?
    requires Signal(pcs, AwaitsSlot, Wake, u, woken)
    ensures Covered(woken[t := q], total)
  {
    if woken != pcs {
      Weigh(pcs, u, woken[u]);
    }
    Weigh(woken, t, q);
    var pcs' := woken[t := q];
    assert forall i :: 0 <= i < |pcs| && (pcs'[i].GetAsleep? || pcs'[i].PutAsleep?) ==> pcs'[i] == pcs[i];
  }

  /** A signal to `items` wakes a consumer for the item just stored. */
  lemma SignalItemsKeepsCovered(pcs: seq<Pc>, total: int, t: nat, q: Pc, u: nat, woken: seq<Pc>)
    requires t < |pcs| && Covered(pcs, total) && pcs[t].PutSignal? && q.PutUnlock?
    requires Signal(pcs, AwaitsItem, Wake, u, woken)
    ensures Covered(woken[t := q], total)
  {
    if woken != pcs {
      Weigh(pcs, u, woken[u]);
    }
    Weigh(woken, t, q);
    var pcs' := woken[t := q];
    assert forall i :: 0 <= i < |pcs| && (pcs'[i].GetAsleep? || pcs'[i].PutAsleep?) ==> pcs'[i] == pcs[i];
  }

  lemma ConsumerPays(s: State, s': State, t: nat, f: Item -> int, u: nat, woken: seq<Pc>)
    requires Counted(s.vars) && t < |s.pcs| && !s.vars.doneflag
    requires ConsumerStep(s, s', t, f, u, woken) && !s.pcs[t].GetSignal?
    ensures |s'.pcs| == |s.pcs| && s'.pcs == s.pcs[t := s'.pcs[t]]
    ensures Pays(s.pcs[t], s'.pcs[t], s.vars.totalitems, s'.vars.totalitems)
  {
  }

  lemma ProducerPays(s: State, s': State, t: nat, item: Item, u: nat, woken: seq<Pc>)
    requires Counted(s.vars) && t < |s.pcs| && !s.vars.doneflag
    requires ProducerStep(s, s', t, item, u, woken) && !s.pcs[t].PutSignal?
    ensures |s'.pcs| == |s.pcs| && s'.pcs == s.pcs[t := s'.pcs[t]]
    ensures Pays(s.pcs[t], s'.pcs[t], s.vars.totalitems, s'.vars.totalitems)
  {
  }

  lemma MainKeepsCovered(s: State, s': State, f: Item -> int)
    requires Inv(s, f) && WakeInv(s) && MainStep(s, s', 0) && !s.vars.doneflag && !s'.vars.doneflag
    ensures WakeInv(s')
  {
    var p, total := s.pcs[0], s.vars.totalitems;
    if p.Create? && p.k < |s.pcs| {
      var first := if p.k <= s.consumers then GetLock else Produce;
      PayingKeepsCovered(s.pcs, total, p.k, first, total);
      PayingKeepsCovered(s.pcs[p.k := first], total, 0, Create(p.k + 1), total);
    } else {
      assert s'.pcs == s.pcs[0 := s'.pcs[0]];
      PayingKeepsCovered(s.pcs, total, 0, s'.pcs[0], total);
    }
  }

  lemma StepKeepsWake(s: State, s': State, t: nat, f: Item -> int, item: Item, u: nat, woken: seq<Pc>)
    requires Inv(s, f) && WakeInv(s) && StepBy(s, s', t, f, item, u, woken) && |s'.pcs| == |s.pcs|
    ensures WakeInv(s')
  {
    StepMovesFlag(s, s', t, f, item, u, woken);
    if s'.vars.doneflag || s.vars.doneflag {
    } else if ConsumerStep(s, s', t, f, u, woken) {
      if s.pcs[t].GetSignal? {
        SignalSlotsKeepsCovered(s.pcs, s.vars.totalitems, t, s'.pcs[t], u, woken);
      } else {
        ConsumerPays(s, s', t, f, u, woken);
        PayingKeepsCovered(s.pcs, s.vars.totalitems, t, s'.pcs[t], s'.vars.totalitems);
      }
    } else if ProducerStep(s, s', t, item, u, woken) {
      if s.pcs[t].PutSignal? {
        SignalItemsKeepsCovered(s.pcs, s.vars.totalitems, t, s'.pcs[t], u, woken);
      } else {
        ProducerPays(s, s', t, item, u, woken);
        PayingKeepsCovered(s.pcs, s.vars.totalitems, t, s'.pcs[t], s'.vars.totalitems);
      }
    } else {
      var base := MainMoves(s, s', t);
      MainKeepsCovered(s, s', f);
    }
  }

  lemma NextKeepsWake(s: State, s': State, f: Item -> int)
    requires Inv(s, f) && WakeInv(s) && Next(s, s', f)
    ensures Inv(s', f) && WakeInv(s')
  {
    var t, item, u, woken :| StepBy(s, s', t, f, item, u, woken);
    StepKeepsInv(s, s', t, f, item, u, woken);
    var base := StepMoves(s, s', t, f, item, u, woken);
    StepKeepsWake(s, s', t, f, item, u, woken);
  }

  lemma {:induction false} RunKeepsWake(run: seq<State>, f: Item -> int)
    requires IsRun(run, f)
    ensures Inv(run[|run| - 1], f) && WakeInv(run[|run| - 1])
  {
    var n := |run| - 1;
    if n == 0 {
      InitialInv(run[0], f);
    } else {
      var init := run[..n];
      assert init[0] == run[0] && init[|init| - 1] == run[n - 1];
      assert forall i :: 0 <= i < n - 1 ==> Next(run[i], run[i + 1], f);
      RunKeepsWake(init, f);
      assert Next(run[n - 1], run[n], f);
      NextKeepsWake(run[n - 1], run[n], f);
    }
  }

  function WokenGetter(p: Pc): int { if p.GetWoken? then 1 else 0 }

  function WokenPutter(p: Pc): int { if p.PutWoken? then 1 else 0 }

  /** In every run, as long as the flag is clear and whenever the lock is free: if
      a consumer still waits, every stored item is matched by a woken consumer
      that has yet to recheck; dually for producers and free slots. */
  lemma NoLostWakeup(run: seq<State>, f: Item -> int)
    requires IsRun(run, f) && run[|run| - 1].lock == Free && !run[|run| - 1].vars.doneflag
    ensures var s := run[|run| - 1];
      && (SomeAsleep(s.pcs, AwaitsItem) ==> s.vars.totalitems <= Sum(s.pcs, WokenGetter))
      && (SomeAsleep(s.pcs, AwaitsSlot) ==> BUFSIZE - s.vars.totalitems <= Sum(s.pcs, WokenPutter))
  {
    RunKeepsWake(run, f);
    var s := run[|run| - 1];
    assert forall t :: 0 <= t < |s.pcs| ==> !s.pcs[t].HoldsLock();
    SumMonotone(s.pcs, WokenGetter, s.pcs, GetterDue);
    SumMonotone(s.pcs, WokenPutter, s.pcs, PutterDue);
  }

  // -------------------------------------------------- arguments and results

  function PcAt(s: State, v: nat): Pc { if v < |s.pcs| then s.pcs[v] else Unborn }

  /** In a putitem that has not yet inserted its item. */
  predicate ToPut(p: Pc) { p.PutLock? || p.PutTest? || p.PutAsleep? || p.PutWoken? }

  predicate HasPut(p: Pc) { p.PutSignal? || p.PutUnlock? }

  /** How one step may change the pc of thread `v`. */
  ghost predicate ThreadStep(s: State, s': State, v: nat, f: Item -> int)
  {
    var p, q := PcAt(s, v), PcAt(s', v);
    q != p ==>
      && (ToPut(q) ==> (ToPut(p) && q.x == p.x) || (p.Produce? && q.PutLock?))
      && (HasPut(q) ==> HasPut(p) || (p.PutTest? && s'.inserted == s.inserted + [p.x] && s'.removed == s.removed))
      && (q.FlagLock? ==> p.PutUnlock? && s'.accepted == s.accepted + 1)
      && (q.FlagUnlock? ==> p.FlagRead? && q.localdone == s.vars.doneflag)
      && (q.Produce? ==> p.Unborn? || p == FlagUnlock(false))
      && (q.Exited? ==> p.GetCancel? || p.PutCancel? || p == FlagUnlock(true))
      && (InHand(q) ==>
            || (InHand(p) && q.x == p.x)
            || (p.GetTest? && s'.removed == s.removed + [q.x] && s'.inserted == s.inserted))
      && (q.AddUnlock? ==> p.AddSum? && s'.count == s.count + 1 && s'.sum == s.sum + f(p.x))
  }

  lemma ConsumerMovesThread(s: State, s': State, t: nat, f: Item -> int, u: nat, woken: seq<Pc>, v: nat)
    requires WellFormed(s.vars.ring) && t < |s.pcs| && ConsumerStep(s, s', t, f, u, woken)
    ensures ThreadStep(s, s', v, f)
  {
  }

  lemma ProducerMovesThread(s: State, s': State, t: nat, f: Item -> int, item: Item, u: nat, woken: seq<Pc>, v: nat)
    requires WellFormed(s.vars.ring) && t < |s.pcs| && ProducerStep(s, s', t, item, u, woken)
    ensures ThreadStep(s, s', v, f)
    ensures s.pcs[t].Produce? ==> PcAt(s', t) == PutLock(item)
  {
  }

  lemma MainMovesThread(s: State, s': State, t: nat, f: Item -> int, v: nat)
    requires RoleInv(s) && MainInv(s) && t < |s.pcs| && MainStep(s, s', t)
    ensures ThreadStep(s, s', v, f)
  {
    var base := MainMoves(s, s', t);
    if v != t {
      var p, q := PcAt(s, v), PcAt(s', v);
      assert q == p || p.Unborn? || (p.GetAsleep? && q.GetWoken?) || (p.PutAsleep? && q == PutWoken(p.x));
    }
  }

  lemma NextMovesThread(s: State, s': State, f: Item -> int, v: nat)
    requires RoleInv(s) && MainInv(s) && Next(s, s', f)
    ensures ThreadStep(s, s', v, f)
  {
    var t, item, u, woken :| StepBy(s, s', t, f, item, u, woken);
    if ConsumerStep(s, s', t, f, u, woken) {
      ConsumerMovesThread(s, s', t, f, u, woken, v);
    } else if ProducerStep(s, s', t, item, u, woken) {
      ProducerMovesThread(s, s', t, f, item, u, woken, v);
    } else {
      MainMovesThread(s, s', t, f, v);
    }
  }

  ghost predicate Link(run: seq<State>, i: nat, v: nat, f: Item -> int)
  {
    i + 1 < |run| && ThreadStep(run[i], run[i + 1], v, f)
  }

  /** A run as thread `v` sees it. */
  ghost predicate ThreadRun(run: seq<State>, v: nat, f: Item -> int)
  {
    && |run| > 0 && (PcAt(run[0], v).Unborn? || PcAt(run[0], v).Create?)
    && forall i: nat :: i + 1 < |run| ==> Link(run, i, v, f)
  }

  lemma InvAt(run: seq<State>, j: nat, f: Item -> int)
    requires IsRun(run, f) && j < |run|
    ensures Inv(run[j], f)
  {
    var init := run[..j + 1];
    assert init[0] == run[0] && init[|init| - 1] == run[j];
    assert forall i :: 0 <= i < j ==> Next(run[i], run[i + 1], f);
    RunKeepsInv(init, f);
  }

  lemma RunOfThread(run: seq<State>, v: nat, f: Item -> int)
    requires IsRun(run, f)
    ensures ThreadRun(run, v, f)
  {
    forall i: nat | i + 1 < |run| ensures Link(run, i, v, f) {
      InvAt(run, i, f);
      assert Next(run[i], run[i + 1], f);
      NextMovesThread(run[i], run[i + 1], f, v);
    }
  }

  /** From state m + 1 to state j thread `v` is in a putitem. */
  ghost predicate Putting(run: seq<State>, m: nat, j: nat, v: nat)
    requires j < |run|
  {
    forall i :: m < i <= j ==> ToPut(PcAt(run[i], v)) || HasPut(PcAt(run[i], v))
  }

  /** From state k + 1 to state j thread `v` has item `x` in hand. */
  ghost predicate Carrying(run: seq<State>, k: nat, j: nat, v: nat, x: Item)
    requires j < |run|
  {
    forall i :: k < i <= j ==> InHand(PcAt(run[i], v)) && PcAt(run[i], v).x == x
  }

  lemma PuttingLonger(run: seq<State>, m: nat, j: nat, v: nat)
    requires j + 1 < |run| && Putting(run, m, j, v)
    requires ToPut(PcAt(run[j + 1], v)) || HasPut(PcAt(run[j + 1], v))
    ensures Putting(run, m, j + 1, v)
  {
  }

  lemma CarryingLonger(run: seq<State>, k: nat, j: nat, v: nat, x: Item)
    requires j + 1 < |run| && Carrying(run, k, j, v, x)
    requires InHand(PcAt(run[j + 1], v)) && PcAt(run[j + 1], v).x == x
    ensures Carrying(run, k, j + 1, v, x)
  {
  }

  lemma {:induction false} CalledSince(run: seq<State>, j: nat, v: nat, f: Item -> int) returns (m: nat)
    requires ThreadRun(run, v, f) && j < |run| && ToPut(PcAt(run[j], v))
    ensures m < j && PcAt(run[m], v).Produce? && Putting(run, m, j, v)
    ensures PcAt(run[m + 1], v) == PutLock(PcAt(run[j], v).x)
  {
    assert Link(run, j - 1, v, f);
    if PcAt(run[j - 1], v).Produce? {
      m := j - 1;
    } else {
      m := CalledSince(run, j - 1, v, f);
      PuttingLonger(run, m, j - 1, v);
    }
  }

  lemma {:induction false} PutSince(run: seq<State>, j: nat, v: nat, f: Item -> int) returns (k: nat)
    requires ThreadRun(run, v, f) && j < |run| && HasPut(PcAt(run[j], v))
    ensures k < j && PcAt(run[k], v).PutTest? && Putting(run, k, j, v)
    ensures run[k + 1].inserted == run[k].inserted + [PcAt(run[k], v).x] && run[k + 1].removed == run[k].removed
  {
    assert Link(run, j - 1, v, f);
    if PcAt(run[j - 1], v).PutTest? {
      k := j - 1;
    } else {
      k := PutSince(run, j - 1, v, f);
      PuttingLonger(run, k, j - 1, v);
    }
  }

  lemma {:induction false} RemovedSince(run: seq<State>, j: nat, v: nat, f: Item -> int) returns (k: nat)
    requires ThreadRun(run, v, f) && j < |run| && InHand(PcAt(run[j], v))
    ensures k < j && PcAt(run[k], v).GetTest? && Carrying(run, k, j, v, PcAt(run[j], v).x)
    ensures run[k + 1].removed == run[k].removed + [PcAt(run[j], v).x] && run[k + 1].inserted == run[k].inserted
  {
    assert Link(run, j - 1, v, f);
    if PcAt(run[j - 1], v).GetTest? {
      k := j - 1;
    } else {
      k := RemovedSince(run, j - 1, v, f);
      CarryingLonger(run, k, j - 1, v, PcAt(run[j], v).x);
    }
  }

  /** In every run, when a producer's putitem returns 0 at step `j`: it called
      putitem at some step `m`, and exactly the item it called it with was
      inserted, once, at step `k` of that call. */
  lemma AcceptedIsInserted(run: seq<State>, j: nat, v: nat, f: Item -> int) returns (m: nat, k: nat)
    requires IsRun(run, f) && j + 1 < |run|
    requires !PcAt(run[j], v).FlagLock? && PcAt(run[j + 1], v).FlagLock?
    ensures run[j + 1].accepted == run[j].accepted + 1
    ensures m < k < j && PcAt(run[m], v).Produce? && PcAt(run[m + 1], v).PutLock?
    ensures Putting(run, m, k, v) && Putting(run, k, j, v)
    ensures run[k + 1].inserted == run[k].inserted + [PcAt(run[m + 1], v).x] && run[k + 1].removed == run[k].removed
  {
    RunOfThread(run, v, f);
    assert Link(run, j, v, f);
    k := PutSince(run, j, v, f);
    m := CalledSince(run, k, v, f);
  }

  /** In every run, when a consumer adds to the sum at step `j`, it adds f of
      exactly the item that its last getitem removed, at some step `k`. */
  lemma AddedIsRemoved(run: seq<State>, j: nat, v: nat, f: Item -> int) returns (k: nat, x: Item)
    requires IsRun(run, f) && j + 1 < |run|
    requires !PcAt(run[j], v).AddUnlock? && PcAt(run[j + 1], v).AddUnlock?
    ensures k < j && PcAt(run[k], v).GetTest? && Carrying(run, k, j, v, x)
    ensures run[k + 1].removed == run[k].removed + [x] && run[k + 1].inserted == run[k].inserted
    ensures run[j + 1].count == run[j].count + 1 && run[j + 1].sum == run[j].sum + f(x)
  {
    RunOfThread(run, v, f);
    assert Link(run, j, v, f);
    x := PcAt(run[j], v).x;
    k := RemovedSince(run, j, v, f);
  }

  lemma {:induction false} FlagReadSince(run: seq<State>, j: nat, v: nat, f: Item -> int) returns (k: nat)
    requires ThreadRun(run, v, f) && j < |run| && PcAt(run[j], v).FlagUnlock?
    ensures k < j && PcAt(run[k], v).FlagRead? && PcAt(run[j], v).localdone == run[k].vars.doneflag
  {
    assert Link(run, j - 1, v, f);
    if PcAt(run[j - 1], v).FlagRead? {
      k := j - 1;
    } else {
      k := FlagReadSince(run, j - 1, v, f);
    }
  }

  /** In every run, a producer goes on to its next item at step `j` only if
      getdone, at some step `k` before, has found the flag clear; and it leaves
      after a getdone only if that has found the flag set. */
  lemma ProducerObeysFlag(run: seq<State>, j: nat, v: nat, f: Item -> int) returns (k: nat)
    requires IsRun(run, f) && j + 1 < |run|
    requires PcAt(run[j], v) != PcAt(run[j + 1], v)
    requires (PcAt(run[j + 1], v).Produce? && !PcAt(run[j], v).Unborn?)
          || (PcAt(run[j + 1], v).Exited? && !PcAt(run[j], v).PutCancel? && !PcAt(run[j], v).GetCancel?)
    ensures k < j && PcAt(run[k], v).FlagRead? && run[k].vars.doneflag == PcAt(run[j + 1], v).Exited?
  {
    RunOfThread(run, v, f);
    assert Link(run, j, v, f);
    k := FlagReadSince(run, j, v, f);
  }
}
