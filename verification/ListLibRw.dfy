/** chapter13/listlibrw_r.c: the list calls under a reader/writer lock.  getdata_r
    writes the shared table while it holds only the read lock, so the calls of
    several readers overlap at the level of single loads and stores. */
module ListLibRw {
  import opened ListModel
  import opened Options

  /** What getdata_r returns to its caller. */
  datatype Reply = Delivered(item: Data) | EndOfList

  datatype Pc =
    | Idle
    | ReadLock(key: nat)               // getdata_r wants the read lock
    | Fetch(key: nat)                  // holds it, about to load travptrs[key]
    | StoreEnd(key: nat)               // saw &endlist, about to store NULL
    | CopyItem(key: nat, at: nat)      // holds the node pointer t
    | LoadNext(key: nat, at: nat, item: Data)
    | StoreNext(key: nat, item: Data, next: Slot)
    | ReadUnlock(key: nat, reply: Reply)
    | WriteLock(call: Call)            // accessdata_r, adddata_r or freekey_r
    | Write(call: Call)                // holds the write lock
    | WriteUnlock(done: Call)          // about to return what `done` returned
  {
    predicate Reading()
    {
      Fetch? || StoreEnd? || CopyItem? || LoadNext? || StoreNext? || ReadUnlock?
    }

    predicate Writing() { Write? || WriteUnlock? }

    /** In getdata_r between the check of the entry and the store. */
    predicate MidRead() { StoreEnd? || CopyItem? || LoadNext? || StoreNext? }

    /** The key is in use by this call. */
    predicate Uses(k: nat)
    {
      || ((ReadLock? || Fetch? || MidRead()) && key == k)
      || ((WriteLock? || Write?) && call.Free? && call.key == k)
    }
  }

  /** `log` records the getdata_r calls in the order of their stores. */
  datatype State = State(
    list: List, cursors: Cursors, readers: set<nat>, writer: Option<nat>, pcs: seq<Pc>,
    log: seq<(nat, Reply)>)

  function Go(s: State, t: nat, pc: Pc): State
    requires t < |s.pcs|
  {
    s.(pcs := s.pcs[t := pc])
  }

  /** A client starts a call with a key only if the key is its own: open, and not
      in use by another call in progress. */
  ghost predicate MayStart(s: State, pc: Pc)
  {
    match pc
    case ReadLock(key) => key in s.cursors && forall u :: 0 <= u < |s.pcs| ==> !s.pcs[u].Uses(key)
    case WriteLock(call) =>
      && !call.Get?
      && (call.Free? ==> call.key >= 0 && forall u :: 0 <= u < |s.pcs| ==> !s.pcs[u].Uses(call.key))
    case _ => false
  }

  /** The call that a finished read stands for. */
  function AsCall(key: nat, reply: Reply): Call
  {
    match reply
    case Delivered(item) => Get(key, 0, Some(item))
    case EndOfList => Get(key, 0, None)
  }

  /** The store that completes a read. */
  function Store(s: State, t: nat, key: nat, slot: Slot, reply: Reply): State
    requires t < |s.pcs| && key < |s.list.table|
  {
    State(s.list.(table := s.list.table[key := slot]),
          Track(s.list.items, s.cursors, AsCall(key, reply)),
          s.readers, s.writer, s.pcs[t := ReadUnlock(key, reply)], s.log + [(key, reply)])
  }

  /** Thread `t` takes one step; `start` is the call an idle thread makes, `list'`
      the list after a writer's call. */
  ghost predicate StepBy(s: State, s': State, t: nat, start: Pc, call: Call, list': List)
  {
    && t < |s.pcs|
    && match s.pcs[t]
       case Idle => MayStart(s, start) && s' == Go(s, t, start)
       case ReadLock(key) =>
         s.writer == None && s' == Go(s, t, Fetch(key)).(readers := s.readers + {t})
       case Fetch(key) =>
         && key < |s.list.table|
         && (match s.list.table[key]
             case EndMark => s' == Go(s, t, StoreEnd(key))
             case At(i) => s' == Go(s, t, CopyItem(key, i))
             case _ => false)  // only for a key that is not open
       case StoreEnd(key) => key < |s.list.table| && s' == Store(s, t, key, Null, EndOfList)
       case CopyItem(key, i) => i < |s.list.items| && s' == Go(s, t, LoadNext(key, i, s.list.items[i]))
       case LoadNext(key, i, item) => s' == Go(s, t, StoreNext(key, item, After(s.list, i)))
       case StoreNext(key, item, next) =>
         key < |s.list.table| && s' == Store(s, t, key, next, Delivered(item))
       case ReadUnlock(_, _) => s' == Go(s, t, Idle).(readers := s.readers - {t})
       case WriteLock(c) =>
         s.writer == None && s.readers == {} && s' == Go(s, t, Write(c)).(writer := Some(t))
       case Write(c) =>
         && SameRequest(c, call) && Step(s.list, s.cursors, call, list')
         && s' == Go(s, t, WriteUnlock(call)).(list := list', cursors := Track(s.list.items, s.cursors, call))
       case WriteUnlock(_) => s' == Go(s, t, Idle).(writer := None)
  }

  /** `call` is the request `c` with its results filled in. */
  predicate SameRequest(c: Call, call: Call)
  {
    match call
    case Access(_) => c.Access?
    case Add(d) => c.Add? && c.d == d
    case Free(key, _) => c.Free? && c.key == key
    case Get(_, _, _) => false
  }

  ghost predicate LockInv(s: State)
  {
    && (forall t: nat :: t in s.readers <==> t < |s.pcs| && s.pcs[t].Reading())
    && (forall t :: 0 <= t < |s.pcs| ==> (s.pcs[t].Writing() <==> s.writer == Some(t)))
    && (s.writer.Some? ==> s.writer.value < |s.pcs| && s.readers == {})
  }

  /** No two calls in progress use the same key. */
  ghost predicate KeysDistinct(s: State)
  {
    forall t, u, k: nat :: 0 <= t < |s.pcs| && 0 <= u < |s.pcs| && t != u && s.pcs[t].Uses(k) ==> !s.pcs[u].Uses(k)
  }

  predicate InGetData(p: Pc) { p.ReadLock? || p.Fetch? || p.MidRead() }

  /** Keys that are being read are open. */
  ghost predicate KeysOpen(s: State)
  {
    && (forall t :: 0 <= t < |s.pcs| && InGetData(s.pcs[t]) ==> s.pcs[t].key in s.cursors)
    && (forall t :: 0 <= t < |s.pcs| && (s.pcs[t].WriteLock? || s.pcs[t].Write?) ==>
          !s.pcs[t].call.Get? && (s.pcs[t].call.Free? ==> s.pcs[t].call.key >= 0))
  }

  ghost predicate KeysInv(s: State) { KeysDistinct(s) && KeysOpen(s) }

  /** What a reader has loaded is still what the table and the list hold. */
  ghost predicate FreshInv(s: State)
  {
    forall t :: 0 <= t < |s.pcs| && s.pcs[t].MidRead() ==> Loaded(s.list, s.pcs[t])
  }

  ghost predicate Loaded(l: List, p: Pc)
    requires p.MidRead()
  {
    && p.key < |l.table|
    && match p
       case StoreEnd(key) => l.table[key] == EndMark
       case CopyItem(key, i) => l.table[key] == At(i)
       case LoadNext(key, i, item) => l.table[key] == At(i) && i < |l.items| && item == l.items[i]
       case StoreNext(key, item, next) =>
         && l.table[key].At? && l.table[key].i < |l.items|
         && item == l.items[l.table[key].i] && next == After(l, l.table[key].i)
       case _ => false
  }

  ghost predicate Inv(s: State)
  {
    LockInv(s) && KeysInv(s) && FreshInv(s) && ListModel.Inv(s.list, s.cursors)
  }

  lemma StepKeepsLock(s: State, s': State, t: nat, start: Pc, call: Call, list': List)
    requires LockInv(s) && StepBy(s, s', t, start, call, list')
    ensures LockInv(s')
  {
  }

  lemma StepKeepsDistinct(s: State, s': State, t: nat, start: Pc, call: Call, list': List)
    requires KeysDistinct(s) && StepBy(s, s', t, start, call, list')
    ensures KeysDistinct(s')
  {
    forall u, k: nat | 0 <= u < |s.pcs| && u != t && s'.pcs[t].Uses(k)
      ensures !s'.pcs[u].Uses(k)
    {
      assert s'.pcs[u] == s.pcs[u];
      assert s.pcs[t].Uses(k) || s.pcs[t] == Idle;
    }
  }

  /** No step closes a traversal that another call is reading. */
  lemma OthersStayOpen(s: State, s': State, t: nat, start: Pc, call: Call, list': List, u: nat)
    requires KeysInv(s) && StepBy(s, s', t, start, call, list')
    requires u < |s.pcs| && u != t && InGetData(s.pcs[u])
    ensures s.pcs[u].key in s'.cursors
  {
    assert s.pcs[u].Uses(s.pcs[u].key);
    assert !s.pcs[t].Uses(s.pcs[u].key);
  }

  lemma OwnKeyStaysOpen(s: State, s': State, t: nat, start: Pc, call: Call, list': List)
    requires KeysInv(s) && StepBy(s, s', t, start, call, list')
    ensures |s'.pcs| == |s.pcs| && forall u :: 0 <= u < |s.pcs| && u != t ==> s'.pcs[u] == s.pcs[u]
    ensures InGetData(s'.pcs[t]) ==> s'.pcs[t].key in s'.cursors
    ensures s'.pcs[t].WriteLock? || s'.pcs[t].Write? ==>
              !s'.pcs[t].call.Get? && (s'.pcs[t].call.Free? ==> s'.pcs[t].call.key >= 0)
  {
  }

  lemma StepKeepsKeys(s: State, s': State, t: nat, start: Pc, call: Call, list': List)
    requires KeysInv(s) && StepBy(s, s', t, start, call, list')
    ensures KeysInv(s')
  {
    StepKeepsDistinct(s, s', t, start, call, list');
    OwnKeyStaysOpen(s, s', t, start, call, list');
    forall u | 0 <= u < |s.pcs| && InGetData(s'.pcs[u])
      ensures s'.pcs[u].key in s'.cursors
    {
      if u != t {
        OthersStayOpen(s, s', t, start, call, list', u);
      }
    }
  }

  /** A step does to the list what one call does in one go, or nothing. */
  lemma StepRefines(s: State, s': State, t: nat, start: Pc, call: Call, list': List)
    requires Inv(s) && StepBy(s, s', t, start, call, list')
    ensures (s.pcs[t].StoreEnd? || s.pcs[t].StoreNext?) ==>
              && s'.pcs[t].ReadUnlock? && s'.pcs[t].key == s.pcs[t].key
              && var done := AsCall(s.pcs[t].key, s'.pcs[t].reply);
                 && s'.log == s.log + [(s.pcs[t].key, s'.pcs[t].reply)]
                 && Step(s.list, s.cursors, done, s'.list)
                 && s'.cursors == Track(s.list.items, s.cursors, done)
    ensures s.pcs[t].Write? ==>
              && s'.pcs[t] == WriteUnlock(call)
              && Step(s.list, s.cursors, call, s'.list) && SameRequest(s.pcs[t].call, call)
              && s'.cursors == Track(s.list.items, s.cursors, call) && s'.log == s.log
    ensures !s.pcs[t].StoreEnd? && !s.pcs[t].StoreNext? && !s.pcs[t].Write? ==>
              s'.list == s.list && s'.cursors == s.cursors && s'.log == s.log
    ensures ListModel.Inv(s'.list, s'.cursors)
  {
  }

  /** While a call is between its check and its store, no step of another thread
      changes what it has loaded: writers are locked out, and the stores of
      other readers go to other entries. */
  lemma OthersKeepLoaded(s: State, s': State, t: nat, start: Pc, call: Call, list': List, u: nat)
    requires Inv(s) && StepBy(s, s', t, start, call, list')
    requires u < |s.pcs| && u != t && s.pcs[u].MidRead()
    ensures s'.pcs[u] == s.pcs[u] && Loaded(s'.list, s'.pcs[u])
  {
    assert s.pcs[u].Reading() && u in s.readers;
    assert s.pcs[u].Uses(s.pcs[u].key);
    assert !s.pcs[t].Uses(s.pcs[u].key);
  }

  lemma StepKeepsFresh(s: State, s': State, t: nat, start: Pc, call: Call, list': List)
    requires Inv(s) && StepBy(s, s', t, start, call, list')
    ensures FreshInv(s')
  {
    forall u | 0 <= u < |s'.pcs| && s'.pcs[u].MidRead()
      ensures Loaded(s'.list, s'.pcs[u])
    {
      if u != t {
        assert s.pcs[u] == s'.pcs[u];
        OthersKeepLoaded(s, s', t, start, call, list', u);
      }
    }
  }

  lemma StepKeepsInv(s: State, s': State, t: nat, start: Pc, call: Call, list': List)
    requires Inv(s) && StepBy(s, s', t, start, call, list')
    ensures Inv(s')
  {
    StepKeepsLock(s, s', t, start, call, list');
    StepKeepsKeys(s, s', t, start, call, list');
    StepKeepsFresh(s, s', t, start, call, list');
    StepRefines(s, s', t, start, call, list');
  }

  // ------------------------------------------------------------- whole runs

  ghost predicate Initial(s: State)
  {
    && s.list == List([], []) && s.cursors == map[] && s.readers == {} && s.writer == None && s.log == []
    && forall t :: 0 <= t < |s.pcs| ==> s.pcs[t] == Idle
  }

  ghost predicate Next(s: State, s': State)
  {
    exists t: nat, start, call, list' :: StepBy(s, s', t, start, call, list')
  }

  ghost predicate Steps(run: seq<State>)
  {
    && |run| > 0
    && forall i :: 0 <= i < |run| - 1 ==> Next(run[i], run[i + 1])
  }

  /** The getdata calls among them, with what they returned. */
  function Reads(calls: seq<Call>): seq<Call>
  {
    if |calls| == 0 then []
    else Reads(calls[..|calls| - 1]) + if calls[|calls| - 1].Get? then [calls[|calls| - 1]] else []
  }

  function LoggedCalls(log: seq<(nat, Reply)>): seq<Call>
  {
    if |log| == 0 then []
    else LoggedCalls(log[..|log| - 1]) + [AsCall(log[|log| - 1].0, log[|log| - 1].1)]
  }

  lemma LoggedOneMore(log: seq<(nat, Reply)>, entry: (nat, Reply))
    ensures LoggedCalls(log + [entry]) == LoggedCalls(log) + [AsCall(entry.0, entry.1)]
  {
    assert (log + [entry])[..|log|] == log;
  }

  lemma SequentialOneMore(snapshots: seq<Snapshot>, calls: seq<Call>, call: Call, next: Snapshot)
    requires ListModel.IsRun(snapshots, calls)
    requires Step(snapshots[|calls|].list, snapshots[|calls|].cursors, call, next.list)
    requires next.cursors == Track(snapshots[|calls|].list.items, snapshots[|calls|].cursors, call)
    ensures ListModel.IsRun(snapshots + [next], calls + [call])
    ensures Reads(calls + [call]) == Reads(calls) + if call.Get? then [call] else []
  {
    var snapshots', calls' := snapshots + [next], calls + [call];
    assert calls'[..|calls|] == calls;
    forall i | 0 <= i < |calls'|
      ensures Step(snapshots'[i].list, snapshots'[i].cursors, calls'[i], snapshots'[i + 1].list)
      ensures snapshots'[i + 1].cursors == Track(snapshots'[i].list.items, snapshots'[i].cursors, calls'[i])
    {
      assert snapshots'[i] == snapshots[i];
      if i < |calls| {
        assert snapshots'[i + 1] == snapshots[i + 1] && calls'[i] == calls[i];
      }
    }
  }

  /** What one step adds to the sequential history: one call, or none. */
  lemma StepAsCalls(s: State, s': State) returns (more: seq<Call>)
    requires Inv(s) && Next(s, s')
    ensures Inv(s') && |more| <= 1
    ensures more == [] ==> s'.list == s.list && s'.cursors == s.cursors && s'.log == s.log
    ensures |more| == 1 ==>
              && Step(s.list, s.cursors, more[0], s'.list)
              && s'.cursors == Track(s.list.items, s.cursors, more[0])
              && (if more[0].Get? then LoggedCalls(s'.log) == LoggedCalls(s.log) + more else s'.log == s.log)
  {
    var t: nat, start, call, list' :| StepBy(s, s', t, start, call, list');
    StepKeepsInv(s, s', t, start, call, list');
    StepRefines(s, s', t, start, call, list');
    if s.pcs[t].StoreEnd? || s.pcs[t].StoreNext? {
      LoggedOneMore(s.log, (s.pcs[t].key, s'.pcs[t].reply));
      more := [AsCall(s.pcs[t].key, s'.pcs[t].reply)];
    } else if s.pcs[t].Write? {
      more := [call];
    } else {
      more := [];
    }
  }

  /** The history so far, extended by what one step adds to it. */
  ghost predicate Explains(snapshots: seq<Snapshot>, calls: seq<Call>, s: State)
  {
    && ListModel.IsRun(snapshots, calls)
    && snapshots[|calls|] == Snapshot(s.list, s.cursors)
    && Reads(calls) == LoggedCalls(s.log)
  }

  lemma ExplainOneMore(s: State, s': State, before: seq<Snapshot>, calls0: seq<Call>)
    returns (snapshots: seq<Snapshot>, calls: seq<Call>)
    requires Inv(s) && Next(s, s') && Explains(before, calls0, s)
    ensures Inv(s') && Explains(snapshots, calls, s')
  {
    var more := StepAsCalls(s, s');
    snapshots, calls := before, calls0;
    if |more| == 1 {
      var next := Snapshot(s'.list, s'.cursors);
      SequentialOneMore(before, calls0, more[0], next);
      snapshots, calls := before + [next], calls0 + [more[0]];
      assert more == [more[0]];
    }
  }

  /** Every run of any number of threads has done by each of its states to the
      list, the table and the open traversals what some sequence of whole calls
      does, made one at a time, and every getdata_r has returned what its call in
      that sequence returns. */
  lemma {:induction false} RunIsSequential(run: seq<State>, n: nat) returns (snapshots: seq<Snapshot>, calls: seq<Call>)
    requires Steps(run) && Initial(run[0]) && n < |run|
    ensures Explains(snapshots, calls, run[n])
    ensures Inv(run[n])
  {
    if n == 0 {
      snapshots, calls := [Snapshot(run[0].list, run[0].cursors)], [];
    } else {
      snapshots, calls := RunIsSequential(run, n - 1);
      assert Next(run[n - 1], run[n]);
      snapshots, calls := ExplainOneMore(run[n - 1], run[n], snapshots, calls);
    }
  }

  // ------------------------------------------ overlapping reads, in any order

  ghost predicate Readable(l: List, key: nat)
  {
    key < |l.table| && (l.table[key] == EndMark || (l.table[key].At? && l.table[key].i < |l.items|))
  }

  function ReplyOf(l: List, key: nat): Reply
    requires Readable(l, key)
  {
    if l.table[key] == EndMark then EndOfList else Delivered(l.items[l.table[key].i])
  }

  /** The entry after one read. */
  function Advanced(l: List, key: nat): Slot
    requires Readable(l, key)
  {
    if l.table[key] == EndMark then Null else After(l, l.table[key].i)
  }

  ghost predicate DistinctKeys(keys: seq<nat>)
  {
    forall i, j :: 0 <= i < j < |keys| ==> keys[i] != keys[j]
  }

  ghost predicate AllReadable(l: List, keys: seq<nat>)
  {
    forall i :: 0 <= i < |keys| ==> Readable(l, keys[i])
  }

  /** getdata on these keys, one call after the other. */
  function ReadAll(l: List, keys: seq<nat>): (List, seq<Reply>)
    requires AllReadable(l, keys) && DistinctKeys(keys)
    decreases |keys|
  {
    if |keys| == 0 then (l, [])
    else
      var l1 := GetData(l, keys[0]).2;
      var (l2, replies) := ReadAll(l1, keys[1..]);
      (l2, [ReplyOf(l, keys[0])] + replies)
  }

  /** Each read sees and advances its own entry only. */
  lemma {:induction false} ReadAllEntries(l: List, keys: seq<nat>)
    requires AllReadable(l, keys) && DistinctKeys(keys)
    ensures var (l', replies) := ReadAll(l, keys);
      && l'.items == l.items && |l'.table| == |l.table| && |replies| == |keys|
      && (forall k :: 0 <= k < |l.table| ==>
            l'.table[k] == if k in keys then Advanced(l, k) else l.table[k])
      && (forall i :: 0 <= i < |keys| ==> replies[i] == ReplyOf(l, keys[i]))
    decreases |keys|
  {
    if |keys| > 0 {
      var l1 := GetData(l, keys[0]).2;
      assert l1.table == l.table[keys[0] := Advanced(l, keys[0])];
      ReadAllEntries(l1, keys[1..]);
      assert forall k: nat :: k in keys <==> k == keys[0] || k in keys[1..];
    }
  }

  function LogKeys(log: seq<(nat, Reply)>): (keys: seq<nat>)
    ensures |keys| == |log|
  {
    seq(|log|, i requires 0 <= i < |log| => log[i].0)
  }

  /** The calls logged are reads of the entries that the list had at the start. */
  ghost predicate ReadsOf(l: List, s: State)
  {
    && s.list.items == l.items && |s.list.table| == |l.table|
    && (forall i :: 0 <= i < |s.log| ==> Readable(l, s.log[i].0) && s.log[i].1 == ReplyOf(l, s.log[i].0))
    && (forall k: nat :: k < |l.table| ==>
          s.list.table[k] == if Readable(l, k) && k in LogKeys(s.log) then Advanced(l, k) else l.table[k])
  }

  lemma StoreKeepsReads(l: List, s: State, s': State, key: nat, reply: Reply)
    requires ReadsOf(l, s) && Readable(s.list, key) && reply == ReplyOf(s.list, key)
    requires s'.log == s.log + [(key, reply)] && key !in LogKeys(s.log)
    requires s'.list == s.list.(table := s.list.table[key := Advanced(s.list, key)])
    ensures ReadsOf(l, s')
  {
    assert LogKeys(s'.log) == LogKeys(s.log) + [key];
    assert forall k: nat :: k in LogKeys(s'.log) <==> k in LogKeys(s.log) || k == key;
    assert l.table[key] == s.list.table[key];
  }

  lemma StepKeepsReads(l: List, s: State, s': State)
    requires Inv(s) && Next(s, s') && ReadsOf(l, s)
    requires forall t :: 0 <= t < |s.pcs| ==> !s.pcs[t].Writing()
    requires DistinctKeys(LogKeys(s'.log))
    ensures ReadsOf(l, s')
  {
    var t: nat, start, call, list' :| StepBy(s, s', t, start, call, list');
    StepRefines(s, s', t, start, call, list');
    if s.pcs[t].StoreEnd? || s.pcs[t].StoreNext? {
      assert Loaded(s.list, s.pcs[t]);
      LastKeyIsNew(s.log, s.pcs[t].key, s'.pcs[t].reply);
      StoreKeepsReads(l, s, s', s.pcs[t].key, s'.pcs[t].reply);
    }
  }

  lemma LastKeyIsNew(log: seq<(nat, Reply)>, key: nat, reply: Reply)
    requires DistinctKeys(LogKeys(log + [(key, reply)]))
    ensures key !in LogKeys(log)
  {
    var keys := LogKeys(log + [(key, reply)]);
    assert forall i :: 0 <= i < |log| ==> keys[i] == LogKeys(log)[i];
    assert keys[|log|] == key;
  }

  lemma {:induction false} OverlapKeepsReads(run: seq<State>)
    requires Steps(run) && Inv(run[0]) && run[0].log == []
    requires forall i, t :: 0 <= i < |run| && 0 <= t < |run[i].pcs| ==> !run[i].pcs[t].Writing()
    requires DistinctKeys(LogKeys(run[|run| - 1].log))
    ensures Inv(run[|run| - 1]) && ReadsOf(run[0].list, run[|run| - 1])
  {
    var n := |run| - 1;
    if n > 0 {
      var init := run[..n];
      assert init[0] == run[0] && init[|init| - 1] == run[n - 1];
      assert Next(run[n - 1], run[n]);
      LogGrows(run[n - 1], run[n]);
      OverlapKeepsReads(init);
      var more := StepAsCalls(run[n - 1], run[n]);
      StepKeepsReads(run[0].list, run[n - 1], run[n]);
    }
  }

  lemma LogGrows(s: State, s': State)
    requires Next(s, s')
    ensures s.log <= s'.log
    ensures DistinctKeys(LogKeys(s'.log)) ==> DistinctKeys(LogKeys(s.log))
  {
    assert forall i :: 0 <= i < |s.log| ==> LogKeys(s.log)[i] == LogKeys(s'.log)[i];
  }

  /** Call by call, the two ways of making the calls return the same. */
  ghost predicate SameReplies(order: seq<nat>, replies: seq<Reply>, log: seq<(nat, Reply)>)
  {
    && |replies| == |order|
    && forall i, j :: 0 <= i < |order| && 0 <= j < |log| && order[i] == log[j].0 ==> replies[i] == log[j].1
  }

  /** Any number of getdata_r calls on distinct keys that overlap while no writer
      holds the lock leave the same table, and return the same, as the same
      calls made one after the other in any order whatever. */
  lemma OverlappingReadsCommute(run: seq<State>, order: seq<nat>)
    requires Steps(run) && Inv(run[0]) && run[0].log == []
    requires forall i, t :: 0 <= i < |run| && 0 <= t < |run[i].pcs| ==> !run[i].pcs[t].Writing()
    requires DistinctKeys(LogKeys(run[|run| - 1].log)) && DistinctKeys(order)
    requires forall k: nat :: k in order <==> k in LogKeys(run[|run| - 1].log)
    ensures AllReadable(run[0].list, order)
    ensures var (list, replies) := ReadAll(run[0].list, order);
      run[|run| - 1].list == list && SameReplies(order, replies, run[|run| - 1].log)
  {
    OverlapKeepsReads(run);
    var l, last := run[0].list, run[|run| - 1];
    forall i | 0 <= i < |order| ensures Readable(l, order[i]) {
      assert order[i] in order;
      var j :| 0 <= j < |last.log| && LogKeys(last.log)[j] == order[i];
      assert Readable(l, last.log[j].0);
    }
    ReadAllEntries(l, order);
    var (list, replies) := ReadAll(l, order);
    assert last.list.table == list.table;
  }

  // -------------------------------------------------- arguments and results

  function PcAt(s: State, v: nat): Pc { if v < |s.pcs| then s.pcs[v] else Idle }

  /** A call of getdata_r with this key, before its store. */
  predicate ToRead(p: Pc, key: nat) { InGetData(p) && p.key == key }

  /** A call of one of the writers, before it has the list to itself. */
  predicate ToWrite(p: Pc, c: Call) { (p.WriteLock? || p.Write?) && p.call == c }

  /** How one step may change the pc of thread `v`. */
  ghost predicate ThreadStep(s: State, s': State, v: nat)
  {
    var p, q := PcAt(s, v), PcAt(s', v);
    q != p ==>
      && (InGetData(q) ==> ToRead(p, q.key) || (p.Idle? && q.ReadLock?))
      && (q.ReadUnlock? ==> ToRead(p, q.key) && s'.log == s.log + [(q.key, q.reply)])
      && (q.WriteLock? || q.Write? ==> ToWrite(p, q.call) || (p.Idle? && q.WriteLock?))
      && (q.WriteUnlock? ==>
            && p.Write? && SameRequest(p.call, q.done) && Step(s.list, s.cursors, q.done, s'.list)
            && s'.cursors == Track(s.list.items, s.cursors, q.done))
      && (q.Idle? ==> p.ReadUnlock? || p.WriteUnlock?)
  }

  lemma NextMovesThread(s: State, s': State, v: nat)
    requires Next(s, s')
    ensures ThreadStep(s, s', v)
  {
    var t: nat, start, call, list' :| StepBy(s, s', t, start, call, list');
  }

  /** Any call that a client may make can be made, and is started as it is made. */
  lemma CallStarts(s: State, t: nat, start: Pc, call: Call, list': List) returns (s': State)
    requires t < |s.pcs| && s.pcs[t].Idle? && MayStart(s, start)
    ensures StepBy(s, s', t, start, call, list') && s'.pcs == s.pcs[t := start]
    ensures forall s'' :: StepBy(s, s'', t, start, call, list') ==> PcAt(s'', t) == start
  {
    s' := Go(s, t, start);
  }

  ghost predicate Link(run: seq<State>, i: nat, v: nat)
  {
    i + 1 < |run| && ThreadStep(run[i], run[i + 1], v)
  }

  /** A run as thread `v` sees it. */
  ghost predicate ThreadRun(run: seq<State>, v: nat)
  {
    && |run| > 0 && PcAt(run[0], v).Idle?
    && forall i: nat :: i + 1 < |run| ==> Link(run, i, v)
  }

  lemma RunOfThread(run: seq<State>, v: nat)
    requires Steps(run) && Initial(run[0])
    ensures ThreadRun(run, v)
  {
    forall i: nat | i + 1 < |run| ensures Link(run, i, v) {
      assert Next(run[i], run[i + 1]);
      NextMovesThread(run[i], run[i + 1], v);
    }
  }

  /** From state m + 1 to state j thread `v` is inside a call. */
  ghost predicate InCall(run: seq<State>, m: nat, j: nat, v: nat)
    requires j < |run|
  {
    forall i :: m < i <= j ==> !PcAt(run[i], v).Idle?
  }

  lemma InCallLonger(run: seq<State>, m: nat, j: nat, v: nat)
    requires j + 1 < |run| && InCall(run, m, j, v) && !PcAt(run[j + 1], v).Idle?
    ensures InCall(run, m, j + 1, v)
  {
  }

  /** A call that has not reached the list is still the one that was made. */
  lemma {:induction false} CalledSince(run: seq<State>, j: nat, v: nat) returns (m: nat)
    requires ThreadRun(run, v) && j < |run|
    requires InGetData(PcAt(run[j], v)) || PcAt(run[j], v).WriteLock? || PcAt(run[j], v).Write?
    ensures m < j && PcAt(run[m], v).Idle? && InCall(run, m, j, v)
    ensures PcAt(run[m + 1], v) ==
              if InGetData(PcAt(run[j], v)) then ReadLock(PcAt(run[j], v).key) else WriteLock(PcAt(run[j], v).call)
  {
    assert Link(run, j - 1, v);
    if PcAt(run[j - 1], v).Idle? {
      m := j - 1;
    } else {
      m := CalledSince(run, j - 1, v);
      InCallLonger(run, m, j - 1, v);
    }
  }

  lemma {:induction false} ServedSince(run: seq<State>, j: nat, v: nat) returns (k: nat)
    requires ThreadRun(run, v) && j < |run| && (PcAt(run[j], v).ReadUnlock? || PcAt(run[j], v).WriteUnlock?)
    ensures k < j && InCall(run, k, j, v) && PcAt(run[k + 1], v) == PcAt(run[j], v) != PcAt(run[k], v)
    ensures Link(run, k, v)
  {
    assert Link(run, j - 1, v);
    if PcAt(run[j - 1], v) != PcAt(run[j], v) {
      k := j - 1;
    } else {
      k := ServedSince(run, j - 1, v);
      InCallLonger(run, k, j - 1, v);
    }
  }

  /** In every run, when thread `v` returns from a call at step `j`: it made that
      call at some step `m`, and it was served once, at `k`.  A getdata_r was
      served with the key and returns the reply that the log then received; a
      writer's call was done, as it was requested, on the list as it was. */
  lemma CallIsServed(run: seq<State>, j: nat, v: nat) returns (m: nat, k: nat)
    requires Steps(run) && Initial(run[0]) && j + 1 < |run|
    requires !PcAt(run[j], v).Idle? && PcAt(run[j + 1], v).Idle?
    ensures m < k < j && PcAt(run[m], v).Idle? && InCall(run, m, k, v) && InCall(run, k, j, v)
    ensures PcAt(run[m + 1], v).ReadLock? ==>
              && PcAt(run[j], v).ReadUnlock?
              && run[k + 1].log == run[k].log + [(PcAt(run[m + 1], v).key, PcAt(run[j], v).reply)]
    ensures !PcAt(run[m + 1], v).ReadLock? ==>
              && PcAt(run[m + 1], v).WriteLock? && PcAt(run[j], v).WriteUnlock?
              && SameRequest(PcAt(run[m + 1], v).call, PcAt(run[j], v).done)
              && Step(run[k].list, run[k].cursors, PcAt(run[j], v).done, run[k + 1].list)
  {
    RunOfThread(run, v);
    assert Link(run, j, v);
    k := ServedSince(run, j, v);
    m := CalledSince(run, k, v);
  }
}
