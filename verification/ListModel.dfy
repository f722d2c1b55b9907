/** What the history list of chapter13/listlib.c does, on values: the items, the
    table of traversal positions, and beside them what each traversal key handed
    out by accessdata has delivered so far. */
module ListModel {
  import opened Options

  const TRAV_INIT_SIZE: nat := 8

  datatype Data = Data(time: int, text: string)

  /** An entry of travptrs: NULL, &endlist, the node of item i, or whatever
      realloc left in memory. */
  datatype Slot = Null | EndMark | At(i: nat) | Junk

  datatype List = List(items: seq<Data>, table: seq<Slot>)

  /** What a traversal has delivered, and whether the last item delivered was the
      last of the list at that time. */
  datatype Cursor = Cursor(delivered: seq<Data>, ended: bool)

  /** The traversals the clients have open, by key. */
  type Cursors = map<nat, Cursor>

  // ------------------------------------------------- the calls, on the table

  /** accessdata returns `key`.  A table that grows keeps its entries; of the
      new ones only the first is initialised. */
  ghost predicate AccessData(l: List, l': List, key: int)
  {
    if l.items == [] then key == -1 && l' == l
    else if l.table == [] then key == 0 && l' == l.(table := [At(0), Null, Null, Null, Null, Null, Null, Null])
    else if Null in l.table then
      && 0 <= key < |l.table| && l.table[key] == Null && Null !in l.table[..key]
      && l' == l.(table := l.table[key := At(0)])
    else
      && key == |l.table| && l'.items == l.items
      && |l'.table| == 2 * |l.table| && l'.table[..key] == l.table && l'.table[key] == At(0)
  }

  /** adddata; an uninitialised entry may happen to be the new node's address. */
  ghost predicate AddData(l: List, l': List, d: Data)
  {
    && l'.items == l.items + [d] && |l'.table| == |l.table|
    && forall k :: 0 <= k < |l.table| ==>
         l'.table[k] == l.table[k] || (l.table[k] == Junk && l'.table[k] == At(|l.items|))
  }

  predicate ValidKey(l: List, key: int) { 0 <= key < |l.table| && l.table[key] != Null }

  /** The position after item i. */
  function After(l: List, i: nat): Slot { if i + 1 >= |l.items| then EndMark else At(i + 1) }

  /** getdata: the result code, the item delivered (None: datap->string is NULL)
      and the list afterwards. */
  function GetData(l: List, key: int): (int, Option<Data>, List)
    requires ValidKey(l, key) ==> l.table[key].EndMark? || (l.table[key].At? && l.table[key].i < |l.items|)
  {
    if !ValidKey(l, key) then (-1, None, l)
    else if l.table[key] == EndMark then (0, None, l.(table := l.table[key := Null]))
    else (0, Some(l.items[l.table[key].i]), l.(table := l.table[key := After(l, l.table[key].i)]))
  }

  /** freekey */
  function FreeKey(l: List, key: int): (int, List)
  {
    if 0 <= key < |l.table| then (0, l.(table := l.table[key := Null])) else (-1, l)
  }

  // -------------------------------------------- the calls, on the traversals

  datatype Call =
    | Access(key: int)
    | Add(d: Data)
    | Get(key: int, code: int, reply: Option<Data>)
    | Free(key: int, code: int)

  /** One call on the list; getdata is called with a key handed out and not
      given back, or with one that is out of range or free. */
  ghost predicate Step(l: List, c: Cursors, call: Call, l': List)
  {
    match call
    case Access(key) => AccessData(l, l', key)
    case Add(d) => AddData(l, l', d)
    case Get(key, code, reply) =>
      && (key in c || !ValidKey(l, key))
      && (ValidKey(l, key) ==> l.table[key].EndMark? || (l.table[key].At? && l.table[key].i < |l.items|))
      && (code, reply, l') == GetData(l, key)
    case Free(key, code) => (code, l') == FreeKey(l, key)
  }

  /** What the call means for the open traversals, without the table. */
  function Track(items: seq<Data>, c: Cursors, call: Call): Cursors
  {
    match call
    case Access(key) => if key < 0 then c else c[key := Cursor([], false)]
    case Add(_) => c
    case Get(key, code, reply) =>
      if code != 0 || key !in c then c
      else if reply == None then c - {key}
      else
        var delivered := c[key].delivered + [reply.value];
        c[key := Cursor(delivered, |delivered| == |items|)]
    case Free(key, _) => if key < 0 then c else c - {key}
  }

  /** Each open traversal has delivered a prefix of the list, and its table entry
      is where that prefix ends. */
  ghost predicate CursorInv(l: List, key: nat, cursor: Cursor)
  {
    && key < |l.table| && cursor.delivered <= l.items
    && if cursor.ended then l.table[key] == EndMark && cursor.delivered != []
       else l.table[key] == At(|cursor.delivered|) && |cursor.delivered| < |l.items|
  }

  ghost predicate Inv(l: List, c: Cursors)
  {
    && forall key :: key in c ==> CursorInv(l, key, c[key])
  }

  lemma AccessKeepsInv(l: List, c: Cursors, key: int, l': List)
    requires Inv(l, c) && AccessData(l, l', key)
    ensures Inv(l', Track(l.items, c, Access(key)))
    ensures key >= 0 ==> key !in c
  {
    if l.table != [] && Null !in l.table && l.items != [] {
      forall k | 0 <= k < |l.table| ensures l'.table[k] == l.table[k] {
        assert l'.table[..key][k] == l'.table[k];
      }
    }
  }

  lemma AddKeepsInv(l: List, c: Cursors, d: Data, l': List)
    requires Inv(l, c) && AddData(l, l', d)
    ensures Inv(l', c)
  {
  }

  lemma GetKeepsInv(l: List, c: Cursors, key: int, code: int, reply: Option<Data>, l': List)
    requires Inv(l, c) && Step(l, c, Get(key, code, reply), l')
    ensures Inv(l', Track(l.items, c, Get(key, code, reply)))
    ensures key in c ==> code == 0
    ensures key in c && c[key].ended ==> reply == None
    ensures key in c && !c[key].ended ==> reply == Some(l.items[|c[key].delivered|])
    ensures key !in c ==> code == -1 && l' == l
  {
    if key in c && !c[key].ended {
      var delivered := c[key].delivered + [reply.value];
      assert delivered == l.items[..|delivered|];
    }
  }

  lemma FreeKeepsInv(l: List, c: Cursors, key: int, code: int, l': List)
    requires Inv(l, c) && Step(l, c, Free(key, code), l')
    ensures Inv(l', Track(l.items, c, Free(key, code)))
  {
  }

  lemma StepKeepsInv(l: List, c: Cursors, call: Call, l': List)
    requires Inv(l, c) && Step(l, c, call, l')
    ensures Inv(l', Track(l.items, c, call)) && l.items <= l'.items
  {
    match call
    case Access(key) => AccessKeepsInv(l, c, key, l');
    case Add(d) => AddKeepsInv(l, c, d, l');
    case Get(key, code, reply) => GetKeepsInv(l, c, key, code, reply, l');
    case Free(key, code) => FreeKeepsInv(l, c, key, code, l');
  }

  // --------------------------------------------------------------- whole runs

  datatype Snapshot = Snapshot(list: List, cursors: Cursors)

  /** Any sequence of calls, from the empty list on. */
  ghost predicate IsRun(run: seq<Snapshot>, calls: seq<Call>)
  {
    && |run| == |calls| + 1
    && run[0] == Snapshot(List([], []), map[])
    && forall i :: 0 <= i < |calls| ==>
         && Step(run[i].list, run[i].cursors, calls[i], run[i + 1].list)
         && run[i + 1].cursors == Track(run[i].list.items, run[i].cursors, calls[i])
  }

  lemma {:induction false} RunKeepsInv(run: seq<Snapshot>, calls: seq<Call>, n: nat)
    requires IsRun(run, calls) && n < |run|
    ensures Inv(run[n].list, run[n].cursors)
  {
    if n > 0 {
      RunKeepsInv(run, calls, n - 1);
      StepKeepsInv(run[n - 1].list, run[n - 1].cursors, calls[n - 1], run[n].list);
    }
  }

  /** The data added by these calls, in order. */
  function Added(calls: seq<Call>): seq<Data>
  {
    if |calls| == 0 then []
    else Added(calls[..|calls| - 1]) + if calls[|calls| - 1].Add? then [calls[|calls| - 1].d] else []
  }

  lemma AddedOneMore(calls: seq<Call>, call: Call)
    ensures Added(calls + [call]) == Added(calls) + if call.Add? then [call.d] else []
  {
    assert (calls + [call])[..|calls|] == calls;
  }

  /** The list holds exactly the data that have been added, in order. */
  lemma {:induction false} ItemsAreAdded(run: seq<Snapshot>, calls: seq<Call>, n: nat)
    requires IsRun(run, calls) && n < |run|
    ensures run[n].list.items == Added(calls[..n])
  {
    if n > 0 {
      ItemsAreAdded(run, calls, n - 1);
      assert Step(run[n - 1].list, run[n - 1].cursors, calls[n - 1], run[n].list);
      assert calls[..n] == calls[..n - 1] + [calls[n - 1]];
      AddedOneMore(calls[..n - 1], calls[n - 1]);
    }
  }

  /** What a call must do to the table of `l` by itself: accessdata hands out the
      least free key; the end marker and freekey give a key back, and freekey
      does so exactly for a key in range; all other entries stay. */
  ghost predicate KeysRight(l: List, call: Call, l': List)
  {
    match call
    case Access(key) =>
      key >= 0 ==> !ValidKey(l, key) && (forall k :: 0 <= k < key ==> ValidKey(l, k)) && ValidKey(l', key)
    case Add(d) => true
    case Get(key, code, reply) =>
      && (code == 0 && reply == None ==> !ValidKey(l', key))
      && (code == 0 && reply.Some? ==> ValidKey(l', key))
      && |l'.table| == |l.table| && forall k :: 0 <= k < |l.table| && k != key ==> l'.table[k] == l.table[k]
    case Free(key, code) =>
      && code == (if 0 <= key < |l.table| then 0 else -1)
      && (code == 0 ==> !ValidKey(l', key)) && (code == -1 ==> l' == l)
      && |l'.table| == |l.table| && forall k :: 0 <= k < |l.table| && k != key ==> l'.table[k] == l.table[k]
  }

  lemma StepKeysRight(l: List, c: Cursors, call: Call, l': List)
    requires Step(l, c, call, l')
    ensures KeysRight(l, call, l')
  {
    if call.Access? && call.key >= 0 && l.table != [] {
      if Null in l.table {
        assert forall k :: 0 <= k < call.key ==> l.table[..call.key][k] == l.table[k];
      } else {
        assert forall k :: 0 <= k < call.key ==> l.table[k] != Null;
      }
    }
  }

  /** In every sequence of adds, opens, reads and frees, whatever a doubled table
      contains: a key handed out is not one that is still open, and is refused
      only while nothing has been added; each open key has delivered a prefix of
      the data added so far, and reading it delivers the next of them or, once it
      has delivered one that was last, the end marker; reading any other key
      fails and changes nothing. */
  lemma EveryCallIsRight(run: seq<Snapshot>, calls: seq<Call>, n: nat)
    requires IsRun(run, calls) && n < |calls|
    ensures forall key :: key in run[n].cursors ==> run[n].cursors[key].delivered <= Added(calls[..n])
    ensures calls[n].Access? && calls[n].key >= 0 ==> calls[n].key !in run[n].cursors
    ensures calls[n].Access? ==> (calls[n].key < 0 <==> Added(calls[..n]) == [])
    ensures calls[n].Get? && calls[n].key in run[n].cursors ==>
              && calls[n].code == 0
              && var cursor := run[n].cursors[calls[n].key];
                 && (cursor.ended ==> calls[n].reply == None)
                 && (!cursor.ended ==>
                       && |cursor.delivered| < |Added(calls[..n])|
                       && calls[n].reply == Some(Added(calls[..n])[|cursor.delivered|]))
    ensures calls[n].Get? && calls[n].key !in run[n].cursors ==>
              calls[n].code == -1 && run[n + 1].list == run[n].list
    ensures KeysRight(run[n].list, calls[n], run[n + 1].list)
  {
    RunKeepsInv(run, calls, n);
    ItemsAreAdded(run, calls, n);
    var l, c, call := run[n].list, run[n].cursors, calls[n];
    assert Step(l, c, call, run[n + 1].list);
    assert forall key :: key in c ==> CursorInv(l, key, c[key]);
    StepKeysRight(l, c, call, run[n + 1].list);
    if call.Access? {
      AccessKeepsInv(l, c, call.key, run[n + 1].list);
    } else if call.Get? {
      GetKeepsInv(l, c, call.key, call.code, call.reply, run[n + 1].list);
    }
  }

  lemma {:induction false} EndedByLastItem(run: seq<Snapshot>, calls: seq<Call>, n: nat, key: nat) returns (j: nat)
    requires IsRun(run, calls) && n < |run|
    requires key in run[n].cursors && run[n].cursors[key].ended
    ensures j < n && calls[j].Get? && calls[j].key == key && calls[j].code == 0
    ensures var items := run[j].list.items; items != [] && calls[j].reply == Some(items[|items| - 1])
    ensures forall m :: j < m < n && calls[m].Get? ==> calls[m].key != key
  {
    var before := run[n - 1];
    var call := calls[n - 1];
    assert Step(before.list, before.cursors, call, run[n].list);
    RunKeepsInv(run, calls, n - 1);
    if call.Get? && call.key == key {
      GetKeepsInv(before.list, before.cursors, key, call.code, call.reply, run[n].list);
      j := n - 1;
    } else {
      j := EndedByLastItem(run, calls, n - 1, key);
    }
  }

  /** A key that is about to get its end marker last delivered the item that had
      been added last when it was read. */
  lemma EndOnlyAfterLast(run: seq<Snapshot>, calls: seq<Call>, n: nat, key: nat) returns (j: nat)
    requires IsRun(run, calls) && n < |run|
    requires key in run[n].cursors && run[n].cursors[key].ended
    ensures j < n && calls[j].Get? && calls[j].key == key && calls[j].code == 0
    ensures var items := Added(calls[..j]); items != [] && calls[j].reply == Some(items[|items| - 1])
    ensures forall m :: j < m < n && calls[m].Get? ==> calls[m].key != key
  {
    j := EndedByLastItem(run, calls, n, key);
    ItemsAreAdded(run, calls, j);
  }
}
