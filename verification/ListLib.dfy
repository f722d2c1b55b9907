/** chapter13/listlib.c on the heap: linked nodes, a growing table of pointers to
    them, and the four calls that change both in place. */
module ListLib {
  import opened ListModel
  import opened Options

  class Node {
    var item: Data
    var next: Node?

    constructor (item: Data)
      ensures this.item == item && next == null
    {
      this.item, this.next := item, null;
    }
  }

  ghost function IndexOf(nodes: seq<Node>, p: Node): (i: nat)
    requires p in nodes
    ensures i < |nodes| && nodes[i] == p
  {
    if nodes[0] == p then 0 else 1 + IndexOf(nodes[1..], p)
  }

  ghost function Successor(nodes: seq<Node>, i: nat): Node?
  {
    if i + 1 < |nodes| then nodes[i + 1] else null
  }

  ghost predicate Distinct(nodes: seq<Node>)
  {
    forall i, j :: 0 <= i < j < |nodes| ==> nodes[i] != nodes[j]
  }

  /** What a pointer of the table stands for. */
  ghost function SlotOf(nodes: seq<Node>, endlist: Node, p: Node?): Slot
  {
    if p == null then Null
    else if p == endlist then EndMark
    else if p in nodes then At(IndexOf(nodes, p))
    else Junk
  }

  method Calloc(n: nat) returns (ptrs: array<Node?>)
    ensures fresh(ptrs) && ptrs.Length == n && forall k :: 0 <= k < n ==> ptrs[k] == null
  {
    ptrs := new Node?[n](_ => null);
  }

  class History {
    const endlist: Node
    var headptr: Node?
    var tailptr: Node?
    var travptrs: array<Node?>
    ghost var nodes: seq<Node>

    ghost predicate Valid()
      reads this, nodes
    {
      && Distinct(nodes) && endlist !in nodes
      && (headptr == null <==> nodes == [])
      && (nodes != [] ==> headptr == nodes[0] && tailptr == nodes[|nodes| - 1])
      && forall i :: 0 <= i < |nodes| ==> nodes[i].next == Successor(nodes, i)
    }

    ghost function Items(): (items: seq<Data>)
      reads this, nodes
      ensures |items| == |nodes|
    {
      seq(|nodes|, i reads this, nodes requires 0 <= i < |nodes| => nodes[i].item)
    }

    ghost function Table(): (table: seq<Slot>)
      reads this, travptrs
      ensures |table| == travptrs.Length
    {
      seq(travptrs.Length, k reads this, travptrs requires 0 <= k < travptrs.Length =>
        SlotOf(nodes, endlist, travptrs[k]))
    }

    ghost function View(): List
      reads this, nodes, travptrs
    {
      List(Items(), Table())
    }

    constructor ()
      ensures Valid() && View() == List([], [])
      ensures fresh(travptrs) && fresh(endlist)
    {
      endlist := new Node(Data(0, ""));
      headptr, tailptr := null, null;
      travptrs := new Node?[0];
      nodes := [];
    }

    lemma HeadIsFirst()
      requires Valid() && nodes != []
      ensures SlotOf(nodes, endlist, headptr) == At(0)
    {
    }

    lemma {:induction false} SlotIs(s: seq<Node>, i: nat)
      requires i < |s| && Distinct(s)
      ensures IndexOf(s, s[i]) == i
    {
      if i > 0 {
        assert s[0] != s[i];
        assert Distinct(s[1..]);
        SlotIs(s[1..], i - 1);
      }
    }

    /** The search for an empty slot (lines 33 to 38). */
    method FindFree() returns (i: nat)
      requires Valid()
      ensures i <= travptrs.Length && Null !in Table()[..i]
      ensures i < travptrs.Length ==> Table()[i] == Null
    {
      i := 0;
      while i < travptrs.Length
        invariant 0 <= i <= travptrs.Length
        invariant forall k :: 0 <= k < i ==> Table()[k] != Null
      {
        if travptrs[i] == null {
          return;
        }
        i := i + 1;
      }
    }

    /** The first table (lines 25 to 31). */
    method FirstTable()
      requires Valid() && nodes != []
      modifies this`travptrs
      ensures Valid() && nodes == old(nodes) && fresh(travptrs)
      ensures Table() == [At(0), Null, Null, Null, Null, Null, Null, Null]
    {
      HeadIsFirst();
      var newptrs := Calloc(TRAV_INIT_SIZE);
      newptrs[0] := headptr;
      travptrs := newptrs;
    }

    /** realloc to twice the size (lines 39 to 43): the old entries are copied,
        and of the others, which are left uninitialised, the first one is set. */
    method Grow()
      requires Valid() && nodes != [] && travptrs.Length > 0
      modifies this`travptrs
      ensures Valid() && nodes == old(nodes) && fresh(travptrs)
      ensures |Table()| == 2 * |old(Table())|
      ensures Table()[..|old(Table())|] == old(Table()) && Table()[|old(Table())|] == At(0)
    {
      HeadIsFirst();
      ghost var table := Table();
      var size := travptrs.Length;
      var newptrs := new Node?[2 * size];
      forall k | 0 <= k < size {
        newptrs[k] := travptrs[k];
      }
      newptrs[size] := headptr;
      travptrs := newptrs;
      assert forall k :: 0 <= k < size ==> Table()[k] == table[k];
    }

    method AccessData() returns (key: int)
      requires Valid()
      modifies this`travptrs, travptrs
      ensures Valid() && nodes == old(nodes) && (travptrs == old(travptrs) || fresh(travptrs))
      ensures ListModel.AccessData(old(View()), View(), key)
    {
      if headptr == null {
        return -1;
      }
      if travptrs.Length == 0 {
        FirstTable();
        return 0;
      }
      ghost var table := Table();
      key := FindFree();
      if key < travptrs.Length {
        assert table[key] == Null;
        HeadIsFirst();
        travptrs[key] := headptr;
        assert Table() == table[key := At(0)];
        return;
      }
      assert table[..key] == table;
      Grow();
    }

    lemma NodesExtended(before: seq<Node>, p: Node?, newnode: Node)
      requires p != newnode
      ensures SlotOf(before + [newnode], endlist, p) == SlotOf(before, endlist, p)
    {
      if p != null && p in before {
        IndexOfPrefix(before, p, newnode);
      }
    }

    lemma {:induction false} IndexOfPrefix(before: seq<Node>, p: Node, newnode: Node)
      requires p in before
      ensures IndexOf(before + [newnode], p) == IndexOf(before, p)
    {
      if before[0] != p {
        assert (before + [newnode])[1..] == before[1..] + [newnode];
        IndexOfPrefix(before[1..], p, newnode);
      }
    }

    method AddData(d: Data)
      requires Valid()
      modifies this`headptr, this`tailptr, this`nodes, tailptr
      ensures Valid() && travptrs == old(travptrs)
      ensures |nodes| == |old(nodes)| + 1 && old(nodes) <= nodes && fresh(nodes[|old(nodes)|])
      ensures Items() == old(Items()) + [d]
      ensures ListModel.AddData(old(View()), View(), d)
    {
      var newnode := new Node(d);
      if headptr == null {
        headptr := newnode;
      } else {
        tailptr.next := newnode;
      }
      tailptr := newnode;
      forall k | 0 <= k < travptrs.Length
        ensures SlotOf(nodes + [newnode], endlist, travptrs[k]) == SlotOf(nodes, endlist, travptrs[k])
      {
        NodesExtended(nodes, travptrs[k], newnode);
      }
      nodes := nodes + [newnode];
    }

    /** The item is None where getdata sets datap->string to NULL. */
    method GetData(key: int) returns (code: int, item: Option<Data>)
      requires Valid()
      requires ValidKey(View(), key) ==> View().table[key].EndMark? || View().table[key].At?
      modifies travptrs
      ensures Valid() && nodes == old(nodes) && travptrs == old(travptrs)
      ensures (code, item, View()) == ListModel.GetData(old(View()), key)
    {
      if key < 0 || key >= travptrs.Length || travptrs[key] == null {
        return -1, None;
      }
      ghost var table := Table();
      if travptrs[key] == endlist {
        travptrs[key] := null;
        assert Table() == table[key := Null];
        return 0, None;
      }
      var t := travptrs[key];
      ghost var i := IndexOf(nodes, t);
      item := Some(t.item);
      assert nodes[i] == t;
      assert t.next == Successor(nodes, i);
      if i + 1 < |nodes| {
        SlotIs(nodes, i + 1);
        assert t.next != endlist;
        assert SlotOf(nodes, endlist, t.next) == At(i + 1);
      }
      if t.next == null {
        travptrs[key] := endlist;
      } else {
        travptrs[key] := t.next;
      }
      assert SlotOf(nodes, endlist, travptrs[key]) == After(old(View()), i);
      assert Table() == table[key := After(old(View()), i)];
      code := 0;
    }

    method FreeKey(key: int) returns (code: int)
      requires Valid()
      modifies travptrs
      ensures Valid() && nodes == old(nodes) && travptrs == old(travptrs)
      ensures (code, View()) == ListModel.FreeKey(old(View()), key)
    {
      if key < 0 || key >= travptrs.Length {
        return -1;
      }
      ghost var table := Table();
      travptrs[key] := null;
      assert Table() == table[key := Null];
      code := 0;
    }
  }
}
