/** The eight-slot ring that the three buffer designs of chapter 16 share: an
    array and two indices, with no item counter of its own. */
module BoundedRing {

  const BUFSIZE: nat := 8

  /** The contents of a `buffer_t`; no arithmetic is ever done on it. */
  type Item = int

  datatype Ring = Ring(slots: seq<Item>, bufin: nat, bufout: nat)

  ghost predicate WellFormed(r: Ring)
  {
    |r.slots| == BUFSIZE && r.bufin < BUFSIZE && r.bufout < BUFSIZE
  }

  /** `stored` items lie between the two indices. */
  ghost predicate Holds(r: Ring, stored: int)
  {
    WellFormed(r) && 0 <= stored <= BUFSIZE && (r.bufout + stored) % BUFSIZE == r.bufin
  }

  /** The stored items, oldest first. */
  ghost function Contents(r: Ring, stored: int): (q: seq<Item>)
    requires Holds(r, stored)
    ensures |q| == stored
  {
    seq(stored, i requires 0 <= i < stored => r.slots[(r.bufout + i) % BUFSIZE])
  }

  function Insert(r: Ring, x: Item): Ring
    requires r.bufin < |r.slots|
  {
    Ring(r.slots[r.bufin := x], (r.bufin + 1) % BUFSIZE, r.bufout)
  }

  function Front(r: Ring): Item
    requires r.bufout < |r.slots|
  {
    r.slots[r.bufout]
  }

  function Remove(r: Ring): Ring
  {
    r.(bufout := (r.bufout + 1) % BUFSIZE)
  }

  lemma Wraps(n: nat, x: nat)
    requires n < BUFSIZE && x <= BUFSIZE
    ensures (n + x) % BUFSIZE == if n + x < BUFSIZE then n + x else n + x - BUFSIZE
  {
  }

  /** Storing into a ring that is not full overwrites no unread item. */
  lemma InsertAppends(r: Ring, stored: int, x: Item)
    requires Holds(r, stored) && stored < BUFSIZE
    ensures Holds(Insert(r, x), stored + 1)
    ensures Contents(Insert(r, x), stored + 1) == Contents(r, stored) + [x]
  {
    var r' := Insert(r, x);
    Wraps(r.bufout, stored);
    Wraps(r.bufout, stored + 1);
    Wraps(r.bufin, 1);
    forall i | 0 <= i < stored
      ensures Contents(r', stored + 1)[i] == Contents(r, stored)[i]
    {
      Wraps(r.bufout, i);
      assert (r.bufout + i) % BUFSIZE != r.bufin;
    }
  }

  /** Removing from a ring that is not empty yields the oldest item. */
  lemma RemoveTakesOldest(r: Ring, stored: int)
    requires Holds(r, stored) && 0 < stored
    ensures Holds(Remove(r), stored - 1)
    ensures Contents(r, stored) == [Front(r)] + Contents(Remove(r), stored - 1)
  {
    var r' := Remove(r);
    Wraps(r.bufout, 1);
    Wraps(r.bufout, stored);
    Wraps(r'.bufout, stored - 1);
    var rest := Contents(r', stored - 1);
    forall i | 0 <= i < stored - 1
      ensures rest[i] == Contents(r, stored)[i + 1]
    {
      Wraps(r.bufout, i + 1);
      Wraps(r'.bufout, i);
    }
  }

  /** Of the items ever inserted those not yet removed are in the ring, in order. */
  ghost predicate Queued(r: Ring, inserted: seq<Item>, removed: seq<Item>)
  {
    && Holds(r, |inserted| - |removed|)
    && inserted == removed + Contents(r, |inserted| - |removed|)
  }

  lemma InsertQueues(r: Ring, inserted: seq<Item>, removed: seq<Item>, x: Item)
    requires Queued(r, inserted, removed) && |inserted| - |removed| < BUFSIZE
    ensures Queued(Insert(r, x), inserted + [x], removed)
  {
    InsertAppends(r, |inserted| - |removed|, x);
  }

  lemma RemoveQueues(r: Ring, inserted: seq<Item>, removed: seq<Item>)
    requires Queued(r, inserted, removed) && |inserted| > |removed|
    ensures Queued(Remove(r), inserted, removed + [Front(r)])
    ensures Front(r) == inserted[|removed|]
  {
    RemoveTakesOldest(r, |inserted| - |removed|);
    assert Contents(r, |inserted| - |removed|)[0] == Front(r);
  }

  /** The static array and indices, updated in place. */
  class Statics {
    const buffer: array<Item>
    var bufin: nat
    var bufout: nat

    ghost predicate Valid()
      reads this
    {
      buffer.Length == BUFSIZE && bufin < BUFSIZE && bufout < BUFSIZE
    }

    ghost function View(): (r: Ring)
      reads this, buffer
      requires Valid()
      ensures WellFormed(r)
    {
      Ring(buffer[..], bufin, bufout)
    }

    constructor ()
      ensures Valid() && fresh(buffer) && Holds(View(), 0)
    {
      buffer := new Item[BUFSIZE];
      bufin, bufout := 0, 0;
    }

    method PutIn(item: Item)
      requires Valid()
      modifies this, buffer
      ensures Valid() && View() == Insert(old(View()), item)
    {
      buffer[bufin] := item;
      bufin := (bufin + 1) % BUFSIZE;
    }

    method TakeOut() returns (item: Item)
      requires Valid()
      modifies this
      ensures Valid() && item == Front(old(View())) && View() == Remove(old(View()))
    {
      item := buffer[bufout];
      bufout := (bufout + 1) % BUFSIZE;
    }
  }
}
