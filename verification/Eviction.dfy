// Closing the oldest conversations of a user who runs too many at once.
module Eviction {
  import opened Wrappers

  type Id = string

  // When each conversation was last updated, as its metadata says.
  type Times = Id -> Option<real>

  // A missing timestamp counts as the epoch.
  function LastUpdatedAtKey(times: Times, id: Id): real {
    match times(id) case Some(t) => t case None => 0.0
  }

  predicate Descending(times: Times, ids: seq<Id>) {
    forall i, j :: 0 <= i < j < |ids| ==> LastUpdatedAtKey(times, ids[j]) <= LastUpdatedAtKey(times, ids[i])
  }

  predicate Distinct(ids: seq<Id>) {
    forall i, j :: 0 <= i < j < |ids| ==> ids[i] != ids[j]
  }

  function Insert(times: Times, id: Id, ids: seq<Id>): seq<Id> {
    if ids == [] || LastUpdatedAtKey(times, ids[0]) <= LastUpdatedAtKey(times, id) then [id] + ids
    else [ids[0]] + Insert(times, id, ids[1..])
  }

  // conversations.sort(key=_last_updated_at_key, reverse=True): the latest first, ties in their first order.
  function Sorted(times: Times, ids: seq<Id>): seq<Id> {
    if ids == [] then [] else Insert(times, ids[0], Sorted(times, ids[1..]))
  }

  lemma {:induction false} InsertAdds(times: Times, id: Id, ids: seq<Id>)
    ensures multiset(Insert(times, id, ids)) == multiset(ids) + multiset{id}
    ensures forall x :: x in Insert(times, id, ids) <==> x in ids || x == id
  {
    if ids != [] {
      assert ids == [ids[0]] + ids[1..];
      if !(LastUpdatedAtKey(times, ids[0]) <= LastUpdatedAtKey(times, id)) { InsertAdds(times, id, ids[1..]); }
    }
  }

  lemma {:induction false} InsertKeepsOrder(times: Times, id: Id, ids: seq<Id>)
    requires Descending(times, ids)
    ensures Descending(times, Insert(times, id, ids))
  {
    if ids != [] && !(LastUpdatedAtKey(times, ids[0]) <= LastUpdatedAtKey(times, id)) {
      InsertKeepsOrder(times, id, ids[1..]);
      InsertAdds(times, id, ids[1..]);
      assert forall x <- ids[1..] :: LastUpdatedAtKey(times, x) <= LastUpdatedAtKey(times, ids[0]);
    }
  }

  lemma {:induction false} SortedIsSort(times: Times, ids: seq<Id>)
    ensures Descending(times, Sorted(times, ids)) && multiset(Sorted(times, ids)) == multiset(ids)
  {
    if ids != [] {
      SortedIsSort(times, ids[1..]);
      InsertKeepsOrder(times, ids[0], Sorted(times, ids[1..]));
      InsertAdds(times, ids[0], Sorted(times, ids[1..]));
      assert ids == [ids[0]] + ids[1..];
    }
  }

  // The ids with this key, in their order.
  function WithKey(times: Times, ids: seq<Id>, key: real): seq<Id> {
    if ids == [] then []
    else if LastUpdatedAtKey(times, ids[0]) == key then [ids[0]] + WithKey(times, ids[1..], key)
    else WithKey(times, ids[1..], key)
  }

  lemma {:induction false} InsertGoesFirst(times: Times, id: Id, ids: seq<Id>, key: real)
    requires Descending(times, ids)
    ensures WithKey(times, Insert(times, id, ids), key) ==
            (if LastUpdatedAtKey(times, id) == key then [id] else []) + WithKey(times, ids, key)
  {
    if ids == [] || LastUpdatedAtKey(times, ids[0]) <= LastUpdatedAtKey(times, id) {
      assert ([id] + ids)[1..] == ids;
    } else {
      InsertGoesFirst(times, id, ids[1..], key);
      var rest := Insert(times, id, ids[1..]);
      assert ([ids[0]] + rest)[1..] == rest;
    }
  }

  // The sort is stable: conversations updated at the same time keep their order.
  lemma {:induction false} SortedIsStable(times: Times, ids: seq<Id>, key: real)
    ensures WithKey(times, Sorted(times, ids), key) == WithKey(times, ids, key)
  {
    if ids != [] {
      SortedIsStable(times, ids[1..], key);
      SortedIsSort(times, ids[1..]);
      InsertGoesFirst(times, ids[0], Sorted(times, ids[1..]), key);
    }
  }

  lemma {:induction false} DistinctCounts(ids: seq<Id>)
    ensures Distinct(ids) <==> forall x :: multiset(ids)[x] <= 1
  {
    if ids != [] {
      DistinctCounts(ids[1..]);
      assert ids == [ids[0]] + ids[1..];
      if Distinct(ids) {
        assert ids[0] !in ids[1..];
      } else if Distinct(ids[1..]) {
        assert ids[0] in ids[1..];
        assert multiset(ids)[ids[0]] >= 2;
      } else {
        var x :| multiset(ids[1..])[x] > 1;
        assert multiset(ids)[x] > 1;
      }
    }
  }

  ghost predicate Enumerates(ids: seq<Id>, s: set<Id>) {
    Distinct(ids) && (forall x :: x in ids <==> x in s)
  }

  lemma {:induction false} EnumerationSize(ids: seq<Id>, s: set<Id>)
    requires Enumerates(ids, s)
    ensures |s| == |ids|
  {
    if ids != [] {
      assert ids == [ids[0]] + ids[1..];
      EnumerationSize(ids[1..], s - {ids[0]});
    } else {
      assert s == {};
    }
  }

  lemma SortedEnumerates(times: Times, ids: seq<Id>, s: set<Id>)
    requires Enumerates(ids, s)
    ensures Enumerates(Sorted(times, ids), s) && Descending(times, Sorted(times, ids))
  {
    SortedIsSort(times, ids);
    DistinctCounts(ids);
    DistinctCounts(Sorted(times, ids));
    forall x ensures x in Sorted(times, ids) <==> x in ids {
      assert x in multiset(Sorted(times, ids)) <==> x in multiset(ids);
    }
  }

  // Of the conversations in this order, the ones a run closes are those from the end down to the kept ones.
  ghost predicate Evicted(order: seq<Id>, closed: seq<Id>, running: set<Id>) {
    && |closed| <= |order|
    && (forall i :: 0 <= i < |closed| ==> closed[i] == order[|order| - 1 - i])
    && Enumerates(order[..|order| - |closed|], running)
  }

  lemma ClosedAreTheRest(order: seq<Id>, all: set<Id>, closed: seq<Id>, running: set<Id>)
    requires Enumerates(order, all) && Evicted(order, closed, running)
    ensures |running| == |all| - |closed| && running <= all
    ensures forall x :: x in closed <==> x in all && x !in running
  {
    var kept := order[..|order| - |closed|];
    EnumerationSize(order, all);
    EnumerationSize(kept, running);
    forall x | x in running ensures x in all { assert x in kept; }
    assert forall i :: 0 <= i < |kept| ==> kept[i] == order[i] && kept[i] in running;
    forall x | x in all && x !in running ensures x in closed {
      var i :| 0 <= i < |order| && order[i] == x;
      assert closed[|order| - 1 - i] == x;
    }
    forall c | c in closed ensures c in all && c !in running {
      var i :| 0 <= i < |closed| && closed[i] == c;
      var at := |order| - 1 - i;
      assert c == order[at];
      forall j | 0 <= j < |kept| ensures kept[j] != c { assert kept[j] == order[j] != order[at]; }
    }
  }

  lemma ClosedAreTheLast(times: Times, order: seq<Id>, closed: seq<Id>, running: set<Id>)
    requires Descending(times, order) && Evicted(order, closed, running)
    ensures forall c <- closed, k <- running :: LastUpdatedAtKey(times, c) <= LastUpdatedAtKey(times, k)
    ensures forall i, j :: 0 <= i < j < |closed| ==>
              LastUpdatedAtKey(times, closed[i]) <= LastUpdatedAtKey(times, closed[j])
  {
    var n, kept := |order|, order[..|order| - |closed|];
    forall c, k | c in closed && k in running ensures LastUpdatedAtKey(times, c) <= LastUpdatedAtKey(times, k) {
      var i :| 0 <= i < |closed| && closed[i] == c;
      var j :| 0 <= j < |kept| && kept[j] == k;
      assert order[j] == k && order[n - 1 - i] == c;
    }
    forall i, j | 0 <= i < j < |closed|
      ensures LastUpdatedAtKey(times, closed[i]) <= LastUpdatedAtKey(times, closed[j])
    {
      assert order[n - 1 - i] == closed[i] && order[n - 1 - j] == closed[j];
    }
  }

  // What is closed was open, is not kept, is no more recently updated than anything kept, and goes oldest first.
  lemma EvictsOldest(times: Times, ids: seq<Id>, all: set<Id>, closed: seq<Id>, running: set<Id>)
    requires Enumerates(ids, all) && Evicted(Sorted(times, ids), closed, running)
    ensures |running| == |all| - |closed| && running <= all
    ensures forall x :: x in closed <==> x in all && x !in running
    // a missing timestamp counts as 0
    ensures forall c <- closed, k <- running ::
              (if times(c).Some? then times(c).value else 0.0) <= (if times(k).Some? then times(k).value else 0.0)
    ensures forall i, j :: 0 <= i < j < |closed| ==>
              (if times(closed[i]).Some? then times(closed[i]).value else 0.0)
              <= (if times(closed[j]).Some? then times(closed[j]).value else 0.0)
  {
    SortedEnumerates(times, ids, all);
    ClosedAreTheRest(Sorted(times, ids), all, closed, running);
    ClosedAreTheLast(times, Sorted(times, ids), closed, running);
  }

  lemma EvictOne(order: seq<Id>, closed: seq<Id>, running: set<Id>)
    requires Evicted(order, closed, running) && |closed| < |order|
    ensures var oldest := order[|order| - 1 - |closed|];
            Evicted(order, closed + [oldest], running - {oldest}) && |running - {oldest}| == |order| - |closed| - 1
  {
    var kept := order[..|order| - |closed|];
    var last := |kept| - 1;
    assert kept[..last] == order[..last];
    assert forall i :: 0 <= i < last ==> kept[..last][i] == kept[i];
    forall x ensures x in kept[..last] <==> x in running - {kept[last]} {
      if x in kept && x != kept[last] {
        var i :| 0 <= i < |kept| && kept[i] == x;
        assert kept[..last][i] == x;
      }
    }
    EnumerationSize(kept[..last], running - {kept[last]});
  }

  class Manager {
    const limit: int
    var running: set<Id>

    constructor (limit: int, running: set<Id>)
      ensures this.limit == limit && this.running == running
    {
      this.limit, this.running := limit, running;
    }

    method CloseSession(id: Id)
      modifies this
      ensures running == old(running) - {id}
    {
      running := running - {id};
    }

    // The pop loop over the sorted list.
    method CloseFromEnd(order: seq<Id>) returns (closed: seq<Id>, raised: bool)
      requires Enumerates(order, running) && |running| == |order| >= limit
      modifies this
      ensures Evicted(order, closed, running) && |closed| == |order| - |running|
      ensures |running| == if limit >= 1 then limit - 1 else 0
      ensures raised <==> limit < 1
    {
      closed, raised := [], false;
      var conversations := order;
      assert order[..|order|] == order;
      while |conversations| >= limit
        invariant Evicted(order, closed, running) && conversations == order[..|order| - |closed|]
        invariant |running| == |conversations| >= limit - 1
        decreases |conversations|
      {
        if conversations == [] {
          raised := true;
          return;
        }
        var last := |conversations| - 1;
        var oldest := conversations[last];
        EvictOne(order, closed, running);
        assert conversations[..last] == order[..last];
        conversations := conversations[..last];
        CloseSession(oldest);
        closed := closed + [oldest];
      }
    }

    // ensure_num_conversations_below_limit. ids is the order in which the set of running conversations was
    // iterated. With a limit below one the list is popped empty and once more, which raises.
    method EnsureNumConversationsBelowLimit(ids: seq<Id>, times: Times) returns (closed: seq<Id>, raised: bool)
      requires Enumerates(ids, running)
      modifies this
      ensures Evicted(Sorted(times, ids), closed, running)
      ensures |running| == if old(|running|) < limit then old(|running|) else if limit >= 1 then limit - 1 else 0
      ensures |closed| == old(|running|) - |running|
      ensures raised <==> limit < 1
    {
      var order := Sorted(times, ids);
      SortedEnumerates(times, ids, running);
      EnumerationSize(order, running);
      EnumerationSize(ids, running);
      assert order[..|order|] == order;
      closed, raised := [], false;
      if |ids| >= limit { closed, raised := CloseFromEnd(order); }
    }
  }
}
