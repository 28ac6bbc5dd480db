// Proactive conversations: one message per commit, once all its workflow runs are over and one failed.
module ProactiveStore {
  import opened Wrappers

  datatype RunStatus = Failure | Completed | Pending
  datatype WorkflowRun = WorkflowRun(id: string, name: string, status: RunStatus)
  type RunGroup = map<string, WorkflowRun>

  datatype Key = Key(repo: string, pr: int, commit: string)
  datatype Row = Row(runs: RunGroup, sent: bool, updatedAt: int)

  // One call of store_workflow_information; fetched is what get_all_workflows() would return.
  datatype Incoming = Incoming(run: WorkflowRun, fetched: RunGroup, now: int)

  datatype Event = Workflow(key: Key, incoming: Incoming) | Clean(cutoff: int)

  ghost predicate Ready(g: RunGroup) {
    (forall k <- g :: !g[k].status.Pending?) && (exists k <- g :: g[k].status.Failure?)
  }

  // ----- what one call does -----

  function Lookup(rows: map<Key, Row>, key: Key): Option<Row> {
    if key in rows then Some(rows[key]) else None
  }

  function Cleaned(rows: map<Key, Row>, cutoff: int): map<Key, Row> {
    map k | k in rows && rows[k].updatedAt >= cutoff :: rows[k]
  }

  function Base(row: Option<Row>, e: Incoming): RunGroup {
    match row case Some(r) => r.runs case None => e.fetched
  }

  function Created(row: Option<Row>, e: Incoming): int {
    match row case Some(r) => r.updatedAt case None => e.now
  }

  predicate Sent(row: Option<Row>) {
    row.Some? && row.value.sent
  }

  ghost function RowAfter(row: Option<Row>, e: Incoming): Row {
    if Sent(row) then row.value
    else
      var runs := Base(row, e)[e.run.id := e.run];
      Row(runs, Ready(runs), Created(row, e))
  }

  ghost function Reply(row: Option<Row>, e: Incoming): Option<RunGroup> {
    if Sent(row) then None
    else
      var runs := Base(row, e)[e.run.id := e.run];
      if Ready(runs) then Some(runs) else None
  }

  class Store {
    var rows: map<Key, Row>

    constructor ()
      ensures rows == map[]
    {
      rows := map[];
    }

    method StoreWorkflowInformation(key: Key, e: Incoming) returns (group: Option<RunGroup>)
      modifies this
      // once the message is out nothing happens
      ensures key in old(rows) && old(rows)[key].sent ==> group == None && rows == old(rows)
      // before that the run is recorded, and the group goes out exactly if no run is pending and some run failed
      ensures key !in old(rows) || !old(rows)[key].sent ==>
                var runs := (if key in old(rows) then old(rows)[key].runs else e.fetched)[e.run.id := e.run];
                && (group.Some? <==> (forall k <- runs :: runs[k].status != Pending) && exists k <- runs :: runs[k].status == Failure)
                && (group.Some? ==> group.value == runs)
                && rows == old(rows)[key := Row(runs, group.Some?, if key in old(rows) then old(rows)[key].updatedAt else e.now)]
      ensures rows == old(rows)[key := RowAfter(Lookup(old(rows), key), e)]
      ensures group == Reply(Lookup(old(rows), key), e)
    {
      if key in rows && rows[key].sent {
        assert rows == rows[key := rows[key]];
        return None;
      }
      var runs := if key in rows then rows[key].runs else e.fetched;
      runs := runs[e.run.id := e.run];
      var nonePending, failed := true, false;
      var todo := runs.Keys;
      while todo != {}
        invariant todo <= runs.Keys
        invariant nonePending <==> forall k <- runs.Keys - todo :: !runs[k].status.Pending?
        invariant failed <==> exists k <- runs.Keys - todo :: runs[k].status.Failure?
      {
        var k :| k in todo;
        var seen := runs.Keys - todo;
        nonePending := nonePending && !runs[k].status.Pending?;
        failed := failed || runs[k].status.Failure?;
        todo := todo - {k};
        assert runs.Keys - todo == seen + {k};
      }
      assert runs.Keys - todo == runs.Keys;
      var shouldSend := nonePending && failed;
      assert shouldSend <==> Ready(runs);
      if key in rows {
        rows := rows[key := rows[key].(runs := runs, sent := shouldSend)];
      } else {
        rows := rows[key := Row(runs, shouldSend, e.now)];
      }
      group := if shouldSend then Some(runs) else None;
    }

    method CleanOldConvos(cutoff: int)
      modifies this
      ensures forall k :: k in rows <==> k in old(rows) && !(old(rows)[k].updatedAt < cutoff)
      ensures forall k <- rows :: rows[k] == old(rows)[k]
      ensures rows == Cleaned(old(rows), cutoff)
    {
      rows := map k | k in rows && rows[k].updatedAt >= cutoff :: rows[k];
    }
  }

  // ----- sequences of calls for one commit -----

  ghost function RowAfterAll(row: Option<Row>, es: seq<Incoming>): Option<Row> {
    if es == [] then row
    else Some(RowAfter(RowAfterAll(row, es[..|es| - 1]), es[|es| - 1]))
  }

  // The reply to the k-th call.
  ghost function ReplyTo(row: Option<Row>, es: seq<Incoming>, k: nat): Option<RunGroup>
    requires k < |es|
  {
    Reply(RowAfterAll(row, es[..k]), es[k])
  }

  function Overlay(g: RunGroup, es: seq<Incoming>): RunGroup {
    if es == [] then g
    else Overlay(g, es[..|es| - 1])[es[|es| - 1].run.id := es[|es| - 1].run]
  }

  function InitialRuns(row: Option<Row>, es: seq<Incoming>): RunGroup
    requires row.Some? || es != []
  {
    match row case Some(r) => r.runs case None => es[0].fetched
  }

  // The runs known after the first n calls.
  function Known(row: Option<Row>, es: seq<Incoming>, n: nat): RunGroup
    requires (row.Some? || es != []) && n <= |es|
  {
    Overlay(InitialRuns(row, es), es[..n])
  }

  ghost predicate ReadyBefore(row: Option<Row>, es: seq<Incoming>, n: nat)
    requires (row.Some? || es != []) && n <= |es| + 1
  {
    exists k :: 1 <= k < n && Ready(Known(row, es, k))
  }

  // The send point: the first call after which no run is pending and some run failed.
  ghost predicate SendPoint(row: Option<Row>, es: seq<Incoming>, n: nat)
    requires row.Some? || es != []
  {
    1 <= n <= |es| && Ready(Known(row, es, n)) && !ReadyBefore(row, es, n)
  }

  lemma {:induction false} BeforeSendPoint(row: Option<Row>, es: seq<Incoming>, n: nat)
    requires es != [] && !Sent(row) && n <= |es| && !ReadyBefore(row, es, n)
    ensures n == 0 ==> RowAfterAll(row, es[..n]) == row
    ensures n > 0 ==> RowAfterAll(row, es[..n]) == Some(Row(Known(row, es, n), Ready(Known(row, es, n)), Created(row, es[0])))
    ensures n > 0 ==> ReplyTo(row, es, n - 1) == if Ready(Known(row, es, n)) then Some(Known(row, es, n)) else None
  {
    if n > 0 {
      assert es[..n][..n - 1] == es[..n - 1];
      assert !ReadyBefore(row, es, n - 1);
      BeforeSendPoint(row, es, n - 1);
      if n > 1 { assert !Ready(Known(row, es, n - 1)); }
      var prev := RowAfterAll(row, es[..n - 1]);
      assert RowAfterAll(row, es[..n]) == Some(RowAfter(prev, es[n - 1]));
      assert Known(row, es, n) == Known(row, es, n - 1)[es[n - 1].run.id := es[n - 1].run];
    }
  }

  lemma {:induction false} SentIsFrozen(row: Option<Row>, es: seq<Incoming>, n: nat, m: nat)
    requires n <= m <= |es| && Sent(RowAfterAll(row, es[..n]))
    ensures RowAfterAll(row, es[..m]) == RowAfterAll(row, es[..n])
    ensures n < m ==> ReplyTo(row, es, m - 1) == None
  {
    if n < m {
      assert es[..m][..m - 1] == es[..m - 1];
      SentIsFrozen(row, es, n, m - 1);
    }
  }

  // Over any calls for a commit whose message is not sent yet: the row holds the runs known so far until
  // the send point, the group goes out exactly there, and the row never changes again.
  lemma SentExactlyOnce(row: Option<Row>, es: seq<Incoming>, m: nat)
    requires es != [] && !Sent(row) && 1 <= m <= |es|
    ensures !ReadyBefore(row, es, m + 1) ==>
              && RowAfterAll(row, es[..m]) == Some(Row(Known(row, es, m), false, Created(row, es[0])))
              && ReplyTo(row, es, m - 1) == None
    ensures forall n: nat :: SendPoint(row, es, n) && n <= m ==>
              && RowAfterAll(row, es[..m]) == Some(Row(Known(row, es, n), true, Created(row, es[0])))
              && ReplyTo(row, es, m - 1) == if m == n then Some(Known(row, es, n)) else None
    ensures ReadyBefore(row, es, m + 1) ==> exists n: nat :: SendPoint(row, es, n) && n <= m
  {
    if !ReadyBefore(row, es, m + 1) {
      assert !ReadyBefore(row, es, m) && !Ready(Known(row, es, m));
      BeforeSendPoint(row, es, m);
    } else {
      var n := FirstReady(row, es, m);
    }
    forall n: nat | SendPoint(row, es, n) && n <= m
      ensures RowAfterAll(row, es[..m]) == Some(Row(Known(row, es, n), true, Created(row, es[0])))
      ensures ReplyTo(row, es, m - 1) == if m == n then Some(Known(row, es, n)) else None
    {
      BeforeSendPoint(row, es, n);
      SentIsFrozen(row, es, n, m);
    }
  }

  lemma {:induction false} FirstReady(row: Option<Row>, es: seq<Incoming>, m: nat) returns (n: nat)
    requires es != [] && m <= |es| && ReadyBefore(row, es, m + 1)
    ensures SendPoint(row, es, n) && n <= m
  {
    var k :| 1 <= k < m + 1 && Ready(Known(row, es, k));
    if ReadyBefore(row, es, k) { n := FirstReady(row, es, k - 1); } else { n := k; }
  }

  // ----- many commits -----

  ghost function RowsAfter(rows: map<Key, Row>, events: seq<Event>): map<Key, Row> {
    if events == [] then rows
    else
      var before := RowsAfter(rows, events[..|events| - 1]);
      match events[|events| - 1]
      case Workflow(key, e) => before[key := RowAfter(Lookup(before, key), e)]
      case Clean(cutoff) => Cleaned(before, cutoff)
  }

  function CallsFor(events: seq<Event>, key: Key): seq<Incoming> {
    if events == [] then []
    else
      var last := events[|events| - 1];
      CallsFor(events[..|events| - 1], key) + if last.Workflow? && last.key == key then [last.incoming] else []
  }

  // No cleaning among the events reaches the row of key.
  ghost predicate NeverCleaned(rows: map<Key, Row>, events: seq<Event>, key: Key) {
    forall i :: 0 <= i < |events| && events[i].Clean? ==>
      var row := Lookup(RowsAfter(rows, events[..i]), key);
      row.Some? ==> row.value.updatedAt >= events[i].cutoff
  }

  // A row sees only the calls for its own commit: calls for other commits, and cleanings that do not
  // reach it, leave it untouched.
  lemma {:induction false} RowSeesOwnCalls(rows: map<Key, Row>, events: seq<Event>, key: Key)
    requires NeverCleaned(rows, events, key)
    ensures Lookup(RowsAfter(rows, events), key) == RowAfterAll(Lookup(rows, key), CallsFor(events, key))
  {
    if events != [] {
      var front, last := events[..|events| - 1], events[|events| - 1];
      forall i | 0 <= i < |front| ensures front[..i] == events[..i] && front[i] == events[i] {}
      RowSeesOwnCalls(rows, front, key);
      assert front == events[..|front|] && last == events[|front|];
      var calls := CallsFor(events, key);
      if last.Workflow? && last.key == key {
        assert calls[..|calls| - 1] == CallsFor(front, key) && calls[|calls| - 1] == last.incoming;
      } else {
        assert calls == CallsFor(front, key);
      }
    }
  }

  // ----- cleaning -----

  // The stamp by which cleaning goes is written when the row is inserted and by no later call.
  lemma {:induction false} StampIsOfInsertion(row: Option<Row>, es: seq<Incoming>)
    requires es != []
    ensures RowAfterAll(row, es).Some? && RowAfterAll(row, es).value.updatedAt == Created(row, es[0])
  {
    if |es| > 1 {
      StampIsOfInsertion(row, es[..|es| - 1]);
    } else {
      assert es[..0] == [];
    }
  }

  // The row of key was last inserted by event number i, or was there from the start if i is -1.
  ghost predicate InsertedBy(rows: map<Key, Row>, events: seq<Event>, key: Key, i: int) {
    && -1 <= i < |events|
    && (if i == -1 then key in rows
        else events[i].Workflow? && events[i].key == key && key !in RowsAfter(rows, events[..i]))
    && forall j :: i < j <= |events| ==> key in RowsAfter(rows, events[..j])
  }

  function StampOf(rows: map<Key, Row>, events: seq<Event>, key: Key, i: int): int
    requires -1 <= i < |events| && if i == -1 then key in rows else events[i].Workflow?
  {
    if i == -1 then rows[key].updatedAt else events[i].incoming.now
  }

  lemma {:induction false} LastInsertion(rows: map<Key, Row>, events: seq<Event>, key: Key) returns (i: int)
    requires key in RowsAfter(rows, events)
    ensures InsertedBy(rows, events, key, i)
    ensures RowsAfter(rows, events)[key].updatedAt == StampOf(rows, events, key, i)
  {
    var n := |events| - 1;
    assert events[..|events|] == events;
    if events == [] {
      i := -1;
    } else if key in RowsAfter(rows, events[..n]) {
      i := LastInsertion(rows, events[..n], key);
      assert forall j :: 0 <= j <= n ==> events[..n][..j] == events[..j];
    } else {
      i := n;
    }
  }

  // So a cleaning removes a commit exactly if the call that last inserted its row, or the row there was, is older
  // than the cutoff, however recent its last call is and whatever was cleaned before.
  lemma CleaningGoesByAge(rows: map<Key, Row>, events: seq<Event>, key: Key, cutoff: int) returns (i: int)
    requires key in RowsAfter(rows, events)
    ensures InsertedBy(rows, events, key, i) && forall j :: InsertedBy(rows, events, key, j) ==> j == i
    ensures key !in RowsAfter(rows, events + [Clean(cutoff)]) <==> StampOf(rows, events, key, i) < cutoff
  {
    i := LastInsertion(rows, events, key);
    assert (events + [Clean(cutoff)])[..|events|] == events;
  }

  // The reply to the call that follows these events.
  ghost function ReplyAfter(events: seq<Event>, key: Key, e: Incoming): Option<RunGroup> {
    Reply(Lookup(RowsAfter(map[], events), key), e)
  }

  // A commit that reported a moment ago is cleaned for its age, and the next report sends its group again.
  lemma ActiveCommitSendsTwice(key: Key, age: int) returns (started: Incoming, failed: Incoming, again: Incoming)
    requires age > 0
    ensures failed.now == again.now == started.now + age
    ensures ReplyAfter([Workflow(key, started)], key, failed).Some?
    ensures ReplyAfter([Workflow(key, started), Workflow(key, failed), Clean(failed.now)], key, again).Some?
  {
    started := Incoming(WorkflowRun("a", "build", Pending), map[], 0);
    failed := Incoming(WorkflowRun("a", "build", Failure), map[], age);
    again := failed;
    var one := [Workflow(key, started)];
    var two := one + [Workflow(key, failed)];
    var three := two + [Clean(age)];
    assert one[..0] == [] && two[..1] == one && three[..2] == two;
    assert [Workflow(key, started), Workflow(key, failed), Clean(failed.now)] == three;
    var runs: RunGroup := map["a" := failed.run];
    assert Base(Lookup(RowsAfter(map[], one), key), failed)["a" := failed.run] == runs;
    assert Ready(runs) by { assert runs["a"].status.Failure?; }
    assert RowsAfter(map[], three) == map[];
    assert Base(None, again)["a" := again.run] == runs;
  }
}
