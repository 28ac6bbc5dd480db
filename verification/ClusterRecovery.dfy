// Failure detection and takeover in the cluster.
module ClusterRecovery {
  import opened ClusterProtocol
  import opened ClusterSafety
  import opened ClusterTightness

  // ----- at most one start per claim -----

  predicate EndsClaim(s: Step, n: NodeId, sid: Sid) {
    s == At(n, Crash) || s == At(n, AbandonStart(sid)) || s == At(n, Delete(sid)) || s == At(n, LoseDelete(sid))
  }

  ghost predicate ClaimsAt(c: Cluster, n: NodeId, sid: Sid) {
    n in c.nodes && Claims(c.nodes[n], sid)
  }

  lemma ClaimStep(t: Timing, c: Cluster, s: Step, n: NodeId, sid: Sid)
    requires Enabled(t, c, s) && !EndsClaim(s, n, sid)
    requires ClaimsAt(c, n, sid) || s == At(n, Acquire(sid))
    ensures ClaimsAt(Apply(c, s), n, sid)
  {
  }

  lemma ClaimAfter(t: Timing, r: Run, k: nat, n: NodeId, sid: Sid)
    requires IsRun(t, r) && k < |r.steps| && !EndsClaim(r.steps[k], n, sid)
    requires ClaimsAt(r.states[k], n, sid) || r.steps[k] == At(n, Acquire(sid))
    ensures ClaimsAt(r.states[k + 1], n, sid)
  {
    ClaimStep(t, r.states[k], r.steps[k], n, sid);
  }

  lemma {:induction false} ClaimPersists(t: Timing, r: Run, i: nat, k: nat, n: NodeId, sid: Sid)
    requires IsRun(t, r) && i < k <= |r.steps| && r.steps[i] == At(n, Acquire(sid))
    requires forall j :: i < j < k ==> !EndsClaim(r.steps[j], n, sid)
    ensures ClaimsAt(r.states[k], n, sid)
  {
    if k > i + 1 { ClaimPersists(t, r, i, k - 1, n, sid); }
    ClaimAfter(t, r, k - 1, n, sid);
  }

  // However many nodes and connections ask for a conversation, a second SET NX succeeds only
  // after the claim of the first has ended: exactly one caller starts the loop.
  lemma StartsOnce(t: Timing, r: Run, i: nat, j: nat, n: NodeId, m: NodeId, sid: Sid)
    requires WithinBudget(t) && IsRun(t, r) && i < j < |r.steps|
    requires r.steps[i] == At(n, Acquire(sid)) && r.steps[j] == At(m, Acquire(sid))
    ensures exists k :: i < k < j && EndsClaim(r.steps[k], n, sid)
  {
    if forall k :: i < k < j ==> !EndsClaim(r.steps[k], n, sid) {
      ClaimPersists(t, r, i, j, n, sid);
      InvAlong(t, r, j);
      AcquireIsAlone(t, r.states[j], m, sid);
    }
  }

  // Whenever the key is dead, the request of any live node starts the loop, and until that claim has ended
  // every request, its own included, is refused: of all callers exactly one starts it.
  lemma ExactlyOneStarts(t: Timing, r: Run, i: nat, n: NodeId, sid: Sid)
    requires WithinBudget(t) && IsRun(t, r) && i <= |r.steps|
    requires n in r.states[i].nodes && r.states[i].nodes[n].alive && sid != ""
    ensures Enabled(t, r.states[i], At(n, Acquire(sid))) <==> !Live(r.states[i], sid)
    ensures i < |r.steps| && r.steps[i] == At(n, Acquire(sid)) ==>
              forall j, m :: i < j <= |r.steps| && (forall k :: i < k < j ==> !EndsClaim(r.steps[k], n, sid)) ==>
                Live(r.states[j], sid) && !Enabled(t, r.states[j], At(m, Acquire(sid)))
  {
    if i < |r.steps| && r.steps[i] == At(n, Acquire(sid)) {
      forall j, m | i < j <= |r.steps| && (forall k :: i < k < j ==> !EndsClaim(r.steps[k], n, sid))
        ensures Live(r.states[j], sid) && !Enabled(t, r.states[j], At(m, Acquire(sid)))
      {
        ClaimPersists(t, r, i, j, n, sid);
        InvAlong(t, r, j);
        ClaimedIsLive(t, r.states[j], n, sid);
      }
    }
  }

  // ----- the lease of a lost conversation dies -----

  predicate Gone(t: Timing, nd: Node, sid: Sid, until: real) {
    && sid !in nd.loops && sid !in nd.starting
    && (nd.phase.Sending? && sid in nd.phase.captured ==> nd.phase.since + t.work + LEASE <= until)
  }

  // Nobody runs or starts sid, and nothing on the wire can carry its key past until.
  ghost predicate Orphan(t: Timing, c: Cluster, sid: Sid, until: real) {
    && (sid in c.lease ==> c.lease[sid] <= until)
    && forall n <- c.nodes :: Gone(t, c.nodes[n], sid, until)
  }

  predicate Acquires(s: Step, sid: Sid) {
    s.At? && s.move == Acquire(sid)
  }

  lemma GoneMove(t: Timing, now: real, lease: map<Sid, real>, nd: Node, m: Move, sid: Sid, until: real)
    requires PhaseOk(t, now, nd) && MayMove(lease, now, nd, m) && m != Acquire(sid)
    requires Gone(t, nd, sid, until) && (sid in lease ==> lease[sid] <= until)
    ensures Gone(t, NodeAfter(now, nd, m), sid, until)
    ensures sid in LeaseAfter(lease, now, nd, m) ==> LeaseAfter(lease, now, nd, m)[sid] <= until
  {
  }

  lemma OrphanStep(t: Timing, c: Cluster, s: Step, sid: Sid, until: real)
    requires Inv(t, c) && Enabled(t, c, s) && Orphan(t, c, sid, until)
    requires !Acquires(s, sid)
    ensures Orphan(t, Apply(c, s), sid, until)
  {
    if s.At? { GoneMove(t, c.now, c.lease, c.nodes[s.n], s.move, sid, until); }
  }

  ghost predicate NotAcquired(r: Run, i: nat, j: nat, sid: Sid)
    requires j <= |r.steps|
  {
    forall k :: i <= k < j ==> !Acquires(r.steps[k], sid)
  }

  lemma OrphanAfter(t: Timing, r: Run, j: nat, sid: Sid, until: real)
    requires WithinBudget(t) && IsRun(t, r) && j < |r.steps|
    requires Orphan(t, r.states[j], sid, until) && !Acquires(r.steps[j], sid)
    ensures Orphan(t, r.states[j + 1], sid, until)
  {
    InvAlong(t, r, j);
    OrphanStep(t, r.states[j], r.steps[j], sid, until);
  }

  lemma {:induction false} OrphanLeaseDies(t: Timing, r: Run, i: nat, j: nat, sid: Sid, until: real)
    requires WithinBudget(t) && IsRun(t, r) && i <= j <= |r.steps| && Orphan(t, r.states[i], sid, until)
    requires NotAcquired(r, i, j, sid)
    ensures Orphan(t, r.states[j], sid, until)
    ensures until <= r.states[j].now ==> !Live(r.states[j], sid)
  {
    if i < j {
      OrphanLeaseDies(t, r, i, j - 1, sid, until);
      OrphanAfter(t, r, j - 1, sid, until);
    }
  }

  // The pipeline of node m carries sid and may execute late enough to keep its key past until.
  predicate CarriesPast(t: Timing, c: Cluster, m: NodeId, sid: Sid, until: real) {
    && m in c.nodes && c.nodes[m].phase.Sending? && sid in c.nodes[m].phase.captured
    && until < c.nodes[m].phase.since + t.work + LEASE
  }

  // After the holder crashes the key is dead from any moment past which neither its lease nor a pipeline reaches,
  // and so at the latest LEASE + work after the crash, unless somebody starts the loop again.
  lemma CrashedLeaseDies(t: Timing, r: Run, i: nat, j: nat, n: NodeId, sid: Sid, until: real)
    requires WithinBudget(t) && IsRun(t, r) && i < j <= |r.steps|
    requires Holds(r.states[i], n, sid) && r.steps[i] == At(n, Crash)
    requires NotAcquired(r, i + 1, j, sid)
    ensures sid in r.states[i].lease
    ensures r.states[i].lease[sid] <= until <= r.states[j].now && (forall m :: !CarriesPast(t, r.states[i], m, sid, until)) ==>
              !Live(r.states[j], sid)
    ensures r.states[i].now + t.work + LEASE <= r.states[j].now ==> !Live(r.states[j], sid)
  {
    var c, c' := r.states[i], r.states[i + 1];
    InvAlong(t, r, i);
    ClaimedIsLive(t, c, n, sid);
    forall m | m in c'.nodes ensures sid !in c'.nodes[m].loops && sid !in c'.nodes[m].starting {
      assert m == n || c'.nodes[m] == c.nodes[m];
      assert Claims(c.nodes[n], sid);
    }
    forall m | m in c'.nodes ensures c'.nodes[m].phase == c.nodes[m].phase && c.nodes[m].phase.since <= c.now {
      assert PhaseOk(t, c.now, c.nodes[m]);
    }
    var limit := c.now + t.work + LEASE;
    OrphanLeaseDies(t, r, i + 1, j, sid, limit);
    if c.lease[sid] <= until && forall m :: !CarriesPast(t, c, m, sid, until) {
      forall m | m in c'.nodes ensures Gone(t, c'.nodes[m], sid, until) {
        assert !CarriesPast(t, c, m, sid, until);
      }
      OrphanLeaseDies(t, r, i + 1, j, sid, until);
    }
  }

  // ----- the failure detector -----

  // What _disconnect_from_stopped flags: connected, not local, not returned by the scan.  The node reads its
  // connections and loops first and scans then.
  function Flagged(connected: set<Sid>, local: set<Sid>, scanned: set<Sid>): set<Sid> {
    connected - local - scanned
  }

  // The scan is not atomic.  Over a stretch of a run it returns every key alive throughout, and only keys alive
  // at some point.
  ghost predicate ScanOf(r: Run, i: nat, j: nat, scanned: set<Sid>)
    requires i <= j < |r.states|
  {
    forall sid ::
      && ((forall k :: i <= k <= j ==> Live(r.states[k], sid)) ==> sid in scanned)
      && (sid in scanned ==> exists k :: i <= k <= j && Live(r.states[k], sid))
  }

  ghost predicate HeldThroughout(r: Run, i: nat, j: nat, n: NodeId, sid: Sid)
    requires i <= j < |r.states|
  {
    forall k :: i <= k <= j ==> Holds(r.states[k], n, sid)
  }

  ghost predicate Unclaimed(c: Cluster, sid: Sid) {
    forall n <- c.nodes :: !Claims(c.nodes[n], sid)
  }

  // A flagged conversation was, at some moment of the scan, run, started or closed by no node, so it never was
  // one that some node kept running; it was not this node's when the scan began; and a connected remote
  // conversation whose key was dead throughout the scan is flagged.
  lemma DetectorAccurate(t: Timing, r: Run, i: nat, j: nat, n: NodeId, connected: set<Sid>, scanned: set<Sid>, sid: Sid)
    requires WithinBudget(t) && IsRun(t, r) && i <= j < |r.states|
    requires n in r.states[i].nodes && ScanOf(r, i, j, scanned)
    ensures sid in Flagged(connected, r.states[i].nodes[n].loops, scanned) ==>
              && !Holds(r.states[i], n, sid)
              && (exists k :: i <= k <= j && !Live(r.states[k], sid) && Unclaimed(r.states[k], sid))
              && (forall m :: !HeldThroughout(r, i, j, m, sid))
    ensures sid in connected && sid !in r.states[i].nodes[n].loops && (forall k :: i <= k <= j ==> !Live(r.states[k], sid)) ==>
              sid in Flagged(connected, r.states[i].nodes[n].loops, scanned)
  {
    if sid in Flagged(connected, r.states[i].nodes[n].loops, scanned) {
      var k :| i <= k <= j && !Live(r.states[k], sid);
      InvAlong(t, r, k);
      forall m | m in r.states[k].nodes ensures !Claims(r.states[k].nodes[m], sid) {
        if Claims(r.states[k].nodes[m], sid) { ClaimedIsLive(t, r.states[k], m, sid); }
      }
      assert Unclaimed(r.states[k], sid);
    }
  }
}
