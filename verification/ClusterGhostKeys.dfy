// Keys that outlive their holders: what a refresh pipeline on the wire can do after a crash.
module ClusterGhostKeys {
  import opened ClusterProtocol
  import opened ClusterSafety
  import opened ClusterTightness
  import opened ClusterRecovery

  // A node closes a conversation while a pipeline that carries it is on the wire, and dies.
  lemma StalePipeline(t: Timing) returns (c: Cluster)
    requires t.NonNegative()
    ensures Reachable(t, c)
    ensures c == Cluster(0.0, map[], map[0 := Node(false, Sending(0.0, {X}), {}, map[], map[])])
  {
    InitReachable(t);
    c := TakeOver(t, INIT, 0);
    c := Go(t, c, At(0, Capture));
    c := Go(t, c, At(0, Pop(X)));
    c := Go(t, c, At(0, Delete(X)));
    c := Go(t, c, At(0, Crash));
    assert c.nodes[0] == Node(false, Sending(0.0, {X}), {}, map[], map[]);
    assert c.lease == map[];
  }

  // It then revives a deleted key that nobody claims, and the bound above is attained.
  lemma GhostKeyReachable(t: Timing, d: real) returns (c: Cluster)
    requires t.NonNegative() && 0.0 <= d < LEASE
    ensures Reachable(t, c) && c.now == t.work + d && Live(c, X)
    ensures forall n <- c.nodes :: !Claims(c.nodes[n], X)
  {
    c := StalePipeline(t);
    c := Pass(t, c, t.work);
    c := Go(t, c, At(0, Execute));
    c := Pass(t, c, d);
  }

  // ----- continuations of a crash -----

  // The run r passes through c at i, where n crashes, and nobody starts sid after that.
  ghost predicate CrashThen(t: Timing, c: Cluster, n: NodeId, sid: Sid, r: Run, i: nat) {
    && IsRun(t, r) && i < |r.steps| && r.states[i] == c && r.steps[i] == At(n, Crash)
    && NotAcquired(r, i + 1, |r.steps|, sid)
  }

  // Such a run ends in x.
  ghost predicate After(t: Timing, c: Cluster, n: NodeId, sid: Sid, x: Cluster) {
    exists r, i :: CrashThen(t, c, n, sid, r, i) && r.states[|r.steps|] == x
  }

  lemma CrashFirst(t: Timing, c: Cluster, n: NodeId, sid: Sid)
    requires Reachable(t, c) && Enabled(t, c, At(n, Crash))
    ensures After(t, c, n, sid, Apply(c, At(n, Crash)))
  {
    var r :| EndsIn(t, r, c);
    var r' := Run(r.states + [Apply(c, At(n, Crash))], r.steps + [At(n, Crash)]);
    assert CrashThen(t, c, n, sid, r', |r.steps|);
  }

  lemma Next(t: Timing, c: Cluster, n: NodeId, sid: Sid, x: Cluster, s: Step)
    requires After(t, c, n, sid, x) && Enabled(t, x, s) && !Acquires(s, sid)
    ensures After(t, c, n, sid, Apply(x, s))
  {
    var r, i :| CrashThen(t, c, n, sid, r, i) && r.states[|r.steps|] == x;
    var r' := Run(r.states + [Apply(x, s)], r.steps + [s]);
    assert CrashThen(t, c, n, sid, r', i);
  }

  lemma Wait(t: Timing, c: Cluster, n: NodeId, sid: Sid, x: Cluster, d: real)
    requires After(t, c, n, sid, x) && d >= 0.0
    requires forall m <- x.nodes :: MayTick(t, x.nodes[m], x.now + d)
    ensures After(t, c, n, sid, x.(now := x.now + d))
  {
    if d > 0.0 { Next(t, c, n, sid, x, Tick(d)); } else { assert x.(now := x.now + d) == x; }
  }

  // ----- the other nodes fall silent -----

  function WithNode(x: Cluster, k: NodeId, nd: Node): Cluster {
    x.(nodes := x.nodes[k := nd])
  }

  // x, but with only these deletes of node k still to come.
  function WithDeletes(x: Cluster, k: NodeId, left: map<Sid, real>): Cluster
    requires k in x.nodes
  {
    WithNode(x, k, x.nodes[k].(closing := left))
  }

  lemma LoseOneDelete(t: Timing, c: Cluster, n: NodeId, sid: Sid, x: Cluster, k: NodeId, left: map<Sid, real>, gone: Sid)
    requires k in x.nodes && gone in left && After(t, c, n, sid, WithDeletes(x, k, left))
    ensures After(t, c, n, sid, WithDeletes(x, k, left - {gone}))
  {
    Next(t, c, n, sid, WithDeletes(x, k, left), At(k, LoseDelete(gone)));
    assert Apply(WithDeletes(x, k, left), At(k, LoseDelete(gone))) == WithDeletes(x, k, left - {gone});
  }

  lemma {:induction false} LoseDeletes(t: Timing, c: Cluster, n: NodeId, sid: Sid, x: Cluster, k: NodeId, left: map<Sid, real>)
    requires k in x.nodes && After(t, c, n, sid, WithDeletes(x, k, left))
    ensures After(t, c, n, sid, WithDeletes(x, k, map[]))
    decreases left.Keys
  {
    if left != map[] {
      var gone :| gone in left;
      LoseOneDelete(t, c, n, sid, x, k, left, gone);
      assert (left - {gone}).Keys == left.Keys - {gone};
      LoseDeletes(t, c, n, sid, x, k, left - {gone});
    }
  }

  // What is left of a node that has crashed and whose commands are lost, the pipeline excepted if it is kept.
  function Silenced(now: real, nd: Node, keep: bool): Node {
    Node(false, if nd.phase.Sending? && !keep then Sleeping(now) else nd.phase, {}, map[], map[])
  }

  ghost predicate Tidy(nd: Node) {
    nd.alive || (nd.loops == {} && nd.starting == map[])
  }

  lemma Silence(t: Timing, c: Cluster, n: NodeId, sid: Sid, x: Cluster, k: NodeId, keep: bool)
    requires After(t, c, n, sid, x) && k in x.nodes && Tidy(x.nodes[k])
    ensures After(t, c, n, sid, WithNode(x, k, Silenced(x.now, x.nodes[k], keep)))
  {
    var y, nd := x, x.nodes[k];
    if nd.alive {
      Next(t, c, n, sid, y, At(k, Crash));
      y := Apply(y, At(k, Crash));
    }
    assert y == WithNode(x, k, Node(false, nd.phase, {}, map[], nd.closing));
    assert WithDeletes(y, k, nd.closing) == y;
    LoseDeletes(t, c, n, sid, y, k, nd.closing);
    y := WithDeletes(y, k, map[]);
    assert y == WithNode(x, k, Node(false, nd.phase, {}, map[], map[]));
    if nd.phase.Sending? && !keep {
      Next(t, c, n, sid, y, At(k, LoseRefresh));
      y := Apply(y, At(k, LoseRefresh));
    }
    assert y == WithNode(x, k, Silenced(x.now, nd, keep));
  }

  function AllSilenced(x: Cluster, todo: set<NodeId>, m: NodeId): Cluster {
    x.(nodes := map k | k in x.nodes :: if k in todo then Silenced(x.now, x.nodes[k], k == m) else x.nodes[k])
  }

  lemma {:induction false} SilenceAll(t: Timing, c: Cluster, n: NodeId, sid: Sid, x: Cluster, todo: set<NodeId>, m: NodeId)
    requires After(t, c, n, sid, x) && todo <= x.nodes.Keys && forall k <- x.nodes :: Tidy(x.nodes[k])
    ensures After(t, c, n, sid, AllSilenced(x, todo, m))
    decreases todo
  {
    if todo == {} {
      assert AllSilenced(x, todo, m) == x;
    } else {
      var k :| k in todo;
      Silence(t, c, n, sid, x, k, k == m);
      var y := WithNode(x, k, Silenced(x.now, x.nodes[k], k == m));
      SilenceAll(t, c, n, sid, y, todo - {k}, m);
      assert AllSilenced(y, todo - {k}, m) == AllSilenced(x, todo, m);
    }
  }

  // ----- the exact condition -----

  // The key is alive at its own expiry or later, although its holder crashed in c and nobody started the loop again.
  ghost predicate Outlives(t: Timing, c: Cluster, n: NodeId, sid: Sid, x: Cluster)
    requires sid in c.lease
  {
    After(t, c, n, sid, x) && c.lease[sid] <= x.now && Live(x, sid)
  }

  predicate Silent(nd: Node) {
    !nd.alive && !nd.phase.Sending? && nd.starting == map[] && nd.closing == map[]
  }

  // Nobody but m has anything on the wire, and m has a pipeline since then that carries sid.
  ghost predicate OnlyPipeline(x: Cluster, m: NodeId, sid: Sid, since: real) {
    && (forall k <- x.nodes :: Silent(x.nodes[k]) || k == m)
    && m in x.nodes && !x.nodes[m].alive && x.nodes[m].starting == map[] && x.nodes[m].closing == map[]
    && x.nodes[m].phase.Sending? && x.nodes[m].phase.since == since && sid in x.nodes[m].phase.captured
  }

  lemma AllOthersSilent(t: Timing, c: Cluster, n: NodeId, sid: Sid, m: NodeId) returns (x: Cluster)
    requires WithinBudget(t) && Reachable(t, c) && Holds(c, n, sid)
    requires m in c.nodes && c.nodes[m].phase.Sending? && sid in c.nodes[m].phase.captured
    ensures After(t, c, n, sid, x) && x.now == c.now && x.lease == c.lease
    ensures OnlyPipeline(x, m, sid, c.nodes[m].phase.since)
  {
    ReachableInv(t, c);
    CrashFirst(t, c, n, sid);
    var c' := Apply(c, At(n, Crash));
    forall k | k in c'.nodes ensures Tidy(c'.nodes[k]) { assert ClaimsOk(t, c.now, c.lease, c.nodes[k]); }
    SilenceAll(t, c, n, sid, c', c'.nodes.Keys, m);
    x := AllSilenced(c', c'.nodes.Keys, m);
    assert c'.nodes[m].phase == c.nodes[m].phase;
  }

  lemma LateExecution(t: Timing, c: Cluster, n: NodeId, sid: Sid, x: Cluster, m: NodeId, since: real) returns (y: Cluster)
    requires After(t, c, n, sid, x) && OnlyPipeline(x, m, sid, since) && x.now <= since + t.work
    ensures After(t, c, n, sid, y) && y.now == since + t.work && sid in y.lease && y.lease[sid] == y.now + LEASE
    ensures forall k <- y.nodes :: Silent(y.nodes[k])
  {
    Wait(t, c, n, sid, x, since + t.work - x.now);
    y := x.(now := since + t.work);
    Next(t, c, n, sid, y, At(m, Execute));
    y := Apply(y, At(m, Execute));
  }

  // Everybody falls silent but the pipeline of m, which executes as late as it may.
  lemma PipelineRevives(t: Timing, c: Cluster, n: NodeId, sid: Sid, m: NodeId) returns (x: Cluster)
    requires WithinBudget(t) && Reachable(t, c) && Holds(c, n, sid) && sid in c.lease
    requires CarriesPast(t, c, m, sid, c.lease[sid])
    ensures Outlives(t, c, n, sid, x)
  {
    ReachableInv(t, c);
    assert PhaseOk(t, c.now, c.nodes[m]);
    x := AllOthersSilent(t, c, n, sid, m);
    x := LateExecution(t, c, n, sid, x, m, c.nodes[m].phase.since);
    if x.now < c.lease[sid] {
      Wait(t, c, n, sid, x, c.lease[sid] - x.now);
      x := x.(now := c.lease[sid]);
    }
  }

  // A crashed holder's key can outlive its own expiry exactly if some pipeline on the wire carries it and may
  // execute after the last SET.
  lemma KeyOutlivesCrashExactlyByPipeline(t: Timing, c: Cluster, n: NodeId, sid: Sid)
    requires WithinBudget(t) && Reachable(t, c) && Holds(c, n, sid)
    ensures sid in c.lease
    ensures (exists x :: Outlives(t, c, n, sid, x)) <==> exists m :: CarriesPast(t, c, m, sid, c.lease[sid])
  {
    ReachableInv(t, c);
    ClaimedIsLive(t, c, n, sid);
    if m :| CarriesPast(t, c, m, sid, c.lease[sid]) {
      var x := PipelineRevives(t, c, n, sid, m);
    } else {
      forall x ensures !Outlives(t, c, n, sid, x) {
        if After(t, c, n, sid, x) && c.lease[sid] <= x.now {
          var r, i :| CrashThen(t, c, n, sid, r, i) && r.states[|r.steps|] == x;
          CrashedLeaseDies(t, r, i, |r.steps|, n, sid, c.lease[sid]);
        }
      }
    }
  }

  // A holder that dies while its own first pipeline is on the wire: its lease ends at 15, its key does not.
  lemma CrashedHolderKeyLives(t: Timing, d: real) returns (c: Cluster, x: Cluster)
    requires t.NonNegative() && 0.0 <= d < LEASE
    ensures Reachable(t, c) && Holds(c, 0, X) && c.now == 0.0 && c.lease == map[X := LEASE]
    ensures After(t, c, 0, X, x) && x.now == t.work + d && Live(x, X)
  {
    InitReachable(t);
    c := TakeOver(t, INIT, 0);
    c := Go(t, c, At(0, Capture));
    assert c.nodes[0] == Node(true, Sending(0.0, {X}), {X}, map[], map[]);
    CrashFirst(t, c, 0, X);
    x := Apply(c, At(0, Crash));
    Wait(t, c, 0, X, x, t.work);
    x := x.(now := t.work);
    Next(t, c, 0, X, x, At(0, Execute));
    x := Apply(x, At(0, Execute));
    Wait(t, c, 0, X, x, d);
    x := x.(now := t.work + d);
  }
}
