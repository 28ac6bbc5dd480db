// Within the timing budget no conversation ever runs on two nodes.
module ClusterSafety {
  import opened ClusterProtocol

  // A claim lasts from the successful SET NX until the DELETE has landed.
  ghost predicate Claims(nd: Node, sid: Sid) {
    sid in nd.loops || sid in nd.starting || sid in nd.closing
  }

  // The latest moment at which a pipeline that carries sid executes.
  function RefreshDue(t: Timing, p: Phase, sid: Sid): real {
    match p
    case Scanning(since) => since + t.work
    case Sending(since, captured) =>
      if sid in captured then since + t.work else since + t.work + INTERVAL + t.jitter + t.work
    case Sleeping(since) => since + INTERVAL + t.jitter + t.work
  }

  ghost predicate PhaseOk(t: Timing, now: real, nd: Node) {
    && nd.phase.since <= now
    && (nd.alive && nd.phase.Scanning? ==> now <= nd.phase.since + t.work)
    && (nd.phase.Sending? ==> now <= nd.phase.since + t.work)
    && (nd.alive && nd.phase.Sleeping? ==> now <= nd.phase.since + INTERVAL + t.jitter)
  }

  // The next refresh comes early enough for a close that starts just before it.
  predicate LoopOk(t: Timing, lease: map<Sid, real>, nd: Node, sid: Sid) {
    && nd.alive && sid !in nd.starting && sid !in nd.closing
    && sid in lease && RefreshDue(t, nd.phase, sid) + t.close < lease[sid]
  }

  predicate CloseOk(t: Timing, now: real, lease: map<Sid, real>, nd: Node, sid: Sid)
    requires sid in nd.closing
  {
    now <= nd.closing[sid] + t.close && sid in lease && nd.closing[sid] + t.close < lease[sid]
  }

  ghost predicate ClaimsOk(t: Timing, now: real, lease: map<Sid, real>, nd: Node) {
    && (forall sid <- nd.loops :: LoopOk(t, lease, nd, sid))
    && (forall sid <- nd.starting ::
          nd.alive && sid !in nd.closing && nd.starting[sid] <= now <= nd.starting[sid] + t.start &&
          sid in lease && nd.starting[sid] + LEASE <= lease[sid])
    && (forall sid <- nd.closing :: CloseOk(t, now, lease, nd, sid))
  }

  ghost predicate OneClaim(nodes: map<NodeId, Node>) {
    forall n, m, sid :: n in nodes && m in nodes && Claims(nodes[n], sid) && Claims(nodes[m], sid) ==> n == m
  }

  ghost predicate Inv(t: Timing, c: Cluster) {
    && OneClaim(c.nodes)
    && (forall sid <- c.lease :: c.lease[sid] <= c.now + LEASE)
    && (forall n <- c.nodes :: PhaseOk(t, c.now, c.nodes[n]) && ClaimsOk(t, c.now, c.lease, c.nodes[n]))
  }

  // The budget left by a 15 s lease refreshed every 5 s.
  predicate WithinBudget(t: Timing) {
    t.NonNegative() && t.Latency() < LEASE - INTERVAL
  }

  lemma ClaimedIsLive(t: Timing, c: Cluster, n: NodeId, sid: Sid)
    requires WithinBudget(t) && Inv(t, c) && n in c.nodes && Claims(c.nodes[n], sid)
    ensures Live(c, sid)
  {
    assert PhaseOk(t, c.now, c.nodes[n]);
  }

  lemma MoverPhaseOk(t: Timing, now: real, lease: map<Sid, real>, nd: Node, m: Move)
    requires t.NonNegative() && PhaseOk(t, now, nd) && MayMove(lease, now, nd, m)
    ensures PhaseOk(t, now, NodeAfter(now, nd, m))
  {
  }

  lemma MoverClaimsOk(t: Timing, now: real, lease: map<Sid, real>, nd: Node, m: Move)
    requires WithinBudget(t) && PhaseOk(t, now, nd) && ClaimsOk(t, now, lease, nd) && MayMove(lease, now, nd, m)
    requires m.Acquire? ==> !Claims(nd, m.sid)
    requires forall sid <- lease :: lease[sid] <= now + LEASE
    ensures ClaimsOk(t, now, LeaseAfter(lease, now, nd, m), NodeAfter(now, nd, m))
  {
    var lease', nd' := LeaseAfter(lease, now, nd, m), NodeAfter(now, nd, m);
    forall sid | sid in nd.loops ensures now <= RefreshDue(t, nd.phase, sid) {}
    forall sid | sid in nd'.loops ensures LoopOk(t, lease', nd', sid) {
      assert sid in nd.loops || m == Register(sid);
    }
    forall sid | sid in nd'.closing ensures CloseOk(t, now, lease', nd', sid) {
      assert sid in nd.closing || m == Pop(sid);
    }
  }

  // The node that moves keeps its own obligations.
  lemma MoverOk(t: Timing, c: Cluster, n: NodeId, m: Move)
    requires WithinBudget(t) && Inv(t, c) && Enabled(t, c, At(n, m))
    requires m.Acquire? ==> !Claims(c.nodes[n], m.sid)
    ensures var c' := Apply(c, At(n, m));
            PhaseOk(t, c'.now, c'.nodes[n]) && ClaimsOk(t, c'.now, c'.lease, c'.nodes[n])
  {
    var nd := c.nodes[n];
    MoverPhaseOk(t, c.now, c.lease, nd, m);
    MoverClaimsOk(t, c.now, c.lease, nd, m);
  }

  // A node is not hurt by leases that only grow on what it claims.
  lemma BystanderOk(t: Timing, now: real, lease: map<Sid, real>, lease': map<Sid, real>, nd: Node)
    requires ClaimsOk(t, now, lease, nd)
    requires forall sid :: Claims(nd, sid) && sid in lease ==> sid in lease' && lease[sid] <= lease'[sid]
    ensures ClaimsOk(t, now, lease', nd)
  {
    forall sid | Claims(nd, sid) ensures sid in lease && sid in lease' && lease[sid] <= lease'[sid] {}
  }

  lemma TickOk(t: Timing, now: real, later: real, lease: map<Sid, real>, nd: Node)
    requires now <= later && PhaseOk(t, now, nd) && ClaimsOk(t, now, lease, nd) && MayTick(t, nd, later)
    ensures PhaseOk(t, later, nd) && ClaimsOk(t, later, lease, nd)
  {
  }

  lemma AcquireIsAlone(t: Timing, c: Cluster, n: NodeId, sid: Sid)
    requires WithinBudget(t) && Inv(t, c) && Enabled(t, c, At(n, Acquire(sid)))
    ensures forall m <- c.nodes :: !Claims(c.nodes[m], sid)
  {
    forall m | m in c.nodes ensures !Claims(c.nodes[m], sid) {
      if Claims(c.nodes[m], sid) { ClaimedIsLive(t, c, m, sid); }
    }
  }

  // Only a successful SET NX makes a new claim.
  lemma ClaimsAfterMove(lease: map<Sid, real>, now: real, nd: Node, m: Move, sid: Sid)
    requires MayMove(lease, now, nd, m)
    ensures Claims(NodeAfter(now, nd, m), sid) ==> Claims(nd, sid) || m == Acquire(sid)
  {
  }

  lemma OneClaimKept(t: Timing, c: Cluster, n: NodeId, m: Move)
    requires WithinBudget(t) && Inv(t, c) && Enabled(t, c, At(n, m))
    ensures OneClaim(Apply(c, At(n, m)).nodes)
  {
    var c' := Apply(c, At(n, m));
    if m.Acquire? { AcquireIsAlone(t, c, n, m.sid); }
    forall j, k, sid | j in c'.nodes && k in c'.nodes && Claims(c'.nodes[j], sid) && Claims(c'.nodes[k], sid)
      ensures j == k
    {
      ClaimsAfterMove(c.lease, c.now, c.nodes[n], m, sid);
    }
  }

  lemma OthersOk(t: Timing, c: Cluster, n: NodeId, m: Move, k: NodeId)
    requires WithinBudget(t) && Inv(t, c) && Enabled(t, c, At(n, m))
    requires k in c.nodes && k != n
    ensures ClaimsOk(t, c.now, Apply(c, At(n, m)).lease, c.nodes[k])
  {
    var c' := Apply(c, At(n, m));
    assert m.Delete? ==> Claims(c.nodes[n], m.sid);
    BystanderOk(t, c.now, c.lease, c'.lease, c.nodes[k]);
  }

  lemma InvStep(t: Timing, c: Cluster, s: Step)
    requires WithinBudget(t) && Inv(t, c) && Enabled(t, c, s)
    ensures Inv(t, Apply(c, s))
  {
    var c' := Apply(c, s);
    match s
    case Join(n) =>
    case Tick(d) =>
      forall n | n in c.nodes ensures PhaseOk(t, c'.now, c.nodes[n]) && ClaimsOk(t, c'.now, c.lease, c.nodes[n]) {
        TickOk(t, c.now, c'.now, c.lease, c.nodes[n]);
      }
    case At(n, m) =>
      OneClaimKept(t, c, n, m);
      forall k | k in c'.nodes ensures PhaseOk(t, c'.now, c'.nodes[k]) && ClaimsOk(t, c'.now, c'.lease, c'.nodes[k]) {
        if k == n {
          if m.Acquire? { AcquireIsAlone(t, c, n, m.sid); }
          MoverOk(t, c, n, m);
        } else {
          OthersOk(t, c, n, m, k);
        }
      }
  }

  lemma {:induction false} InvAlong(t: Timing, r: Run, k: nat)
    requires WithinBudget(t) && IsRun(t, r) && k <= |r.steps|
    ensures Inv(t, r.states[k])
  {
    if k > 0 {
      InvAlong(t, r, k - 1);
      InvStep(t, r.states[k - 1], r.steps[k - 1]);
    }
  }

  lemma ReachableInv(t: Timing, c: Cluster)
    requires WithinBudget(t) && Reachable(t, c)
    ensures Inv(t, c)
  {
    var r :| EndsIn(t, r, c);
    InvAlong(t, r, |r.steps|);
  }

  // In every reachable state at most one live node runs a conversation, and its lease is live.
  lemma Safety(t: Timing, c: Cluster)
    requires WithinBudget(t) && Reachable(t, c)
    ensures Exclusive(c) && HoldersLeased(c)
  {
    ReachableInv(t, c);
    forall n, sid | Holds(c, n, sid) ensures Live(c, sid) && Claims(c.nodes[n], sid) {
      ClaimedIsLive(t, c, n, sid);
    }
  }
}
