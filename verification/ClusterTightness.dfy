// The timing budget is exact: outside it, two nodes can run one conversation.
module ClusterTightness {
  import opened ClusterProtocol
  import opened ClusterSafety

  const X: Sid := "x"

  lemma Go(t: Timing, c: Cluster, s: Step) returns (c': Cluster)
    requires Reachable(t, c) && Enabled(t, c, s)
    ensures c' == Apply(c, s) && Reachable(t, c')
  {
    StepReachable(t, c, s);
    c' := Apply(c, s);
  }

  lemma Pass(t: Timing, c: Cluster, d: real) returns (c': Cluster)
    requires Reachable(t, c) && d >= 0.0
    requires forall n <- c.nodes :: MayTick(t, c.nodes[n], c.now + d)
    ensures c' == c.(now := c.now + d) && Reachable(t, c')
  {
    if d > 0.0 { c' := Go(t, c, Tick(d)); } else { c' := c; }
  }

  // Node 0 alone, asleep since u, running nothing.
  function Solo(now: real, u: real, lease: map<Sid, real>, starting: map<Sid, real>): Cluster {
    Cluster(now, lease, map[0 := Node(true, Sleeping(u), {}, starting, map[])])
  }

  lemma Begin(t: Timing)
    requires t.NonNegative()
    ensures Reachable(t, Solo(0.0, 0.0, map[], map[]))
  {
    InitReachable(t);
    var c := Go(t, INIT, Join(0));
    c := Go(t, c, At(0, Capture));
    c := Go(t, c, At(0, Execute));
    assert c == Solo(0.0, 0.0, map[], map[]);
  }

  lemma Doze(t: Timing, now: real, u: real, lease: map<Sid, real>, starting: map<Sid, real>, later: real)
    requires t.NonNegative() && Reachable(t, Solo(now, u, lease, starting))
    requires now <= later <= u + INTERVAL && forall sid <- starting :: later <= starting[sid] + t.start
    ensures Reachable(t, Solo(later, u, lease, starting))
  {
    var _ := Pass(t, Solo(now, u, lease, starting), later - now);
  }

  lemma Cycle(t: Timing, u: real, lease: map<Sid, real>, starting: map<Sid, real>)
    requires Reachable(t, Solo(u + INTERVAL, u, lease, starting))
    ensures Reachable(t, Solo(u + INTERVAL, u + INTERVAL, lease, starting))
  {
    var c := Go(t, Solo(u + INTERVAL, u, lease, starting), At(0, Wake));
    c := Go(t, c, At(0, Capture));
    c := Go(t, c, At(0, Execute));
    assert Refreshed(lease, u + INTERVAL, {}) == lease;
    assert c.nodes == Solo(u + INTERVAL, u + INTERVAL, lease, starting).nodes;
  }

  lemma Request(t: Timing, now: real, u: real)
    requires Reachable(t, Solo(now, u, map[], map[]))
    ensures Reachable(t, Solo(now, u, map[X := now + LEASE], map[X := now]))
  {
    var c := Go(t, Solo(now, u, map[], map[]), At(0, Acquire(X)));
    assert c.nodes == Solo(now, u, map[], map[X := now]).nodes;
  }

  // Node 0 sets the key r seconds before the refresh at time 10 starts.
  lemma KeyBeforeRefresh(t: Timing, r: real)
    requires t.NonNegative() && 0.0 <= r <= 10.0 && r <= t.start
    ensures Reachable(t, Solo(10.0, 5.0, map[X := 25.0 - r], map[X := 10.0 - r]))
  {
    var a := 10.0 - r;
    Begin(t);
    if a <= 5.0 {
      Doze(t, 0.0, 0.0, map[], map[], a);
      Request(t, a, 0.0);
      Doze(t, a, 0.0, map[X := 25.0 - r], map[X := a], 5.0);
      Cycle(t, 0.0, map[X := 25.0 - r], map[X := a]);
      Doze(t, 5.0, 5.0, map[X := 25.0 - r], map[X := a], 10.0);
    } else {
      Doze(t, 0.0, 0.0, map[], map[], 5.0);
      Cycle(t, 0.0, map[], map[]);
      Doze(t, 5.0, 5.0, map[], map[], a);
      Request(t, a, 5.0);
      Doze(t, a, 5.0, map[X := 25.0 - r], map[X := a], 10.0);
    }
  }

  lemma MissedByCapture(t: Timing, r: real) returns (c: Cluster)
    requires t.NonNegative() && 0.0 <= r <= 10.0 && r <= t.start
    ensures Reachable(t, c)
    ensures c == Cluster(10.0, map[X := 25.0 - r], map[0 := Node(true, Sending(10.0, {}), {X}, map[], map[])])
  {
    KeyBeforeRefresh(t, r);
    c := Go(t, Solo(10.0, 5.0, map[X := 25.0 - r], map[X := 10.0 - r]), At(0, Wake));
    c := Go(t, c, At(0, Capture));
    c := Go(t, c, At(0, Register(X)));
    assert c.nodes[0] == Node(true, Sending(10.0, {}), {X}, map[], map[]);
    assert c.nodes.Keys == {0};
  }

  // The loop registers just after the capture, and is not refreshed before 15 + 2 * work + jitter.
  lemma UnrefreshedHolder(t: Timing, r: real) returns (c: Cluster)
    requires t.NonNegative() && 0.0 <= r <= 10.0 && r <= t.start
    ensures Reachable(t, c)
    ensures c == Cluster(15.0 + t.work + t.work + t.jitter, map[X := 25.0 - r],
                         map[0 := Node(true, Scanning(15.0 + t.work + t.jitter), {X}, map[], map[])])
  {
    c := MissedByCapture(t, r);
    c := Pass(t, c, t.work);
    c := Go(t, c, At(0, Execute));
    assert c.lease == map[X := 25.0 - r];
    c := Pass(t, c, INTERVAL + t.jitter);
    c := Go(t, c, At(0, Wake));
    c := Pass(t, c, t.work);
    assert c.nodes == map[0 := Node(true, Scanning(15.0 + t.work + t.jitter), {X}, map[], map[])];
  }

  // A fresh node takes over a conversation whose key is gone.
  lemma TakeOver(t: Timing, c: Cluster, n: NodeId) returns (c': Cluster)
    requires Reachable(t, c) && n !in c.nodes && !Live(c, X)
    ensures Reachable(t, c') && c'.now == c.now && n in c'.nodes
    ensures c'.lease == c.lease[X := c.now + LEASE]
    ensures c'.nodes == c.nodes[n := Node(true, Scanning(c.now), {X}, map[], map[])]
  {
    c' := Go(t, c, Join(n));
    c' := Go(t, c', At(n, Acquire(X)));
    c' := Go(t, c', At(n, Register(X)));
    assert c'.nodes[n] == Node(true, Scanning(c.now), {X}, map[], map[]);
  }

  lemma OverlapReachable(t: Timing) returns (c: Cluster)
    requires t.NonNegative() && !WithinBudget(t)
    ensures Reachable(t, c) && !Exclusive(c)
  {
    var r := if t.start <= 10.0 then t.start else 10.0;
    c := UnrefreshedHolder(t, r);
    var late := 25.0 - r - c.now;
    if late <= 0.0 {
      // the lease ran out before the refresh
      c := TakeOver(t, c, 1);
      assert Holds(c, 0, X) && Holds(c, 1, X);
    } else {
      // the lease runs out before the DELETE of a close lands, which then hits the next owner's key
      c := Go(t, c, At(0, Pop(X)));
      c := Go(t, c, At(0, Crash));
      c := Pass(t, c, late);
      c := TakeOver(t, c, 1);
      c := Go(t, c, At(0, Delete(X)));
      c := TakeOver(t, c, 2);
      assert Holds(c, 1, X) && Holds(c, 2, X);
    }
  }

  // Exclusion in every reachable state holds exactly within the budget: with the 15 s lease and
  // the 5 s interval, start + close + 2 * work + jitter < 10.
  lemma SafeExactlyWithinBudget(t: Timing)
    requires t.NonNegative()
    ensures (forall c :: Reachable(t, c) ==> Exclusive(c)) <==> WithinBudget(t)
  {
    if WithinBudget(t) {
      forall c | Reachable(t, c) ensures Exclusive(c) { Safety(t, c); }
    } else {
      var c := OverlapReachable(t);
    }
  }
}
