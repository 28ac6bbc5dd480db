// The lease protocol by which the nodes of a cluster share conversations.
//
// One Redis key per conversation says that some node runs it.  The key is
// created with SET NX EX 15, refreshed by a pipeline of SET EX 15 commands
// every five seconds, and deleted (without an owner check) on close.  Every
// await of the source splits an operation here: capturing a refresh and its
// execution are two steps, and so are the local pop of a close and its delete.
module ClusterProtocol {

  type Sid = string
  type NodeId = nat

  // Seconds a Redis entry lives unless refreshed, and seconds slept between refreshes.
  const LEASE := 15.0
  const INTERVAL := 5.0

  // Bounds on what the environment may do to a node that is alive.
  //   work:   from the start of a refresh (the scan) to the execution of its pipeline
  //   jitter: how much longer than INTERVAL the sleep between two refreshes may last
  //   start:  from the successful SET NX to the registration of the local loop
  //   close:  from the local pop of a loop to the landing of its DELETE
  datatype Timing = Timing(work: real, jitter: real, start: real, close: real) {
    predicate NonNegative() {
      work >= 0.0 && jitter >= 0.0 && start >= 0.0 && close >= 0.0
    }

    function Latency(): real {
      start + close + work + work + jitter
    }
  }

  // Where a node's refresh task stands.
  datatype Phase =
    | Scanning(since: real)
    | Sending(since: real, captured: set<Sid>)
    | Sleeping(since: real)

  // starting: SET NX succeeded, the loop is not registered yet (with the time of the SET)
  // closing:  the loop was popped, its DELETE has not landed yet (with the time of the pop)
  // A dead node keeps only what it had put on the wire.
  datatype Node = Node(
    alive: bool,
    phase: Phase,
    loops: set<Sid>,
    starting: map<Sid, real>,
    closing: map<Sid, real>)

  // lease maps a conversation to the moment its Redis key expires.
  datatype Cluster = Cluster(now: real, lease: map<Sid, real>, nodes: map<NodeId, Node>)

  // What one node does between two awaits.
  datatype Move =
    | Acquire(sid: Sid)        // SET NX succeeds
    | Register(sid: Sid)       // the new loop enters the local dictionary
    | AbandonStart(sid: Sid)   // starting the loop raises
    | Capture                  // the refresh queues a SET for every local loop
    | Execute                  // Redis executes the queued pipeline
    | RefreshFails             // the pipeline raises; the task retries at once
    | Wake                     // the sleep between two refreshes is over
    | Pop(sid: Sid)            // a close removes the local loop
    | Delete(sid: Sid)         // Redis executes its DELETE
    | LoseDelete(sid: Sid)     // the DELETE never arrives
    | Crash
    | LoseRefresh              // the pipeline of a dead node never arrives

  datatype Step = Join(n: NodeId) | At(n: NodeId, move: Move) | Tick(d: real)

  // ----- what each command does to the Redis keys -----

  predicate LiveAt(lease: map<Sid, real>, now: real, sid: Sid) {
    sid in lease && now < lease[sid]
  }

  predicate Live(c: Cluster, sid: Sid) {
    LiveAt(c.lease, c.now, sid)
  }

  // SET key 1 EX 15 for every captured conversation.
  function Refreshed(lease: map<Sid, real>, now: real, captured: set<Sid>): map<Sid, real> {
    map sid | sid in lease.Keys + captured :: if sid in captured then now + LEASE else lease[sid]
  }

  predicate MayMove(lease: map<Sid, real>, now: real, nd: Node, m: Move) {
    match m
    case Acquire(sid) => nd.alive && sid != "" && !LiveAt(lease, now, sid)
    case Register(sid) => sid in nd.starting
    case AbandonStart(sid) => sid in nd.starting
    case Capture => nd.alive && nd.phase.Scanning?
    case Execute => nd.phase.Sending?
    case RefreshFails => nd.alive && nd.phase.Sending?
    case Wake => nd.alive && nd.phase.Sleeping? && nd.phase.since + INTERVAL <= now
    case Pop(sid) => sid in nd.loops
    case Delete(sid) => sid in nd.closing
    case LoseDelete(sid) => sid in nd.closing
    case Crash => nd.alive
    case LoseRefresh => !nd.alive && nd.phase.Sending?
  }

  function NodeAfter(now: real, nd: Node, m: Move): Node {
    match m
    case Acquire(sid) => nd.(starting := nd.starting[sid := now])
    case Register(sid) => nd.(loops := nd.loops + {sid}, starting := nd.starting - {sid})
    case AbandonStart(sid) => nd.(starting := nd.starting - {sid})
    case Capture => nd.(phase := Sending(nd.phase.since, nd.loops))
    case Execute => nd.(phase := Sleeping(now))
    case RefreshFails => nd.(phase := Scanning(nd.phase.since))
    case Wake => nd.(phase := Scanning(now))
    case Pop(sid) => nd.(loops := nd.loops - {sid}, closing := nd.closing[sid := now])
    case Delete(sid) => nd.(closing := nd.closing - {sid})
    case LoseDelete(sid) => nd.(closing := nd.closing - {sid})
    case Crash => nd.(alive := false, loops := {}, starting := map[])
    case LoseRefresh => nd.(phase := Sleeping(now))
  }

  function LeaseAfter(lease: map<Sid, real>, now: real, nd: Node, m: Move): map<Sid, real> {
    match m
    case Acquire(sid) => lease[sid := now + LEASE]
    case Execute => if nd.phase.Sending? then Refreshed(lease, now, nd.phase.captured) else lease
    case Delete(sid) => lease - {sid}
    case _ => lease
  }

  // ----- the transition system -----

  // Time passes up to a moment only if no bound of the environment is exceeded there.
  // Whatever a dead node left on the wire arrives, or is lost, within the same bounds.
  ghost predicate MayTick(t: Timing, nd: Node, later: real) {
    && (nd.alive && nd.phase.Scanning? ==> later <= nd.phase.since + t.work)
    && (nd.phase.Sending? ==> later <= nd.phase.since + t.work)
    && (nd.alive && nd.phase.Sleeping? ==> later <= nd.phase.since + INTERVAL + t.jitter)
    && (forall sid <- nd.starting :: later <= nd.starting[sid] + t.start)
    && (forall sid <- nd.closing :: later <= nd.closing[sid] + t.close)
  }

  ghost predicate Enabled(t: Timing, c: Cluster, s: Step) {
    match s
    case Join(n) => n !in c.nodes
    case At(n, m) => n in c.nodes && MayMove(c.lease, c.now, c.nodes[n], m)
    case Tick(d) => d > 0.0 && forall n <- c.nodes :: MayTick(t, c.nodes[n], c.now + d)
  }

  function Apply(c: Cluster, s: Step): Cluster
    requires s.At? ==> s.n in c.nodes
  {
    match s
    case Join(n) => c.(nodes := c.nodes[n := Node(true, Scanning(c.now), {}, map[], map[])])
    case At(n, m) =>
      var nd := c.nodes[n];
      c.(lease := LeaseAfter(c.lease, c.now, nd, m), nodes := c.nodes[n := NodeAfter(c.now, nd, m)])
    case Tick(d) => c.(now := c.now + d)
  }

  const INIT := Cluster(0.0, map[], map[])

  datatype Run = Run(states: seq<Cluster>, steps: seq<Step>)

  ghost predicate IsRun(t: Timing, r: Run) {
    && |r.states| == |r.steps| + 1
    && r.states[0] == INIT
    && forall k :: 0 <= k < |r.steps| ==>
         Enabled(t, r.states[k], r.steps[k]) && r.states[k + 1] == Apply(r.states[k], r.steps[k])
  }

  ghost predicate EndsIn(t: Timing, r: Run, c: Cluster) {
    IsRun(t, r) && r.states[|r.steps|] == c
  }

  ghost predicate Reachable(t: Timing, c: Cluster) {
    exists r :: EndsIn(t, r, c)
  }

  lemma InitReachable(t: Timing)
    ensures Reachable(t, INIT)
  {
    assert EndsIn(t, Run([INIT], []), INIT);
  }

  lemma StepReachable(t: Timing, c: Cluster, s: Step)
    requires Reachable(t, c) && Enabled(t, c, s)
    ensures Reachable(t, Apply(c, s))
  {
    var r :| EndsIn(t, r, c);
    var c' := Apply(c, s);
    assert EndsIn(t, Run(r.states + [c'], r.steps + [s]), c');
  }

  // ----- what is to be kept -----

  // The loop of sid runs on node n.
  ghost predicate Holds(c: Cluster, n: NodeId, sid: Sid) {
    n in c.nodes && c.nodes[n].alive && sid in c.nodes[n].loops
  }

  ghost predicate Exclusive(c: Cluster) {
    forall n, m, sid :: Holds(c, n, sid) && Holds(c, m, sid) ==> n == m
  }

  ghost predicate HoldersLeased(c: Cluster) {
    forall n, sid :: Holds(c, n, sid) ==> Live(c, sid)
  }
}
