// The manager object of one node, method segment by method segment between awaits.
// Each segment is proved to be the corresponding move of ClusterProtocol.
module ConversationManager {
  import opened ClusterProtocol
  import opened ClusterRecovery

  type ConnId = string

  datatype Key = ConvKey(sid: Sid) | ConnKey(sid: Sid, conn: ConnId)

  // Redis keys with their expiry.
  class Redis {
    var now: real
    var conv: map<Sid, real>
    var conn: map<(Sid, ConnId), real>

    constructor (now: real)
      ensures this.now == now && conv == map[] && conn == map[]
    {
      this.now, conv, conn := now, map[], map[];
    }

    // What a scan for 'ohcnv:*' returns.
    function Conversations(): set<Sid>
      reads this
    {
      set sid | sid in conv && now < conv[sid]
    }

    // What a scan for 'ohcnct:*' returns.
    function Connections(): set<(Sid, ConnId)>
      reads this
    {
      set p | p in conn && now < conn[p]
    }

    method SetNx(sid: Sid) returns (created: bool)
      modifies this`conv
      ensures created == !LiveAt(old(conv), now, sid)
      ensures conv == if created then old(conv)[sid := now + LEASE] else old(conv)
    {
      created := !LiveAt(conv, now, sid);
      if created { conv := conv[sid := now + LEASE]; }
    }
  }

  class Manager {
    var alive: bool
    var phase: Phase
    var loops: set<Sid>               // keys of _local_agent_loops_by_sid
    var connections: map<ConnId, Sid> // _local_connection_id_to_session_id
    var pipe: seq<Key>                // commands queued by the refresh
    var starting: map<Sid, real>      // suspended in _start_agent_loop
    var closing: map<Sid, real>       // suspended in _close_session

    ghost predicate Valid()
      reads this
    {
      && "" !in loops && "" !in starting
      && (phase.Sending? ==> phase.captured == set k | k in pipe && k.ConvKey? :: k.sid)
    }

    function View(): Node
      reads this
    {
      Node(alive, phase, loops, starting, closing)
    }

    constructor (now: real)
      ensures Valid() && View() == Node(true, Scanning(now), {}, map[], map[]) && connections == map[]
    {
      alive, phase, loops, connections, pipe := true, Scanning(now), {}, map[], [];
      starting, closing := map[], map[];
    }

    // maybe_start_agent_loop up to the answer of SET NX.
    method RequestStart(redis: Redis, sid: Sid) returns (created: bool)
      requires Valid() && alive && sid != ""
      modifies this`starting, redis`conv
      ensures Valid() && created == MayMove(old(redis.conv), redis.now, old(View()), Acquire(sid))
      ensures created ==> View() == NodeAfter(redis.now, old(View()), Acquire(sid))
      ensures created ==> redis.conv == LeaseAfter(old(redis.conv), redis.now, old(View()), Acquire(sid))
      ensures !created ==> View() == old(View()) && redis.conv == old(redis.conv)
    {
      created := redis.SetNx(sid);
      if created { starting := starting[sid := redis.now]; }
    }

    // _start_agent_loop registers the session.
    method RegisterLoop(redis: Redis, sid: Sid)
      requires Valid() && MayMove(redis.conv, redis.now, View(), Register(sid))
      modifies this`starting, this`loops
      ensures Valid() && View() == NodeAfter(redis.now, old(View()), Register(sid))
    {
      loops, starting := loops + {sid}, starting - {sid};
    }

    // _update_state_in_redis up to pipe.execute: queue a SET for every local loop, and one for every
    // local connection whose conversation was found by the scan, which ended before.
    method CaptureRefresh(redis: Redis, scanned: set<Sid>)
      requires Valid() && MayMove(redis.conv, redis.now, View(), Capture)
      modifies this`phase, this`pipe
      ensures Valid() && View() == NodeAfter(redis.now, old(View()), Capture)
      ensures forall k :: k in pipe <==>
                if k.ConvKey? then k.sid in loops
                else k.conn in connections && connections[k.conn] == k.sid && k.sid in scanned
    {
      pipe := [];
      var todo := loops;
      while todo != {}
        modifies this`pipe
        invariant todo <= loops
        invariant forall k :: k in pipe <==> k.ConvKey? && k.sid in loops - todo
      {
        var sid :| sid in todo;
        if sid != "" { pipe := pipe + [ConvKey(sid)]; }
        todo := todo - {sid};
      }
      var conns := connections.Keys;
      while conns != {}
        modifies this`pipe
        invariant conns <= connections.Keys
        invariant forall k :: k in pipe <==>
                    if k.ConvKey? then k.sid in loops
                    else k.conn in connections.Keys - conns && connections[k.conn] == k.sid && k.sid in scanned
      {
        var c :| c in conns;
        if connections[c] in scanned { pipe := pipe + [ConnKey(connections[c], c)]; }
        conns := conns - {c};
      }
      phase := Sending(phase.since, loops);
      assert forall sid :: ConvKey(sid) in pipe <==> sid in loops;
      assert (set k | k in pipe && k.ConvKey? :: k.sid) == loops;
    }

    // pipe.execute() as Redis runs it.
    method ExecuteRefresh(redis: Redis)
      requires Valid() && MayMove(redis.conv, redis.now, View(), Execute)
      modifies this`phase, redis`conv, redis`conn
      ensures Valid() && View() == NodeAfter(redis.now, old(View()), Execute)
      ensures redis.conv == LeaseAfter(old(redis.conv), redis.now, old(View()), Execute)
      ensures forall p :: p in redis.conn <==> p in old(redis.conn) || ConnKey(p.0, p.1) in pipe
      ensures forall p :: p in redis.conn ==>
                redis.conn[p] == if ConnKey(p.0, p.1) in pipe then redis.now + LEASE else old(redis.conn)[p]
    {
      var i := 0;
      while i < |pipe|
        modifies redis`conv, redis`conn
        invariant i <= |pipe|
        invariant forall sid :: sid in redis.conv <==> sid in old(redis.conv) || ConvKey(sid) in pipe[..i]
        invariant forall sid :: sid in redis.conv ==>
                    redis.conv[sid] == if ConvKey(sid) in pipe[..i] then redis.now + LEASE else old(redis.conv)[sid]
        invariant forall p :: p in redis.conn <==> p in old(redis.conn) || ConnKey(p.0, p.1) in pipe[..i]
        invariant forall p :: p in redis.conn ==>
                    redis.conn[p] == if ConnKey(p.0, p.1) in pipe[..i] then redis.now + LEASE else old(redis.conn)[p]
      {
        assert pipe[..i + 1] == pipe[..i] + [pipe[i]];
        match pipe[i] {
          case ConvKey(sid) => redis.conv := redis.conv[sid := redis.now + LEASE];
          case ConnKey(sid, c) => redis.conn := redis.conn[(sid, c) := redis.now + LEASE];
        }
        i := i + 1;
      }
      assert pipe[..i] == pipe;
      assert forall sid :: sid in phase.captured <==> ConvKey(sid) in pipe;
      phase := Sleeping(redis.now);
    }

    // _disconnect_from_stopped before its scan: the conversations with a local connection and no local loop.
    method ConnectedToRemote() returns (remote: set<Sid>)
      ensures remote == connections.Values - loops
    {
      remote := connections.Values - loops;
    }

    // _disconnect_from_stopped after its scan: the connections there are by then to the flagged conversations
    // are handed to _handle_remote_conversation_stopped, each once.
    method DisconnectFromStopped(remote: set<Sid>, scanned: set<Sid>, ghost connected: set<Sid>, ghost local: set<Sid>)
      returns (stopped: seq<ConnId>)
      requires remote == connected - local
      ensures forall c :: c in stopped <==> c in connections && connections[c] in Flagged(connected, local, scanned)
      ensures forall i, j :: 0 <= i < j < |stopped| ==> stopped[i] != stopped[j]
    {
      stopped := [];
      var gone := remote - scanned;
      var todo := connections.Keys;
      while todo != {}
        invariant todo <= connections.Keys
        invariant forall c :: c in stopped <==> c in connections.Keys - todo && connections[c] in gone
        invariant forall i, j :: 0 <= i < j < |stopped| ==> stopped[i] != stopped[j]
      {
        var c :| c in todo;
        if connections[c] in gone { stopped := stopped + [c]; }
        todo := todo - {c};
      }
    }

    // _close_session before its scan: the local connections of the session.
    method SelectConnections(sid: Sid) returns (remove: set<ConnId>)
      ensures forall c :: c in remove <==> c in connections && connections[c] == sid
    {
      remove := set c | c in connections && connections[c] == sid;
    }

    // The scan of _close_session: which of their keys Redis returns.
    method CollectKeys(sid: Sid, remove: set<ConnId>, scanned: set<(Sid, ConnId)>) returns (collected: set<Key>)
      ensures forall k :: k in collected <==> k.ConnKey? && k.sid == sid && k.conn in remove && (sid, k.conn) in scanned
    {
      collected := {};
      var todo := scanned;
      while todo != {}
        invariant todo <= scanned
        invariant forall k :: k in collected <==>
                    k.ConnKey? && k.sid == sid && k.conn in remove && (sid, k.conn) in scanned - todo
      {
        var p :| p in todo;
        if p.0 == sid && p.1 in remove { collected := collected + {ConnKey(sid, p.1)}; }
        todo := todo - {p};
      }
    }

    // After each awaited sio.disconnect.
    method DropConnection(c: ConnId)
      modifies this`connections
      ensures connections == old(connections) - {c}
    {
      connections := connections - {c};
    }

    // The pop of the loop, up to redis.delete.  On a node that does not run the loop the source builds a DELETE of
    // the connection keys but never awaits it, so nothing is sent.
    method PopSession(redis: Redis, sid: Sid, collected: set<Key>) returns (toDelete: set<Key>)
      requires Valid() && alive
      modifies this`loops, this`closing
      ensures Valid()
      ensures View() == if old(sid in loops) then NodeAfter(redis.now, old(View()), Pop(sid)) else old(View())
      ensures toDelete == if old(sid in loops) then collected + {ConvKey(sid)} else {}
    {
      toDelete := {};
      if sid in loops {
        loops, closing := loops - {sid}, closing[sid := redis.now];
        toDelete := collected + {ConvKey(sid)};
      }
    }

    // _close_session up to redis.delete when nothing else runs at its awaits: exactly the session's connections go,
    // and the conversation key is to be deleted exactly when the loop was local.
    method CloseUndisturbed(redis: Redis, sid: Sid) returns (toDelete: set<Key>)
      requires Valid() && alive
      modifies this`connections, this`loops, this`closing
      ensures Valid()
      ensures View() == if old(sid in loops) then NodeAfter(redis.now, old(View()), Pop(sid)) else old(View())
      ensures connections == map c | c in old(connections) && old(connections)[c] != sid :: old(connections)[c]
      ensures forall k :: k in toDelete <==>
                && old(sid in loops) && k.sid == sid
                && (k.ConnKey? ==> (sid, k.conn) in redis.Connections() && k.conn in old(connections) && old(connections)[k.conn] == sid)
    {
      var remove := SelectConnections(sid);
      var collected := CollectKeys(sid, remove, redis.Connections());
      while remove != {}
        modifies this`connections
        invariant remove <= connections.Keys && forall c :: c in remove ==> connections[c] == sid
        invariant forall c :: c in connections ==> c in old(connections) && connections[c] == old(connections)[c]
        invariant forall c :: c in old(connections) && (c in remove || old(connections)[c] != sid) ==> c in connections
        invariant forall c :: c in connections && connections[c] == sid ==> c in remove
      {
        var c :| c in remove;
        DropConnection(c);
        remove := remove - {c};
      }
      toDelete := PopSession(redis, sid, collected);
    }

    // The DELETE of a close as Redis runs it; the owner of the key is not checked.
    method DeleteKeys(redis: Redis, sid: Sid, toDelete: set<Key>)
      requires Valid() && MayMove(redis.conv, redis.now, View(), Delete(sid))
      requires forall k <- toDelete :: k.sid == sid
      requires ConvKey(sid) in toDelete
      modifies this`closing, redis`conv, redis`conn
      ensures Valid() && View() == NodeAfter(redis.now, old(View()), Delete(sid))
      ensures redis.conv == LeaseAfter(old(redis.conv), redis.now, old(View()), Delete(sid))
      ensures redis.conn == map p | p in old(redis.conn) && ConnKey(p.0, p.1) !in toDelete :: old(redis.conn)[p]
    {
      redis.conv := redis.conv - {sid};
      redis.conn := map p | p in redis.conn && ConnKey(p.0, p.1) !in toDelete :: redis.conn[p];
      closing := closing - {sid};
    }
  }
}
