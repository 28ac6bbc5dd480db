// Websocket connections of one Team Mode session, interleaved at their awaits.
module TeamSession {
  import opened Wrappers

  type ConnId = nat
  type Payload = string

  datatype Status = Created | Recovered | Running | AwaitingInput | ReadyToResume | Completed | Error

  // Where a connection stands.
  datatype Pc =
    | Accepted      // accepted, has not looked at the session yet
    | Waiter        // reconnected while the session awaits input
    | Observer      // an execution is in progress elsewhere
    | Preparing     // execution flag set, compiling the graph
    | Streaming     // consuming graph chunks
    | WaitingInput  // in the clarification loop of the execution
    | Resuming      // consuming chunks of the resumed graph
    | Closing       // sending its last message, before the execution flag is cleared
    | Gone

  datatype Session = Session(status: Status, pending: Option<Payload>, active: bool, conns: map<ConnId, Pc>)

  datatype Move =
    | Connect
    | Dispatch                     // status test, flag test and flag set: no await in between
    | Start
    | Interrupt(payload: Payload)
    | Answer                       // answer or skip on the executing connection
    | HitlError                    // the clarification loop raises, a disconnect included
    | ResumeEnds
    | Finish
    | Raise                        // any exception but a disconnect
    | Disconnect                   // the executing client leaves outside the clarification loop
    | Leave                        // the finally block
    | ReconnectedAnswer            // answer or skip on a reconnected connection
    | PassiveGone                  // a waiter or observer leaves
    | Cancel                       // the task of the execution is cancelled

  datatype Step = Step(c: ConnId, move: Move)

  predicate Executor(pc: Pc) {
    pc.Preparing? || pc.Streaming? || pc.WaitingInput? || pc.Resuming? || pc.Closing?
  }

  predicate Enabled(cancels: bool, s: Session, step: Step) {
    if step.move.Connect? then step.c !in s.conns
    else step.c in s.conns && var pc := s.conns[step.c];
      match step.move
      case Connect => false
      case Dispatch => pc.Accepted?
      case Start => pc.Preparing?
      case Interrupt(_) => pc.Streaming?
      case Answer => pc.WaitingInput?
      case HitlError => pc.WaitingInput?
      case ResumeEnds => pc.Resuming?
      case Finish => pc.Streaming?
      case Raise => Executor(pc) && !pc.WaitingInput?
      case Disconnect => Executor(pc) && !pc.WaitingInput?
      case Leave => pc.Closing?
      case ReconnectedAnswer => pc.Waiter?
      case PassiveGone => pc.Waiter? || pc.Observer?
      case Cancel => cancels && Executor(pc)
  }

  // The branch a new connection takes.
  function Branch(s: Session): Pc {
    if s.status.AwaitingInput? then Waiter else if s.active then Observer else Preparing
  }

  function Apply(s: Session, step: Step): Session {
    var go := (pc: Pc) => s.conns[step.c := pc];
    match step.move
    case Connect => s.(conns := go(Accepted))
    case Dispatch => s.(active := s.active || Branch(s).Preparing?, conns := go(Branch(s)))
    case Start => s.(status := Running, conns := go(Streaming))
    case Interrupt(payload) => s.(status := AwaitingInput, pending := Some(payload), conns := go(WaitingInput))
    case Answer => s.(status := Running, pending := None, conns := go(Resuming))
    case HitlError => s.(status := Error, conns := go(Closing))
    case ResumeEnds => s.(conns := go(Streaming))
    case Finish => s.(status := Completed, conns := go(Closing))
    case Raise => s.(status := Error, conns := go(Closing))
    case Disconnect => s.(active := false, conns := go(Gone))
    case Leave => s.(active := false, conns := go(Gone))
    case ReconnectedAnswer => s.(status := ReadyToResume, pending := None, conns := go(Gone))
    case PassiveGone => s.(conns := go(Gone))
    case Cancel => s.(active := false, conns := go(Gone))
  }

  const INIT := Session(Created, None, false, map[])

  datatype Run = Run(states: seq<Session>, steps: seq<Step>)

  ghost predicate IsRun(cancels: bool, r: Run) {
    && |r.states| == |r.steps| + 1
    && (r.states[0] == INIT || r.states[0] == INIT.(status := Recovered))
    && forall k :: 0 <= k < |r.steps| ==>
         Enabled(cancels, r.states[k], r.steps[k]) && r.states[k + 1] == Apply(r.states[k], r.steps[k])
  }

  ghost predicate EndsIn(cancels: bool, r: Run, s: Session) {
    IsRun(cancels, r) && r.states[|r.steps|] == s
  }

  ghost predicate Reachable(cancels: bool, s: Session) {
    exists r :: EndsIn(cancels, r, s)
  }

  ghost predicate Executes(s: Session, c: ConnId) {
    c in s.conns && Executor(s.conns[c])
  }

  // At most one connection runs the graph, and one does exactly when the flag is set.
  ghost predicate SingleExecution(s: Session) {
    && (forall c, d :: Executes(s, c) && Executes(s, d) ==> c == d)
    && (s.active <==> exists c :: Executes(s, c))
  }

  // A session that awaits input has the question stored and somebody in the clarification loop.
  ghost predicate AwaitedByExecutor(s: Session) {
    s.status.AwaitingInput? ==> s.pending.Some? && exists c :: c in s.conns && s.conns[c].WaitingInput?
  }

  ghost predicate Inv(s: Session) {
    && SingleExecution(s) && AwaitedByExecutor(s)
    && (forall c <- s.conns :: s.conns[c].WaitingInput? ==> s.status.AwaitingInput? || s.status.ReadyToResume?)
  }

  lemma OthersStay(cancels: bool, s: Session, step: Step, c: ConnId)
    requires Enabled(cancels, s, step) && c != step.c
    ensures var s' := Apply(s, step); (c in s'.conns <==> c in s.conns) && (c in s.conns ==> s'.conns[c] == s.conns[c])
  {
  }

  lemma SingleStep(cancels: bool, s: Session, step: Step)
    requires SingleExecution(s) && Enabled(cancels, s, step)
    ensures SingleExecution(Apply(s, step))
  {
    var s' := Apply(s, step);
    forall c | c != step.c ensures Executes(s', c) <==> Executes(s, c) { OthersStay(cancels, s, step, c); }
    if step.c in s.conns && Executor(s.conns[step.c]) {
      assert Executes(s, step.c);
      assert s'.active <==> Executes(s', step.c);
    } else if step.move.Dispatch? && Branch(s).Preparing? {
      assert Executes(s', step.c);
    } else {
      assert !Executes(s', step.c) && s'.active == s.active;
      if s.active { var c :| Executes(s, c); assert Executes(s', c); }
    }
  }

  lemma InvStep(s: Session, step: Step)
    requires Inv(s) && Enabled(false, s, step)
    ensures Inv(Apply(s, step))
  {
    SingleStep(false, s, step);
    var s' := Apply(s, step);
    forall c | c != step.c ensures c in s'.conns <==> c in s.conns { OthersStay(false, s, step, c); }
    if s'.status.AwaitingInput? {
      if step.move.Interrupt? {
        assert s'.conns[step.c].WaitingInput?;
      } else {
        var c :| c in s.conns && s.conns[c].WaitingInput?;
        assert Executes(s, c);
        assert step.c in s.conns && Executor(s.conns[step.c]) ==> Executes(s, step.c);
        assert s'.conns[c].WaitingInput?;
      }
    }
    forall c | c in s'.conns && s'.conns[c].WaitingInput?
      ensures s'.status.AwaitingInput? || s'.status.ReadyToResume?
    {
      if c != step.c {
        assert Executes(s, c);
        assert step.c in s.conns && Executor(s.conns[step.c]) ==> Executes(s, step.c);
      }
    }
  }

  lemma {:induction false} InvAlong(r: Run, k: nat)
    requires IsRun(false, r) && k <= |r.steps|
    ensures Inv(r.states[k])
  {
    if k > 0 {
      InvAlong(r, k - 1);
      InvStep(r.states[k - 1], r.steps[k - 1]);
    }
  }

  lemma {:induction false} SingleAlong(cancels: bool, r: Run, k: nat)
    requires IsRun(cancels, r) && k <= |r.steps|
    ensures SingleExecution(r.states[k])
  {
    if k > 0 {
      SingleAlong(cancels, r, k - 1);
      SingleStep(cancels, r.states[k - 1], r.steps[k - 1]);
    }
  }

  // However connections interleave, and even if tasks are cancelled.
  lemma OneExecution(cancels: bool, s: Session)
    requires Reachable(cancels, s)
    ensures SingleExecution(s)
  {
    var r :| EndsIn(cancels, r, s);
    SingleAlong(cancels, r, |r.steps|);
  }

  lemma Go(s: Session, c: ConnId, m: Move) returns (s': Session)
    requires Reachable(true, s) && Enabled(true, s, Step(c, m))
    ensures s' == Apply(s, Step(c, m)) && Reachable(true, s')
  {
    var r :| EndsIn(true, r, s);
    s' := Apply(s, Step(c, m));
    assert EndsIn(true, Run(r.states + [s'], r.steps + [Step(c, m)]), s');
  }

  // A session that awaits input is always awaited by its execution exactly if tasks are never cancelled;
  // a cancelled wait leaves the session awaiting input with nobody to resume it.
  lemma AwaitedExactlyWithoutCancellation(cancels: bool)
    ensures (forall s :: Reachable(cancels, s) ==> AwaitedByExecutor(s)) <==> !cancels
  {
    if !cancels {
      forall s | Reachable(false, s) ensures AwaitedByExecutor(s) {
        var r :| EndsIn(false, r, s);
        InvAlong(r, |r.steps|);
      }
    } else {
      assert EndsIn(true, Run([INIT], []), INIT);
      var s := Go(INIT, 0, Connect);
      s := Go(s, 0, Dispatch);
      s := Go(s, 0, Start);
      s := Go(s, 0, Interrupt("?"));
      s := Go(s, 0, Cancel);
      assert !AwaitedByExecutor(s);
    }
  }

  // A reconnected client has answered: the session is ready to resume and its question is gone, while the
  // execution of c, flagged as active, still waits for an answer on its own connection.
  ghost predicate Wedged(s: Session, c: ConnId) {
    && s.status.ReadyToResume? && s.pending == None && s.active
    && c in s.conns && s.conns[c].WaitingInput?
  }

  lemma WedgedStep(cancels: bool, s: Session, step: Step, c: ConnId)
    requires SingleExecution(s) && Wedged(s, c) && Enabled(cancels, s, step) && step.c != c
    ensures Wedged(Apply(s, step), c)
    ensures step.move.Dispatch? ==> Apply(s, step).conns[step.c].Observer?
  {
    assert Executes(s, c);
    assert !Executes(s, step.c);
    SingleStep(cancels, s, step);
    OthersStay(cancels, s, step, c);
    assert Executes(Apply(s, step), c);
  }

  // Every answer on a reconnected connection, taken while the execution waits, wedges the session.
  lemma ReconnectedAnswerWedges(s: Session, c: ConnId) returns (executor: ConnId)
    requires Reachable(false, s) && s.status.AwaitingInput? && Enabled(false, s, Step(c, ReconnectedAnswer))
    ensures executor != c && Wedged(Apply(s, Step(c, ReconnectedAnswer)), executor)
  {
    var r :| EndsIn(false, r, s);
    InvAlong(r, |r.steps|);
    executor :| executor in s.conns && s.conns[executor].WaitingInput?;
    assert Executes(s, executor);
  }

  // A wedged session stays exactly that through any steps of other connections, and every new connection ends
  // up as an observer, which cannot answer: only the executing connection itself gets the session out.
  lemma {:induction false} WedgedUntilExecutorMoves(cancels: bool, r: Run, i: nat, j: nat, c: ConnId)
    requires IsRun(cancels, r) && i <= j <= |r.steps| && Wedged(r.states[i], c)
    requires forall k :: i <= k < j ==> r.steps[k].c != c
    ensures Wedged(r.states[j], c)
    ensures forall k :: i <= k < j && r.steps[k].move.Dispatch? ==>
              r.steps[k].c in r.states[k + 1].conns && r.states[k + 1].conns[r.steps[k].c].Observer?
  {
    if i < j {
      WedgedUntilExecutorMoves(cancels, r, i, j - 1, c);
      SingleAlong(cancels, r, j - 1);
      WedgedStep(cancels, r.states[j - 1], r.steps[j - 1], c);
    }
  }

  // A client that reconnects while the session awaits input finds the stored question and may answer.
  lemma ReconnectedMayAnswer(s: Session, c: ConnId)
    requires Reachable(false, s) && s.status.AwaitingInput? && Enabled(false, s, Step(c, Dispatch))
    ensures var s' := Apply(s, Step(c, Dispatch));
            && s'.conns[c].Waiter? && s'.pending.Some? && s'.status.AwaitingInput?
            && Enabled(false, s', Step(c, ReconnectedAnswer))
  {
    var r :| EndsIn(false, r, s);
    InvAlong(r, |r.steps|);
  }

  // ----- the tables of the server -----

  class Server {
    var sessions: map<string, (Status, Option<Payload>)>
    var active: set<string>

    constructor ()
      ensures sessions == map[] && active == {}
    {
      sessions, active := map[], {};
    }

    // The protocol's view of one session.
    function View(id: string, conns: map<ConnId, Pc>): Session
      requires id in sessions
      reads this
    {
      Session(sessions[id].0, sessions[id].1, id in active, conns)
    }

    // stream_session from the status test to the setting of the execution flag.
    method DispatchConnection(id: string, c: ConnId, ghost conns: map<ConnId, Pc>) returns (pc: Pc)
      requires id in sessions && c in conns && conns[c].Accepted?
      modifies this`active
      ensures pc == if old(sessions)[id].0.AwaitingInput? then Waiter else if id in old(active) then Observer else Preparing
      ensures active == if pc.Preparing? then old(active) + {id} else old(active)
      ensures View(id, conns[c := pc]) == Apply(old(View(id, conns)), Step(c, Dispatch))
      ensures active - {id} == old(active) - {id}
    {
      if sessions[id].0.AwaitingInput? { return Waiter; }
      if id in active { return Observer; }
      active := active + {id};
      pc := Preparing;
    }

    // session['status'] = 'running', once the graph is compiled.
    method MarkRunning(id: string, c: ConnId, ghost conns: map<ConnId, Pc>)
      requires id in sessions && c in conns && conns[c].Preparing?
      modifies this`sessions
      ensures sessions == old(sessions)[id := (Running, old(sessions)[id].1)]
      ensures View(id, conns[c := Streaming]) == Apply(old(View(id, conns)), Step(c, Start))
    {
      sessions := sessions[id := (Running, sessions[id].1)];
    }

    // The end of the stream.
    method MarkCompleted(id: string, c: ConnId, ghost conns: map<ConnId, Pc>)
      requires id in sessions && c in conns && conns[c].Streaming?
      modifies this`sessions
      ensures sessions == old(sessions)[id := (Completed, old(sessions)[id].1)]
      ensures View(id, conns[c := Closing]) == Apply(old(View(id, conns)), Step(c, Finish))
    {
      sessions := sessions[id := (Completed, sessions[id].1)];
    }

    // The handlers of an exception in the clarification loop, and of any but a disconnect outside of it.
    method MarkError(id: string, c: ConnId, ghost conns: map<ConnId, Pc>)
      requires id in sessions && c in conns && Executor(conns[c])
      modifies this`sessions
      ensures sessions == old(sessions)[id := (Error, old(sessions)[id].1)]
      ensures View(id, conns[c := Closing]) ==
              Apply(old(View(id, conns)), Step(c, if conns[c].WaitingInput? then HitlError else Raise))
    {
      sessions := sessions[id := (Error, sessions[id].1)];
    }

    method RecordInterrupt(id: string, c: ConnId, payload: Payload, ghost conns: map<ConnId, Pc>)
      requires id in sessions && c in conns && conns[c].Streaming?
      modifies this`sessions
      ensures id in sessions && sessions - {id} == old(sessions) - {id}
      ensures sessions[id] == (AwaitingInput, Some(payload))
      ensures View(id, conns[c := WaitingInput]) == Apply(old(View(id, conns)), Step(c, Interrupt(payload)))
    {
      sessions := sessions[id := (AwaitingInput, sessions[id].1)];
      sessions := sessions[id := (sessions[id].0, Some(payload))];
    }

    // A message in the clarification loop of the execution; anything but an answer or skip keeps waiting.
    method ReceiveWhileExecuting(id: string, c: ConnId, kind: string, ghost conns: map<ConnId, Pc>) returns (resumed: bool)
      requires id in sessions && c in conns && conns[c].WaitingInput?
      modifies this`sessions
      ensures resumed <==> kind == "clarification:answer" || kind == "clarification:skip"
      ensures id in sessions && sessions - {id} == old(sessions) - {id}
      ensures sessions[id] == if resumed then (Running, None) else old(sessions)[id]
      ensures if resumed then View(id, conns[c := Resuming]) == Apply(old(View(id, conns)), Step(c, Answer))
              else View(id, conns) == old(View(id, conns))
    {
      resumed := false;
      if kind == "clarification:answer" || kind == "clarification:skip" {
        sessions := sessions[id := (Running, sessions[id].1)];
        sessions := sessions[id := (sessions[id].0, None)];
        resumed := true;
      }
    }

    // _handle_clarification_response: the same messages on a reconnected connection.
    method ReceiveWhileReconnected(id: string, c: ConnId, kind: string, ghost conns: map<ConnId, Pc>) returns (done: bool)
      requires id in sessions && c in conns && conns[c].Waiter?
      modifies this`sessions
      ensures done <==> kind == "clarification:answer" || kind == "clarification:skip"
      ensures id in sessions && sessions - {id} == old(sessions) - {id}
      ensures sessions[id] == if done then (ReadyToResume, None) else old(sessions)[id]
      ensures if done then View(id, conns[c := Gone]) == Apply(old(View(id, conns)), Step(c, ReconnectedAnswer))
              else View(id, conns) == old(View(id, conns))
    {
      done := false;
      if kind == "clarification:answer" || kind == "clarification:skip" {
        sessions := sessions[id := (ReadyToResume, sessions[id].1)];
        sessions := sessions[id := (sessions[id].0, None)];
        done := true;
      }
    }

    // The finally block, on its own after a disconnect outside the clarification loop: the status stays.
    method ClearExecution(id: string, c: ConnId, ghost conns: map<ConnId, Pc>)
      requires id in sessions && c in conns && Executor(conns[c]) && !conns[c].WaitingInput?
      modifies this`active
      ensures active == old(active) - {id}
      ensures View(id, conns[c := Gone]) ==
              Apply(old(View(id, conns)), Step(c, if conns[c].Closing? then Leave else Disconnect))
      ensures active - {id} == old(active) - {id}
    {
      active := active - {id};
    }
  }
}
