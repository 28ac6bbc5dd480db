// Double-checked refresh of the tokens in one row of the auth token table.
//
// Any number of load_tokens callers and store_tokens writers interleave at
// their awaits.  The identity provider issues fresh refresh tokens and spends
// the one that is presented to it.
module TokenRefresh {
  import opened Wrappers

  type Pid = nat
  type Token = nat

  // Seconds before its expiry from which an access token counts as expired.
  const ACCESS_TOKEN_EXPIRY_BUFFER := 900

  datatype Tokens = Tokens(access: Token, refresh: Token, accessExpiresAt: int, refreshExpiresAt: int)

  function IsTokenExpired(accessExpiresAt: int, refreshExpiresAt: int, now: int): (bool, bool) {
    (accessExpiresAt != 0 && accessExpiresAt < now + ACCESS_TOKEN_EXPIRY_BUFFER,
     refreshExpiresAt != 0 && refreshExpiresAt < now)
  }

  predicate AccessExpired(t: Tokens, now: int) {
    IsTokenExpired(t.accessExpiresAt, t.refreshExpiresAt, now).0
  }

  // No refresh is due: the access token never expires, or not within 900 seconds.
  predicate NotDue(t: Tokens, now: int) {
    t.accessExpiresAt == 0 || now + 900 <= t.accessExpiresAt
  }

  // Where a caller stands.
  datatype Pc =
    | FastRead(row: Option<Tokens>, callback: bool) // has read the row without the lock
    | Queueing                                      // waits for the row lock
    | Locked(row: Option<Tokens>)                   // has read the row under the lock
    | Calling(stored: Tokens)                       // is asking the identity provider
    | Answered(renewed: Tokens)                       // has the new tokens, not committed
    | Writing(renewed: Tokens)                        // store_tokens, not committed
    | Returned(result: Option<Tokens>)
    | Failed

  // The decision on the unlocked path.
  function FastDecision(row: Option<Tokens>, callback: bool, now: int): Pc {
    match row
    case None => Returned(None)
    case Some(t) => if !AccessExpired(t, now) || !callback then Returned(row) else Queueing
  }

  // The decision under the lock.
  function LockedDecision(row: Option<Tokens>, now: int): Pc {
    match row
    case None => Returned(None)
    case Some(t) => if AccessExpired(t, now) then Calling(t) else Returned(row)
  }

  // redeemed lists the refresh tokens the provider has spent, in order.
  datatype System = System(
    now: int,
    row: Option<Tokens>,
    lock: Option<Pid>,
    procs: map<Pid, Pc>,
    issued: set<Token>,
    redeemed: seq<Token>)

  datatype Move =
    | Begin(callback: bool)      // load_tokens reads the row
    | DecideFast
    | Lock                       // SELECT ... FOR UPDATE is granted
    | LockTimeout
    | Recheck
    | Redeem(renewed: Tokens)      // the provider spends the presented token and issues new ones
    | NothingToRefresh           // the callback returns None
    | CallbackRaises             // before the provider spends anything
    | Commit
    | RaiseAfterSpending(renewed: Tokens) // the provider spends the token; its answer times out or is unusable
    | LoseAnswer                          // the process dies, or the commit fails
    | BeginStore(renewed: Tokens)  // store_tokens, with the tokens of a new login
    | CommitStore

  // Ways in which the provider's answer is lost after it has spent the presented token: the callback raises,
  // or what it returned is never committed.
  datatype Losses = Losses(unusable: bool, uncommitted: bool)

  const NO_LOSS := Losses(false, false)

  datatype Step = By(p: Pid, move: Move) | Elapse(d: nat)

  predicate Enabled(losses: Losses, s: System, step: Step) {
    match step
    case Elapse(_) => true
    case By(p, m) =>
      if m.Begin? then p !in s.procs
      else if m.BeginStore? then p !in s.procs && m.renewed.refresh !in s.issued
      else p in s.procs && var pc := s.procs[p];
        match m
        case DecideFast => pc.FastRead?
        case Lock => pc.Queueing? && s.lock == None
        case LockTimeout => pc.Queueing?
        case Recheck => pc.Locked?
        case Redeem(renewed) => pc.Calling? && renewed.refresh !in s.issued
        case NothingToRefresh => pc.Calling?
        case CallbackRaises => pc.Calling?
        case Commit => pc.Answered?
        case RaiseAfterSpending(renewed) => losses.unusable && pc.Calling? && renewed.refresh !in s.issued
        case LoseAnswer => losses.uncommitted && pc.Answered?
        case CommitStore => pc.Writing? && s.lock == None
        case _ => false
  }

  function Apply(losses: Losses, s: System, step: Step): System
    requires Enabled(losses, s, step)
  {
    match step
    case Elapse(d) => s.(now := s.now + d)
    case By(p, m) =>
      match m
      case Begin(callback) => s.(procs := s.procs[p := FastRead(s.row, callback)])
      case DecideFast => s.(procs := s.procs[p := FastDecision(s.procs[p].row, s.procs[p].callback, s.now)])
      case Lock => s.(lock := Some(p), procs := s.procs[p := Locked(s.row)])
      case LockTimeout => s.(procs := s.procs[p := Failed])
      case Recheck =>
        var pc := LockedDecision(s.procs[p].row, s.now);
        s.(lock := if pc.Calling? then s.lock else None, procs := s.procs[p := pc])
      case Redeem(renewed) =>
        s.(redeemed := s.redeemed + [s.procs[p].stored.refresh], issued := s.issued + {renewed.refresh},
           procs := s.procs[p := Answered(renewed)])
      case NothingToRefresh => s.(lock := None, procs := s.procs[p := Returned(Some(s.procs[p].stored))])
      case CallbackRaises => s.(lock := None, procs := s.procs[p := Failed])
      case Commit =>
        s.(row := Some(s.procs[p].renewed), lock := None, procs := s.procs[p := Returned(Some(s.procs[p].renewed))])
      case RaiseAfterSpending(renewed) =>
        s.(redeemed := s.redeemed + [s.procs[p].stored.refresh], issued := s.issued + {renewed.refresh},
           lock := None, procs := s.procs[p := Failed])
      case LoseAnswer => s.(lock := None, procs := s.procs[p := Failed])
      case BeginStore(renewed) => s.(issued := s.issued + {renewed.refresh}, procs := s.procs[p := Writing(renewed)])
      case CommitStore => s.(row := Some(s.procs[p].renewed), procs := s.procs[p := Returned(None)])
  }

  const INIT := System(0, None, None, map[], {}, [])

  datatype Run = Run(states: seq<System>, steps: seq<Step>)

  ghost predicate IsRun(losses: Losses, r: Run) {
    && |r.states| == |r.steps| + 1
    && r.states[0] == INIT
    && forall k :: 0 <= k < |r.steps| ==>
         Enabled(losses, r.states[k], r.steps[k]) && r.states[k + 1] == Apply(losses, r.states[k], r.steps[k])
  }

  ghost predicate EndsIn(losses: Losses, r: Run, s: System) {
    IsRun(losses, r) && r.states[|r.steps|] == s
  }

  ghost predicate Reachable(losses: Losses, s: System) {
    exists r :: EndsIn(losses, r, s)
  }

  ghost predicate NoDuplicates(s: seq<Token>) {
    forall i, j :: 0 <= i < j < |s| ==> s[i] != s[j]
  }

  // ----- the invariant -----

  predicate UnderLock(pc: Pc) {
    pc.Locked? || pc.Calling? || pc.Answered?
  }

  predicate Pending(pc: Pc) {
    pc.Answered? || pc.Writing?
  }

  ghost predicate ProcOk(s: System, p: Pid)
    requires p in s.procs
  {
    var pc := s.procs[p];
    && (UnderLock(pc) <==> s.lock == Some(p))
    && (pc.Locked? ==> pc.row == s.row)
    && (pc.Calling? ==> s.row == Some(pc.stored))
    && (Pending(pc) ==> pc.renewed.refresh in s.issued && pc.renewed.refresh !in s.redeemed)
    && (Pending(pc) && s.row.Some? ==> pc.renewed.refresh != s.row.value.refresh)
  }

  ghost predicate Spendable(s: System) {
    s.row.Some? ==> s.row.value.refresh !in s.redeemed
  }

  ghost predicate PendingDistinct(procs: map<Pid, Pc>) {
    forall p, q :: p in procs && q in procs && p != q && Pending(procs[p]) && Pending(procs[q]) ==>
      procs[p].renewed.refresh != procs[q].renewed.refresh
  }

  ghost predicate Quiet(s: System) {
    forall p <- s.procs :: !s.procs[p].Answered?
  }

  ghost predicate Inv(s: System) {
    && (s.lock.Some? ==> s.lock.value in s.procs)
    && (forall p <- s.procs :: ProcOk(s, p))
    && PendingDistinct(s.procs)
    && (s.row.Some? ==> s.row.value.refresh in s.issued)
    && (forall t <- s.redeemed :: t in s.issued)
    && NoDuplicates(s.redeemed)
    && (Quiet(s) ==> Spendable(s))
  }

  // A process that asks the provider holds the lock alone, so the row is spendable.
  lemma CallerIsQuiet(s: System, p: Pid)
    requires Inv(s) && p in s.procs && s.procs[p].Calling?
    ensures s.row == Some(s.procs[p].stored) && Spendable(s)
  {
    assert ProcOk(s, p);
    forall q | q in s.procs ensures !s.procs[q].Answered? { assert ProcOk(s, q); }
  }

  lemma ProcOkStep(s: System, step: Step, q: Pid)
    requires Inv(s) && Enabled(NO_LOSS, s, step) && q in Apply(NO_LOSS, s, step).procs
    ensures ProcOk(Apply(NO_LOSS, s, step), q)
  {
    if q in s.procs { assert ProcOk(s, q); }
    if step.By? && step.p in s.procs {
      assert ProcOk(s, step.p);
      if step.move.Redeem? { CallerIsQuiet(s, step.p); }
    }
  }

  // Tokens become pending only when they are issued.
  lemma PendingOrigin(s: System, step: Step, p: Pid)
    requires Enabled(NO_LOSS, s, step)
    requires p in Apply(NO_LOSS, s, step).procs && Pending(Apply(NO_LOSS, s, step).procs[p])
    ensures var pc := Apply(NO_LOSS, s, step).procs[p];
            || (p in s.procs && s.procs[p] == pc)
            || (step == By(p, Redeem(pc.renewed)) && pc.renewed.refresh !in s.issued)
            || (step == By(p, BeginStore(pc.renewed)) && pc.renewed.refresh !in s.issued)
  {
  }

  lemma PendingDistinctStep(s: System, step: Step)
    requires Inv(s) && Enabled(NO_LOSS, s, step)
    ensures PendingDistinct(Apply(NO_LOSS, s, step).procs)
  {
    var procs := Apply(NO_LOSS, s, step).procs;
    forall p, q | p in procs && q in procs && p != q && Pending(procs[p]) && Pending(procs[q])
      ensures procs[p].renewed.refresh != procs[q].renewed.refresh
    {
      PendingOrigin(s, step, p);
      PendingOrigin(s, step, q);
      assert p in s.procs ==> ProcOk(s, p);
      assert q in s.procs ==> ProcOk(s, q);
    }
  }

  lemma SpendableStep(s: System, step: Step)
    requires Inv(s) && Enabled(NO_LOSS, s, step)
    ensures Quiet(Apply(NO_LOSS, s, step)) ==> Spendable(Apply(NO_LOSS, s, step))
  {
    var s' := Apply(NO_LOSS, s, step);
    if step.By? && step.p in s.procs {
      assert ProcOk(s, step.p);
      if step.move.Redeem? {
        assert s'.procs[step.p].Answered?;
      } else if !step.move.Commit? && !step.move.CommitStore? && Quiet(s') {
        forall p | p in s.procs ensures !s.procs[p].Answered? { assert p == step.p || s'.procs[p] == s.procs[p]; }
      }
    } else if Quiet(s') {
      forall p | p in s.procs ensures !s.procs[p].Answered? { assert s'.procs[p] == s.procs[p]; }
    }
  }

  lemma InvStep(s: System, step: Step)
    requires Inv(s) && Enabled(NO_LOSS, s, step)
    ensures Inv(Apply(NO_LOSS, s, step))
  {
    var s' := Apply(NO_LOSS, s, step);
    forall q | q in s'.procs ensures ProcOk(s', q) { ProcOkStep(s, step, q); }
    PendingDistinctStep(s, step);
    SpendableStep(s, step);
    if step.By? && step.p in s.procs {
      assert ProcOk(s, step.p);
      if step.move.Redeem? { CallerIsQuiet(s, step.p); }
    }
  }

  lemma {:induction false} InvAlong(r: Run, k: nat)
    requires IsRun(NO_LOSS, r) && k <= |r.steps|
    ensures Inv(r.states[k])
  {
    if k > 0 {
      InvAlong(r, k - 1);
      InvStep(r.states[k - 1], r.steps[k - 1]);
    }
  }

  // No refresh token is spent twice, and whenever the row lock is free the stored one is unspent.
  lemma NoDoubleRedemption(s: System)
    requires Reachable(NO_LOSS, s)
    ensures NoDuplicates(s.redeemed)
    ensures s.lock == None ==> Spendable(s)
  {
    var r :| EndsIn(NO_LOSS, r, s);
    InvAlong(r, |r.steps|);
    if s.lock == None {
      forall p | p in s.procs ensures !s.procs[p].Answered? { assert ProcOk(s, p); }
    }
  }

  // ----- losing the provider's answer -----

  lemma Go(losses: Losses, s: System, p: Pid, m: Move) returns (s': System)
    requires Reachable(losses, s) && Enabled(losses, s, By(p, m))
    ensures s' == Apply(losses, s, By(p, m)) && Reachable(losses, s')
  {
    var r :| EndsIn(losses, r, s);
    s' := Apply(losses, s, By(p, m));
    assert EndsIn(losses, Run(r.states + [s'], r.steps + [By(p, m)]), s');
  }

  // One caller makes the provider spend the stored token, and its answer is lost.
  lemma SpendAndLose(losses: Losses, s: System, p: Pid, stored: Tokens, renewed: Tokens) returns (s': System)
    requires losses != NO_LOSS
    requires Reachable(losses, s) && s.now == 0 && s.lock == None && s.row == Some(stored)
    requires stored.accessExpiresAt == 1 && p !in s.procs && renewed.refresh !in s.issued
    ensures Reachable(losses, s') && s'.now == 0 && s'.lock == None && s'.row == s.row
    ensures s'.procs == s.procs[p := Failed] && s'.issued == s.issued + {renewed.refresh}
    ensures s'.redeemed == s.redeemed + [stored.refresh]
  {
    s' := Go(losses, s, p, Begin(true));
    s' := Go(losses, s', p, DecideFast);
    s' := Go(losses, s', p, Lock);
    s' := Go(losses, s', p, Recheck);
    if losses.unusable {
      s' := Go(losses, s', p, RaiseAfterSpending(renewed));
    } else {
      s' := Go(losses, s', p, Redeem(renewed));
      s' := Go(losses, s', p, LoseAnswer);
    }
  }

  lemma LossSpendsTwice(losses: Losses) returns (s: System)
    requires losses != NO_LOSS
    ensures Reachable(losses, s) && !NoDuplicates(s.redeemed)
  {
    assert EndsIn(losses, Run([INIT], []), INIT);
    var stored := Tokens(0, 1, 1, 0);
    s := Go(losses, INIT, 0, BeginStore(stored));
    s := Go(losses, s, 0, CommitStore);
    s := SpendAndLose(losses, s, 1, stored, Tokens(0, 2, 0, 0));
    s := SpendAndLose(losses, s, 2, stored, Tokens(0, 3, 0, 0));
    assert s.redeemed[0] == s.redeemed[1];
  }

  // Single redemption holds exactly when no answer is lost, in whichever way.
  lemma SingleRedemptionExactlyWithoutLoss(losses: Losses)
    ensures (forall s :: Reachable(losses, s) ==> NoDuplicates(s.redeemed)) <==> losses == NO_LOSS
  {
    if losses != NO_LOSS {
      var s := LossSpendsTwice(losses);
    } else {
      forall s | Reachable(NO_LOSS, s) ensures NoDuplicates(s.redeemed) { NoDoubleRedemption(s); }
    }
  }

  // ----- who gets tokens, and why -----

  // The move by which p returns t: t was not due when it decided, or it came without a callback; or the provider
  // was asked, and renewed t or had nothing to refresh.
  ghost predicate Decides(s: System, p: Pid, m: Move, t: Tokens) {
    && p in s.procs
    && match m
       case DecideFast => exists callback :: s.procs[p] == FastRead(Some(t), callback) && (NotDue(t, s.now) || !callback)
       case Recheck => s.procs[p] == Locked(Some(t)) && NotDue(t, s.now)
       case NothingToRefresh => s.procs[p] == Calling(t)
       case Commit => s.procs[p] == Answered(t)
       case _ => false
  }

  lemma ReturnedStep(losses: Losses, s: System, step: Step, p: Pid, t: Tokens)
    requires Enabled(losses, s, step)
    requires p in Apply(losses, s, step).procs && Apply(losses, s, step).procs[p] == Returned(Some(t))
    ensures (p in s.procs && s.procs[p] == Returned(Some(t))) || (step.By? && step.p == p && Decides(s, p, step.move, t))
  {
    if step.By? && step.p == p && step.move.DecideFast? {
      assert s.procs[p] == FastRead(s.procs[p].row, s.procs[p].callback);
    }
  }

  // Nobody gets stored tokens that were due when he decided, unless he came without a callback or the provider had
  // nothing to refresh.
  lemma {:induction false} NoStaleTokens(losses: Losses, r: Run, j: nat, p: Pid, t: Tokens)
    requires IsRun(losses, r) && j <= |r.steps|
    requires p in r.states[j].procs && r.states[j].procs[p] == Returned(Some(t))
    ensures exists k :: 0 <= k < j && r.steps[k].By? && r.steps[k].p == p && Decides(r.states[k], p, r.steps[k].move, t)
  {
    if j > 0 {
      ReturnedStep(losses, r.states[j - 1], r.steps[j - 1], p, t);
      if p in r.states[j - 1].procs && r.states[j - 1].procs[p] == Returned(Some(t)) {
        NoStaleTokens(losses, r, j - 1, p, t);
      }
    }
  }

  // And a due row is refreshed: with a callback the caller goes for the lock, and under it asks the provider with
  // the row's own token.
  lemma DueIsRefreshed(losses: Losses, s: System, p: Pid, t: Tokens)
    requires p in s.procs && !NotDue(t, s.now)
    ensures s.procs[p] == FastRead(Some(t), true) ==>
              Enabled(losses, s, By(p, DecideFast)) && Apply(losses, s, By(p, DecideFast)).procs[p] == Queueing
    ensures s.procs[p] == Locked(Some(t)) ==>
              Enabled(losses, s, By(p, Recheck)) && Apply(losses, s, By(p, Recheck)).procs[p] == Calling(t)
  {
  }

  // ----- refreshes are spaced -----

  // A caller without a decision waits for the lock, has read t under it, got t, or timed out.
  predicate Waits(pc: Pc, t: Tokens) {
    pc.Queueing? || pc == Locked(Some(t)) || pc == Returned(Some(t)) || pc == Failed
  }

  // What has become of the callers of s0 and of later ones while the row holds t and t is not due.
  ghost predicate Spaced(s0: System, s: System, t: Tokens) {
    && s.row == Some(t)
    && forall p <- s.procs :: var pc := s.procs[p];
         && !pc.Calling? && !pc.Answered?
         && (pc.Locked? ==> pc.row == Some(t))
         && (p !in s0.procs ==> pc.Writing? || pc == Returned(Some(t)) || (pc.FastRead? && pc.row == Some(t)))
         && (p in s0.procs && s0.procs[p].Queueing? ==> Waits(pc, t))
         && (p in s0.procs && s0.procs[p].FastRead? ==>
               pc == s0.procs[p] || pc == Returned(s0.procs[p].row) || Waits(pc, t))
  }

  lemma SpacedStep(losses: Losses, s0: System, s: System, step: Step, t: Tokens)
    requires Spaced(s0, s, t) && Enabled(losses, s, step) && !(step.By? && step.move.CommitStore?)
    requires s0.procs.Keys <= s.procs.Keys && !AccessExpired(t, s.now)
    ensures Spaced(s0, Apply(losses, s, step), t)
    ensures s0.procs.Keys <= Apply(losses, s, step).procs.Keys
  {
  }

  // Only the holder of the row lock is in the critical section.
  ghost predicate LockOk(s: System) {
    && (s.lock.Some? ==> s.lock.value in s.procs)
    && forall p <- s.procs :: UnderLock(s.procs[p]) <==> s.lock == Some(p)
  }

  lemma LockStep(losses: Losses, s: System, step: Step)
    requires LockOk(s) && Enabled(losses, s, step)
    ensures LockOk(Apply(losses, s, step))
  {
  }

  lemma {:induction false} LockAlong(losses: Losses, r: Run, k: nat)
    requires IsRun(losses, r) && k <= |r.steps|
    ensures LockOk(r.states[k])
  {
    if k > 0 {
      LockAlong(losses, r, k - 1);
      LockStep(losses, r.states[k - 1], r.steps[k - 1]);
    }
  }

  lemma {:induction false} ClockGrows(losses: Losses, r: Run, i: nat, j: nat)
    requires IsRun(losses, r) && i <= j <= |r.steps|
    ensures r.states[i].now <= r.states[j].now
  {
    if i < j { ClockGrows(losses, r, i, j - 1); }
  }

  // Whatever answers are lost: after a refresh commits t, and until a store_tokens commits, nobody reaches the
  // provider while t is not due; callers that read the row after the refresh get t, and callers that were
  // waiting for the lock get t or a timeout.  A caller that had read the row before the refresh and decides after it returns
  // its own row, which was not due or came without a callback, or waits like the others.
  lemma {:induction false} RefreshesAreSpaced(losses: Losses, r: Run, i: nat, j: nat, p: Pid, t: Tokens)
    requires IsRun(losses, r) && i < j <= |r.steps|
    requires r.steps[i] == By(p, Commit) && r.states[i].procs[p] == Answered(t)
    requires forall k :: i < k < j ==> !(r.steps[k].By? && r.steps[k].move.CommitStore?)
    requires NotDue(t, r.states[j].now)
    ensures Spaced(r.states[i], r.states[j], t) && r.states[i].procs.Keys <= r.states[j].procs.Keys
  {
    if j == i + 1 {
      LockAlong(losses, r, i);
    } else {
      ClockGrows(losses, r, j - 1, j);
      RefreshesAreSpaced(losses, r, i, j - 1, p, t);
      SpacedStep(losses, r.states[i], r.states[j - 1], r.steps[j - 1], t);
    }
  }
}
