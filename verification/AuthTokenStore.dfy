// load_tokens and store_tokens over the row of one user and provider.
module AuthTokenStore {
  import opened Wrappers
  import opened TokenRefresh

  // What becomes of the call to check_expiration_and_refresh: the provider renews the tokens, and the commit
  // that follows succeeds or not; the provider spends the token and the callback raises; nothing is spent.
  datatype Answer = Renewed(tokens: Tokens, commits: bool) | RaisesSpent(tokens: Tokens) | Nothing | Raises

  predicate Spends(ask: Answer) {
    ask.Renewed? || ask.RaisesSpent?
  }

  // The row and the caller's fate after the critical section.
  function LockedOutcome(row: Option<Tokens>, now: int, ask: Answer): (Option<Tokens>, Pc) {
    var pc := LockedDecision(row, now);
    if !pc.Calling? then (row, pc)
    else match ask
      case Renewed(t, commits) => if commits then (Some(t), Returned(Some(t))) else (row, Failed)
      case RaisesSpent(_) => (row, Failed)
      case Nothing => (row, Returned(row))
      case Raises => (row, Failed)
  }

  class AuthTokenStore {
    var row: Option<Tokens>

    constructor ()
      ensures row == None
    {
      row := None;
    }

    method StoreTokens(access: Token, refresh: Token, accessExpiresAt: int, refreshExpiresAt: int)
      modifies this
      ensures row == Some(Tokens(access, refresh, accessExpiresAt, refreshExpiresAt))
    {
      if row.Some? {
        var t := row.value;
        t := t.(access := access, refresh := refresh);
        t := t.(accessExpiresAt := accessExpiresAt, refreshExpiresAt := refreshExpiresAt);
        row := Some(t);
      } else {
        row := Some(Tokens(access, refresh, accessExpiresAt, refreshExpiresAt));
      }
    }

    // The path without the lock; needLock tells that it did not return.
    method LoadFast(now: int, callback: bool) returns (needLock: bool, result: Option<Tokens>)
      ensures needLock <==> row.Some? && callback && !NotDue(row.value, now)
      ensures !needLock ==> result == row
      ensures FastDecision(row, callback, now) == if needLock then Queueing else Returned(result)
    {
      needLock, result := false, None;
      if row == None { return; }
      var (accessExpired, _) := IsTokenExpired(row.value.accessExpiresAt, row.value.refreshExpiresAt, now);
      if !accessExpired || !callback { return false, row; }
      needLock := true;
    }

    // The transaction that holds the row lock; asked is the token presented to the provider.
    method LoadLocked(now: int, ask: Answer) returns (asked: Option<Token>, result: Result<Option<Tokens>, ()>)
      modifies this
      ensures asked == if old(row).Some? && !NotDue(old(row).value, now) then Some(old(row).value.refresh) else None
      ensures row == if asked.Some? && ask.Renewed? && ask.commits then Some(ask.tokens) else old(row)
      ensures result.Err? <==> asked.Some? && (ask.Raises? || ask.RaisesSpent? || (ask.Renewed? && !ask.commits))
      ensures result.Ok? ==> result.value == row
      ensures row == LockedOutcome(old(row), now, ask).0
      ensures LockedOutcome(old(row), now, ask).1 == match result case Ok(r) => Returned(r) case Err(_) => Failed
      ensures asked == match LockedDecision(old(row), now) case Calling(t) => Some(t.refresh) case _ => None
    {
      asked, result := None, Ok(None);
      if row == None { return; }
      var (accessExpired, _) := IsTokenExpired(row.value.accessExpiresAt, row.value.refreshExpiresAt, now);
      if !accessExpired { return None, Ok(row); }
      asked := Some(row.value.refresh);
      match ask {
        case Raises => result := Err(());
        case RaisesSpent(_) => result := Err(());
        case Nothing => result := Ok(row);
        case Renewed(t, commits) =>
          if commits {
            row := Some(t);
            result := Ok(Some(t));
          } else {
            result := Err(());
          }
      }
    }
  }

  const ANY_LOSS := Losses(true, true)

  // The moves of the protocol from the grant of the lock to its release.
  function Section(p: Pid, asks: bool, ask: Answer): seq<Step> {
    [By(p, Lock), By(p, Recheck)] +
    if !asks then [] else match ask
      case Renewed(t, commits) => [By(p, Redeem(t)), By(p, if commits then Commit else LoseAnswer)]
      case RaisesSpent(t) => [By(p, RaiseAfterSpending(t))]
      case Nothing => [By(p, NothingToRefresh)]
      case Raises => [By(p, CallbackRaises)]
  }

  ghost predicate Leads(s: System, steps: seq<Step>, s': System)
    decreases |steps|
  {
    if steps == [] then s == s'
    else Enabled(ANY_LOSS, s, steps[0]) && Leads(Apply(ANY_LOSS, s, steps[0]), steps[1..], s')
  }

  // The critical section of the protocol does to the row and to its caller what LoadLocked does, and
  // always frees the lock.
  lemma SectionRefines(s: System, p: Pid, ask: Answer) returns (s': System)
    requires p in s.procs && s.procs[p].Queueing? && s.lock == None
    requires Spends(ask) ==> ask.tokens.refresh !in s.issued
    ensures Leads(s, Section(p, LockedDecision(s.row, s.now).Calling?, ask), s')
    ensures s'.lock == None && s'.procs.Keys == s.procs.Keys
    ensures (s'.row, s'.procs[p]) == LockedOutcome(s.row, s.now, ask)
    ensures s'.redeemed == s.redeemed + match LockedDecision(s.row, s.now)
                                        case Calling(t) => if Spends(ask) then [t.refresh] else []
                                        case _ => []
    ensures forall q <- s.procs :: q != p ==> s'.procs[q] == s.procs[q]
  {
    var asks := LockedDecision(s.row, s.now).Calling?;
    var steps := Section(p, asks, ask);
    var s1 := Apply(ANY_LOSS, s, steps[0]);
    var s2 := Apply(ANY_LOSS, s1, steps[1]);
    s' := s2;
    assert steps[1..][1..] == steps[2..];
    if asks {
      s' := Apply(ANY_LOSS, s2, steps[2]);
      if ask.Renewed? {
        s' := Apply(ANY_LOSS, s', steps[3]);
        assert steps[2..] == [steps[2], steps[3]];
        assert [steps[2], steps[3]][1..] == [steps[3]];
        assert Leads(Apply(ANY_LOSS, s2, steps[2]), [steps[3]], s');
      } else {
        assert steps[2..] == [steps[2]];
      }
    }
    assert Leads(s2, steps[2..], s');
    assert Leads(s1, steps[1..], s');
  }
}
