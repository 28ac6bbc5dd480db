// Deleting an organization in one transaction, with its LiteLLM team.
module OrgStore {
  import opened Wrappers
  import opened OrgTables

  // The teams of the external LiteLLM server; no rollback reaches them.
  class LiteLlm {
    var teams: set<OrgId>

    constructor ()
      ensures teams == {}
    {
      teams := {};
    }

    // A team that is already gone counts as deleted.
    method DeleteTeam(o: OrgId, up: bool) returns (ok: bool)
      modifies this
      ensures ok == up
      ensures teams == if up then old(teams) - {o} else old(teams)
    {
      ok := up;
      if up { teams := teams - {o}; }
    }
  }

  datatype DeleteError = OrphanedUsers(users: set<UserId>) | LiteLlmFailed | CommitFailed

  // When the deletion is carried out, and what stops it otherwise.
  function Verdict(t: Tables, o: OrgId, litellmUp: bool, commits: bool): Result<Option<Org>, DeleteError> {
    if o !in t.orgs then Ok(None)
    else if Orphans(t, o) != {} then Err(OrphanedUsers(Orphans(t, o)))
    else if !litellmUp then Err(LiteLlmFailed)
    else if !commits then Err(CommitFailed)
    else Ok(Some(t.orgs[o]))
  }

  class Session {
    var committed: Tables
    var work: Tables

    constructor (t: Tables)
      ensures committed == work == t
    {
      committed, work := t, t;
    }

    // Reassign current_org_id for every user that is in o.
    method ReassignUsers(o: OrgId)
      requires Orphans(work, o) == {}
      modifies this`work
      ensures work == old(work).(users := work.users) && work.users.Keys == old(work.users.Keys)
      ensures Reassigned(old(work).users, old(work).members, o, work.users)
    {
      var before := work;
      var todo := set u | u in before.users && before.users[u] == o;
      while todo != {}
        invariant todo <= before.users.Keys
        invariant work == before.(users := work.users) && work.users.Keys == before.users.Keys
        invariant forall u <- before.users ::
                    if before.users[u] != o || u in todo then work.users[u] == before.users[u]
                    else work.users[u] != o && (u, work.users[u]) in before.members
        invariant forall u <- todo :: before.users[u] == o
      {
        var u :| u in todo;
        assert u !in Orphans(before, o);
        var m :| m in before.members && m.0 == u && m.1 != o;
        work := work.(users := work.users[u := m.1]);
        todo := todo - {u};
      }
    }

    // Statements 1 and 2: rows found through, or owned by, the organization.
    method DeleteOwnedRows(o: OrgId)
      modifies this`work
      ensures work == old(work).(metadata := KeptMetadata(old(work).metadata, old(work).saas, o),
                                 startTasks := KeptTasks(old(work).startTasks, old(work).saas, o),
                                 owned := KeptOwned(old(work).owned, o),
                                 saas := KeptSaas(old(work).saas, o))
    {
      work := work.(metadata := KeptMetadata(work.metadata, work.saas, o));
      work := work.(startTasks := KeptTasks(work.startTasks, work.saas, o));
      KeptInEveryTable(work.owned, o);
      work := work.(owned := KeptIn(work.owned, BillingSessions, o));
      work := work.(saas := KeptSaas(work.saas, o));
      work := work.(owned := KeptIn(work.owned, CustomSecrets, o));
      work := work.(owned := KeptIn(work.owned, ApiKeys, o));
      work := work.(owned := KeptIn(work.owned, SlackConversation, o));
      work := work.(owned := KeptIn(work.owned, SlackUsers, o));
      work := work.(owned := KeptIn(work.owned, StripeCustomers, o));
    }

    method DeleteOrgCascade(litellm: LiteLlm, o: OrgId, litellmUp: bool, commits: bool)
      returns (r: Result<Option<Org>, DeleteError>)
      requires work == committed
      modifies this, litellm
      ensures work == committed
      ensures r == Verdict(old(committed), o, litellmUp, commits)
      ensures r == Ok(None) <==> o !in old(committed).orgs
      ensures o in old(committed).orgs && litellmUp && commits ==>
                (r == Ok(Some(old(committed).orgs[o])) <==> forall u :: !Stranded(old(committed), u, o))
      ensures r.Err? && r.error.OrphanedUsers? <==> o in old(committed).orgs && exists u :: Stranded(old(committed), u, o)
      ensures r.Err? && r.error.OrphanedUsers? ==> forall u :: u in r.error.users <==> Stranded(old(committed), u, o)
      ensures r == Err(LiteLlmFailed) <==> o in old(committed).orgs && (forall u :: !Stranded(old(committed), u, o)) && !litellmUp
      ensures r == Err(CommitFailed) <==>
                o in old(committed).orgs && (forall u :: !Stranded(old(committed), u, o)) && litellmUp && !commits
      // all or nothing in the database
      ensures if r.Ok? && r.value.Some? then OrgDeleted(old(committed), o, committed) else committed == old(committed)
      // the team goes exactly when the LiteLLM call was reached and succeeded
      ensures litellm.teams ==
                if r == Err(CommitFailed) || (r.Ok? && r.value.Some?) then old(litellm.teams) - {o} else old(litellm.teams)
      ensures Consistent(old(committed)) ==> Consistent(committed)
    {
      OrphansAreStranded(committed, o);
      if o !in work.orgs { return Ok(None); }
      var org := work.orgs[o];
      DeleteOwnedRows(o);

      // 3. users that are in the organization
      var orphans := Orphans(work, o);
      assert orphans == Orphans(committed, o);
      if orphans != {} {
        work := committed;
        return Err(OrphanedUsers(orphans));
      }
      ReassignUsers(o);

      // 4. memberships, and 5. the organization with its invitations
      work := work.(members := KeptMembers(work.members, o));
      work := work.(orgs := work.orgs - {o}, invitations := KeptInvitations(work.invitations, o));
      assert OrgDeleted(committed, o, work);

      // 6. the external team, inside the open transaction
      var deleted := litellm.DeleteTeam(o, litellmUp);
      if !deleted {
        work := committed;
        return Err(LiteLlmFailed);
      }

      // 7. commit
      if !commits {
        work := committed;
        return Err(CommitFailed);
      }
      if Consistent(committed) { DeletionIsClean(committed, o, work); }
      committed := work;
      return Ok(Some(org));
    }
  }
}
