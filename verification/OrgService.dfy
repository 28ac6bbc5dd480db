// Creating an organization as a saga over the database and LiteLLM, switching, and owner deletion.
module OrgService {
  import opened Wrappers
  import opened OrgTables
  import opened OrgStore

  datatype ServiceError =
    | NameExists
    | IntegrationFailed
    | DatabaseError(cleanupFailed: bool)
    | NotFound
    | NotAuthorized

  // create_litellm_integration may fail before or after the team exists.
  datatype Integration = Integrated | IntegrationFails(teamLeft: bool)

  // persist_org_with_owner and update_current_org commit, and then refresh the entity, which may raise as well.
  datatype Persist = CommitAndRefresh | CommitFails | RefreshFails

  // integration: step 3;  entities: steps 4 to 6 succeed;  persist: step 7;  cleanup: delete_team succeeds
  datatype Faults = Faults(integration: Integration, entities: bool, persist: Persist, cleanup: bool)

  // The rows and the team of one organization.
  datatype Footprint = Footprint(org: bool, owner: bool, team: bool)

  ghost predicate Presence(t: Tables, teams: set<OrgId>, o: OrgId, u: UserId, f: Footprint) {
    && (f.org <==> o in t.orgs)
    && (f.owner <==> (u, o) in t.members && t.members[(u, o)] == Owner)
    && (f.team <==> o in teams)
  }

  // All three, none of them, or only the team together with an error that reports the failed cleanup.
  ghost predicate SagaOutcome(t: Tables, teams: set<OrgId>, o: OrgId, u: UserId, r: Result<Org, ServiceError>) {
    || (r.Ok? && Presence(t, teams, o, u, Footprint(true, true, true)))
    || (r == Err(DatabaseError(false)) && Presence(t, teams, o, u, Footprint(false, false, false)))
    || (r == Err(DatabaseError(true)) && Presence(t, teams, o, u, Footprint(false, false, true)))
  }

  predicate NameFree(t: Tables, name: string) {
    forall o <- t.orgs :: t.orgs[o].name != name
  }

  function WithOrg(t: Tables, o: OrgId, name: string, u: UserId): Tables {
    t.(orgs := t.orgs[o := Org(name, ORG_SETTINGS_VERSION)], members := t.members[(u, o) := Owner])
  }

  // The organization was committed, and then an exception was raised.
  predicate RaisesAfterCommit(t: Tables, u: UserId, f: Faults) {
    f.integration.Integrated? && f.entities && f.persist.RefreshFails? && u in t.users
  }

  // The database and LiteLLM together.
  datatype World = World(t: Tables, teams: set<OrgId>)

  datatype Op =
    | Create(o: OrgId, name: string, u: UserId, f: Faults)
    | Switch(u: UserId, o: OrgId, persist: Persist)
    | Delete(u: UserId, o: OrgId, litellmUp: bool, commits: bool)

  predicate Persists(t: Tables, name: string, u: UserId, f: Faults) {
    NameFree(t, name) && f.integration.Integrated? && f.entities && !f.persist.CommitFails? && u in t.users
  }

  // Only an owner's deletion that strands no user reaches LiteLLM.
  predicate MayDelete(t: Tables, u: UserId, o: OrgId) {
    o in t.orgs && (u, o) in t.members && t.members[(u, o)] == Owner && Orphans(t, o) == {}
  }

  // What an operation makes of the database and of LiteLLM under its faults.
  ghost predicate Effect(w: World, op: Op, w': World) {
    match op
    case Create(o, name, u, f) =>
      && w'.t == (if Persists(w.t, name, u, f) then WithOrg(w.t, o, name, u) else w.t)
      && w'.teams == w.teams + if TeamRemains(w.t, name, u, f) then {o} else {}
    case Switch(u, o, persist) =>
      && w'.teams == w.teams
      && w'.t == if o in w.t.orgs && (u, o) in w.t.members && u in w.t.users && !persist.CommitFails?
                 then w.t.(users := w.t.users[u := o]) else w.t
    case Delete(u, o, litellmUp, commits) =>
      && w'.teams == (if MayDelete(w.t, u, o) && litellmUp then w.teams - {o} else w.teams)
      && if MayDelete(w.t, u, o) && litellmUp && commits then OrgDeleted(w.t, o, w'.t) else w'.t == w.t
  }

  // Whether a creation leaves its team: it succeeds, or nobody can take the team away again.
  predicate TeamRemains(t: Tables, name: string, u: UserId, f: Faults) {
    NameFree(t, name) &&
    match f.integration
    case IntegrationFails(teamLeft) => teamLeft
    case Integrated => (Persists(t, name, u, f) && f.persist.CommitAndRefresh?) || !f.cleanup
  }

  function CreateReply(t: Tables, name: string, u: UserId, f: Faults): Result<Org, ServiceError> {
    if !NameFree(t, name) then Err(NameExists)
    else if !f.integration.Integrated? then Err(IntegrationFailed)
    else if Persists(t, name, u, f) && f.persist.CommitAndRefresh? then Ok(Org(name, ORG_SETTINGS_VERSION))
    else Err(DatabaseError(!f.cleanup))
  }

  // Once the integration has succeeded the saga ends as promised exactly if nothing raised after its commit;
  // then the organization exists without its team when the compensation works.
  lemma SagaEndsAsPromised(w: World, w': World, o: OrgId, name: string, u: UserId, f: Faults)
    requires Effect(w, Create(o, name, u, f), w') && NameFree(w.t, name) && f.integration.Integrated?
    requires o !in w.t.orgs && o !in w.teams && forall m <- w.t.members :: m.1 != o
    ensures SagaOutcome(w'.t, w'.teams, o, u, CreateReply(w.t, name, u, f)) <==> !RaisesAfterCommit(w.t, u, f)
    ensures RaisesAfterCommit(w.t, u, f) ==> Presence(w'.t, w'.teams, o, u, Footprint(true, true, !f.cleanup))
  {
    assert o in w'.teams <==> TeamRemains(w.t, name, u, f);
    assert (u, o) !in w.t.members;
    assert forall p: Footprint, q: Footprint ::
        Presence(w'.t, w'.teams, o, u, p) && Presence(w'.t, w'.teams, o, u, q) ==> p == q;
  }

  class Service {
    const session: Session
    const litellm: LiteLlm

    constructor (session: Session, litellm: LiteLlm)
      ensures this.session == session && this.litellm == litellm
    {
      this.session, this.litellm := session, litellm;
    }

    // Both rows or neither; the membership needs an existing user, the organization an unused name.
    method PersistOrgWithOwner(o: OrgId, name: string, u: UserId, persist: Persist) returns (ok: bool)
      requires session.work == session.committed
      modifies session
      ensures session.work == session.committed
      ensures session.committed ==
                if !persist.CommitFails? && u in old(session.committed.users) && NameFree(old(session.committed), name)
                then old(session.committed).(orgs := old(session.committed.orgs)[o := Org(name, 5)],
                                             members := old(session.committed.members)[(u, o) := Owner])
                else old(session.committed)
      ensures ok == (persist.CommitAndRefresh? && u in old(session.committed.users) && NameFree(old(session.committed), name))
    {
      session.work := session.work.(orgs := session.work.orgs[o := Org(name, ORG_SETTINGS_VERSION)]);
      session.work := session.work.(members := session.work.members[(u, o) := Owner]);
      if persist.CommitFails? || u !in session.committed.users || !NameFree(session.committed, name) {
        session.work := session.committed;
        return false;
      }
      session.committed := session.work;
      ok := persist.CommitAndRefresh?;
    }

    // _handle_failure_with_cleanup
    method HandleFailureWithCleanup(o: OrgId, cleanup: bool) returns (e: ServiceError)
      modifies litellm
      ensures e == DatabaseError(!cleanup)
      ensures litellm.teams == if cleanup then old(litellm.teams) - {o} else old(litellm.teams)
    {
      var deleted := litellm.DeleteTeam(o, cleanup);
      e := DatabaseError(!deleted);
    }

    // o is the fresh identifier drawn in step 2.
    method CreateOrgWithOwner(o: OrgId, name: string, u: UserId, f: Faults) returns (r: Result<Org, ServiceError>)
      requires session.work == session.committed
      requires o !in session.committed.orgs && o !in litellm.teams
      modifies session, litellm
      ensures session.work == session.committed
      ensures r == Err(NameExists) <==> exists p :: p in old(session.committed.orgs) && old(session.committed.orgs)[p].name == name
      ensures r == Err(IntegrationFailed) <==> r != Err(NameExists) && !f.integration.Integrated?
      ensures r.Ok? <==> r != Err(NameExists) && f == Faults(Integrated, true, CommitAndRefresh, f.cleanup) && u in old(session.committed.users)
      ensures r == CreateReply(old(session.committed), name, u, f)
      ensures Effect(old(World(session.committed, litellm.teams)), Create(o, name, u, f),
                     World(session.committed, litellm.teams))
    {
      if !NameFree(session.committed, name) { return Err(NameExists); }
      match f.integration {
        case IntegrationFails(teamLeft) =>
          if teamLeft { litellm.teams := litellm.teams + {o}; }
          return Err(IntegrationFailed);
        case Integrated => litellm.teams := litellm.teams + {o};
      }
      var persisted := false;
      if f.entities { persisted := PersistOrgWithOwner(o, name, u, f.persist); }
      if persisted { return Ok(Org(name, ORG_SETTINGS_VERSION)); }
      var e := HandleFailureWithCleanup(o, f.cleanup);
      return Err(e);
    }

    // A refresh that raises after the commit reports a switch as failed that has been made.
    method SwitchOrg(u: UserId, o: OrgId, persist: Persist) returns (r: Result<Org, ServiceError>)
      requires session.work == session.committed
      modifies session
      ensures session.work == session.committed
      ensures r.Ok? <==> o in old(session.committed.orgs) && (u, o) in old(session.committed.members) &&
                         u in old(session.committed.users) && persist.CommitAndRefresh?
      ensures r == Err(NotFound) <==> o !in old(session.committed.orgs)
      ensures r == Err(NotAuthorized) <==> o in old(session.committed.orgs) && (u, o) !in old(session.committed.members)
      ensures Effect(old(World(session.committed, litellm.teams)), Switch(u, o, persist),
                     World(session.committed, litellm.teams))
      ensures Consistent(old(session.committed)) ==> Consistent(session.committed)
    {
      if o !in session.committed.orgs { return Err(NotFound); }
      if (u, o) !in session.committed.members { return Err(NotAuthorized); }
      if u !in session.committed.users || persist.CommitFails? { return Err(DatabaseError(false)); }
      session.work := session.work.(users := session.work.users[u := o]);
      session.committed := session.work;
      if persist.RefreshFails? { return Err(DatabaseError(false)); }
      return Ok(session.committed.orgs[o]);
    }

    method DeleteOrgWithCleanup(u: UserId, o: OrgId, litellmUp: bool, commits: bool) returns (r: Result<Org, ServiceError>)
      requires session.work == session.committed
      modifies session, litellm
      ensures session.work == session.committed
      ensures r.Ok? <==>
                && o in old(session.committed.orgs)
                && (u, o) in old(session.committed.members) && old(session.committed).members[(u, o)] == Owner
                && (forall w :: !Stranded(old(session.committed), w, o)) && litellmUp && commits
      ensures Effect(old(World(session.committed, litellm.teams)), Delete(u, o, litellmUp, commits),
                     World(session.committed, litellm.teams))
      ensures r.Ok? ==> r.value == old(session.committed).orgs[o]
      ensures Consistent(old(session.committed)) ==> Consistent(session.committed)
    {
      OrphansAreStranded(session.committed, o);
      if o !in session.committed.orgs { return Err(NotFound); }
      if (u, o) !in session.committed.members || session.committed.members[(u, o)] != Owner {
        return Err(NotAuthorized);
      }
      var deleted := session.DeleteOrgCascade(litellm, o, litellmUp, commits);
      match deleted
      case Err(_) => return Err(DatabaseError(false));
      case Ok(None) => return Err(DatabaseError(false));
      case Ok(Some(org)) => return Ok(org);
    }
  }
}
