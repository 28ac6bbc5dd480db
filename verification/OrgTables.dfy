// The tables that know organizations, and what keeps them consistent.
module OrgTables {
  import opened Wrappers

  type OrgId = nat
  type UserId = nat
  type ConvId = string
  type RowId = nat

  const ORG_SETTINGS_VERSION := 5

  datatype Org = Org(name: string, version: int)
  datatype Role = Owner | Admin | Member
  datatype Owned = BillingSessions | CustomSecrets | ApiKeys | SlackConversation | SlackUsers | StripeCustomers

  // users:       "user".current_org_id
  // metadata:    conversation_metadata, which does not name the organization itself
  // saas:        conversation_metadata_saas.org_id by conversation
  // startTasks:  app_conversation_start_task.app_conversation_id
  // owned:       the tables with a nullable org_id of their own
  // invitations: org_invitation, deleted by the database with its organization
  datatype Tables = Tables(
    orgs: map<OrgId, Org>,
    users: map<UserId, OrgId>,
    members: map<(UserId, OrgId), Role>,
    metadata: set<ConvId>,
    saas: map<ConvId, OrgId>,
    startTasks: map<RowId, Option<ConvId>>,
    owned: map<(Owned, RowId), Option<OrgId>>,
    invitations: map<RowId, OrgId>)

  // Every user is a member of an existing current organization, every membership names an existing
  // user and organization, and no row names a missing organization.
  ghost predicate Consistent(t: Tables) {
    && (forall u <- t.users :: (u, t.users[u]) in t.members)
    && (forall m <- t.members :: m.0 in t.users && m.1 in t.orgs)
    && (forall c <- t.saas :: t.saas[c] in t.orgs)
    && (forall r <- t.owned :: t.owned[r].Some? ==> t.owned[r].value in t.orgs)
    && (forall i <- t.invitations :: t.invitations[i] in t.orgs)
  }

  ghost predicate Mentions(t: Tables, o: OrgId) {
    || o in t.orgs
    || (exists u <- t.users :: t.users[u] == o)
    || (exists m <- t.members :: m.1 == o)
    || (exists c <- t.saas :: t.saas[c] == o)
    || (exists r <- t.owned :: t.owned[r] == Some(o))
    || (exists i <- t.invitations :: t.invitations[i] == o)
  }

  predicate HasAlternative(t: Tables, u: UserId, o: OrgId) {
    exists m <- t.members.Keys :: m.0 == u && m.1 != o
  }

  // Users whose current organization is o and who belong to no other.
  function Orphans(t: Tables, o: OrgId): set<UserId> {
    set u | u in t.users && t.users[u] == o && !HasAlternative(t, u, o)
  }

  // u would be left without an organization: o is his current one, and he is in no other, in whatever role.
  ghost predicate Stranded(t: Tables, u: UserId, o: OrgId) {
    u in t.users && t.users[u] == o && forall p :: (u, p) in t.members ==> p == o
  }

  lemma OrphansAreStranded(t: Tables, o: OrgId)
    ensures forall u :: u in Orphans(t, o) <==> Stranded(t, u, o)
    ensures Orphans(t, o) == {} <==> forall u :: !Stranded(t, u, o)
  {
    forall u ensures u in Orphans(t, o) <==> Stranded(t, u, o) {
      if u in t.users && HasAlternative(t, u, o) {
        var m :| m in t.members.Keys && m.0 == u && m.1 != o;
        assert (u, m.1) in t.members;
      }
    }
  }

  // ----- the rows that each DELETE ... WHERE org_id = :org_id keeps -----

  predicate OfOrg(saas: map<ConvId, OrgId>, c: ConvId, o: OrgId) {
    c in saas && saas[c] == o
  }

  function KeptMetadata(metadata: set<ConvId>, saas: map<ConvId, OrgId>, o: OrgId): set<ConvId> {
    set c | c in metadata && !OfOrg(saas, c, o)
  }

  function KeptTasks(tasks: map<RowId, Option<ConvId>>, saas: map<ConvId, OrgId>, o: OrgId): map<RowId, Option<ConvId>> {
    map k | k in tasks && !(tasks[k].Some? && OfOrg(saas, tasks[k].value, o)) :: tasks[k]
  }

  function KeptSaas(saas: map<ConvId, OrgId>, o: OrgId): map<ConvId, OrgId> {
    map c | c in saas && saas[c] != o :: saas[c]
  }

  function KeptIn(owned: map<(Owned, RowId), Option<OrgId>>, table: Owned, o: OrgId): map<(Owned, RowId), Option<OrgId>> {
    map r | r in owned && !(r.0 == table && owned[r] == Some(o)) :: owned[r]
  }

  function KeptOwned(owned: map<(Owned, RowId), Option<OrgId>>, o: OrgId): map<(Owned, RowId), Option<OrgId>> {
    map r | r in owned && owned[r] != Some(o) :: owned[r]
  }

  function KeptMembers(members: map<(UserId, OrgId), Role>, o: OrgId): map<(UserId, OrgId), Role> {
    map m | m in members && m.1 != o :: members[m]
  }

  function KeptInvitations(invitations: map<RowId, OrgId>, o: OrgId): map<RowId, OrgId> {
    map i | i in invitations && invitations[i] != o :: invitations[i]
  }

  lemma KeptInEveryTable(owned: map<(Owned, RowId), Option<OrgId>>, o: OrgId)
    ensures KeptIn(KeptIn(KeptIn(KeptIn(KeptIn(KeptIn(owned, BillingSessions, o), CustomSecrets, o),
              ApiKeys, o), SlackConversation, o), SlackUsers, o), StripeCustomers, o) == KeptOwned(owned, o)
  {
    var two := KeptIn(KeptIn(owned, BillingSessions, o), CustomSecrets, o);
    var four := KeptIn(KeptIn(two, ApiKeys, o), SlackConversation, o);
    assert forall r :: r in two <==> r in owned && !((r.0.BillingSessions? || r.0.CustomSecrets?) && owned[r] == Some(o));
    assert forall r :: r in four <==> r in owned && (r.0.SlackUsers? || r.0.StripeCustomers? || owned[r] != Some(o));
  }

  // Users in o move to some other organization of theirs; nobody else moves.
  ghost predicate Reassigned(users: map<UserId, OrgId>, members: map<(UserId, OrgId), Role>, o: OrgId, users': map<UserId, OrgId>) {
    && users'.Keys == users.Keys
    && forall u <- users ::
         if users[u] != o then users'[u] == users[u] else users'[u] != o && (u, users'[u]) in members
  }

  // What a committed deletion of o makes of t.
  ghost predicate OrgDeleted(t: Tables, o: OrgId, t': Tables) {
    && Reassigned(t.users, t.members, o, t'.users)
    && t' == Tables(t.orgs - {o}, t'.users, KeptMembers(t.members, o),
                    KeptMetadata(t.metadata, t.saas, o), KeptSaas(t.saas, o), KeptTasks(t.startTasks, t.saas, o),
                    KeptOwned(t.owned, o), KeptInvitations(t.invitations, o))
  }

  // A deletion keeps the invariant, leaves no row that names the organization, and takes a
  // conversation's metadata exactly when it takes its saas row.
  lemma DeletionIsClean(t: Tables, o: OrgId, t': Tables)
    requires Consistent(t) && OrgDeleted(t, o, t')
    ensures Consistent(t') && !Mentions(t', o)
    ensures forall c :: c in t.metadata && c in t.saas ==> (c in t'.metadata <==> c in t'.saas)
    ensures forall c :: c in t.metadata && c !in t.saas ==> c in t'.metadata
  {
    forall u | u in t'.users ensures (u, t'.users[u]) in t'.members && t'.users[u] != o {
      assert (u, t.users[u]) in t.members;
    }
    forall m | m in t'.members ensures m.0 in t'.users && m.1 in t'.orgs {
      assert m in t.members;
    }
  }

  // Which rows a deletion keeps, table by table: exactly those that are not the organization's, unchanged.
  lemma DeletionKeepsOthers(t: Tables, o: OrgId, t': Tables)
    requires OrgDeleted(t, o, t')
    ensures forall p :: p in t'.orgs <==> p in t.orgs && p != o
    ensures forall p <- t'.orgs :: t'.orgs[p] == t.orgs[p]
    ensures forall u :: u in t'.users <==> u in t.users
    ensures forall u <- t'.users :: t.users[u] != o ==> t'.users[u] == t.users[u]
    ensures forall m :: m in t'.members <==> m in t.members && m.1 != o
    ensures forall m <- t'.members :: t'.members[m] == t.members[m]
    ensures forall c :: c in t'.saas <==> c in t.saas && t.saas[c] != o
    ensures forall c <- t'.saas :: t'.saas[c] == t.saas[c]
    ensures forall c :: c in t'.metadata <==> c in t.metadata && !(c in t.saas && t.saas[c] == o)
    ensures forall k :: k in t'.startTasks <==>
              k in t.startTasks && forall c :: t.startTasks[k] == Some(c) ==> !(c in t.saas && t.saas[c] == o)
    ensures forall k <- t'.startTasks :: t'.startTasks[k] == t.startTasks[k]
    ensures forall r :: r in t'.owned <==> r in t.owned && t.owned[r] != Some(o)
    ensures forall r <- t'.owned :: t'.owned[r] == t.owned[r]
    ensures forall i :: i in t'.invitations <==> i in t.invitations && t.invitations[i] != o
    ensures forall i <- t'.invitations :: t'.invitations[i] == t.invitations[i]
  {
  }

  // With the saas rows gone first, the metadata statement would delete nothing.
  lemma MetadataMustGoFirst(t: Tables, o: OrgId)
    ensures KeptMetadata(t.metadata, KeptSaas(t.saas, o), o) == t.metadata
    ensures KeptMetadata(t.metadata, t.saas, o) == t.metadata <==> forall c <- t.metadata :: !OfOrg(t.saas, c, o)
  {
    if KeptMetadata(t.metadata, t.saas, o) == t.metadata {
      forall c | c in t.metadata ensures !OfOrg(t.saas, c, o) {
        assert c in KeptMetadata(t.metadata, t.saas, o);
      }
    }
  }
}
