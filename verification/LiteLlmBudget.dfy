// Moving a user's budget to an organization team in LiteLLM and back.
module LiteLlmBudget {
  import opened Wrappers

  type UserId = string
  type TeamId = string
  type KeyId = string

  const UNLIMITED_BUDGET_SETTING := 1000000000.0

  // Budgets in LiteLLM may be unset.
  datatype User = User(maxBudget: Option<real>, spend: Option<real>)
  datatype Member = Member(budget: real, spend: real)
  datatype Team = Team(maxBudget: Option<real>, spend: real, members: map<UserId, Member>)
  datatype Key = Key(owner: UserId, team: Option<TeamId>)
  datatype Lite = Lite(users: map<UserId, User>, teams: map<TeamId, Team>, keys: map<KeyId, Key>)

  datatype Settings = Settings(version: int, billingMargin: Option<real>)

  // Where a call raises: before a numbered step, or at a key update after some were made.
  datatype Stop = Never | Before(step: nat) | AtKey(updated: nat)

  // What else can go wrong: the keys whose update is answered with 401 (and skipped), and whether the key
  // list can be read (an error reads as no keys).
  datatype Faults = Faults(stop: Stop, refused: set<KeyId>, listed: bool)

  const NO_FAULTS := Faults(Never, {}, true)

  function Max0(x: real): real {
    if x > 0.0 then x else 0.0
  }

  function Or0(x: Option<real>): real {
    match x case Some(v) => v case None => 0.0
  }

  // Before version 4 the margin was billed separately; 0 and 1 mean that none applies.
  function Margin(s: Settings): real {
    if s.version < 4 && s.billingMargin.Some? && s.billingMargin.value != 0.0 && s.billingMargin.value != 1.0
    then s.billingMargin.value else 1.0
  }

  predicate AlreadyMigrated(u: User) {
    u.maxBudget == None || u.maxBudget == Some(UNLIMITED_BUDGET_SETTING)
  }

  function Credits(u: User, s: Settings): real {
    Max0(Margin(s) * (Or0(u.maxBudget) - Or0(u.spend)))
  }

  function Available(t: Team): real {
    Or0(t.maxBudget) - t.spend
  }

  // ----- the calls, as LiteLLM answers them -----

  // POST /team/new, or /team/update when the team exists: its spend is kept.
  function WithTeam(l: Lite, team: TeamId, budget: real): Lite {
    l.(teams := l.teams[team := if team in l.teams then l.teams[team].(maxBudget := Some(budget))
                                else Team(Some(budget), 0.0, map[])])
  }

  // POST /team/member_add: somebody who is already in the team stays as he is.
  function WithMember(l: Lite, team: TeamId, user: UserId, budget: real): Lite {
    if team !in l.teams || user in l.teams[team].members then l
    else l.(teams := l.teams[team := l.teams[team].(members := l.teams[team].members[user := Member(budget, 0.0)])])
  }

  function WithUser(l: Lite, user: UserId, u: User): Lite {
    l.(users := l.users[user := u])
  }

  function KeysMoved(keys: map<KeyId, Key>, user: UserId, team: Option<TeamId>, moved: set<KeyId>): map<KeyId, Key> {
    map k | k in keys :: if keys[k].owner == user && k in moved then keys[k].(team := team) else keys[k]
  }

  function WithoutTeam(l: Lite, team: TeamId): Lite {
    l.(teams := l.teams - {team})
  }

  function OwnKeys(l: Lite, user: UserId): set<KeyId> {
    set k | k in l.keys && l.keys[k].owner == user
  }

  function WithoutMember(l: Lite, team: TeamId, user: UserId): Lite {
    if team !in l.teams then l
    else l.(teams := l.teams[team := l.teams[team].(members := l.teams[team].members - {user})])
  }

  // ----- a user's membership, as it is read back -----

  datatype Membership = Membership(budgetTable: real, maxBudgetInTeam: Option<real>, spend: real)

  // In a team that is not the user's own, the team's budget and spend are shared by its members.
  function GetUserTeamInfo(l: Lite, user: UserId, team: TeamId): Option<Membership> {
    if team !in l.teams || user !in l.teams[team].members then None
    else
      var t := l.teams[team];
      var m := t.members[user];
      if user != team then Some(Membership(m.budget, t.maxBudget, t.spend)) else Some(Membership(m.budget, None, m.spend))
  }

  // (max_budget, spend)
  function GetBudgetFromTeamInfo(info: Option<Membership>, user: UserId, org: TeamId): (real, real) {
    match info
    case None => (0.0, 0.0)
    case Some(m) => (if user == org then m.budgetTable else Or0(m.maxBudgetInTeam), m.spend)
  }

  // ----- what the two transformations come to -----

  // The keys that an undisturbed _update_user_keys moves.
  function Movable(l: Lite, user: UserId, f: Faults): set<KeyId> {
    if f.listed then OwnKeys(l, user) - f.refused else {}
  }

  lemma MoveOne(keys: map<KeyId, Key>, user: UserId, team: Option<TeamId>, moved: set<KeyId>, k: KeyId)
    requires k in keys && keys[k].owner == user
    ensures KeysMoved(keys, user, team, moved)[k := KeysMoved(keys, user, team, moved)[k].(team := team)]
            == KeysMoved(keys, user, team, moved + {k})
  {
  }

  // Whether a transformation that makes so many steps, the key updates being one of them, is cut short.
  predicate Interrupted(l: Lite, user: UserId, f: Faults, steps: nat) {
    match f.stop
    case Never => false
    case Before(k) => 1 <= k <= steps
    case AtKey(n) => f.listed && n < |OwnKeys(l, user)|
  }

  // The first n of: the team, the user, his membership.
  function MigrateStage(l: Lite, org: TeamId, user: UserId, s: Settings, n: nat): Lite
    requires user in l.users
  {
    var u := l.users[user];
    var l1 := WithTeam(l, org, Credits(u, s));
    var l2 := WithUser(l1, user, u.(maxBudget := Some(UNLIMITED_BUDGET_SETTING)));
    if n == 0 then l else if n == 1 then l1 else if n == 2 then l2 else WithMember(l2, org, user, Credits(u, s))
  }

  function Migrated(l: Lite, org: TeamId, user: UserId, s: Settings, f: Faults): Lite
    requires user in l.users
  {
    MigrateStage(l, org, user, s, 3).(keys := KeysMoved(l.keys, user, Some(org), Movable(l, user, f)))
  }

  // The first n of: the user, the default team, the keys, the membership.
  function DowngradeStage(l: Lite, org: TeamId, user: UserId, d: Option<TeamId>, moved: set<KeyId>, n: nat): Lite
    requires org in l.teams && user in l.users
  {
    var t := l.teams[org];
    var l1 := WithUser(l, user, User(Some(Or0(t.maxBudget)), Some(t.spend)));
    var l2 := if d.Some? then WithMember(l1, d.value, user, Or0(t.maxBudget)) else l1;
    var l3 := l2.(keys := KeysMoved(l.keys, user, d, moved));
    if n == 0 then l else if n == 1 then l1 else if n == 2 then l2 else if n == 3 then l3 else WithoutMember(l3, org, user)
  }

  // Budget and spend of the team go back to the user, and the team goes.
  function Downgraded(l: Lite, org: TeamId, user: UserId, d: Option<TeamId>, f: Faults): Lite
    requires org in l.teams && user in l.users
  {
    WithoutTeam(DowngradeStage(l, org, user, d, Movable(l, user, f), 4), org)
  }

  lemma Distributes(m: real, x: real, y: real)
    ensures m * x - m * y == m * (x - y)
    ensures x * m - y * m == m * (x - y)
  {
  }

  class Manager {
    var lite: Lite

    constructor (lite: Lite)
      ensures this.lite == lite
    {
      this.lite := lite;
    }

    method UpdateUserKeys(user: UserId, team: Option<TeamId>, f: Faults) returns (ok: bool, ghost moved: set<KeyId>)
      modifies this
      ensures lite == old(lite).(keys := KeysMoved(old(lite).keys, user, team, moved))
      ensures moved <= Movable(old(lite), user, f) && (ok ==> moved == Movable(old(lite), user, f))
      ensures ok <==> !(f.stop.AtKey? && f.listed && f.stop.updated < |OwnKeys(old(lite), user)|)
    {
      var todo := if f.listed then OwnKeys(lite, user) else {};
      var all, i := todo, 0;
      assert forall k <- all :: k in lite.keys && lite.keys[k].owner == user;
      ghost var l := lite;
      moved := {};
      assert KeysMoved(l.keys, user, team, {}) == l.keys;
      while todo != {}
        invariant todo <= all && i + |todo| == |all|
        invariant f.stop.AtKey? ==> i <= f.stop.updated
        invariant moved <= all - f.refused <= moved + todo
        invariant lite == l.(keys := KeysMoved(l.keys, user, team, moved))
      {
        if f.stop == AtKey(i) { return false, moved; }
        var k :| k in todo;
        if k !in f.refused {
          MoveOne(l.keys, user, team, moved, k);
          lite := lite.(keys := lite.keys[k := lite.keys[k].(team := team)]);
          moved := moved + {k};
        }
        todo, i := todo - {k}, i + 1;
      }
      ok := true;
    }

    // ok is false when a call raised.
    method MigrateEntries(org: TeamId, user: UserId, s: Settings, f: Faults) returns (ok: bool, migrated: bool)
      requires user in lite.users
      modifies this
      ensures AlreadyMigrated(old(lite).users[user]) ==> lite == old(lite) && !migrated && ok
      ensures migrated <==> ok && old(lite).users[user].maxBudget.Some? && old(lite).users[user].maxBudget != Some(1000000000.0)
      ensures ok <==> AlreadyMigrated(old(lite).users[user]) || !Interrupted(old(lite), user, f, 4)
      ensures ok && !AlreadyMigrated(old(lite).users[user]) ==> migrated && lite == Migrated(old(lite), org, user, s, f)
      ensures !ok && f.stop.Before? ==> lite == MigrateStage(old(lite), org, user, s, f.stop.step - 1)
      ensures !ok && f.stop.AtKey? ==> exists moved: set<KeyId> ::
                moved <= Movable(old(lite), user, f) && lite == CutShort(old(lite), org, user, s, 3, moved)
    {
      var u := lite.users[user];
      var maxBudget, spend := Or0(u.maxBudget), Or0(u.spend);
      if s.version < 4 && s.billingMargin.Some? && s.billingMargin.value != 0.0 && s.billingMargin.value != 1.0 {
        maxBudget, spend := maxBudget * s.billingMargin.value, spend * s.billingMargin.value;
      }
      if u.maxBudget == None || u.maxBudget == Some(UNLIMITED_BUDGET_SETTING) { return true, false; }
      var credits := Max0(maxBudget - spend);
      Distributes(Margin(s), Or0(u.maxBudget), Or0(u.spend));
      assert credits == Credits(u, s);
      migrated := false;
      if f.stop == Before(1) { return false, false; }
      lite := WithTeam(lite, org, credits);
      if f.stop == Before(2) { return false, false; }
      lite := WithUser(lite, user, u.(maxBudget := Some(UNLIMITED_BUDGET_SETTING)));
      if f.stop == Before(3) { return false, false; }
      lite := WithMember(lite, org, user, credits);
      assert lite == MigrateStage(old(lite), org, user, s, 3);
      if f.stop == Before(4) { return false, false; }
      assert OwnKeys(lite, user) == OwnKeys(old(lite), user);
      ghost var moved;
      ok, moved := UpdateUserKeys(user, Some(org), f);
      assert lite == CutShort(old(lite), org, user, s, 3, moved);
      migrated := ok;
    }

    // done is false when there is no team or a call raised.
    method DowngradeEntries(org: TeamId, user: UserId, d: Option<TeamId>, f: Faults) returns (done: bool)
      requires user in lite.users && d != Some(org)
      modifies this
      ensures done <==> org in old(lite).teams && !Interrupted(old(lite), user, f, 5)
      ensures done ==> lite == Downgraded(old(lite), org, user, d, f)
      ensures org !in old(lite).teams ==> lite == old(lite)
      ensures !done && org in old(lite).teams && f.stop.Before? ==>
                lite == DowngradeStage(old(lite), org, user, d, Movable(old(lite), user, f), f.stop.step - 1)
      ensures !done && org in old(lite).teams && f.stop.AtKey? ==> exists moved: set<KeyId> ::
                moved <= Movable(old(lite), user, f) && lite == DowngradeStage(old(lite), org, user, d, moved, 3)
    {
      if org !in lite.teams { return false; }
      var l := lite;
      var t := lite.teams[org];
      var maxBudget, spend := t.maxBudget, t.spend;
      var membership := GetUserTeamInfo(lite, user, org);
      if membership.Some? && membership.value.maxBudgetInTeam.Some? {
        maxBudget, spend := membership.value.maxBudgetInTeam, membership.value.spend;
      }
      var restored := Or0(maxBudget);
      assert DowngradeStage(l, org, user, d, {}, 0) == lite;
      if f.stop == Before(1) { return false; }
      lite := WithUser(lite, user, User(Some(restored), Some(spend)));
      assert DowngradeStage(l, org, user, d, {}, 1) == lite;
      if f.stop == Before(2) { return false; }
      if d.Some? { lite := WithMember(lite, d.value, user, restored); }
      assert DowngradeStage(l, org, user, d, {}, 2) == lite;
      if f.stop == Before(3) { return false; }
      assert OwnKeys(lite, user) == OwnKeys(l, user);
      ghost var moved;
      done, moved := UpdateUserKeys(user, d, f);
      assert DowngradeStage(l, org, user, d, moved, 3) == lite;
      if !done { return; }
      if f.stop == Before(4) { return false; }
      lite := WithoutMember(lite, org, user);
      assert DowngradeStage(l, org, user, d, moved, 4) == lite;
      if f.stop == Before(5) { return false; }
      lite := WithoutTeam(lite, org);
    }
  }

  // ----- money is neither made nor lost on the way out and back -----

  // The user spends on the team.
  function AfterSpend(l: Lite, org: TeamId, user: UserId, amount: real): Lite
    requires org in l.teams && user in l.teams[org].members
  {
    var t := l.teams[org];
    var m := t.members[user];
    l.(teams := l.teams[org := t.(spend := t.spend + amount, members := t.members[user := m.(spend := m.spend + amount)])])
  }

  // With b, sp and m the user's budget, spend and margin, absent ones read as 0, 0 and 1: the team's budget is
  // m * (b - sp) if that is positive and 0 otherwise, and an existing team keeps what it has spent; the user is
  // marked with the unlimited budget and keeps his spend, and he is in the team.
  lemma MigrationKeepsCredit(l: Lite, org: TeamId, user: UserId, s: Settings, f: Faults, b: real, sp: real, m: real)
    requires user in l.users
    requires b == (match l.users[user].maxBudget case Some(x) => x case None => 0.0)
    requires sp == (match l.users[user].spend case Some(x) => x case None => 0.0)
    requires m == (if s.version < 4 && s.billingMargin.Some? && s.billingMargin.value != 0.0 then s.billingMargin.value else 1.0)
    ensures Credits(l.users[user], s) == if m * (b - sp) > 0.0 then m * (b - sp) else 0.0
    ensures var l1 := Migrated(l, org, user, s, f);
            && org in l1.teams && l1.teams[org].maxBudget == Some(if m * (b - sp) > 0.0 then m * (b - sp) else 0.0)
            && l1.teams[org].spend == (if org in l.teams then l.teams[org].spend else 0.0)
            && user in l1.teams[org].members
            && user in l1.users && l1.users[user] == User(Some(1000000000.0), l.users[user].spend)
  {
  }

  // Which keys a migration moves: exactly the user's own that are listed and not refused.
  lemma MigrationMovesKeys(l: Lite, org: TeamId, user: UserId, s: Settings, f: Faults)
    requires user in l.users
    ensures var l1 := Migrated(l, org, user, s, f);
            && (forall k :: k in l1.keys <==> k in l.keys)
            && (forall k <- l1.keys :: l1.keys[k].owner == l.keys[k].owner)
            && (forall k <- l1.keys ::
                  l1.keys[k].team == if l.keys[k].owner == user && f.listed && k !in f.refused then Some(org) else l.keys[k].team)
            && (org in l.teams ==> org in l1.teams && forall v <- l.teams[org].members ::
                  v in l1.teams[org].members && l1.teams[org].members[v] == l.teams[org].members[v])
            && (forall v :: v != user ==> (v in l1.users <==> v in l.users) && (v in l.users ==> l1.users[v] == l.users[v]))
            && (forall o :: o != org ==> (o in l1.teams <==> o in l.teams) && (o in l.teams ==> l1.teams[o] == l.teams[o]))
  {
  }

  // The steps of a downgrade in their order: after n of them the user has the team's budget and spend back, is in
  // the default team, has his keys moved there, and is out of the team, which is still there.
  lemma DowngradeStageMeaning(l: Lite, org: TeamId, user: UserId, d: TeamId, moved: set<KeyId>, n: nat)
    requires org in l.teams && user in l.users && d != org && n <= 4
    ensures var x := DowngradeStage(l, org, user, Some(d), moved, n);
            var budget := match l.teams[org].maxBudget case Some(b) => b case None => 0.0;
            && user in x.users && org in x.teams
            && x.users[user] == (if n >= 1 then User(Some(budget), Some(l.teams[org].spend)) else l.users[user])
            && (d in l.teams && user !in l.teams[d].members ==>
                  d in x.teams && (user in x.teams[d].members <==> n >= 2) &&
                  (n >= 2 ==> x.teams[d].members[user] == Member(budget, 0.0)))
            && (d in l.teams ==> d in x.teams && forall v <- l.teams[d].members ::
                  v in x.teams[d].members && x.teams[d].members[v] == l.teams[d].members[v])
            && (forall k <- l.keys :: k in x.keys &&
                  x.keys[k].team == if n >= 3 && k in moved && l.keys[k].owner == user then Some(d) else l.keys[k].team)
            && (user in l.teams[org].members ==> (user in x.teams[org].members <==> n < 4))
  {
  }

  // With a new team, in a personal and in a shared organization alike, the budget read back for the user is
  // the migrated credit and the spend read back is what was spent since.
  lemma BudgetReadBack(l: Lite, org: TeamId, user: UserId, s: Settings, f: Faults, amount: real, b: real, sp: real, m: real)
    requires user in l.users && org !in l.teams
    requires b == (match l.users[user].maxBudget case Some(x) => x case None => 0.0)
    requires sp == (match l.users[user].spend case Some(x) => x case None => 0.0)
    requires m == (if s.version < 4 && s.billingMargin.Some? && s.billingMargin.value != 0.0 then s.billingMargin.value else 1.0)
    ensures var l1 := Migrated(l, org, user, s, f);
            && org in l1.teams && user in l1.teams[org].members
            && GetBudgetFromTeamInfo(GetUserTeamInfo(AfterSpend(l1, org, user, amount), user, org), user, org)
               == (if m * (b - sp) > 0.0 then m * (b - sp) else 0.0, amount)
  {
    MigrationKeepsCredit(l, org, user, s, f, b, sp, m);
  }

  // Where a migration that was cut short leaves things: n steps are done, and some keys are moved after the third.
  function CutShort(l: Lite, org: TeamId, user: UserId, s: Settings, n: nat, moved: set<KeyId>): Lite
    requires user in l.users
  {
    MigrateStage(l, org, user, s, n).(keys := KeysMoved(l.keys, user, Some(org), moved))
  }

  function SecondRun(l: Lite, org: TeamId, user: UserId, s: Settings): Lite
    requires user in l.users
  {
    if AlreadyMigrated(l.users[user]) then l else Migrated(l, org, user, s, NO_FAULTS)
  }

  // The membership exists and every key of the user is where it should be.
  predicate NothingLeft(l: Lite, org: TeamId, user: UserId, n: nat, moved: set<KeyId>) {
    && (n >= 3 || (org in l.teams && user in l.teams[org].members))
    && forall k <- OwnKeys(l, user) :: k in moved || l.keys[k].team == Some(org)
  }

  lemma NothingLeftIsDone(l: Lite, org: TeamId, user: UserId, s: Settings, n: nat, moved: set<KeyId>)
    requires user in l.users && 2 <= n <= 3
    ensures CutShort(l, org, user, s, n, moved) == Migrated(l, org, user, s, NO_FAULTS)
            <==> NothingLeft(l, org, user, n, moved)
  {
    var l', all := CutShort(l, org, user, s, n, moved), Migrated(l, org, user, s, NO_FAULTS);
    assert OwnKeys(l, user) - {} == OwnKeys(l, user);
    if NothingLeft(l, org, user, n, moved) {
      assert l'.keys == all.keys;
      assert l'.teams == all.teams;
    }
    if l' == all {
      forall k | k in OwnKeys(l, user) ensures k in moved || l.keys[k].team == Some(org) {
        assert l'.keys[k] == all.keys[k];
      }
      assert user in all.teams[org].members;
    }
  }

  // Wherever the first run was cut short, between two calls or between two key updates, a second run completes
  // the migration exactly if the first had not marked the user yet or had nothing left to do.
  lemma RepeatedMigrationCompletesExactly(l: Lite, org: TeamId, user: UserId, s: Settings, n: nat, moved: set<KeyId>)
    requires user in l.users && !AlreadyMigrated(l.users[user]) && n <= 3 && (n < 3 ==> moved == {})
    ensures var l' := CutShort(l, org, user, s, n, moved);
            && (SecondRun(l', org, user, s) == Migrated(l, org, user, s, NO_FAULTS)
                <==> n <= 1 || NothingLeft(l, org, user, n, moved))
            && (n > 1 ==> SecondRun(l', org, user, s) == l')
  {
    var l' := CutShort(l, org, user, s, n, moved);
    if n <= 1 {
      assert KeysMoved(l.keys, user, Some(org), {}) == l.keys;
      assert OwnKeys(l', user) == OwnKeys(l, user);
      assert WithTeam(l', org, Credits(l.users[user], s)).teams == MigrateStage(l, org, user, s, 1).teams;
    } else {
      NothingLeftIsDone(l, org, user, s, n, moved);
    }
  }

  lemma MoveAgain(keys: map<KeyId, Key>, user: UserId, team: Option<TeamId>, moved: set<KeyId>, all: set<KeyId>)
    requires forall k <- moved :: k in keys && keys[k].owner == user ==> k in all
    ensures KeysMoved(KeysMoved(keys, user, team, moved), user, team, all) == KeysMoved(keys, user, team, all)
  {
  }

  lemma StageKeepsTeam(l: Lite, org: TeamId, user: UserId, d: Option<TeamId>, moved: set<KeyId>, n: nat)
    requires org in l.teams && user in l.users && d != Some(org)
    ensures var l' := DowngradeStage(l, org, user, d, moved, n);
            && org in l'.teams && user in l'.users && OwnKeys(l', user) == OwnKeys(l, user)
            && l'.teams[org].maxBudget == l.teams[org].maxBudget && l'.teams[org].spend == l.teams[org].spend
            && (l'.keys == l.keys || l'.keys == KeysMoved(l.keys, user, d, moved))
  {
  }

  // A downgrade that was cut short anywhere can be repeated, and comes to the same.
  lemma DowngradeCanBeRepeated(l: Lite, org: TeamId, user: UserId, d: Option<TeamId>, moved: set<KeyId>, n: nat)
    requires org in l.teams && user in l.users && d != Some(org)
    ensures var l' := DowngradeStage(l, org, user, d, moved, n);
            && org in l'.teams && user in l'.users
            && Downgraded(l', org, user, d, NO_FAULTS) == Downgraded(l, org, user, d, NO_FAULTS)
  {
    var l' := DowngradeStage(l, org, user, d, moved, n);
    StageKeepsTeam(l, org, user, d, moved, n);
    MoveAgain(l.keys, user, d, moved, OwnKeys(l, user));
    assert OwnKeys(l, user) - {} == OwnKeys(l, user);
    var budget := Or0(l.teams[org].maxBudget);
    StageParts(l, org, user, d, moved, n, budget);
    SameOtherTeams(l, l', org, user, d, budget);
    DowngradedParts(l, org, user, d, NO_FAULTS);
    DowngradedParts(l', org, user, d, NO_FAULTS);
  }

  // The other teams once the user is back in the default team.
  function OtherTeams(l: Lite, org: TeamId, user: UserId, d: Option<TeamId>, budget: real): map<TeamId, Team> {
    (if d.Some? then WithMember(l, d.value, user, budget) else l).teams - {org}
  }

  lemma DowngradedParts(l: Lite, org: TeamId, user: UserId, d: Option<TeamId>, f: Faults)
    requires org in l.teams && user in l.users && d != Some(org)
    ensures var t := l.teams[org];
            && Downgraded(l, org, user, d, f).users == l.users[user := User(Some(Or0(t.maxBudget)), Some(t.spend))]
            && Downgraded(l, org, user, d, f).teams == OtherTeams(l, org, user, d, Or0(t.maxBudget))
            && Downgraded(l, org, user, d, f).keys == KeysMoved(l.keys, user, d, Movable(l, user, f))
  {
  }

  lemma StageParts(l: Lite, org: TeamId, user: UserId, d: Option<TeamId>, moved: set<KeyId>, n: nat, budget: real)
    requires org in l.teams && user in l.users && d != Some(org) && budget == Or0(l.teams[org].maxBudget)
    ensures var l' := DowngradeStage(l, org, user, d, moved, n);
            && (l'.teams - {org} == l.teams - {org} || l'.teams - {org} == OtherTeams(l, org, user, d, budget))
            && l'.users[user := User(Some(budget), Some(l.teams[org].spend))] ==
               l.users[user := User(Some(budget), Some(l.teams[org].spend))]
  {
    assert WithMember(l, org, user, budget).teams - {org} == l.teams - {org};
  }

  lemma SameOtherTeams(l: Lite, l': Lite, org: TeamId, user: UserId, d: Option<TeamId>, budget: real)
    requires d != Some(org)
    requires l'.teams - {org} == l.teams - {org} || l'.teams - {org} == OtherTeams(l, org, user, d, budget)
    ensures OtherTeams(l', org, user, d, budget) == OtherTeams(l, org, user, d, budget)
  {
    forall x ensures x in OtherTeams(l', org, user, d, budget) <==> x in OtherTeams(l, org, user, d, budget) {
      assert x in l'.teams - {org} <==> x in l.teams - {org};
    }
    forall x | x in OtherTeams(l, org, user, d, budget)
      ensures OtherTeams(l', org, user, d, budget)[x] == OtherTeams(l, org, user, d, budget)[x]
    {
      assert (l'.teams - {org})[x] == l'.teams[x] && (l.teams - {org})[x] == l.teams[x];
    }
  }

  // Out, any spending on the team, and back: the user is left with the credit less the spending, no team,
  // and, if every key could be updated, no key of the user that names the deleted team.
  lemma RoundTripConserves(l: Lite, org: TeamId, user: UserId, s: Settings, f: Faults, amount: real,
                           d: Option<TeamId>, g: Faults, b: real, sp: real, m: real)
    requires user in l.users && org !in l.teams && d != Some(org)
    requires b == (match l.users[user].maxBudget case Some(x) => x case None => 0.0)
    requires sp == (match l.users[user].spend case Some(x) => x case None => 0.0)
    requires m == (if s.version < 4 && s.billingMargin.Some? && s.billingMargin.value != 0.0 then s.billingMargin.value else 1.0)
    ensures var l1 := Migrated(l, org, user, s, f);
            && org in l1.teams && user in l1.users && user in l1.teams[org].members
            && var l2 := AfterSpend(l1, org, user, amount);
               var l3 := Downgraded(l2, org, user, d, g);
               && user in l3.users && org !in l3.teams
               && l3.users[user].maxBudget.Some? && l3.users[user].spend.Some?
               && l3.users[user].maxBudget.value - l3.users[user].spend.value
                  == (if m * (b - sp) > 0.0 then m * (b - sp) else 0.0) - amount
               && (g.listed && OwnKeys(l, user) !! g.refused ==>
                     forall k <- l3.keys :: l3.keys[k].owner == user ==> l3.keys[k].team != Some(org))
               && (forall v <- l.users :: v != user ==> v in l3.users && l3.users[v] == l.users[v])
               && (forall k <- l.keys :: l.keys[k].owner != user ==> k in l3.keys && l3.keys[k] == l.keys[k])
  {
    MigrationKeepsCredit(l, org, user, s, f, b, sp, m);
    var l1 := Migrated(l, org, user, s, f);
    var l2 := AfterSpend(l1, org, user, amount);
    forall k | k in l2.keys && l2.keys[k].owner == user ensures k in OwnKeys(l, user) {
      assert k in l.keys && l.keys[k].owner == user;
    }
  }
}
