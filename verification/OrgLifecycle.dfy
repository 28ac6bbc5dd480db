// Any sequence of organization operations, each under any faults.
module OrgLifecycle {
  import opened OrgTables
  import opened OrgService

  // A new organization gets an identifier that nothing uses.
  ghost predicate Enabled(w: World, op: Op) {
    op.Create? ==> op.o !in w.t.orgs && op.o !in w.teams && forall m <- w.t.members :: m.1 != op.o
  }

  datatype Run = Run(states: seq<World>, ops: seq<Op>)

  ghost predicate IsRun(r: Run) {
    && |r.states| == |r.ops| + 1
    && Consistent(r.states[0].t)
    && forall k :: 0 <= k < |r.ops| ==> Enabled(r.states[k], r.ops[k]) && Effect(r.states[k], r.ops[k], r.states[k + 1])
  }

  // Every organization has its team, and every team its organization.
  ghost predicate InStep(w: World) {
    w.t.orgs.Keys == w.teams
  }

  // A committed organization loses its team: the refresh after the commit raises and the compensation works,
  // or the commit of a deletion fails after the team went.
  predicate Strands(w: World, op: Op) {
    match op
    case Create(o, name, u, f) => Persists(w.t, name, u, f) && f.persist.RefreshFails? && f.cleanup
    case Switch(_, _, _) => false
    case Delete(u, o, litellmUp, commits) => MayDelete(w.t, u, o) && litellmUp && !commits
  }

  // A team is left without an organization: the integration fails halfway, or the compensation does.
  predicate Leaks(w: World, op: Op) {
    && op.Create? && NameFree(w.t, op.name) && !Persists(w.t, op.name, op.u, op.f)
    && match op.f.integration
       case IntegrationFails(teamLeft) => teamLeft
       case Integrated => !op.f.cleanup
  }

  lemma ConsistentStep(w: World, op: Op, w': World)
    requires Consistent(w.t) && Enabled(w, op) && Effect(w, op, w')
    ensures Consistent(w'.t)
  {
    if op.Delete? && w'.t != w.t { DeletionIsClean(w.t, op.o, w'.t); }
  }

  lemma InStepStep(w: World, op: Op, w': World)
    requires InStep(w) && Enabled(w, op) && Effect(w, op, w')
    ensures InStep(w') <==> !Strands(w, op) && !Leaks(w, op)
  {
    match op
    case Create(o, name, u, f) =>
      assert o in w'.teams <==> TeamRemains(w.t, name, u, f);
      assert o in w'.t.orgs <==> Persists(w.t, name, u, f);
    case Switch(_, _, _) =>
    case Delete(u, o, litellmUp, commits) =>
      if MayDelete(w.t, u, o) { assert o in w.t.orgs && o in w.teams; }
  }

  // Whatever is created, switched and deleted, and whatever fails: every user stays a member of an existing
  // current organization, and no row names a missing one.
  lemma {:induction false} AlwaysConsistent(r: Run, k: nat)
    requires IsRun(r) && k <= |r.ops|
    ensures Consistent(r.states[k].t)
  {
    if k > 0 {
      AlwaysConsistent(r, k - 1);
      ConsistentStep(r.states[k - 1], r.ops[k - 1], r.states[k]);
    }
  }

  ghost predicate NamesUnique(t: Tables) {
    forall p, q :: p in t.orgs && q in t.orgs && t.orgs[p].name == t.orgs[q].name ==> p == q
  }

  // No two organizations ever get the same name.
  lemma {:induction false} NamesStayUnique(r: Run, k: nat)
    requires IsRun(r) && NamesUnique(r.states[0].t) && k <= |r.ops|
    ensures NamesUnique(r.states[k].t)
  {
    if k > 0 { NamesStayUnique(r, k - 1); }
  }

  ghost predicate Disturbed(r: Run, k: nat)
    requires IsRun(r) && k <= |r.ops|
  {
    exists i :: 0 <= i < k && (Strands(r.states[i], r.ops[i]) || Leaks(r.states[i], r.ops[i]))
  }

  // The database and LiteLLM agree on the organizations throughout a run exactly if no operation strands an
  // organization or leaks a team.
  lemma {:induction false} InStepExactlyUndisturbed(r: Run, n: nat)
    requires IsRun(r) && InStep(r.states[0]) && n <= |r.ops|
    ensures (forall k :: 0 <= k <= n ==> InStep(r.states[k])) <==> !Disturbed(r, n)
  {
    if n > 0 {
      InStepExactlyUndisturbed(r, n - 1);
      if !Disturbed(r, n - 1) {
        InStepStep(r.states[n - 1], r.ops[n - 1], r.states[n]);
        assert InStep(r.states[n]) <==> !Disturbed(r, n);
      }
    }
  }

  // A deletion that was committed took the team first, and left nothing that names the organization.
  lemma CommittedDeletion(r: Run, k: nat)
    requires IsRun(r) && k < |r.ops| && r.ops[k].Delete? && r.ops[k].o in r.states[k].t.orgs
    requires r.ops[k].o !in r.states[k + 1].t.orgs
    ensures r.ops[k].litellmUp && r.ops[k].o !in r.states[k + 1].teams
    ensures !Mentions(r.states[k + 1].t, r.ops[k].o)
  {
    AlwaysConsistent(r, k);
    DeletionIsClean(r.states[k].t, r.ops[k].o, r.states[k + 1].t);
  }
}
