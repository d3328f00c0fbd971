/**
 Delegation over runs of the identity operations: where parent links lead, what they do to
 scope and organization, and exactly when replacing an identity closes a cycle.
 */
module Delegation {
  import opened Wrappers
  import opened Registry

  // The identity id reached from `id` by n parent links.
  function Up(db: Db, id: string, n: nat): Option<string> {
    if n == 0 then Some(id)
    else
      match Up(db, id, n - 1)
      case None => None
      case Some(a) => if a in db.identities then db.identities[a].parent else None
  }

  // Ids an operation would reuse.
  predicate UsesFreshIds(db: Db, op: Op) {
    match op
    case RegisterIdentity(_, agentId, _, _, _, identityId) => agentId !in db.agents && identityId !in db.identities
    case ClaimAgent(_, agentId, _, _) => ClaimedId(agentId) !in db.identities
    case _ => true
  }

  predicate FreshRun(s: State, fp: string -> string, ops: seq<Timed>) {
    forall i | 0 <= i < |ops| :: FreshAt(s, fp, ops, i)
  }

  predicate FreshAt(s: State, fp: string -> string, ops: seq<Timed>, i: nat)
    requires i < |ops|
  {
    UsesFreshIds(Run(s, fp, ops[..i]).db, ops[i].op)
  }

  /* ----- what every operation with fresh ids keeps ----- */

  predicate OwnedIn(db: Db, agentId: string, org: string) {
    && agentId in db.agents && db.agents[agentId].org == org && !db.agents[agentId].unclaimed
    && db.agents[agentId].owner.Some? && OwnerIn(db, db.agents[agentId].owner.value, org)
  }

  function OrgOf(db: Db, id: string): string
    requires id in db.identities && db.identities[id].agentId in db.agents
  {
    db.agents[db.identities[id].agentId].org
  }

  predicate IdentityOk(s: State, id: string)
    requires id in s.db.identities
  {
    var row := s.db.identities[id];
    && row.agentId in s.db.agents && OwnedIn(s.db, row.agentId, OrgOf(s.db, id))
    && id in s.born && s.born[id] < |s.born|
    && (row.parent.Some? ==>
      && row.parent.value in s.born && s.born[row.parent.value] < s.born[id]
      && IdentityIn(s.db, row.parent.value, OrgOf(s.db, id))
      && Within(row.scope, s.db.identities[row.parent.value].scope))
  }

  predicate DelegationOk(s: State) {
    && s.born.Keys == s.db.identities.Keys
    && (forall id | id in s.db.identities :: IdentityOk(s, id))
    && (forall a | a in s.db.agents && !s.db.agents[a].unclaimed :: OwnedIn(s.db, a, s.db.agents[a].org))
    && OneIdentityEach(s.db)
  }

  predicate OneIdentityEach(db: Db) {
    forall i, j | i in db.identities && j in db.identities ::
      db.identities[i].agentId == db.identities[j].agentId ==> i == j
  }

  // t has all of s's identities, and the agents they need, unchanged.
  predicate Grows(s: State, t: State) {
    && t.db.humans == s.db.humans
    && (forall a | a in s.db.agents && !s.db.agents[a].unclaimed ::
         a in t.db.agents && t.db.agents[a] == s.db.agents[a])
    && (forall id | id in s.db.identities :: id in t.db.identities && t.db.identities[id] == s.db.identities[id])
    && (forall id | id in s.born :: id in t.born && t.born[id] == s.born[id])
    && |s.born| <= |t.born|
  }

  lemma OkGrows(s: State, t: State, id: string)
    requires DelegationOk(s) && Grows(s, t) && id in s.db.identities
    ensures IdentityOk(t, id)
  {
    assert IdentityOk(s, id);
    var parent := s.db.identities[id].parent;
    if parent.Some? { assert IdentityOk(s, parent.value); }
  }

  // One new identity, for a claimed agent, with its parent's approval.
  lemma {:induction false} AddKeeps(s: State, t: State, org: string, agentId: string, owner: string,
                                    scope: set<string>, parent: Option<string>, id: string)
    requires DelegationOk(s) && RegisterOk(s.db, org, owner, scope, parent) && id !in s.db.identities
    requires agentId in s.db.agents ==> s.db.agents[agentId].unclaimed
    requires t.db == s.db.(agents := s.db.agents[agentId := Agent(org, Some(owner), false)],
                           identities := s.db.identities[id := Identity(id, agentId, parent, Some(scope))])
    requires t.born == s.born[id := |s.born|]
    ensures DelegationOk(t)
  {
    hide DelegationOk, Grows, IdentityOk, OwnedIn, OneIdentityEach, RegisterOk;
    BornKnown(s);
    AddGrows(s, t, agentId, Agent(org, Some(owner), false), id, Identity(id, agentId, parent, Some(scope)));
    NewIdentityOk(s, t, org, agentId, owner, scope, parent, id);
    AgentsOwned(s, t, org, agentId, owner, scope, parent);
    StillOneEach(s, t.db, id);
    GrownOk(s, t, id);
  }

  lemma BornKnown(s: State)
    requires DelegationOk(s)
    ensures s.born.Keys == s.db.identities.Keys
  {
    hide IdentityOk, OwnedIn, OneIdentityEach;
  }

  lemma GrownOk(s: State, t: State, id: string)
    requires DelegationOk(s) && Grows(s, t) && OneIdentityEach(t.db)
    requires id in t.db.identities && IdentityOk(t, id)
    requires t.db.identities.Keys == s.db.identities.Keys + {id} && t.born.Keys == s.born.Keys + {id}
    requires forall a | a in t.db.agents && !t.db.agents[a].unclaimed :: OwnedIn(t.db, a, t.db.agents[a].org)
    ensures DelegationOk(t)
  {
    hide Grows, IdentityOk, OwnedIn, OneIdentityEach;
    forall i | i in t.db.identities ensures IdentityOk(t, i) {
      if i != id { OkGrows(s, t, i); }
    }
  }

  // An agent not yet claimed has no identity, so the new one is its only one.
  lemma StillOneEach(s: State, db: Db, id: string)
    requires DelegationOk(s) && id in db.identities && db.identities == s.db.identities[id := db.identities[id]]
    requires var a := db.identities[id].agentId; a in s.db.agents ==> s.db.agents[a].unclaimed
    ensures id !in s.db.identities ==> OneIdentityEach(db)
  {
    forall i | i in s.db.identities ensures s.db.identities[i].agentId != db.identities[id].agentId {
      assert IdentityOk(s, i);
    }
  }

  lemma AddGrows(s: State, t: State, agentId: string, agent: Agent, id: string, identity: Identity)
    requires s.born.Keys == s.db.identities.Keys && id !in s.db.identities
    requires agentId in s.db.agents ==> s.db.agents[agentId].unclaimed
    requires t.db == s.db.(agents := s.db.agents[agentId := agent], identities := s.db.identities[id := identity])
    requires t.born == s.born[id := |s.born|]
    ensures Grows(s, t) && |s.born| < |t.born|
    ensures t.db.identities.Keys == s.db.identities.Keys + {id} && t.born.Keys == s.born.Keys + {id}
  {
    assert |t.born| == |s.born| + 1;
  }

  lemma AgentsOwned(s: State, t: State, org: string, agentId: string, owner: string,
                    scope: set<string>, parent: Option<string>)
    requires DelegationOk(s) && RegisterOk(s.db, org, owner, scope, parent) && t.db.humans == s.db.humans
    requires t.db.agents == s.db.agents[agentId := Agent(org, Some(owner), false)]
    ensures forall a | a in t.db.agents && !t.db.agents[a].unclaimed :: OwnedIn(t.db, a, t.db.agents[a].org)
  {
    hide IdentityOk, Within, IdentityIn;
    forall a | a in t.db.agents && !t.db.agents[a].unclaimed ensures OwnedIn(t.db, a, t.db.agents[a].org) {
      if a != agentId { assert OwnedIn(s.db, a, s.db.agents[a].org); }
    }
  }

  lemma NewIdentityOk(s: State, t: State, org: string, agentId: string, owner: string,
                      scope: set<string>, parent: Option<string>, id: string)
    requires DelegationOk(s) && RegisterOk(s.db, org, owner, scope, parent) && Grows(s, t)
    requires id in t.db.identities && t.db.identities[id] == Identity(id, agentId, parent, Some(scope))
    requires agentId in t.db.agents && t.db.agents[agentId] == Agent(org, Some(owner), false)
    requires id in t.born && t.born[id] == |s.born| < |t.born|
    ensures IdentityOk(t, id)
  {
    if parent.Some? { assert IdentityOk(s, parent.value); }
  }

  lemma DiscoverKeeps(s: State, t: State, org: string, agentId: string)
    requires DelegationOk(s) && t == s.(db := Discover(s.db, org, agentId))
    ensures DelegationOk(t)
  {
    assert Grows(s, t);
    forall id | id in t.db.identities ensures IdentityOk(t, id) { OkGrows(s, t, id); }
  }

  lemma QuietKeeps(s: State, t: State)
    requires DelegationOk(s)
    requires t.db.identities == s.db.identities && t.db.agents == s.db.agents
    requires t.db.humans == s.db.humans && t.born == s.born
    ensures DelegationOk(t)
  {
    forall id | id in t.db.identities ensures IdentityOk(t, id) { OkGrows(s, t, id); }
  }

  lemma {:induction false} StepKeeps(s: State, fp: string -> string, op: Op, now: int)
    requires DelegationOk(s) && UsesFreshIds(s.db, op)
    ensures DelegationOk(Apply(s, fp, op, now))
  {
    hide DelegationOk, LogCredential;
    var t := Apply(s, fp, op, now);
    match op
    case RegisterIdentity(org, agentId, owner, scope, parent, id) =>
      if RegisterOk(s.db, org, owner, scope, parent) { AddKeeps(s, t, org, agentId, owner, scope, parent, id); }
    case ClaimAgent(org, agentId, owner, scope) =>
      if ClaimOk(s.db, org, agentId, owner) { AddKeeps(s, t, org, agentId, owner, scope, None, ClaimedId(agentId)); }
    case DiscoverAgent(org, agentId) => DiscoverKeeps(s, t, org, agentId);
    case _ =>
      CredentialOpsQuiet(s, fp, op, now);
      QuietKeeps(s, t);
  }

  lemma CredentialOpsQuiet(s: State, fp: string -> string, op: Op, now: int)
    requires !op.RegisterIdentity? && !op.ClaimAgent? && !op.DiscoverAgent?
    ensures var t := Apply(s, fp, op, now);
      t.db.identities == s.db.identities && t.db.agents == s.db.agents && t.db.humans == s.db.humans && t.born == s.born
  {
    hide Expired, LogCredential;
  }

  lemma {:induction false} RunKeeps(humans: map<string, string>, fp: string -> string, ops: seq<Timed>)
    requires FreshRun(EmptyState(humans), fp, ops)
    ensures DelegationOk(Run(EmptyState(humans), fp, ops))
  {
    hide Apply, UsesFreshIds;
    if ops != [] {
      var init, n := ops[..|ops| - 1], |ops| - 1;
      forall i | 0 <= i < |init| ensures FreshAt(EmptyState(humans), fp, init, i) {
        assert FreshAt(EmptyState(humans), fp, ops, i) && init[..i] == ops[..i];
      }
      RunKeeps(humans, fp, init);
      assert FreshAt(EmptyState(humans), fp, ops, n);
      StepKeeps(Run(EmptyState(humans), fp, init), fp, ops[n].op, ops[n].at);
    }
  }

  // Every ancestor is older, has a scope at least as wide and is in the same organization.
  lemma {:induction false} AncestorOk(s: State, id: string, n: nat)
    requires DelegationOk(s) && id in s.db.identities && Up(s.db, id, n).Some?
    ensures var a := Up(s.db, id, n).value;
      && a in s.db.identities && IdentityOk(s, a) && IdentityOk(s, id)
      && s.born[a] + n <= s.born[id]
      && Within(s.db.identities[id].scope, s.db.identities[a].scope)
      && OrgOf(s.db, a) == OrgOf(s.db, id)
  {
    assert IdentityOk(s, id);
    if n > 0 {
      AncestorOk(s, id, n - 1);
      assert IdentityOk(s, Up(s.db, id, n).value);
    }
  }

  /**
   Delegation only narrows. In every run that does not reuse ids, no identity is its own
   ancestor, its scope is within that of every ancestor, and the agents along the chain, each
   with its owner, are in one organization.
   */
  lemma {:induction false} DelegationNarrows(humans: map<string, string>, fp: string -> string, ops: seq<Timed>,
                                             id: string, n: nat)
    requires FreshRun(EmptyState(humans), fp, ops)
    requires var db := Run(EmptyState(humans), fp, ops).db; id in db.identities && Up(db, id, n).Some?
    ensures var db := Run(EmptyState(humans), fp, ops).db;
      var a := Up(db, id, n).value;
      && a in db.identities && (n > 0 ==> a != id)
      && Within(db.identities[id].scope, db.identities[a].scope)
      && db.identities[id].agentId in db.agents
      && OwnedIn(db, db.identities[a].agentId, OrgOf(db, id))
  {
    hide Up, Run, FreshRun;
    RunKeeps(humans, fp, ops);
    AncestorOk(Run(EmptyState(humans), fp, ops), id, n);
  }

  /* ----- replacing an identity ----- */

  ghost predicate Acyclic(db: Db) { forall id, n: nat | n > 0 :: Up(db, id, n) != Some(id) }

  ghost predicate Reaches(db: Db, from: string, id: string) { exists n: nat :: Up(db, from, n) == Some(id) }

  lemma {:induction false} UpAdds(db: Db, id: string, m: nat, n: nat)
    requires Up(db, id, m).Some?
    ensures Up(db, id, m + n) == Up(db, Up(db, id, m).value, n)
  {
    if n > 0 { UpAdds(db, id, m, n - 1); }
  }

  lemma {:induction false} UpSome(db: Db, id: string, m: nat, n: nat)
    requires m <= n && Up(db, id, n).Some?
    ensures Up(db, id, m).Some?
    decreases n
  {
    if m < n { UpSome(db, id, m, n - 1); }
  }

  // Links out of other identities than `id` are the same in both tables.
  ghost predicate SameExcept(db: Db, after: Db, id: string) {
    forall a | a != id :: Up(db, a, 1) == Up(after, a, 1)
  }

  // A walk that does not pass `id` is the same in both.
  lemma {:induction false} SameWalk(db: Db, after: Db, id: string, from: string, n: nat)
    requires SameExcept(db, after, id)
    requires forall m: nat | m < n :: Up(db, from, m) != Some(id)
    ensures Up(after, from, n) == Up(db, from, n)
  {
    if n > 0 {
      SameWalk(db, after, id, from, n - 1);
      var a := Up(db, from, n - 1);
      if a.Some? {
        UpAdds(db, from, n - 1, 1);
        UpAdds(after, from, n - 1, 1);
      }
    }
  }

  lemma {:induction false} FirstReach(db: Db, from: string, id: string, n: nat) returns (m: nat)
    requires Up(db, from, n) == Some(id)
    ensures m <= n && Up(db, from, m) == Some(id) && forall i: nat | i < m :: Up(db, from, i) != Some(id)
  {
    m := 0;
    while Up(db, from, m) != Some(id)
      invariant m <= n
      decreases n - m
      invariant forall i: nat | i < m :: Up(db, from, i) != Some(id)
    {
      m := m + 1;
    }
  }

  // With the link id -> parent in place, a cycle closes if the parent already led to id ...
  lemma {:induction false} ReuseCloses(db: Db, after: Db, id: string, parent: string)
    requires SameExcept(db, after, id) && Up(after, id, 1) == Some(parent) && Reaches(db, parent, id)
    ensures !Acyclic(after)
  {
    var n: nat :| Up(db, parent, n) == Some(id);
    var m := FirstReach(db, parent, id, n);
    SameWalk(db, after, id, parent, m);
    UpAdds(after, id, 1, m);
    assert Up(after, id, 1 + m) == Some(id);
  }

  // ... and not otherwise.
  lemma {:induction false} ReuseSafe(db: Db, after: Db, id: string, x: string, n: nat)
    requires Acyclic(db) && SameExcept(db, after, id) && n > 0
    requires Up(after, id, 1).Some? ==> !Reaches(db, Up(after, id, 1).value, id)
    ensures Up(after, x, n) != Some(x)
  {
    if Up(after, x, n) == Some(x) {
      if m: nat :| m < n && Up(after, x, m) == Some(id) {
        UpAdds(after, x, m, n - m);
        UpAdds(after, x, n, m);
        UpAdds(after, x, m, n);
        assert Up(after, id, n) == Some(id);
        UpSome(after, id, 1, n);
        UpAdds(after, id, 1, n - 1);
        var parent := Up(after, id, 1).value;
        assert Up(after, parent, n - 1) == Some(id);
        NeverReaches(db, after, id, parent, n - 1);
        assert false;
      } else {
        SameWalk(after, db, id, x, n);
        assert false;
      }
    }
  }

  lemma {:induction false} NeverReaches(db: Db, after: Db, id: string, from: string, n: nat)
    requires SameExcept(db, after, id) && !Reaches(db, from, id)
    ensures Up(after, from, n) != Some(id)
  {
    SameWalk(db, after, id, from, n);
  }

  /**
   Registering may reuse an identity id. From an acyclic table it leaves one exactly when the
   replaced identity was not the parent or one of the parent's ancestors.
   */
  lemma {:induction false} RegisterAcyclicIff(db: Db, org: string, agentId: string, owner: string, scope: set<string>,
                                              parent: Option<string>, id: string)
    requires Acyclic(db) && RegisterOk(db, org, owner, scope, parent)
    ensures Acyclic(Register(db, org, agentId, owner, scope, parent, id))
      <==> (parent.Some? ==> !Reaches(db, parent.value, id))
  {
    var after := Register(db, org, agentId, owner, scope, parent, id);
    LinksAfter(db, after, id, parent);
    hide Up;
    if parent.Some? && Reaches(db, parent.value, id) {
      ReuseCloses(db, after, id, parent.value);
    } else {
      forall x, n: nat | n > 0 ensures Up(after, x, n) != Some(x) {
        ReuseSafe(db, after, id, x, n);
      }
    }
  }

  lemma LinksAfter(db: Db, after: Db, id: string, parent: Option<string>)
    requires id in after.identities && after.identities[id].parent == parent
    requires after.identities == db.identities[id := after.identities[id]]
    ensures SameExcept(db, after, id) && Up(after, id, 1) == parent
  {
    assert forall a :: Up(db, a, 0) == Some(a) && Up(after, a, 0) == Some(a);
  }

  /** So an identity registered anew under its own id, with itself as parent, is accepted and is a cycle. */
  lemma SelfParentAccepted(org: string, owner: string)
    ensures var db := Db(map[owner := org], map["a" := Agent(org, Some(owner), false)],
                         map["i" := Identity("i", "a", None, Some({}))], map[], []);
      && RegisterOk(db, org, owner, {}, Some("i"))
      && !Acyclic(Register(db, org, "a", owner, {}, Some("i"), "i"))
  {
    var db := Db(map[owner := org], map["a" := Agent(org, Some(owner), false)],
                 map["i" := Identity("i", "a", None, Some({}))], map[], []);
    var after := Register(db, org, "a", owner, {}, Some("i"), "i");
    assert Up(after, "i", 0) == Some("i");
    assert Up(after, "i", 1) == Some("i");
  }

  // Along every parent link the scope is within the parent's.
  predicate LinksNarrow(db: Db) { forall id | id in db.identities :: LinkNarrows(db, id) }

  predicate LinkNarrows(db: Db, id: string)
    requires id in db.identities
  {
    var parent := db.identities[id].parent;
    parent.Some? && parent.value in db.identities ==> Within(db.identities[id].scope, db.identities[parent.value].scope)
  }

  // The other identities delegated from `id` fit under this scope.
  predicate ChildrenFit(db: Db, id: string, scope: set<string>) {
    forall child | child in db.identities && child != id && db.identities[child].parent == Some(id) ::
      Within(db.identities[child].scope, Some(scope))
  }

  /**
   Scopes go on narrowing after a registration exactly when the children of the id it registers,
   if it had any before, fit under the new scope: the check looks at the parent only.
   */
  lemma {:induction false} RegisterNarrowsIff(db: Db, org: string, agentId: string, owner: string, scope: set<string>,
                                              parent: Option<string>, id: string)
    requires LinksNarrow(db) && RegisterOk(db, org, owner, scope, parent)
    ensures LinksNarrow(Register(db, org, agentId, owner, scope, parent, id)) <==> ChildrenFit(db, id, scope)
  {
    var after := Register(db, org, agentId, owner, scope, parent, id);
    if ChildrenFit(db, id, scope) {
      forall x | x in after.identities ensures LinkNarrows(after, x) {
        if x != id { assert LinkNarrows(db, x); }
      }
    }
    if LinksNarrow(after) {
      forall child | child in db.identities && child != id && db.identities[child].parent == Some(id)
        ensures Within(db.identities[child].scope, Some(scope))
      {
        assert LinkNarrows(after, child);
      }
    }
  }

  /** So a parent registered anew with no scope leaves its child a scope it does not have. */
  lemma NarrowedParentAccepted(org: string, owner: string, tool: string)
    ensures var db := Db(map[owner := org],
                         map["a" := Agent(org, Some(owner), false), "b" := Agent(org, Some(owner), false)],
                         map["i" := Identity("i", "a", None, Some({tool})),
                             "j" := Identity("j", "b", Some("i"), Some({tool}))], map[], []);
      && LinksNarrow(db) && RegisterOk(db, org, owner, {}, None)
      && !LinksNarrow(Register(db, org, "a", owner, {}, None, "i"))
  {
    var db := Db(map[owner := org],
                 map["a" := Agent(org, Some(owner), false), "b" := Agent(org, Some(owner), false)],
                 map["i" := Identity("i", "a", None, Some({tool})),
                     "j" := Identity("j", "b", Some("i"), Some({tool}))], map[], []);
    assert LinkNarrows(db, "i") && LinkNarrows(db, "j");
    assert tool in db.identities["j"].scope.value && !ChildrenFit(db, "i", {});
    RegisterNarrowsIff(db, org, "a", owner, {}, None, "i");
  }

  /** Claiming replaces the identity the agent's id names, and is as blind to its children. */
  lemma {:induction false} ClaimNarrowsIff(db: Db, org: string, agentId: string, owner: string, scope: set<string>)
    requires LinksNarrow(db) && ClaimOk(db, org, agentId, owner)
    ensures LinksNarrow(Claim(db, org, agentId, owner, scope)) <==> ChildrenFit(db, ClaimedId(agentId), scope)
  {
    var after, id := Claim(db, org, agentId, owner, scope), ClaimedId(agentId);
    if ChildrenFit(db, id, scope) {
      forall x | x in after.identities ensures LinkNarrows(after, x) {
        if x != id { assert LinkNarrows(db, x); }
      }
    }
    if LinksNarrow(after) {
      forall child | child in db.identities && child != id && db.identities[child].parent == Some(id)
        ensures Within(db.identities[child].scope, Some(scope))
      {
        assert LinkNarrows(after, child);
      }
    }
  }

  /* ----- one organization along every link ----- */

  predicate AgentIn(db: Db, agentId: string, org: string) { agentId in db.agents && db.agents[agentId].org == org }

  // Every parent link joins agents of one organization.
  predicate LinksInOrg(db: Db) { forall id | id in db.identities :: LinkInOrg(db, id) }

  predicate LinkInOrg(db: Db, id: string)
    requires id in db.identities
  {
    var row := db.identities[id];
    row.parent.Some? && row.parent.value in db.identities ==>
      var holder := db.identities[row.parent.value].agentId;
      row.agentId in db.agents && holder in db.agents && db.agents[row.agentId].org == db.agents[holder].org
  }

  // The other links that will end at `id` or join an agent `agentId` have both ends with that agent
  // or in the organization.
  predicate NeighboursIn(db: Db, org: string, agentId: string, id: string) {
    forall child | child in db.identities && child != id :: NeighbourIn(db, org, agentId, id, child)
  }

  predicate NeighbourIn(db: Db, org: string, agentId: string, id: string, child: string)
    requires child in db.identities
  {
    var row := db.identities[child];
    row.parent.Some? && (row.parent.value == id || row.parent.value in db.identities) ==>
      var holder := if row.parent.value == id then agentId else db.identities[row.parent.value].agentId;
      row.agentId == agentId || holder == agentId ==>
        (row.agentId == agentId || AgentIn(db, row.agentId, org)) && (holder == agentId || AgentIn(db, holder, org))
  }

  /**
   Links go on joining agents of one organization after a registration exactly when every other
   link of the registered identity and of the registered agent ends in the same organization: an
   id in use elsewhere is neither looked up nor refused.
   */
  lemma {:induction false} RegisterInOrgIff(db: Db, org: string, agentId: string, owner: string, scope: set<string>,
                                            parent: Option<string>, id: string)
    requires LinksInOrg(db) && RegisterOk(db, org, owner, scope, parent)
    ensures LinksInOrg(Register(db, org, agentId, owner, scope, parent, id)) <==> NeighboursIn(db, org, agentId, id)
  {
    var after := Register(db, org, agentId, owner, scope, parent, id);
    assert LinkInOrg(after, id);
    forall child | child in db.identities && child != id
      ensures LinkInOrg(after, child) <==> NeighbourIn(db, org, agentId, id, child)
    {
      assert LinkInOrg(db, child);
    }
  }

  /** And after a claim, likewise. */
  lemma {:induction false} ClaimInOrgIff(db: Db, org: string, agentId: string, owner: string, scope: set<string>)
    requires LinksInOrg(db) && ClaimOk(db, org, agentId, owner)
    ensures LinksInOrg(Claim(db, org, agentId, owner, scope)) <==> NeighboursIn(db, org, agentId, ClaimedId(agentId))
  {
    var after, id := Claim(db, org, agentId, owner, scope), ClaimedId(agentId);
    forall child | child in db.identities && child != id
      ensures LinkInOrg(after, child) <==> NeighbourIn(db, org, agentId, id, child)
    {
      assert LinkInOrg(db, child);
    }
    assert LinkInOrg(after, id);
  }

  /** So an agent registered anew elsewhere takes one end of its children's links with it. */
  lemma MovedAgentAccepted(org: string, owner: string, other: string, human: string)
    requires org != other && owner != human
    ensures var db := Db(map[owner := org, human := other],
                         map["a" := Agent(org, Some(owner), false), "b" := Agent(org, Some(owner), false)],
                         map["i" := Identity("i", "a", None, Some({})),
                             "j" := Identity("j", "b", Some("i"), Some({}))], map[], []);
      && LinksInOrg(db) && RegisterOk(db, other, human, {}, None)
      && !LinksInOrg(Register(db, other, "a", human, {}, None, "k"))
  {
    var db := Db(map[owner := org, human := other],
                 map["a" := Agent(org, Some(owner), false), "b" := Agent(org, Some(owner), false)],
                 map["i" := Identity("i", "a", None, Some({})),
                     "j" := Identity("j", "b", Some("i"), Some({}))], map[], []);
    assert LinkInOrg(db, "i") && LinkInOrg(db, "j");
    assert !NeighbourIn(db, other, "a", "k", "j");
    RegisterInOrgIff(db, other, "a", human, {}, None, "k");
  }
}
