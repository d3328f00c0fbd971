/**
 The console's views over runs of the identity operations: what `Delegation` keeps is what the
 two walks of `DelegationTree` need to agree.
 */
module DelegationViews {
  import opened Wrappers
  import opened Registry
  import opened Delegation
  import DelegationTree

  // What the console reads; `order` lists the agents by name.
  function TableOf(db: Db, order: seq<string>): DelegationTree.Table {
    DelegationTree.Table(order,
      map a | a in db.agents :: db.agents[a].org,
      map i | i in db.identities :: DelegationTree.IdentityRow(db.identities[i].agentId, db.identities[i].parent))
  }

  ghost predicate Lists(db: Db, order: seq<string>) { forall x :: x in order <==> x in db.agents }

  // A delegation between agents is one between their identities, and the parent's is older.
  lemma OlderParent(s: State, order: seq<string>, i: string, b: string, a: string) returns (p: string)
    requires DelegationOk(s) && i in s.db.identities && s.db.identities[i].agentId == b
    requires DelegationTree.ChildOf(TableOf(s.db, order), b, a)
    ensures p in s.db.identities && s.db.identities[p].agentId == a
    ensures s.db.identities[i].parent == Some(p)
    ensures i in s.born && p in s.born && s.born[p] < s.born[i]
  {
    var t := TableOf(s.db, order);
    var j :| j in t.identities && DelegationTree.ParentLink(t, j, b, a);
    assert j == i;
    assert IdentityOk(s, i);
    p := s.db.identities[i].parent.value;
  }

  lemma {:induction false} OlderAbove(s: State, order: seq<string>, i: string, b: string, a: string,
                                      d: nat) returns (p: string)
    requires DelegationOk(s) && i in s.db.identities && s.db.identities[i].agentId == b
    requires DelegationTree.Above(TableOf(s.db, order), b, a, d)
    ensures p in s.db.identities && s.db.identities[p].agentId == a
    ensures i in s.born && p in s.born && s.born[p] + d <= s.born[i]
    ensures Up(s.db, i, d) == Some(p)
    decreases d
  {
    hide DelegationTree.ChildOf, IdentityOk;
    if d == 0 {
      p := i;
    } else {
      var t := TableOf(s.db, order);
      var m :| DelegationTree.ChildOf(t, b, m) && DelegationTree.Above(t, m, a, d - 1);
      var q := OlderParent(s, order, i, b, m);
      p := OlderAbove(s, order, q, m, a, d - 1);
      UpFrom(s.db, i, q, d);
    }
  }

  lemma UpFrom(db: Db, i: string, q: string, d: nat)
    requires i in db.identities && db.identities[i].parent == Some(q) && d > 0
    ensures Up(db, i, d) == Up(db, q, d - 1)
  {
    assert Up(db, i, 0) == Some(i);
    assert Up(db, i, 1) == Some(q);
    UpAdds(db, i, 1, d - 1);
  }

  // ... and every parent link of an identity is a delegation between agents.
  lemma LinkIsChild(s: State, order: seq<string>, i: string, p: string)
    requires DelegationOk(s) && i in s.db.identities && s.db.identities[i].parent == Some(p)
    ensures p in s.db.identities
    ensures DelegationTree.ChildOf(TableOf(s.db, order), s.db.identities[i].agentId, s.db.identities[p].agentId)
  {
    assert IdentityOk(s, i);
    assert DelegationTree.ParentLink(TableOf(s.db, order), i, s.db.identities[i].agentId, s.db.identities[p].agentId);
  }

  lemma {:induction false} UpIsAbove(s: State, order: seq<string>, i: string, d: nat)
    requires DelegationOk(s) && i in s.db.identities && Up(s.db, i, d).Some?
    ensures Up(s.db, i, d).value in s.db.identities
    ensures DelegationTree.Above(TableOf(s.db, order), s.db.identities[i].agentId,
      s.db.identities[Up(s.db, i, d).value].agentId, d)
  {
    hide DelegationOk, TableOf, DelegationTree.ChildOf;
    var t := TableOf(s.db, order);
    if d > 0 {
      UpIsAbove(s, order, i, d - 1);
      var q, p := Up(s.db, i, d - 1).value, Up(s.db, i, d).value;
      LinkIsChild(s, order, q, p);
      DelegationTree.OneAbove(t, s.db.identities[q].agentId, s.db.identities[p].agentId);
      var a, m, b := s.db.identities[p].agentId, s.db.identities[q].agentId, s.db.identities[i].agentId;
      DelegationTree.AboveAdds(t, b, m, a, d - 1, 1);
    }
  }

  lemma LinkInOrg(s: State, order: seq<string>, b: string, a: string)
    requires DelegationOk(s) && DelegationTree.ChildOf(TableOf(s.db, order), b, a)
    ensures DelegationTree.SameOrg(TableOf(s.db, order), b, a)
  {
    var t := TableOf(s.db, order);
    var i :| i in t.identities && DelegationTree.ParentLink(t, i, b, a);
    assert IdentityOk(s, i);
  }

  lemma {:induction false} KeptIsSound(s: State, order: seq<string>)
    requires DelegationOk(s) && Lists(s.db, order)
    ensures DelegationTree.Sound(TableOf(s.db, order))
  {
    hide DelegationTree.Above;
    var t := TableOf(s.db, order);
    forall i | i in t.identities ensures t.identities[i].agentId in t.orgs { assert IdentityOk(s, i); }
    forall b, a | DelegationTree.ChildOf(t, b, a) ensures DelegationTree.SameOrg(t, b, a) { LinkInOrg(s, order, b, a); }
    forall x, d: nat | d > 0 ensures !DelegationTree.Above(t, x, x, d) { NotAboveItself(s, order, x, d); }
  }

  lemma NotAboveItself(s: State, order: seq<string>, x: string, d: nat)
    requires DelegationOk(s) && d > 0
    ensures !DelegationTree.Above(TableOf(s.db, order), x, x, d)
  {
    hide IdentityOk;
    var t := TableOf(s.db, order);
    if DelegationTree.Above(t, x, x, d) {
      var m :| DelegationTree.ChildOf(t, x, m) && DelegationTree.Above(t, m, x, d - 1);
      var i :| i in t.identities && DelegationTree.ParentLink(t, i, x, m);
      var p := OlderAbove(s, order, i, x, x, d);
    }
  }

  /**
   The views over runs. After any run that does not reuse ids, take any two identities of agents
   a and b, with b's agent let through by the filter: p is the d-th ancestor of b's identity in
   the tables, if and only if a is d from the end of b's ancestor chain, if and only if b is d
   levels down in the tree under a, up to the cap of 20.
   */
  lemma {:induction false} ViewsShowDelegation(humans: map<string, string>, fp: string -> string, ops: seq<Timed>,
                                               order: seq<string>, org: Option<string>, i: string, p: string, d: nat)
    requires FreshRun(EmptyState(humans), fp, ops) && d > 0
    requires var db := Run(EmptyState(humans), fp, ops).db;
      Lists(db, order) && i in db.identities && p in db.identities
      && DelegationTree.Listed(TableOf(db, order), db.identities[i].agentId, org)
    ensures var db := Run(EmptyState(humans), fp, ops).db;
      var t, a, b := TableOf(db, order), db.identities[p].agentId, db.identities[i].agentId;
      var up := DelegationTree.Climb(t, org, db.identities[i].parent, {}, 20);
      var chain := DelegationTree.Reversed(up);
      && ((d <= |chain| && chain[|chain| - d] == a) <==> (d <= 20 && Up(db, i, d) == Some(p)))
      && (DelegationTree.AtDepth(DelegationTree.DelegationChildren(t, a, org), d, b) <==>
        (d <= 20 && Up(db, i, d) == Some(p)))
  {
    hide Run, FreshRun, DelegationOk, Lists, Up, TableOf, DelegationTree.Listed, DelegationTree.Climb,
      DelegationTree.Above, DelegationTree.AtDepth, DelegationTree.Sound, DelegationTree.Unfold,
      DelegationTree.Reversed;
    RunKeeps(humans, fp, ops);
    var s := Run(EmptyState(humans), fp, ops);
    KeptIsSound(s, order);
    AboveIff(s, order, i, p, d);
    DelegationTree.ViewsAreDual(TableOf(s.db, order), org, i, s.db.identities[p].agentId, d) by {
      TableParts(s.db, order, i);
    }
    TableParts(s.db, order, i);
  }

  lemma TableParts(db: Db, order: seq<string>, i: string)
    requires i in db.identities
    ensures var t := TableOf(db, order);
      && i in t.identities && t.identities[i].agentId == db.identities[i].agentId
      && t.identities[i].parent == db.identities[i].parent
  {
  }

  // Delegations between agents and parent links between their identities are the same.
  lemma {:induction false} AboveIff(s: State, order: seq<string>, i: string, p: string, d: nat)
    requires DelegationOk(s) && i in s.db.identities && p in s.db.identities
    ensures DelegationTree.Above(TableOf(s.db, order), s.db.identities[i].agentId, s.db.identities[p].agentId, d)
      <==> Up(s.db, i, d) == Some(p)
  {
    hide DelegationTree.Above, Up, IdentityOk, TableOf;
    var a, b := s.db.identities[p].agentId, s.db.identities[i].agentId;
    if Up(s.db, i, d) == Some(p) { UpIsAbove(s, order, i, d); }
    if DelegationTree.Above(TableOf(s.db, order), b, a, d) {
      var q := OlderAbove(s, order, i, b, a, d);
    }
  }
}
