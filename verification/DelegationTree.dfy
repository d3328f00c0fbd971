/**
 The console's two views of delegation: the loop that climbs from an agent to its root, and
 the recursion that unfolds the agents below one, each with a cap and a cycle guard. Both are
 compared with the one relation they read.
 */
module DelegationTree {
  import opened Wrappers

  const MAX_HOPS := 20

  datatype IdentityRow = IdentityRow(agentId: string, parent: Option<string>)

  // Agents in the order their names sort, with their organizations; identities by id.
  datatype Table = Table(order: seq<string>, orgs: map<string, string>, identities: map<string, IdentityRow>)

  // The agent exists and passes the organization filter.
  predicate Listed(t: Table, agentId: string, org: Option<string>) {
    agentId in t.orgs && (org.Some? ==> t.orgs[agentId] == org.value)
  }

  lemma ListedMeans(t: Table, agentId: string, org: Option<string>)
    ensures Listed(t, agentId, org) <==> agentId in t.orgs && (org.Some? ==> t.orgs[agentId] == org.value)
  {
  }

  // Some identity of b has an identity of a as its parent.
  predicate ChildOf(t: Table, b: string, a: string) {
    exists i | i in t.identities :: ParentLink(t, i, b, a)
  }

  predicate ParentLink(t: Table, i: string, b: string, a: string)
    requires i in t.identities
  {
    var row := t.identities[i];
    && row.agentId == b && row.parent.Some? && row.parent.value in t.identities
    && t.identities[row.parent.value].agentId == a
  }

  /* ----- climbing ----- */

  // The agents met from identity `current` upwards, nearest first.
  function Climb(t: Table, org: Option<string>, current: Option<string>, seen: set<string>, hops: nat): (r: seq<string>)
    ensures |r| <= hops
    decreases hops
  {
    if current.None? || hops == 0 || current.value !in t.identities then []
    else
      var row := t.identities[current.value];
      if !Listed(t, row.agentId, org) || row.agentId in seen then []
      else [row.agentId] + Climb(t, org, row.parent, seen + {row.agentId}, hops - 1)
  }

  lemma ClimbUnfolds(t: Table, org: Option<string>, id: string, seen: set<string>, hops: nat)
    requires hops > 0 && id in t.identities
    ensures var agentId := t.identities[id].agentId;
      Climb(t, org, Some(id), seen, hops) ==
        if agentId !in t.orgs || (org.Some? && t.orgs[agentId] != org.value) || agentId in seen then []
        else [agentId] + Climb(t, org, t.identities[id].parent, seen + {agentId}, hops - 1)
  {
  }

  lemma ClimbStops(t: Table, org: Option<string>, current: Option<string>, seen: set<string>, hops: nat)
    requires current.None? || hops == 0 || current.value !in t.identities
    ensures Climb(t, org, current, seen, hops) == []
  {
  }

  function Reversed(s: seq<string>): seq<string> { seq(|s|, i requires 0 <= i < |s| => s[|s| - 1 - i]) }

  method AncestorChain(t: Table, parent: Option<string>, org: Option<string>) returns (chain: seq<string>)
    ensures chain == Reversed(Climb(t, org, parent, {}, 20))
    ensures |chain| <= 20
  {
    hide Climb;
    chain := [];
    var seen: set<string> := {};
    var current := parent;
    ghost var whole := Climb(t, org, parent, {}, MAX_HOPS);
    while current.Some? && |chain| < MAX_HOPS
      invariant |chain| <= MAX_HOPS
      invariant whole == chain + Climb(t, org, current, seen, MAX_HOPS - |chain|)
      decreases MAX_HOPS - |chain|
    {
      if current.value !in t.identities {
        ClimbStops(t, org, current, seen, MAX_HOPS - |chain|);
        break;
      }
      ClimbUnfolds(t, org, current.value, seen, MAX_HOPS - |chain|);
      var row := t.identities[current.value];
      if row.agentId !in t.orgs || (org.Some? && t.orgs[row.agentId] != org.value) { break; }
      if row.agentId in seen { break; }
      Regroup(chain, row.agentId, Climb(t, org, row.parent, seen + {row.agentId}, MAX_HOPS - |chain| - 1));
      seen := seen + {row.agentId};
      chain := chain + [row.agentId];
      current := row.parent;
    }
    if current.None? || |chain| == MAX_HOPS { ClimbStops(t, org, current, seen, MAX_HOPS - |chain|); }
    assert chain + [] == chain;
    chain := Reversed(chain);
  }

  lemma Regroup(chain: seq<string>, x: string, rest: seq<string>)
    ensures chain + ([x] + rest) == (chain + [x]) + rest
  {
  }

  /* ----- unfolding ----- */

  datatype Node = Node(id: string, children: seq<Node>)

  function Children(t: Table, agentId: string, org: Option<string>, among: seq<string>): seq<string> {
    if among == [] then []
    else
      var rest := Children(t, agentId, org, among[1..]);
      if ChildOf(t, among[0], agentId) && Listed(t, among[0], org) then [among[0]] + rest else rest
  }

  function Unfold(t: Table, agentId: string, org: Option<string>, seen: set<string>, depth: nat): seq<Node>
    decreases depth
  {
    if agentId in seen || depth == 0 then []
    else
      var ids := Children(t, agentId, org, t.order);
      seq(|ids|, i requires 0 <= i < |ids| => Node(ids[i], Unfold(t, ids[i], org, seen + {agentId}, depth - 1)))
  }

  function DelegationChildren(t: Table, agentId: string, org: Option<string>): seq<Node> {
    Unfold(t, agentId, org, {}, MAX_HOPS)
  }

  // b is in the tree, d levels below its top.
  ghost predicate AtDepth(nodes: seq<Node>, d: nat, b: string)
    decreases d
  {
    d > 0 && exists i :: 0 <= i < |nodes| && if d == 1 then nodes[i].id == b else AtDepth(nodes[i].children, d - 1, b)
  }

  /* ----- the relation both read ----- */

  // a is d delegations above b.
  ghost predicate Above(t: Table, b: string, a: string, d: nat)
    decreases d
  {
    if d == 0 then a == b else exists m :: ChildOf(t, b, m) && Above(t, m, a, d - 1)
  }

  predicate SameOrg(t: Table, b: string, a: string) { b in t.orgs && a in t.orgs && t.orgs[b] == t.orgs[a] }

  // Every agent in the name order, every identity's agent present, one identity an agent,
  // delegation within organizations, no agent above itself.
  ghost predicate Sound(t: Table) {
    && (forall x :: x in t.order <==> x in t.orgs)
    && (forall i | i in t.identities :: t.identities[i].agentId in t.orgs)
    && (forall i, j | i in t.identities && j in t.identities ::
          t.identities[i].agentId == t.identities[j].agentId ==> i == j)
    && (forall b, a | ChildOf(t, b, a) :: SameOrg(t, b, a))
    && (forall x, d: nat | d > 0 :: !Above(t, x, x, d))
  }

  lemma {:induction false} AboveAdds(t: Table, c: string, b: string, a: string, m: nat, n: nat)
    requires Above(t, c, b, m) && Above(t, b, a, n)
    ensures Above(t, c, a, m + n)
    decreases m
  {
    if m > 0 {
      var x :| ChildOf(t, c, x) && Above(t, x, b, m - 1);
      AboveAdds(t, x, b, a, m - 1, n);
    }
  }

  lemma OneAbove(t: Table, b: string, a: string)
    requires ChildOf(t, b, a)
    ensures Above(t, b, a, 1)
  {
    assert Above(t, a, a, 0);
  }

  // The last delegation of a path, instead of the first.
  lemma {:induction false} FromTop(t: Table, b: string, a: string, d: nat) returns (c: string)
    requires d > 0 && Above(t, b, a, d)
    ensures ChildOf(t, c, a) && Above(t, b, c, d - 1)
    decreases d
  {
    var m :| ChildOf(t, b, m) && Above(t, m, a, d - 1);
    if d == 1 {
      c := b;
    } else {
      c := FromTop(t, m, a, d - 1);
      assert Above(t, b, c, d - 1);
    }
  }

  lemma {:induction false} ChildrenAre(t: Table, a: string, org: Option<string>, among: seq<string>, x: string)
    ensures x in Children(t, a, org, among) <==> x in among && ChildOf(t, x, a) && Listed(t, x, org)
  {
    hide ChildOf, Listed;
    if among != [] { ChildrenAre(t, a, org, among[1..], x); }
  }

  // In the order of the list.
  predicate Follows(among: seq<string>, ids: seq<string>) {
    forall i, j | 0 <= i < j < |ids| :: Before(among, ids[i], ids[j])
  }

  // x stands before y somewhere in the list.
  predicate Before(s: seq<string>, x: string, y: string) {
    exists p, q :: 0 <= p < q < |s| && s[p] == x && s[q] == y
  }

  lemma {:induction false} ChildrenInOrder(t: Table, a: string, org: Option<string>, among: seq<string>)
    ensures Follows(among, Children(t, a, org, among))
  {
    hide ChildOf, Listed;
    if among != [] {
      var ids, rest := Children(t, a, org, among), Children(t, a, org, among[1..]);
      ChildrenInOrder(t, a, org, among[1..]);
      forall i, j | 0 <= i < j < |ids| ensures Before(among, ids[i], ids[j]) {
        var k := |ids| - |rest|;
        if i < k {
          ChildrenAre(t, a, org, among[1..], ids[j]);
          var q :| 0 <= q < |among[1..]| && among[1..][q] == ids[j];
          assert among[0] == ids[i] && among[q + 1] == ids[j];
        } else {
          assert ids[i] == rest[i - k] && ids[j] == rest[j - k];
          var p, q :| 0 <= p < q < |among[1..]| && among[1..][p] == ids[i] && among[1..][q] == ids[j];
          assert among[p + 1] == ids[i] && among[q + 1] == ids[j];
        }
      }
    }
  }

  predicate Distinct(s: seq<string>) { forall i, j | 0 <= i < j < |s| :: s[i] != s[j] }

  // At every level, the agents under one node are different and stand in the order of their names.
  predicate InNameOrder(order: seq<string>, nodes: seq<Node>) {
    && (forall i, j | 0 <= i < j < |nodes| ::
          nodes[i].id != nodes[j].id && Before(order, nodes[i].id, nodes[j].id))
    && forall n | n in nodes :: InNameOrder(order, n.children)
  }

  /** On every table, cyclic ones included, no agent is shown twice under one node, and siblings are sorted by name. */
  lemma {:induction false} SiblingsInNameOrder(t: Table, a: string, org: Option<string>, seen: set<string>, depth: nat)
    requires Distinct(t.order)
    ensures InNameOrder(t.order, Unfold(t, a, org, seen, depth))
    decreases depth
  {
    hide Children;
    if a !in seen && depth > 0 {
      var ids, nodes := Children(t, a, org, t.order), Unfold(t, a, org, seen, depth);
      ChildrenInOrder(t, a, org, t.order);
      forall i, j | 0 <= i < j < |nodes|
        ensures nodes[i].id != nodes[j].id && Before(t.order, nodes[i].id, nodes[j].id)
      {
        assert nodes[i].id == ids[i] && nodes[j].id == ids[j];
        assert Before(t.order, ids[i], ids[j]);
      }
      forall n | n in nodes ensures InNameOrder(t.order, n.children) {
        var i :| 0 <= i < |nodes| && nodes[i] == n;
        SiblingsInNameOrder(t, ids[i], org, seen + {a}, depth - 1);
        assert nodes[i].id == ids[i];
        assert nodes[i].children == Unfold(t, ids[i], org, seen + {a}, depth - 1);
      }
    }
  }

  lemma ChildIsListed(t: Table, org: Option<string>, b: string, a: string)
    requires Sound(t) && ChildOf(t, b, a)
    ensures b in t.order && (Listed(t, b, org) <==> Listed(t, a, org))
  {
    hide Above;
    assert SameOrg(t, b, a);
  }

  // Delegation does not leave an organization.
  lemma {:induction false} AboveIsListed(t: Table, org: Option<string>, b: string, a: string, d: nat)
    requires Sound(t) && Above(t, b, a, d) && Listed(t, b, org)
    ensures Listed(t, a, org)
    decreases d
  {
    hide Sound, ChildOf, Listed;
    if d > 0 {
      var m :| ChildOf(t, b, m) && Above(t, m, a, d - 1);
      ChildIsListed(t, org, b, m);
      AboveIsListed(t, org, m, a, d - 1);
    }
  }

  // The tree under an agent the filter leaves out is empty.
  lemma UnlistedUnfoldsToNothing(t: Table, org: Option<string>, a: string, depth: nat)
    requires Sound(t) && !Listed(t, a, org)
    ensures Unfold(t, a, org, {}, depth) == []
  {
    hide Sound, ChildOf, Listed, Children;
    var ids := Children(t, a, org, t.order);
    if ids != [] {
      ChildrenAre(t, a, org, t.order, ids[0]);
      ChildIsListed(t, org, ids[0], a);
    }
  }

  /**
   On every table, cyclic ones included, the tree is no deeper than its cap and shows only
   agents that are so many delegations below its root and in the organization asked for.
   */
  lemma {:induction false} WalksAreBounded(t: Table, a: string, org: Option<string>, seen: set<string>, depth: nat,
                                           b: string, d: nat)
    requires AtDepth(Unfold(t, a, org, seen, depth), d, b)
    ensures d <= depth && Above(t, b, a, d)
    ensures b in t.orgs && (org.Some? ==> t.orgs[b] == org.value)
    decreases depth
  {
    hide ChildOf, Listed, Children;
    var ids, nodes := Children(t, a, org, t.order), Unfold(t, a, org, seen, depth);
    var i :| 0 <= i < |nodes| && if d == 1 then nodes[i].id == b else AtDepth(nodes[i].children, d - 1, b);
    ChildrenAre(t, a, org, t.order, ids[i]);
    ListedMeans(t, ids[i], org);
    OneAbove(t, ids[i], a);
    if d > 1 {
      WalksAreBounded(t, ids[i], org, seen + {a}, depth - 1, b, d - 1);
      AboveAdds(t, b, ids[i], a, d - 1, 1);
    }
  }

  // A way down from a to b by d delegations within the filter, that leaves no agent twice and none already seen.
  ghost predicate WayDown(t: Table, org: Option<string>, seen: set<string>, a: string, b: string, d: nat,
                          way: seq<string>)
  {
    && |way| == d + 1 && way[0] == a && way[d] == b
    && (forall i | 0 <= i < d :: Delegates(t, org, way[i], way[i + 1]) && way[i] !in seen)
    && (forall i, j | 0 <= i < j < d :: way[i] != way[j])
  }

  predicate Delegates(t: Table, org: Option<string>, a: string, c: string) { ChildOf(t, c, a) && Listed(t, c, org) }

  lemma WayThrough(t: Table, org: Option<string>, seen: set<string>, a: string, c: string, b: string, d: nat,
                   way: seq<string>)
    requires d > 0 && a !in seen && Delegates(t, org, a, c) && WayDown(t, org, seen + {a}, c, b, d, way)
    ensures WayDown(t, org, seen, a, b, d + 1, [a] + way)
  {
    hide Delegates;
    var all := [a] + way;
    forall i | 0 <= i < d + 1 ensures Delegates(t, org, all[i], all[i + 1]) && all[i] !in seen {
      if i > 0 { assert all[i] == way[i - 1] && all[i + 1] == way[i] && way[i - 1] !in seen + {a}; }
    }
    forall i, j | 0 <= i < j < d + 1 ensures all[i] != all[j] {
      assert all[j] == way[j - 1] && way[j - 1] !in seen + {a};
      if i > 0 { assert all[i] == way[i - 1]; }
    }
  }

  lemma WayOn(t: Table, org: Option<string>, seen: set<string>, a: string, b: string, d: nat, way: seq<string>)
    requires d > 0 && WayDown(t, org, seen, a, b, d, way)
    ensures a !in seen && Delegates(t, org, a, way[1])
    ensures WayDown(t, org, seen + {a}, way[1], b, d - 1, way[1..])
  {
    hide Delegates;
    assert Delegates(t, org, way[0], way[1]);
    forall i | 0 <= i < d - 1
      ensures Delegates(t, org, way[1..][i], way[1..][i + 1]) && way[1..][i] !in seen + {a}
    {
      assert way[1..][i] == way[i + 1] && way[1..][i + 1] == way[i + 2];
      assert Delegates(t, org, way[i + 1], way[i + 2]) && way[0] != way[i + 1];
    }
  }

  lemma {:induction false} ShownOnAWay(t: Table, a: string, org: Option<string>, seen: set<string>, depth: nat,
                                       b: string, d: nat) returns (way: seq<string>)
    requires d > 0 && (forall x | x in t.orgs :: x in t.order) && AtDepth(Unfold(t, a, org, seen, depth), d, b)
    ensures d <= depth && WayDown(t, org, seen, a, b, d, way)
    decreases depth
  {
    hide Children, WayDown, Delegates;
    var ids, nodes := Children(t, a, org, t.order), Unfold(t, a, org, seen, depth);
    var i :| 0 <= i < |nodes| && if d == 1 then nodes[i].id == b else AtDepth(nodes[i].children, d - 1, b);
    ShownChild(t, a, org, ids[i]);
    if d == 1 {
      OneStep(t, org, seen, a, b);
      way := [a, b];
    } else {
      way := ShownOnAWay(t, ids[i], org, seen + {a}, depth - 1, b, d - 1);
      WayThrough(t, org, seen, a, ids[i], b, d - 1, way);
      way := [a] + way;
    }
  }

  lemma {:induction false} WaysAreShown(t: Table, a: string, org: Option<string>, seen: set<string>, depth: nat,
                                        b: string, d: nat, way: seq<string>)
    requires 0 < d <= depth && (forall x | x in t.orgs :: x in t.order) && WayDown(t, org, seen, a, b, d, way)
    ensures AtDepth(Unfold(t, a, org, seen, depth), d, b)
    decreases depth
  {
    hide Children, WayDown, Delegates;
    var ids, nodes := Children(t, a, org, t.order), Unfold(t, a, org, seen, depth);
    WayLength(t, org, seen, a, b, d, way);
    WayOn(t, org, seen, a, b, d, way);
    ShownChild(t, a, org, way[1]);
    var i :| 0 <= i < |ids| && ids[i] == way[1];
    if d > 1 { WaysAreShown(t, way[1], org, seen + {a}, depth - 1, b, d - 1, way[1..]); }
    assert if d == 1 then nodes[i].id == b else AtDepth(nodes[i].children, d - 1, b);
  }

  /**
   What the tree shows on every table, cyclic ones and those with several identities an agent
   included: b stands d levels down exactly if d is within the cap and some way leads down to it
   by d delegations that passes no agent twice on the way to b.
   */
  lemma {:induction false} TreeShowsWays(t: Table, a: string, org: Option<string>, b: string, d: nat)
    requires d > 0 && forall x | x in t.orgs :: x in t.order
    ensures AtDepth(DelegationChildren(t, a, org), d, b) <==>
      d <= 20 && exists way :: WayDown(t, org, {}, a, b, d, way)
  {
    hide Unfold, AtDepth, WayDown;
    if AtDepth(DelegationChildren(t, a, org), d, b) {
      var way := ShownOnAWay(t, a, org, {}, 20, b, d);
    }
    if d <= 20 && exists way :: WayDown(t, org, {}, a, b, d, way) {
      var way :| WayDown(t, org, {}, a, b, d, way);
      WaysAreShown(t, a, org, {}, 20, b, d, way);
    }
  }

  lemma WayLength(t: Table, org: Option<string>, seen: set<string>, a: string, b: string, d: nat, way: seq<string>)
    requires WayDown(t, org, seen, a, b, d, way)
    ensures |way| == d + 1 && way[d] == b
  {
  }

  lemma OneStep(t: Table, org: Option<string>, seen: set<string>, a: string, b: string)
    requires Delegates(t, org, a, b) && a !in seen
    ensures WayDown(t, org, seen, a, b, 1, [a, b])
  {
  }

  lemma ShownChild(t: Table, a: string, org: Option<string>, c: string)
    requires forall x | x in t.orgs :: x in t.order
    ensures c in Children(t, a, org, t.order) <==> Delegates(t, org, a, c)
  {
    ChildrenAre(t, a, org, t.order, c);
  }

  // No two alike, and none among those already seen.
  predicate MetOnce(up: seq<string>, seen: set<string>) {
    (forall x | x in up :: x !in seen) && (forall i, j | 0 <= i < j < |up| :: up[i] != up[j])
  }

  /** On every table a climb meets no agent twice. */
  lemma {:induction false} ClimbMeetsOnce(t: Table, org: Option<string>, current: Option<string>,
                                          seen: set<string>, hops: nat)
    ensures MetOnce(Climb(t, org, current, seen, hops), seen)
    decreases hops
  {
    var up := Climb(t, org, current, seen, hops);
    if up != [] {
      var row := t.identities[current.value];
      ClimbMeetsOnce(t, org, row.parent, seen + {row.agentId}, hops - 1);
      PrependMet(row.agentId, Climb(t, org, row.parent, seen + {row.agentId}, hops - 1), seen);
    }
  }

  // The identity k parents up from `current`.
  function ParentsUp(t: Table, current: Option<string>, k: nat): Option<string>
    decreases k
  {
    if k == 0 then current
    else if current.None? || current.value !in t.identities then None
    else ParentsUp(t, t.identities[current.value].parent, k - 1)
  }

  // The climb goes past this identity: it exists, its agent is listed and not yet met.
  predicate Passes(t: Table, org: Option<string>, current: Option<string>, met: set<string>) {
    && current.Some? && current.value in t.identities
    && var agentId := t.identities[current.value].agentId;
    agentId in t.orgs && (org.Some? ==> t.orgs[agentId] == org.value) && agentId !in met
  }

  /** On every table a climb meets the agents of the identities it comes to, and stops only where it must. */
  lemma {:induction false} ClimbFollowsParents(t: Table, org: Option<string>, current: Option<string>,
                                               seen: set<string>, hops: nat)
    ensures var up := Climb(t, org, current, seen, hops);
      && (forall k | 0 <= k < |up| ::
            var i := ParentsUp(t, current, k);
            i.Some? && i.value in t.identities && up[k] == t.identities[i.value].agentId)
      && (|up| < hops ==> !Passes(t, org, ParentsUp(t, current, |up|), seen + set x | x in up))
    decreases hops
  {
    var up := Climb(t, org, current, seen, hops);
    if up != [] {
      var row := t.identities[current.value];
      var rest := Climb(t, org, row.parent, seen + {row.agentId}, hops - 1);
      ClimbFollowsParents(t, org, row.parent, seen + {row.agentId}, hops - 1);
      assert seen + {row.agentId} + (set x | x in rest) == seen + set x | x in up;
      forall k | 0 <= k < |up|
        ensures var i := ParentsUp(t, current, k);
          i.Some? && i.value in t.identities && up[k] == t.identities[i.value].agentId
      {
        if k > 0 { assert ParentsUp(t, current, k) == ParentsUp(t, row.parent, k - 1) && up[k] == rest[k - 1]; }
      }
    }
  }

  /** Nor one of another organization than the one asked for. */
  lemma {:induction false} ClimbStaysInOrg(t: Table, org: Option<string>, current: Option<string>,
                                           seen: set<string>, hops: nat, x: string)
    requires x in Climb(t, org, current, seen, hops)
    ensures x in t.orgs && (org.Some? ==> t.orgs[x] == org.value)
    decreases hops
  {
    var row := t.identities[current.value];
    if x != row.agentId { ClimbStaysInOrg(t, org, row.parent, seen + {row.agentId}, hops - 1, x); }
  }

  lemma PrependMet(x: string, rest: seq<string>, seen: set<string>)
    requires x !in seen && MetOnce(rest, seen + {x})
    ensures MetOnce([x] + rest, seen)
  {
    forall i, j | 0 <= i < j < |[x] + rest| ensures ([x] + rest)[i] != ([x] + rest)[j] {
      assert rest[j - 1] in rest;
    }
  }

  // Agents already seen on the way down to a lie above it.
  ghost predicate SeenAbove(t: Table, a: string, seen: set<string>) {
    forall x | x in seen :: exists n: nat :: n > 0 && Above(t, a, x, n)
  }

  lemma {:induction false} SeenGrows(t: Table, a: string, c: string, seen: set<string>)
    requires Sound(t) && SeenAbove(t, a, seen) && ChildOf(t, c, a)
    ensures a !in seen && SeenAbove(t, c, seen + {a})
  {
    hide ChildOf;
    OneAbove(t, c, a);
    forall x | x in seen + {a} ensures exists n: nat :: n > 0 && Above(t, c, x, n) {
      if x in seen {
        var n: nat :| n > 0 && Above(t, a, x, n);
        AboveAdds(t, c, a, x, 1, n);
      }
    }
  }

  lemma {:induction false} NotSeen(t: Table, a: string, seen: set<string>)
    requires Sound(t) && SeenAbove(t, a, seen)
    ensures a !in seen
  {
  }

  // The tree below a, down to `depth`, holds exactly the agents a is above.
  lemma {:induction false} UnfoldShows(t: Table, a: string, org: Option<string>, seen: set<string>, depth: nat,
                                       b: string, d: nat)
    requires Sound(t) && Listed(t, a, org) && SeenAbove(t, a, seen) && d > 0
    ensures AtDepth(Unfold(t, a, org, seen, depth), d, b) <==> d <= depth && Above(t, b, a, d)
    decreases depth
  {
    hide Sound, SeenAbove, ChildOf, Listed, Children;
    NotSeen(t, a, seen);
    if depth > 0 {
      var ids, nodes := Children(t, a, org, t.order), Unfold(t, a, org, seen, depth);
      forall i | 0 <= i < |ids|
        ensures ChildOf(t, ids[i], a)
        ensures d > 1 ==> (AtDepth(nodes[i].children, d - 1, b) <==> d - 1 <= depth - 1 && Above(t, b, ids[i], d - 1))
      {
        ChildrenAre(t, a, org, t.order, ids[i]);
        ChildIsListed(t, org, ids[i], a);
        SeenGrows(t, a, ids[i], seen);
        if d > 1 { UnfoldShows(t, ids[i], org, seen + {a}, depth - 1, b, d - 1); }
      }
      if AtDepth(nodes, d, b) {
        var i :| 0 <= i < |nodes| && if d == 1 then nodes[i].id == b else AtDepth(nodes[i].children, d - 1, b);
        OneAbove(t, ids[i], a);
        if d > 1 { AboveAdds(t, b, ids[i], a, d - 1, 1); }
      }
      if d <= depth && Above(t, b, a, d) {
        var c := FromTop(t, b, a, d);
        ChildIsListed(t, org, c, a);
        ChildrenAre(t, a, org, t.order, c);
        var i :| 0 <= i < |ids| && ids[i] == c;
        assert if d == 1 then nodes[i].id == b else AtDepth(nodes[i].children, d - 1, b);
      }
    }
  }

  // Agents already met on the way up to b lie at or below it.
  ghost predicate SeenBelow(t: Table, b: string, seen: set<string>) {
    forall x | x in seen :: exists n: nat :: Above(t, x, b, n)
  }

  lemma {:induction false} MetGrows(t: Table, b: string, m: string, seen: set<string>)
    requires Sound(t) && SeenBelow(t, b, seen) && ChildOf(t, b, m)
    ensures m !in seen && SeenBelow(t, m, seen + {m})
  {
    hide ChildOf;
    OneAbove(t, b, m);
    forall x | x in seen + {m} ensures exists n: nat :: Above(t, x, m, n) {
      if x in seen {
        var n: nat :| Above(t, x, b, n);
        AboveAdds(t, x, b, m, n, 1);
      } else {
        assert Above(t, m, m, 0);
      }
    }
    if m in seen {
      var n: nat :| Above(t, m, b, n);
      AboveAdds(t, m, b, m, n, 1);
    }
  }

  // With one identity an agent, the parents of b are found through that identity.
  lemma OnlyParent(t: Table, i: string, b: string, m: string)
    requires Sound(t) && i in t.identities && t.identities[i].agentId == b
    ensures ChildOf(t, b, m) <==> ParentLink(t, i, b, m)
  {
    hide Above;
  }

  // The climb from b's identity meets, in order, exactly the agents above b.
  lemma {:induction false} ClimbShows(t: Table, org: Option<string>, i: string, seen: set<string>, hops: nat,
                                      a: string, d: nat)
    requires Sound(t) && i in t.identities && Listed(t, t.identities[i].agentId, org)
    requires SeenBelow(t, t.identities[i].agentId, seen) && d > 0
    ensures var up := Climb(t, org, t.identities[i].parent, seen, hops);
      (d <= |up| && up[d - 1] == a) <==> (d <= hops && Above(t, t.identities[i].agentId, a, d))
    decreases hops
  {
    hide Sound, SeenBelow, ChildOf;
    var b, parent := t.identities[i].agentId, t.identities[i].parent;
    forall m ensures ChildOf(t, b, m) <==> ParentLink(t, i, b, m) { OnlyParent(t, i, b, m); }
    if parent.None? || parent.value !in t.identities {
      NoParent(t, b, a, d);
    } else if hops > 0 {
      var m := t.identities[parent.value].agentId;
      assert ParentLink(t, i, b, m);
      MetGrows(t, b, m, seen);
      ChildIsListed(t, org, b, m);
      var rest := Climb(t, org, t.identities[parent.value].parent, seen + {m}, hops - 1);
      assert Climb(t, org, parent, seen, hops) == [m] + rest;
      assert Above(t, b, a, d) <==> Above(t, m, a, d - 1);
      if d == 1 {
        assert Above(t, m, a, 0) <==> a == m;
      } else {
        ClimbShows(t, org, parent.value, seen + {m}, hops - 1, a, d - 1);
      }
    }
  }

  lemma NoParent(t: Table, b: string, a: string, d: nat)
    requires d > 0 && forall m :: !ChildOf(t, b, m)
    ensures !Above(t, b, a, d)
  {
  }

  /**
   The two views are dual. On an acyclic table with one identity an agent and delegation within
   organizations, for any agent b the filter lets through: a is d from the end of b's ancestor
   chain, if and only if b is d levels down in the tree under a, if and only if a is d
   delegations above b and d is at most 20.
   */
  lemma {:induction false} ViewsAreDual(t: Table, org: Option<string>, i: string, a: string, d: nat)
    requires Sound(t) && i in t.identities && Listed(t, t.identities[i].agentId, org) && d > 0
    ensures var b, chain := t.identities[i].agentId, Reversed(Climb(t, org, t.identities[i].parent, {}, 20));
      && ((d <= |chain| && chain[|chain| - d] == a) <==> (d <= 20 && Above(t, b, a, d)))
      && (AtDepth(DelegationChildren(t, a, org), d, b) <==> (d <= 20 && Above(t, b, a, d)))
  {
    hide Sound, Above, Listed, Climb, Unfold;
    var b := t.identities[i].agentId;
    if Listed(t, a, org) {
      UnfoldShows(t, a, org, {}, MAX_HOPS, b, d);
    } else {
      UnlistedUnfoldsToNothing(t, org, a, MAX_HOPS);
      if Above(t, b, a, d) { AboveIsListed(t, org, b, a, d); }
    }
    ClimbShows(t, org, i, {}, MAX_HOPS, a, d);
  }
}
