/**
 Under whose agents the gateway files what it sees. An agent found by its former token is one of
 the gateway's organization. One found by its cached identity is so unless it was registered anew
 elsewhere since the load, and one found by passive discovery unless another organization holds
 the id, for discovery looks at the id alone.
 */
module GatewayOrgs {
  import opened Wrappers
  import opened Registry
  import opened Gateway
  import TB = TokenBucket
  import opened Conservation

  predicate InOrg(db: Db, agentId: string, org: string) { agentId in db.agents && db.agents[agentId].org == org }

  predicate HeldElsewhere(db: Db, agentId: string, org: string) {
    agentId in db.agents && db.agents[agentId].org != org
  }

  // Registering does not move an agent to another organization.
  predicate StaysPut(db: Db, op: Op) { op.RegisterIdentity? ==> !HeldElsewhere(db, op.agentId, op.org) }

  predicate StaysPutAt(cfg: Config, fp: string -> string, s: Gw, events: seq<Event>, i: nat)
    requires i < |events|
  {
    events[i].step.Other? ==> StaysPut(Gateway.Run(cfg, fp, s, events[..i]).reg.db, events[i].step.op)
  }

  predicate AgentsStay(cfg: Config, fp: string -> string, s: Gw, events: seq<Event>) {
    forall i | 0 <= i < |events| :: StaysPutAt(cfg, fp, s, events, i)
  }

  // Every agent of db is in after, in the same organization.
  predicate OrgsKept(db: Db, after: Db) {
    forall a | a in db.agents :: a in after.agents && after.agents[a].org == db.agents[a].org
  }

  predicate CacheInOrg(cfg: Config, s: Gw) {
    forall token | token in s.cache :: InOrg(s.reg.db, s.cache[token].agentId, cfg.org)
  }

  lemma OpKeepsOrgs(s: State, fp: string -> string, op: Op, now: int)
    requires StaysPut(s.db, op)
    ensures OrgsKept(s.db, Registry.Apply(s, fp, op, now).db)
  {
    hide LogCredential;
  }

  lemma SightKeepsOrgs(db: Db, org: string, source: string, caller: string)
    ensures var after := Sight(db, org, source, caller);
      && OrgsKept(db, after) && caller in after.agents
      && (InOrg(after, caller, org) <==> !HeldElsewhere(db, caller, org))
  {
  }

  lemma KeptTwice(a: Db, b: Db, c: Db)
    requires OrgsKept(a, b) && OrgsKept(b, c)
    ensures OrgsKept(a, c)
  {
  }

  lemma LoadInOrg(cfg: Config, s: Gw, load: map<string, Identity>, now: int)
    requires CacheInOrg(cfg, s) && LoadOk(cfg, s, load, now)
    ensures CacheInOrg(cfg, Refreshed(cfg, s, load, now))
  {
    if RefreshDue(cfg, s.loadedAt, now) { LoadedInOrg(s.reg.db, cfg.org, now, load); }
  }

  lemma LoadedInOrg(db: Db, org: string, now: int, load: map<string, Identity>)
    requires IsLoad(db, org, now, load)
    ensures forall token | token in load :: InOrg(db, load[token].agentId, org)
  {
    forall token | token in load ensures InOrg(db, load[token].agentId, org) {
      var id :| Resolves(db, org, now, token, id) && load[token] == db.identities[id];
    }
  }

  // Discovery put the call under an agent of another organization.
  predicate MisfiledCall(cfg: Config, s: Gw, token: Option<string>, caller: string) {
    NeedsDiscovery(s.reg.db, cfg.org, Resolve(s.cache, token), token) && HeldElsewhere(s.reg.db, caller, cfg.org)
  }

  predicate MisfiledBatch(cfg: Config, s: Gw, token: Option<string>, caller: string) {
    Resolve(s.cache, token).None? && HeldElsewhere(s.reg.db, caller, cfg.org)
  }

  // The identity's agent is still the organization's; without one, discovery did not misfile the call.
  predicate CallAtHome(cfg: Config, s: Gw, token: Option<string>, caller: string) {
    var identity := Resolve(s.cache, token);
    if identity.Some? then InOrg(s.reg.db, identity.value.agentId, cfg.org) else !MisfiledCall(cfg, s, token, caller)
  }

  predicate BatchAtHome(cfg: Config, s: Gw, token: Option<string>, caller: string) {
    var identity := Resolve(s.cache, token);
    if identity.Some? then InOrg(s.reg.db, identity.value.agentId, cfg.org) else !MisfiledBatch(cfg, s, token, caller)
  }

  // One call, in any state.
  lemma {:induction false} CallFiled(cfg: Config, s: Gw, token: Option<string>, caller: string, tool: string, at: real,
                                     allowed: bool)
    ensures var t := StartCall(cfg, s, token, caller, tool, at, allowed);
      && |t.calls| == |s.calls| + 1 && t.calls[..|s.calls|] == s.calls
      && t.cache == s.cache && t.batch == s.batch && t.accepted == s.accepted && OrgsKept(s.reg.db, t.reg.db)
      && (CacheInOrg(cfg, s) ==> t.calls[|s.calls|].agentId in t.reg.db.agents)
      && (InOrg(t.reg.db, t.calls[|s.calls|].agentId, cfg.org) <==> CallAtHome(cfg, s, token, caller))
  {
    hide Admit, Sight, AsksLimiter, OrgsKept, Record;
    var identity := Resolve(s.cache, token);
    SightKeepsOrgs(s.reg.db, cfg.org, MCP, caller);
    SameAgents(s.reg.db, s.reg.db);
    var asked := Prepared(cfg, s, token, caller, tool, at, allowed);
    var c := CallOf(cfg, s, token, caller, tool, at, allowed);
    RecordAdds(asked, c);
    SameAgents(asked.reg.db, Record(asked, c).reg.db);
    KeptTwice(s.reg.db, asked.reg.db, Record(asked, c).reg.db);
    assert identity.None? && !NeedsDiscovery(s.reg.db, cfg.org, identity, token) ==>
      InOrg(s.reg.db, c.agentId, cfg.org);
  }

  lemma RecordAdds(s: Gw, c: Call)
    ensures var t := Record(s, c);
      && t.calls == s.calls + [c] && t.cache == s.cache && t.batch == s.batch && t.accepted == s.accepted
      && t.reg.db.agents == s.reg.db.agents
  {
    hide DenialRow, IsDenial;
  }

  lemma SameAgents(db: Db, after: Db)
    requires after.agents == db.agents
    ensures OrgsKept(db, after)
  {
  }

  // One batch, in any state.
  lemma {:induction false} BatchFiled(cfg: Config, s: Gw, token: Option<string>, caller: string,
                                      items: seq<(string, bool)>, at: real, allowed: bool)
    ensures var t := StartBatch(cfg, s, token, caller, items, at, allowed);
      var agentId := ReportedBy(Resolve(s.cache, token), caller);
      && t.cache == s.cache && t.calls == s.calls && OrgsKept(s.reg.db, t.reg.db)
      && (BatchRefused(cfg, Resolve(s.cache, token), token) ==> t.accepted == s.accepted)
      && (!BatchRefused(cfg, Resolve(s.cache, token), token) ==>
        && (CacheInOrg(cfg, s) ==> agentId in t.reg.db.agents)
        && t.accepted == s.accepted + (if allowed then Reports(agentId, items) else [])
        && (InOrg(t.reg.db, agentId, cfg.org) <==> BatchAtHome(cfg, s, token, caller)))
  {
    hide Sight, OrgsKept, Reports;
    SightKeepsOrgs(s.reg.db, cfg.org, OTEL, caller);
    SameAgents(s.reg.db, s.reg.db);
  }

  lemma StayInOrg(cfg: Config, s: Gw, t: Gw)
    requires CacheInOrg(cfg, s) && t.cache == s.cache && OrgsKept(s.reg.db, t.reg.db)
    ensures CacheInOrg(cfg, t)
  {
  }

  lemma {:induction false} StepKeepsOrgs(cfg: Config, fp: string -> string, s: Gw, step: Step, now: int)
    requires CacheInOrg(cfg, s) && Enabled(cfg, s, step, now) && (step.Other? ==> StaysPut(s.reg.db, step.op))
    ensures var t := Gateway.Apply(cfg, fp, s, step, now); CacheInOrg(cfg, t) && OrgsKept(s.reg.db, t.reg.db)
    ensures s.calls <= Gateway.Apply(cfg, fp, s, step, now).calls
    ensures s.accepted <= Gateway.Apply(cfg, fp, s, step, now).accepted
  {
    hide CacheInOrg, OrgsKept, StartCall, StartBatch, Registry.Apply, StartAnswered, BatchAnswered, LoadOk, StaysPut;
    var t := Gateway.Apply(cfg, fp, s, step, now);
    match step
    case Other(op) =>
      OpKeepsOrgs(s.reg, fp, op, now);
      StayInOrg(cfg, s, t);
    case Start(token, caller, tool, at, allowed, load) =>
      LoadInOrg(cfg, s, load, now);
      CallFiled(cfg, Refreshed(cfg, s, load, now), token, caller, tool, at, allowed);
      StayInOrg(cfg, Refreshed(cfg, s, load, now), t);
    case Otel(token, caller, items, at, allowed, load) =>
      LoadInOrg(cfg, s, load, now);
      BatchFiled(cfg, Refreshed(cfg, s, load, now), token, caller, items, at, allowed);
      StayInOrg(cfg, Refreshed(cfg, s, load, now), t);
    case _ =>
      SameAgents(s.reg.db, t.reg.db);
      StayInOrg(cfg, s, t);
  }

  lemma StayPrefix(cfg: Config, fp: string -> string, s: Gw, events: seq<Event>, n: nat)
    requires n <= |events| && AgentsStay(cfg, fp, s, events)
    ensures AgentsStay(cfg, fp, s, events[..n])
  {
    hide Gateway.Run, StaysPut;
    forall i | 0 <= i < n ensures StaysPutAt(cfg, fp, s, events[..n], i) {
      assert StaysPutAt(cfg, fp, s, events, i) && events[..n][..i] == events[..i];
    }
  }

  // From event n on nothing already filed moves.
  lemma {:induction false} FiledStays(cfg: Config, fp: string -> string, s: Gw, events: seq<Event>, n: nat)
    requires Starts(cfg, s) && Legal(cfg, fp, s, events) && AgentsStay(cfg, fp, s, events) && n <= |events|
    ensures var t, u := Gateway.Run(cfg, fp, s, events[..n]), Gateway.Run(cfg, fp, s, events);
      CacheInOrg(cfg, u) && OrgsKept(t.reg.db, u.reg.db) && t.calls <= u.calls && t.accepted <= u.accepted
    decreases |events|
  {
    hide CacheInOrg, OrgsKept, Gateway.Apply, Enabled, StaysPut, Starts;
    if events == [] {
      StartsInOrg(cfg, s);
      SameAgents(s.reg.db, s.reg.db);
      assert events[..n] == events;
    } else {
      var m := |events| - 1;
      LegalPrefix(cfg, fp, s, events, m);
      StayPrefix(cfg, fp, s, events, m);
      var before := Gateway.Run(cfg, fp, s, events[..m]);
      FiledStays(cfg, fp, s, events[..m], if n <= m then n else m);
      assert LegalAt(cfg, fp, s, events, m) && StaysPutAt(cfg, fp, s, events, m);
      StepKeepsOrgs(cfg, fp, before, events[m].step, events[m].at);
      if n <= m {
        assert events[..m][..n] == events[..n];
        KeptTwice(Gateway.Run(cfg, fp, s, events[..n]).reg.db, before.reg.db, Gateway.Run(cfg, fp, s, events).reg.db);
      } else {
        assert events[..n] == events;
        SameAgents(Gateway.Run(cfg, fp, s, events).reg.db, Gateway.Run(cfg, fp, s, events).reg.db);
      }
    }
  }

  lemma StartsInOrg(cfg: Config, s: Gw)
    requires Starts(cfg, s)
    ensures CacheInOrg(cfg, s)
  {
    LoadedInOrg(s.reg.db, cfg.org, s.loadedAt, s.cache);
  }

  lemma OrgFollows(db: Db, after: Db, agentId: string, org: string)
    requires OrgsKept(db, after) && agentId in db.agents
    ensures InOrg(after, agentId, org) <==> InOrg(db, agentId, org)
  {
  }

  /**
   Where a call is filed. In every run, at the moment a tool call is filed, its agent is one of the
   gateway's organization exactly when the identity it resolved to still has its agent there, or,
   resolving to none, it was not discovered under an id that another organization holds.
   */
  lemma {:induction false} CallsFiledInOrgIff(cfg: Config, fp: string -> string, s: Gw, events: seq<Event>, j: nat)
    requires j < |events| && events[j].step.Start?
    ensures var before, t := Gateway.Run(cfg, fp, s, events[..j]), Gateway.Run(cfg, fp, s, events[..j + 1]);
      var step := events[j].step;
      && |before.calls| < |t.calls|
      && (InOrg(t.reg.db, t.calls[|before.calls|].agentId, cfg.org) <==>
        CallAtHome(cfg, Refreshed(cfg, before, step.load, events[j].at), step.token, step.caller))
  {
    hide Gateway.Run, StartCall, InOrg, CallAtHome, OrgsKept, CacheInOrg;
    var before, step, now := Gateway.Run(cfg, fp, s, events[..j]), events[j].step, events[j].at;
    RunNext(cfg, fp, s, events, j);
    CallFiled(cfg, Refreshed(cfg, before, step.load, now), step.token, step.caller, step.tool, step.at, step.allowed);
  }

  // With every cached identity's agent in the organization only discovery can misfile.
  lemma HomeUnlessMisfiled(cfg: Config, s: Gw, token: Option<string>, caller: string)
    requires CacheInOrg(cfg, s)
    ensures CallAtHome(cfg, s, token, caller) <==> !MisfiledCall(cfg, s, token, caller)
    ensures BatchAtHome(cfg, s, token, caller) <==> !MisfiledBatch(cfg, s, token, caller)
  {
    hide HeldElsewhere;
  }

  /**
   Rows stay in the organization. In a run in which registering moves no agent to another
   organization, a call's agent is one of the gateway's organization, then and ever after,
   exactly when it was not discovered under an id that another organization holds.
   */
  lemma {:induction false} CallsStayInOrgIff(cfg: Config, fp: string -> string, s: Gw, events: seq<Event>, j: nat)
    requires Starts(cfg, s) && Legal(cfg, fp, s, events) && AgentsStay(cfg, fp, s, events)
    requires j < |events| && events[j].step.Start?
    ensures var before, u := Gateway.Run(cfg, fp, s, events[..j]), Gateway.Run(cfg, fp, s, events);
      var step := events[j].step;
      && |before.calls| < |u.calls|
      && (InOrg(u.reg.db, u.calls[|before.calls|].agentId, cfg.org) <==>
        !MisfiledCall(cfg, Refreshed(cfg, before, step.load, events[j].at), step.token, step.caller))
  {
    hide CacheInOrg, OrgsKept, Gateway.Run, Starts, AgentsStay, Legal, StartCall, InOrg, MisfiledCall, CallAtHome;
    var before, step, now := Gateway.Run(cfg, fp, s, events[..j]), events[j].step, events[j].at;
    FiledStays(cfg, fp, s, events, j + 1);
    assert LegalEvent(cfg, fp, s, events, j) by { EventLegal(cfg, fp, s, events, j); }
    LegalPrefix(cfg, fp, s, events, j);
    StayPrefix(cfg, fp, s, events, j);
    FiledStays(cfg, fp, s, events[..j], j);
    assert events[..j][..j] == events[..j];
    LoadInOrg(cfg, before, step.load, now);
    var r := Refreshed(cfg, before, step.load, now);
    CallFiled(cfg, r, step.token, step.caller, step.tool, step.at, step.allowed);
    HomeUnlessMisfiled(cfg, r, step.token, step.caller);
    var t := Gateway.Run(cfg, fp, s, events[..j + 1]);
    OrgFollows(t.reg.db, Gateway.Run(cfg, fp, s, events).reg.db, t.calls[|before.calls|].agentId, cfg.org);
  }

  // Event j is a request whose load is what the table gives, and the run goes on from it.
  ghost predicate LegalEvent(cfg: Config, fp: string -> string, s: Gw, events: seq<Event>, j: nat)
    requires j < |events|
  {
    var before := Gateway.Run(cfg, fp, s, events[..j]);
    && Gateway.Run(cfg, fp, s, events[..j + 1]) == Gateway.Apply(cfg, fp, before, events[j].step, events[j].at)
    && (events[j].step.Start? || events[j].step.Otel? ==> LoadOk(cfg, before, events[j].step.load, events[j].at))
  }

  lemma EventLegal(cfg: Config, fp: string -> string, s: Gw, events: seq<Event>, j: nat)
    requires Legal(cfg, fp, s, events) && j < |events|
    ensures LegalEvent(cfg, fp, s, events, j)
  {
    hide Gateway.Apply, LoadOk;
    assert LegalAt(cfg, fp, s, events, j);
    RunNext(cfg, fp, s, events, j);
  }

  /** The same for reports at the moment their batch is accepted ... */
  lemma {:induction false} ReportsFiledInOrgIff(cfg: Config, fp: string -> string, s: Gw, events: seq<Event>, j: nat,
                                                k: nat)
    requires j < |events| && events[j].step.Otel?
    requires |Gateway.Run(cfg, fp, s, events[..j]).accepted| <= k < |Gateway.Run(cfg, fp, s, events[..j + 1]).accepted|
    ensures var before, t := Gateway.Run(cfg, fp, s, events[..j]), Gateway.Run(cfg, fp, s, events[..j + 1]);
      var step := events[j].step;
      InOrg(t.reg.db, t.accepted[k].agentId, cfg.org) <==>
        BatchAtHome(cfg, Refreshed(cfg, before, step.load, events[j].at), step.token, step.caller)
  {
    hide Gateway.Run, StartBatch, InOrg, BatchAtHome, OrgsKept, CacheInOrg;
    var before, step, now := Gateway.Run(cfg, fp, s, events[..j]), events[j].step, events[j].at;
    RunNext(cfg, fp, s, events, j);
    var r := Refreshed(cfg, before, step.load, now);
    BatchFiled(cfg, r, step.token, step.caller, step.items, step.at, step.allowed);
    assert Gateway.Run(cfg, fp, s, events[..j + 1]).accepted[k].agentId ==
      ReportedBy(Resolve(r.cache, step.token), step.caller);
  }

  /** ... and ever after, if registering moves no agent. */
  lemma {:induction false} ReportsStayInOrgIff(cfg: Config, fp: string -> string, s: Gw, events: seq<Event>, j: nat,
                                               k: nat)
    requires Starts(cfg, s) && Legal(cfg, fp, s, events) && AgentsStay(cfg, fp, s, events)
    requires j < |events| && events[j].step.Otel?
    requires |Gateway.Run(cfg, fp, s, events[..j]).accepted| <= k < |Gateway.Run(cfg, fp, s, events[..j + 1]).accepted|
    ensures var before, u := Gateway.Run(cfg, fp, s, events[..j]), Gateway.Run(cfg, fp, s, events);
      var step := events[j].step;
      && k < |u.accepted|
      && (InOrg(u.reg.db, u.accepted[k].agentId, cfg.org) <==>
        !MisfiledBatch(cfg, Refreshed(cfg, before, step.load, events[j].at), step.token, step.caller))
  {
    hide CacheInOrg, OrgsKept, Gateway.Run, Starts, AgentsStay, Legal, StartBatch, InOrg, MisfiledBatch, BatchAtHome;
    var before, step, now := Gateway.Run(cfg, fp, s, events[..j]), events[j].step, events[j].at;
    FiledStays(cfg, fp, s, events, j + 1);
    assert LegalEvent(cfg, fp, s, events, j) by { EventLegal(cfg, fp, s, events, j); }
    LegalPrefix(cfg, fp, s, events, j);
    StayPrefix(cfg, fp, s, events, j);
    FiledStays(cfg, fp, s, events[..j], j);
    assert events[..j][..j] == events[..j];
    LoadInOrg(cfg, before, step.load, now);
    var r := Refreshed(cfg, before, step.load, now);
    BatchFiled(cfg, r, step.token, step.caller, step.items, step.at, step.allowed);
    HomeUnlessMisfiled(cfg, r, step.token, step.caller);
    var t := Gateway.Run(cfg, fp, s, events[..j + 1]);
    assert t.accepted[k].agentId == ReportedBy(Resolve(r.cache, step.token), step.caller);
    OrgFollows(t.reg.db, Gateway.Run(cfg, fp, s, events).reg.db, t.accepted[k].agentId, cfg.org);
  }

  /* ----- runs that misfile ----- */

  /** Another organization discovered the id first: a call without a token is filed under its agent. */
  lemma {:induction false} SharedIdMisfiles(cfg: Config, fp: string -> string, other: string, caller: string,
                                            tool: string, at: real, allowed: bool, cache: map<string, Identity>)
    requires other != cfg.org
    ensures var reg := Registry.Apply(EmptyState(map[]), fp, DiscoverAgent(other, caller), 0);
      var s := Gw(reg.db, reg, cache, 0, [], [], [], [], []);
      var t := StartCall(cfg, s, None, caller, tool, at, allowed);
      && MisfiledCall(cfg, s, None, caller) && |t.calls| == 1
      && t.calls[0].agentId == caller && t.reg.db.agents[caller].org == other
  {
    hide DenialRow, IsDenial, Admit;
  }

  // One organization's agent with an identity and a token, and a human in another organization.
  function TwoOrgs(org: string, owner: string, other: string, human: string, tool: string): Db {
    Db(map[owner := org, human := other], map["x" := Agent(org, Some(owner), false)],
       map["i" := Identity("i", "x", None, Some({tool}))], map["t" := Credential("x", Active, None)], [])
  }

  function TheirIdentity(tool: string): map<string, Identity> { map["t" := Identity("i", "x", None, Some({tool}))] }

  // The gateway that has just loaded them.
  function JustLoaded(db: Db, tool: string): Gw {
    Gw(db, State(db, [], {}, map[]), TheirIdentity(tool), 0, [], [], [], [], [])
  }

  lemma LoadedThem(org: string, owner: string, other: string, human: string, tool: string)
    ensures var db := TwoOrgs(org, owner, other, human, tool);
      IsLoad(db, org, 0, TheirIdentity(tool))
  {
    var db := TwoOrgs(org, owner, other, human, tool);
    assert Resolves(db, org, 0, "t", "i");
  }

  // The agent is registered anew for the other organization, and then its token makes a call.
  function MovedThenCalled(other: string, human: string, tool: string, caller: string, at: real): seq<Event> {
    [Event(Other(RegisterIdentity(other, "x", human, {}, None, "j")), 0),
     Event(Start(Some("t"), caller, tool, at, true, map[]), 0)]
  }

  lemma {:induction false} CallsAfterMove(cfg: Config, s: Gw, tool: string, caller: string, at: real)
    requires s.cache == TheirIdentity(tool) && s.limited == [] && s.calls == [] && HeldElsewhere(s.reg.db, "x", cfg.org)
    requires cfg.burst >= 1.0 && tool != HEARTBEAT_TOOL
    ensures StartAnswered(cfg, s, Some("t"), caller, tool, at, true) && !MisfiledCall(cfg, s, Some("t"), caller)
    ensures var t := StartCall(cfg, s, Some("t"), caller, tool, at, true);
      && |t.calls| == 1 && t.calls[0].outcome == Handed && t.calls[0].agentId == "x"
      && HeldElsewhere(t.reg.db, "x", cfg.org)
  {
    hide TB.Fits, Sight;
    FirstCallFits(cfg, "x", at);
    assert TB.Of([], "x") + [TB.Call("x", at, 1.0, true)] == [TB.Call("x", at, 1.0, true)];
  }

  /** No discovery takes place, and the call is filed under what is now another organization's agent. */
  lemma {:induction false} MovedAgentMisfiles(cfg: Config, fp: string -> string, owner: string, other: string,
                                              human: string, tool: string, caller: string, at: real)
    requires other != cfg.org && human != owner && cfg.refresh > 0 && cfg.burst >= 1.0 && tool != HEARTBEAT_TOOL
    ensures var s := JustLoaded(TwoOrgs(cfg.org, owner, other, human, tool), tool);
      var events := MovedThenCalled(other, human, tool, caller, at);
      var before, t := Gateway.Run(cfg, fp, s, events[..1]), Gateway.Run(cfg, fp, s, events);
      && Starts(cfg, s) && Legal(cfg, fp, s, events) && !MisfiledCall(cfg, before, Some("t"), caller)
      && |t.calls| == 1 && t.calls[0].outcome == Handed && t.calls[0].agentId == "x"
      && HeldElsewhere(t.reg.db, "x", cfg.org)
  {
    hide IsLoad, LimiterConforms, StartCall, StartAnswered, MisfiledCall, Gateway.Run, TheirIdentity;
    var s := JustLoaded(TwoOrgs(cfg.org, owner, other, human, tool), tool);
    var events := MovedThenCalled(other, human, tool, caller, at);
    LoadedThem(cfg.org, owner, other, human, tool);
    NoCallsConform(cfg);
    assert events[..2] == events;
    Gateway.RunNothing(cfg, fp, s, events[..0]);
    RunNext(cfg, fp, s, events, 0);
    RunNext(cfg, fp, s, events, 1);
    CallsAfterMove(cfg, Gateway.Run(cfg, fp, s, events[..1]), tool, caller, at);
    assert LegalAt(cfg, fp, s, events, 0) && LegalAt(cfg, fp, s, events, 1);
  }

  lemma NoCallsConform(cfg: Config)
    ensures LimiterConforms(cfg, []) && TB.UnitCosts([])
  {
    assert forall agentId: string :: TB.Of([], agentId) == [];
  }
}
