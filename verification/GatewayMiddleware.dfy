/**
 The gateway process in place: the cached token registry, the two halves of a tool call
 around its await, and the OTel ingestion route. Each method is one step, or a stretch of
 steps without an await, of the machine in `Gateway`; the machine's bookkeeping is ghost here.
 */
module GatewayMiddleware {
  import opened Wrappers
  import opened Registry
  import opened RegistryTables
  import opened Gateway
  import opened TokenBucket

  /* ----- reported events ----- */

  // The parts of a reported event that decide how it is logged.
  datatype Attributes = Attributes(toolName: Option<string>, errorType: Option<string>)
  datatype Reported = NotAnObject | Reported(attributes: Option<Attributes>, status: Option<string>)

  // The name a reporter asserts, as the id discovery gives it; a name that is not text has none.
  datatype Asserted = AssertedId(id: string) | NotText

  function IdOf(name: Asserted): string { if name.AssertedId? then name.id else "" }

  // Discovery is reached, with a name it cannot make an id of.
  predicate Unnameable(cfg: Config, identity: Option<Identity>, token: Option<string>, name: Asserted) {
    identity.None? && !BatchRefused(cfg, identity, token) && name.NotText?
  }

  // The tool and whether the call failed; None for an event too malformed to log.
  function Translate(e: Reported): Option<(string, bool)> {
    if e.NotAnObject? || e.attributes.None? then None
    else
      var a := e.attributes.value;
      if a.toolName.None? || a.toolName.value == "" then None
      else Some((a.toolName.value, (a.errorType.Some? && a.errorType.value != "") || e.status == Some("ERROR")))
  }

  predicate WellFormed(events: seq<Reported>) {
    events != [] && forall i | 0 <= i < |events| :: Translate(events[i]).Some?
  }

  function Items(events: seq<Reported>): seq<(string, bool)>
    requires WellFormed(events)
  {
    seq(|events|, i requires 0 <= i < |events| => Translate(events[i]).value)
  }

  lemma ItemsOf(events: seq<Reported>)
    requires WellFormed(events)
    ensures |Items(events)| == |events| > 0
  {
  }

  // An event's row: the tool it names, and "error" exactly for an error type or the status ERROR.
  predicate Tells(row: LogRow, agentId: string, e: Reported) {
    && e.Reported? && e.attributes.Some? && e.attributes.value.toolName.Some?
    && e.attributes.value.toolName != Some("")
    && row.eventType == "tool.called" && row.source == "otel_sdk" && row.agentId == agentId
    && row.tool == e.attributes.value.toolName
    && row.result in {"success", "error"}
    && (row.result == "error" <==> e.attributes.value.errorType !in {None, Some("")} || e.status == Some("ERROR"))
  }

  lemma {:induction false} RowsTell(events: seq<Reported>, agentId: string)
    requires WellFormed(events)
    ensures var rows := ReportRows(Reports(agentId, Items(events)));
      |rows| == |events| && forall i | 0 <= i < |events| :: Tells(rows[i], agentId, events[i])
  {
  }

  class Middleware {
    const cfg: Config
    const tables: IdentityTables
    const limiter: TokenBucketLimiter
    var cache: map<string, Identity>
    var loadedAt: int
    ghost var base: Db
    ghost var calls: seq<Gateway.Call>
    ghost var completed: seq<Done>
    ghost var accepted: seq<Report>

    // The limiter answers by its own calls, at the configured rate.
    ghost predicate Valid()
      reads this, limiter
    {
      limiter.Valid() && limiter.rate == cfg.rate && limiter.burst == cfg.burst
    }

    ghost function Now(): Gw
      reads this, tables, limiter
    {
      Gw(base, State(tables.Content(), [], {}, map[]), cache, loadedAt, limiter.calls, calls, completed, [], accepted)
    }

    constructor (cfg: Config, tables: IdentityTables, limiter: TokenBucketLimiter, now: int)
      requires limiter.Valid() && limiter.rate == cfg.rate && limiter.burst == cfg.burst
      requires UnitCosts(limiter.calls)
      ensures this.cfg == cfg && this.tables == tables && this.limiter == limiter
      ensures Valid() && loadedAt == now && Starts(cfg, Now())
      ensures IsLoad(tables.Content(), cfg.org, now, cache)
    {
      this.cfg, this.tables, this.limiter := cfg, tables, limiter;
      base, calls, completed, accepted := tables.Content(), [], [], [];
      loadedAt := now;
      cache := map[];
      new;
      cache := tables.LoadTokenRegistry(cfg.org, now);
      LimiterKept();
    }

    lemma LimiterKept()
      requires Valid()
      ensures LimiterConforms(cfg, limiter.calls)
    {
      forall agentId: string ensures Conforms(cfg.rate, cfg.burst, Of(limiter.calls, agentId)) {
        assert AgentOk(limiter.rate, limiter.burst, limiter.buckets, limiter.calls, agentId);
      }
    }

    method MaybeRefresh(now: int)
      modifies this`cache, this`loadedAt
      ensures LoadOk(cfg, old(Now()), cache, now)
      ensures Now() == Refreshed(cfg, old(Now()), cache, now)
      ensures now < old(loadedAt) + cfg.refresh ==> cache == old(cache) && loadedAt == old(loadedAt)
      ensures now >= old(loadedAt) + cfg.refresh ==>
        loadedAt == now && IsLoad(tables.Content(), cfg.org, now, cache)
    {
      if now - loadedAt >= cfg.refresh {
        cache := tables.LoadTokenRegistry(cfg.org, now);
        loadedAt := now;
      }
    }

    method ResolveToken(token: Option<string>, now: int) returns (identity: Option<Identity>)
      modifies this`cache, this`loadedAt
      ensures LoadOk(cfg, old(Now()), cache, now)
      ensures Now() == Refreshed(cfg, old(Now()), cache, now)
      ensures now < old(loadedAt) + cfg.refresh ==> cache == old(cache) && loadedAt == old(loadedAt)
      ensures now >= old(loadedAt) + cfg.refresh ==>
        loadedAt == now && IsLoad(tables.Content(), cfg.org, now, cache)
      ensures identity == Resolve(cache, token)
      ensures identity.Some? <==> token.Some? && token.value != "" && token.value in cache
      ensures identity.Some? ==> identity.value == cache[token.value]
    {
      MaybeRefresh(now);
      if token.Some? && token.value != "" && token.value in cache {
        return Some(cache[token.value]);
      }
      return None;
    }

    // Passive discovery and its one event row.
    method SightCaller(source: string, caller: string)
      modifies tables
      ensures tables.Content() == Sight(old(tables.Content()), cfg.org, source, caller)
      ensures caller in old(tables.agents) ==> tables.Content() == old(tables.Content())
      ensures caller !in old(tables.agents) ==>
        && tables.agents == old(tables.agents)[caller := Agent(cfg.org, None, true)]
        && tables.log == old(tables.log) + [LogRow("agent.discovered", source, caller, None, "success", None)]
      ensures tables.humans == old(tables.humans) && tables.identities == old(tables.identities)
      ensures tables.credentials == old(tables.credentials)
    {
      var first := tables.DiscoverAgent(cfg.org, caller);
      if first { tables.LogEvent(DiscoveredRow(source, caller)); }
    }

    method Deny(outcome: Outcome, agentId: string, tool: string)
      requires IsDenial(outcome)
      modifies tables
      ensures tables.Content() ==
        old(tables.Content()).(log := old(tables.Content()).log + [DenialRow(outcome, agentId, tool)])
      ensures
        var eventType :=
          match outcome
          case BadToken => "tool.rejected_unrecognized_token"
          case NoToken => "tool.rejected_no_token"
          case Limited => "tool.rate_limited"
          case _ => "tool.blocked";
        tables.log == old(tables.log) + [LogRow(eventType, "mcp_gateway", agentId, Some(tool), "denied", None)]
    {
      tables.LogEvent(DenialRow(outcome, agentId, tool));
    }

    // A token, of whatever status, issued to an agent of this organization.
    predicate OursToken(db: Db, token: Option<string>) {
      && token.Some? && token.value in db.credentials
      && db.credentials[token.value].agentId in db.agents
      && db.agents[db.credentials[token.value].agentId].org == cfg.org
    }

    // The agent a call is filed under: a caller nobody knows is discovered.
    method FileCaller(identity: Option<Identity>, token: Option<string>, caller: string) returns (agentId: string)
      modifies tables
      ensures agentId == FiledUnder(old(tables.Content()), cfg.org, identity, token, caller)
      ensures tables.Content() ==
        if NeedsDiscovery(old(tables.Content()), cfg.org, identity, token)
        then Sight(old(tables.Content()), cfg.org, MCP, caller) else old(tables.Content())
      ensures identity.Some? ==> agentId == identity.value.agentId && tables.Content() == old(tables.Content())
      ensures identity.None? && OursToken(old(tables.Content()), token) ==>
        agentId == tables.credentials[token.value].agentId && tables.Content() == old(tables.Content())
      ensures identity.None? && !OursToken(old(tables.Content()), token) ==>
        && agentId == caller && caller in tables.agents
        && tables.log == old(tables.log) + if caller in old(tables.agents) then [] else
             [LogRow("agent.discovered", "mcp_gateway", caller, None, "success", None)]
    {
      if identity.Some? { return identity.value.agentId; }
      if token.Some? {
        var t := token.value;
        if && t in tables.credentials && tables.credentials[t].agentId in tables.agents
           && tables.agents[tables.credentials[t].agentId].org == cfg.org
        {
          return tables.credentials[t].agentId;
        }
      }
      SightCaller(MCP, caller);
      return caller;
    }

    // Neither a refused token nor a heartbeat costs the caller anything with the limiter.
    method Decide(identity: Option<Identity>, token: Option<string>, agentId: string, tool: string, at: real)
        returns (outcome: Outcome, allowed: bool)
      requires Valid()
      modifies limiter
      ensures Valid()
      ensures outcome == Admit(cfg, identity, token, tool, allowed)
      ensures if AsksLimiter(cfg, identity, token, tool)
        then LimiterSays(cfg, old(limiter.calls), agentId, at, allowed)
          && limiter.calls == old(limiter.calls) + [TokenBucket.Call(agentId, at, 1.0, allowed)]
        else !allowed && limiter.calls == old(limiter.calls)
      ensures outcome.BadToken? <==> identity.None? && token.Some?
      ensures outcome.NoToken? <==> identity.None? && token.None? && cfg.requireToken
      ensures outcome.Heartbeat? <==> !outcome.BadToken? && !outcome.NoToken? && tool == "bf_heartbeat"
      ensures limiter.calls == old(limiter.calls) <==> outcome.BadToken? || outcome.NoToken? || outcome.Heartbeat?
      ensures outcome.Limited? <==> limiter.calls != old(limiter.calls) && !allowed
      ensures outcome.Blocked? <==>
        && allowed && identity.Some? && identity.value.scope.Some? && tool !in identity.value.scope.value
    {
      hide Fits;
      allowed := false;
      if identity.None? && token.Some? { return BadToken, allowed; }
      if identity.None? && cfg.requireToken { return NoToken, allowed; }
      if tool == HEARTBEAT_TOOL { return Heartbeat, allowed; }
      allowed := limiter.Allow(agentId, at, 1.0);
      if !allowed { return Limited, allowed; }
      if identity.Some? && identity.value.scope.Some? && tool !in identity.value.scope.value {
        return Blocked, allowed;
      }
      return Handed, allowed;
    }

    // on_call_tool up to its await. `at` is the limiter's clock.
    method BeginCall(token: Option<string>, caller: string, tool: string, now: int, at: real)
        returns (agentId: string, outcome: Outcome, allowed: bool)
      requires Valid()
      modifies this, tables, limiter
      ensures Valid()
      ensures Enabled(cfg, old(Now()), Start(token, caller, tool, at, allowed, cache), now)
      ensures Now() == StartCall(cfg, Refreshed(cfg, old(Now()), cache, now), token, caller, tool, at, allowed)
      ensures calls == old(calls) +
        [Gateway.Call(agentId, tool, token, Resolve(cache, token), at, |old(limiter.calls)|, outcome)]
      ensures
        var known := token.Some? && token.value != "" && token.value in cache;
        var ours := OursToken(old(tables.Content()), token);
        var refused := !known && (token.Some? || cfg.requireToken);
        var listed := known && cache[token.value].scope.Some? ==> tool in cache[token.value].scope.value;
        && agentId == (if known then cache[token.value].agentId
                       else if ours then old(tables.credentials)[token.value].agentId else caller)
        && (outcome.BadToken? || outcome.NoToken? <==> refused)
        && (outcome.Heartbeat? <==> !refused && tool == "bf_heartbeat")
        && (outcome.Handed? <==> allowed && listed)
        && (allowed ==> !refused && tool != "bf_heartbeat")
        && tables.log == old(tables.log) +
             (if known || ours || caller in old(tables.agents) then [] else
                [LogRow("agent.discovered", "mcp_gateway", caller, None, "success", None)]) +
             (if outcome.Handed? || outcome.Heartbeat? then [] else [DenialRow(outcome, agentId, tool)])
    {
      hide Sight, LoadOk, FiledUnder, NeedsDiscovery, Resolve, Admit, AsksLimiter, LimiterSays, Record, OursToken;
      hide DenialRow;
      var identity := ResolveToken(token, now);
      agentId := FileCaller(identity, token, caller);
      outcome, allowed := Decide(identity, token, agentId, tool, at);
      ghost var c := Gateway.Call(agentId, tool, token, identity, at, |old(limiter.calls)|, outcome);
      RecordCall(agentId, tool, outcome, c);
    }

    // The call's denial row, if it is denied.
    method RecordCall(agentId: string, tool: string, outcome: Outcome, ghost c: Gateway.Call)
      requires c.agentId == agentId && c.tool == tool && c.outcome == outcome
      modifies this`calls, tables
      ensures Now() == Record(old(Now()), c)
      ensures calls == old(calls) + [c]
      ensures tables.log == old(tables.log) +
        if outcome.Handed? || outcome.Heartbeat? then [] else [DenialRow(outcome, agentId, tool)]
    {
      hide DenialRow;
      if IsDenial(outcome) { Deny(outcome, agentId, tool); }
      calls := calls + [c];
    }

    // From the await on, whether or not the backend raised.
    method EndCall(ghost call: nat, agentId: string, tool: string, outcome: Outcome, failed: bool)
      requires call < |calls| && calls[call].agentId == agentId && calls[call].tool == tool
      requires calls[call].outcome == outcome && (outcome.Heartbeat? || outcome.Handed?)
      modifies this`completed, tables
      ensures Now() == FinishCall(old(Now()), call, failed)
      ensures tables.log == old(tables.log) +
        if outcome.Handed? then [LogRow("tool.called", "mcp_gateway", agentId, Some(tool), "success", None)]
        else if failed then [] else
          [LogRow("agent.heartbeat", "mcp_gateway", agentId, Some("bf_heartbeat"), "success", None)]
    {
      if outcome.Heartbeat? {
        if !failed { tables.LogEvent(HeartbeatRow(agentId)); }
      } else {
        tables.LogEvent(CalledRow(agentId, tool));
      }
      completed := completed + [Done(call, failed)];
    }

    // All events or none: one malformed event rejects the batch before anything is logged.
    method TranslateAll(events: seq<Reported>) returns (items: Option<seq<(string, bool)>>)
      ensures items.Some? <==> WellFormed(events)
      ensures items.Some? ==> items.value == Items(events)
    {
      if events == [] { return None; }
      var done: seq<(string, bool)> := [];
      for i := 0 to |events|
        invariant |done| == i
        invariant forall j | 0 <= j < i :: Translate(events[j]) == Some(done[j])
      {
        var item := Translate(events[i]);
        if item.None? { return None; }
        done := done + [item.value];
      }
      return Some(done);
    }

    method LogReports(agentId: string, items: seq<(string, bool)>)
      modifies tables`log
      ensures tables.Content() ==
        old(tables.Content()).(log := old(tables.Content()).log + ReportRows(Reports(agentId, items)))
    {
      ghost var rows := ReportRows(Reports(agentId, items));
      for i := 0 to |items|
        invariant tables.Content() == old(tables.Content()).(log := old(tables.Content()).log + rows[..i])
      {
        tables.LogEvent(ReportRow(Report(agentId, items[i].0, items[i].1)));
        assert rows[..i + 1] == rows[..i] + [rows[i]];
      }
      assert rows[..|items|] == rows;
    }

    // The ingestion route, answering with its HTTP status; 500 stands for the exception discovery raises.
    method IngestOtelEvents(events: seq<Reported>, token: Option<string>, name: Asserted, now: int, at: real)
        returns (status: int)
      requires Valid()
      modifies this, tables, limiter
      ensures Valid()
      ensures status in {202, 400, 401, 429, 500}
      ensures status == 400 <==> !WellFormed(events)
      ensures status == 400 ==> Now() == old(Now())
      ensures WellFormed(events) ==>
        var s, identity := Refreshed(cfg, old(Now()), cache, now), Resolve(cache, token);
        && LoadOk(cfg, old(Now()), cache, now)
        && (status == 401 <==> BatchRefused(cfg, identity, token))
        && (status == 500 <==> Unnameable(cfg, identity, token, name))
        && if status == 500 then Now() == s
           else
             var allowed := status == 202;
             var t := StartBatch(cfg, s, token, IdOf(name), Items(events), at, allowed);
             && Enabled(cfg, old(Now()), Otel(token, IdOf(name), Items(events), at, allowed, cache), now)
             && Now() == WithDb(t, t.reg.db.(log := t.reg.db.log + ReportRows(t.batch))).(batch := [])
      ensures
        var known := token.Some? && token.value != "" && token.value in cache;
        var agentId := if known then cache[token.value].agentId else IdOf(name);
        var n := |tables.log| - if status == 202 then |events| else 0;
        && 0 <= n <= |tables.log|
        && tables.log[..n] == old(tables.log) +
             (if status !in {202, 429} || known || agentId in old(tables.agents) then [] else
                [LogRow("agent.discovered", "otel_sdk", agentId, None, "success", None)])
        && (status == 202 ==> forall i | 0 <= i < |events| :: Tells(tables.log[n + i], agentId, events[i]))
    {
      hide ReportRows, Items, LoadOk, Resolve, StartBatch, BatchAnswered, Tells;
      var items := TranslateAll(events);
      if items.None? { return 400; }
      assert |Items(events)| > 0 by { ItemsOf(events); }
      hide WellFormed;
      var identity := ResolveToken(token, now);
      if identity.None? && token.None? && !cfg.requireToken && name.NotText? { return 500; }
      status := IngestReports(items.value, identity, token, IdOf(name), at);
      if status == 202 {
        RowsTell(events, if identity.Some? then identity.value.agentId else IdOf(name));
      }
      assert tables.log[..|tables.log|] == tables.log;
    }

    // The agent a batch is filed under, if it is let in.
    method FileReporter(identity: Option<Identity>, token: Option<string>, caller: string)
        returns (agentId: Option<string>)
      modifies tables
      ensures agentId.None? <==> identity.None? && (token.Some? || cfg.requireToken)
      ensures agentId.None? <==> BatchRefused(cfg, identity, token)
      ensures agentId.Some? ==> agentId.value == ReportedBy(identity, caller)
      ensures tables.Content() ==
        if agentId.None? || identity.Some? then old(tables.Content())
        else Sight(old(tables.Content()), cfg.org, OTEL, caller)
      ensures tables.log == old(tables.log) +
        if agentId.None? || identity.Some? || caller in old(tables.agents) then []
        else [LogRow("agent.discovered", "otel_sdk", caller, None, "success", None)]
    {
      if identity.Some? { return Some(identity.value.agentId); }
      if token.Some? || cfg.requireToken { return None; }
      SightCaller(OTEL, caller);
      return Some(caller);
    }

    // From the resolved identity on.
    method IngestReports(items: seq<(string, bool)>, identity: Option<Identity>, token: Option<string>, caller: string,
                         at: real)
        returns (status: int)
      requires Valid() && items != [] && identity == Resolve(cache, token)
      modifies this`accepted, tables, limiter
      ensures Valid()
      ensures status in {202, 401, 429}
      ensures status == 401 <==> BatchRefused(cfg, identity, token)
      ensures
        var s, allowed := old(Now()), status == 202;
        var t := StartBatch(cfg, s, token, caller, items, at, allowed);
        && BatchAnswered(cfg, s, token, caller, at, allowed)
        && Now() == WithDb(t, t.reg.db.(log := t.reg.db.log + ReportRows(t.batch))).(batch := [])
      ensures
        var agentId := if identity.Some? then identity.value.agentId else caller;
        tables.log == old(tables.log) +
          (if status == 401 || identity.Some? || agentId in old(tables.agents) then [] else
             [LogRow("agent.discovered", "otel_sdk", agentId, None, "success", None)]) +
          (if status == 202 then ReportRows(Reports(agentId, items)) else [])
    {
      hide Sight, ReportRows, Reports, Fits, Resolve, BatchRefused;
      assert ReportRows([]) == [] by { NoReports(); }
      ghost var none := tables.Content().log + [];
      var reporter := FileReporter(identity, token, caller);
      if reporter.None? { return 401; }
      var agentId := reporter.value;
      var allowed := limiter.Allow(agentId, at, 1.0);
      assert LimiterSays(cfg, old(limiter.calls), agentId, at, allowed);
      if !allowed {
        assert tables.Content().log + [] == tables.Content().log;
        return 429;
      }
      LogReports(agentId, items);
      accepted := accepted + Reports(agentId, items);
      return 202;
    }
  }
}
