/**
 The gateway's discovery rows, exactly: one for every agent its own requests bring into the
 table, with the path the request came by, and none for any other agent.
 */
module Discovery {
  import opened Wrappers
  import opened Registry
  import opened Gateway
  import opened Conservation

  predicate IsSighting(r: LogRow) { r.eventType == "agent.discovered" }

  // The agent a step of this gateway brings into the table, as the row it should have.
  function BroughtIn(before: Db, after: Db, step: Step): seq<LogRow> {
    match step
    case Start(_, caller, _, _, _, _) =>
      if caller !in before.agents && caller in after.agents
      then [LogRow("agent.discovered", "mcp_gateway", caller, None, "success", None)] else []
    case Otel(_, caller, _, _, _, _) =>
      if caller !in before.agents && caller in after.agents
      then [LogRow("agent.discovered", "otel_sdk", caller, None, "success", None)] else []
    case _ => []
  }

  // Those of a whole run, in order.
  function Arrivals(cfg: Config, fp: string -> string, s: Gw, events: seq<Event>): seq<LogRow> {
    if events == [] then []
    else
      var n := |events| - 1;
      Arrivals(cfg, fp, s, events[..n]) +
        BroughtIn(Gateway.Run(cfg, fp, s, events[..n]).reg.db, Gateway.Run(cfg, fp, s, events).reg.db, events[n].step)
  }

  lemma {:induction false} SightAppend(log: seq<LogRow>, row: LogRow)
    ensures Filter(log + [row], IsSighting) == Filter(log, IsSighting) + if IsSighting(row) then [row] else []
  {
    FilterAppend(log, row, IsSighting);
  }

  // Passive discovery of one caller.
  lemma {:induction false} SightRow(db: Db, org: string, source: string, caller: string)
    ensures var after := Sight(db, org, source, caller);
      && after.agents.Keys == db.agents.Keys + {caller}
      && Filter(after.log, IsSighting) == Filter(db.log, IsSighting) +
           if caller in db.agents then [] else [LogRow("agent.discovered", source, caller, None, "success", None)]
  {
    hide Filter;
    SightAppend(db.log, DiscoveredRow(source, caller));
    assert Filter(db.log, IsSighting) + [] == Filter(db.log, IsSighting);
  }

  lemma {:induction false} RecordRow(s: Gw, c: Call)
    ensures Record(s, c).reg.db.agents == s.reg.db.agents
    ensures Filter(Record(s, c).reg.db.log, IsSighting) == Filter(s.reg.db.log, IsSighting)
  {
    hide Filter;
    SightAppend(s.reg.db.log, DenialRow(c.outcome, c.agentId, c.tool));
  }

  lemma {:induction false} StartRow(cfg: Config, s: Gw, token: Option<string>, caller: string, tool: string, at: real,
                                    allowed: bool, load: map<string, Identity>)
    ensures var t := StartCall(cfg, s, token, caller, tool, at, allowed);
      Filter(t.reg.db.log, IsSighting) == Filter(s.reg.db.log, IsSighting) +
        BroughtIn(s.reg.db, t.reg.db, Start(token, caller, tool, at, allowed, load))
  {
    hide Filter, Record, CallOf, Sight, NeedsDiscovery, AsksLimiter, FiledUnder, Resolve;
    SightRow(s.reg.db, cfg.org, MCP, caller);
    RecordRow(Prepared(cfg, s, token, caller, tool, at, allowed), CallOf(cfg, s, token, caller, tool, at, allowed));
    assert Filter(s.reg.db.log, IsSighting) + [] == Filter(s.reg.db.log, IsSighting);
  }

  lemma {:induction false} BatchRow(cfg: Config, s: Gw, token: Option<string>, caller: string,
                                    items: seq<(string, bool)>, at: real, allowed: bool, load: map<string, Identity>)
    ensures var t := StartBatch(cfg, s, token, caller, items, at, allowed);
      Filter(t.reg.db.log, IsSighting) == Filter(s.reg.db.log, IsSighting) +
        BroughtIn(s.reg.db, t.reg.db, Otel(token, caller, items, at, allowed, load))
  {
    hide Filter, Sight, Resolve, Reports;
    SightRow(s.reg.db, cfg.org, OTEL, caller);
    assert Filter(s.reg.db.log, IsSighting) + [] == Filter(s.reg.db.log, IsSighting);
  }

  lemma {:induction false} OtherRow(s: State, fp: string -> string, op: Op, now: int)
    ensures Filter(Registry.Apply(s, fp, op, now).db.log, IsSighting) == Filter(s.db.log, IsSighting)
  {
    hide Filter, Registry.Apply;
    OtherLog(s, fp, op, now);
    var log, after := s.db.log, Registry.Apply(s, fp, op, now).db.log;
    if after != log {
      assert after[|log|..] == [after[|log|]];
      SightAppend(log, after[|log|]);
    }
  }

  /** One step: the discovery rows grow by the agent the step brings in, if it is this gateway's and brings one. */
  lemma {:induction false} StepRow(cfg: Config, fp: string -> string, s: Gw, step: Step, now: int)
    ensures var t := Gateway.Apply(cfg, fp, s, step, now);
      Filter(t.reg.db.log, IsSighting) == Filter(s.reg.db.log, IsSighting) + BroughtIn(s.reg.db, t.reg.db, step)
  {
    hide Filter, StartCall, StartBatch, Registry.Apply;
    var log := s.reg.db.log;
    assert Filter(log, IsSighting) + [] == Filter(log, IsSighting);
    match step
    case Other(op) => OtherRow(s.reg, fp, op, now);
    case Start(token, caller, tool, at, allowed, load) =>
      StartRow(cfg, Refreshed(cfg, s, load, now), token, caller, tool, at, allowed, load);
    case Otel(token, caller, items, at, allowed, load) =>
      BatchRow(cfg, Refreshed(cfg, s, load, now), token, caller, items, at, allowed, load);
    case Finish(call, failed) =>
      if call < |s.calls| {
        SightAppend(log, HeartbeatRow(s.calls[call].agentId));
        SightAppend(log, CalledRow(s.calls[call].agentId, s.calls[call].tool));
      }
    case OtelLog => if s.batch != [] { SightAppend(log, ReportRow(s.batch[0])); }
  }

  /**
   Discovery rows, exactly. In every run, on whatever tables, the discovery rows added are those
   of the agents the gateway's own requests brought into the table, each once, in the order
   they came and with the path they came by.
   */
  lemma {:induction false} DiscoveryRowsAreArrivals(cfg: Config, fp: string -> string, s: Gw, events: seq<Event>)
    ensures Filter(Gateway.Run(cfg, fp, s, events).reg.db.log, IsSighting) ==
      Filter(s.reg.db.log, IsSighting) + Arrivals(cfg, fp, s, events)
  {
    hide Filter, Gateway.Apply, BroughtIn;
    if events == [] {
      assert Filter(s.reg.db.log, IsSighting) + [] == Filter(s.reg.db.log, IsSighting);
    } else {
      var n := |events| - 1;
      DiscoveryRowsAreArrivals(cfg, fp, s, events[..n]);
      StepRow(cfg, fp, Gateway.Run(cfg, fp, s, events[..n]), events[n].step, events[n].at);
      var added := BroughtIn(Gateway.Run(cfg, fp, s, events[..n]).reg.db, Gateway.Run(cfg, fp, s, events).reg.db,
                             events[n].step);
      Regroup(Filter(s.reg.db.log, IsSighting), Arrivals(cfg, fp, s, events[..n]), added);
    }
  }

  /* ----- agent by agent ----- */

  predicate ArrivesAt(cfg: Config, fp: string -> string, s: Gw, events: seq<Event>, j: nat, agentId: string)
    requires j < |events|
  {
    agentId !in Gateway.Run(cfg, fp, s, events[..j]).reg.db.agents &&
    agentId in Gateway.Run(cfg, fp, s, events[..j + 1]).reg.db.agents
  }

  function CountOf(rows: seq<LogRow>, agentId: string): nat {
    if rows == [] then 0
    else CountOf(rows[..|rows| - 1], agentId) + if rows[|rows| - 1].agentId == agentId then 1 else 0
  }

  lemma {:induction false} CountAdds(a: seq<LogRow>, b: seq<LogRow>, agentId: string)
    ensures CountOf(a + b, agentId) == CountOf(a, agentId) + CountOf(b, agentId)
  {
    if b == [] {
      assert a + b == a;
    } else {
      assert (a + b)[..|a + b| - 1] == a + b[..|b| - 1];
      CountAdds(a, b[..|b| - 1], agentId);
    }
  }

  lemma {:induction false} CountFilter(log: seq<LogRow>, agentId: string)
    ensures |Filter(log, SightingOf(agentId))| == CountOf(Filter(log, IsSighting), agentId)
  {
    if log != [] {
      var init, row := log[..|log| - 1], log[|log| - 1];
      CountFilter(init, agentId);
      CountAdds(Filter(init, IsSighting), if IsSighting(row) then [row] else [], agentId);
      assert CountOf([], agentId) == 0;
      assert [row][..0] == [] && CountOf([row], agentId) == if row.agentId == agentId then 1 else 0;
    }
  }

  // Only the caller of a request of this gateway enters the table by it.
  lemma {:induction false} OnlyTheCaller(cfg: Config, fp: string -> string, s: Gw, step: Step, now: int)
    ensures var t := Gateway.Apply(cfg, fp, s, step, now);
      && s.reg.db.agents.Keys <= t.reg.db.agents.Keys
      && (!step.Other? ==> forall a | a in t.reg.db.agents && a !in s.reg.db.agents ::
            (step.Start? || step.Otel?) && step.caller == a)
  {
    hide StartCall, StartBatch, Registry.Apply;
    match step
    case Other(op) => OtherLog(s.reg, fp, op, now);
    case Start(token, caller, tool, at, allowed, load) =>
      StartKeys(cfg, Refreshed(cfg, s, load, now), token, caller, tool, at, allowed);
    case Otel(token, caller, items, at, allowed, load) =>
      BatchKeys(cfg, Refreshed(cfg, s, load, now), token, caller, items, at, allowed);
    case _ =>
  }

  lemma StartKeys(cfg: Config, s: Gw, token: Option<string>, caller: string, tool: string, at: real, allowed: bool)
    ensures var agents := StartCall(cfg, s, token, caller, tool, at, allowed).reg.db.agents;
      s.reg.db.agents.Keys <= agents.Keys <= s.reg.db.agents.Keys + {caller}
  {
    hide Record, CallOf, Sight, NeedsDiscovery, AsksLimiter, FiledUnder, Resolve;
    SightRow(s.reg.db, cfg.org, MCP, caller);
    RecordRow(Prepared(cfg, s, token, caller, tool, at, allowed), CallOf(cfg, s, token, caller, tool, at, allowed));
  }

  lemma BatchKeys(cfg: Config, s: Gw, token: Option<string>, caller: string, items: seq<(string, bool)>, at: real,
                  allowed: bool)
    ensures var agents := StartBatch(cfg, s, token, caller, items, at, allowed).reg.db.agents;
      s.reg.db.agents.Keys <= agents.Keys <= s.reg.db.agents.Keys + {caller}
  {
    hide Sight, Resolve, Reports;
    SightRow(s.reg.db, cfg.org, OTEL, caller);
  }

  lemma {:induction false} ArrivalCount(cfg: Config, fp: string -> string, s: Gw, step: Step, now: int, agentId: string)
    ensures var t := Gateway.Apply(cfg, fp, s, step, now);
      CountOf(BroughtIn(s.reg.db, t.reg.db, step), agentId) ==
        if !step.Other? && agentId !in s.reg.db.agents && agentId in t.reg.db.agents then 1 else 0
  {
    hide Gateway.Apply;
    OnlyTheCaller(cfg, fp, s, step, now);
    var rows := BroughtIn(s.reg.db, Gateway.Apply(cfg, fp, s, step, now).reg.db, step);
    assert CountOf([], agentId) == 0;
    if rows != [] {
      assert rows[..0] == [];
      assert CountOf(rows, agentId) == if rows[0].agentId == agentId then 1 else 0;
    }
  }

  // How often a request of this gateway brought the agent in, and whether it was there in the end.
  lemma {:induction false} ArrivalsOf(cfg: Config, fp: string -> string, s: Gw, events: seq<Event>, agentId: string)
    ensures var n := CountOf(Arrivals(cfg, fp, s, events), agentId);
      && n <= 1
      && (n == 1 ==> agentId !in s.reg.db.agents && agentId in Gateway.Run(cfg, fp, s, events).reg.db.agents)
      && (n == 1 <==> exists j :: 0 <= j < |events| && IsArrival(cfg, fp, s, events, j, agentId))
    ensures s.reg.db.agents.Keys <= Gateway.Run(cfg, fp, s, events).reg.db.agents.Keys
  {
    hide Gateway.Apply, BroughtIn;
    if events != [] {
      var n := |events| - 1;
      var init, before := events[..n], Gateway.Run(cfg, fp, s, events[..n]);
      ArrivalsOf(cfg, fp, s, init, agentId);
      ArrivalCount(cfg, fp, before, events[n].step, events[n].at, agentId);
      OnlyTheCaller(cfg, fp, before, events[n].step, events[n].at);
      var added := BroughtIn(before.reg.db, Gateway.Run(cfg, fp, s, events).reg.db, events[n].step);
      CountAdds(Arrivals(cfg, fp, s, init), added, agentId);
      assert events[..n + 1] == events;
      forall j | 0 <= j < n
        ensures IsArrival(cfg, fp, s, init, j, agentId) <==> IsArrival(cfg, fp, s, events, j, agentId)
      {
        SamePast(cfg, fp, s, events, n, j, agentId);
      }
      assert IsArrival(cfg, fp, s, events, n, agentId) <==> CountOf(added, agentId) == 1;
    }
  }

  // Event j is a request of this gateway and brings the agent into the table.
  predicate IsArrival(cfg: Config, fp: string -> string, s: Gw, events: seq<Event>, j: nat, agentId: string)
    requires j < |events|
  {
    !events[j].step.Other? && ArrivesAt(cfg, fp, s, events, j, agentId)
  }

  lemma SamePast(cfg: Config, fp: string -> string, s: Gw, events: seq<Event>, n: nat, j: nat, agentId: string)
    requires j < n <= |events|
    ensures IsArrival(cfg, fp, s, events[..n], j, agentId) <==> IsArrival(cfg, fp, s, events, j, agentId)
  {
    hide Gateway.Run;
    assert events[..n][..j] == events[..j] && events[..n][..j + 1] == events[..j + 1];
  }

  /**
   Agent by agent. In every run an agent gets exactly one more discovery row if a tool call or a
   batch of this gateway brought it into the table, and none if it was there at the start, was
   brought in by another process, or never came.
   */
  lemma {:induction false} DiscoveredExactlyOnce(cfg: Config, fp: string -> string, s: Gw, events: seq<Event>,
                                                 agentId: string)
    ensures |Filter(Gateway.Run(cfg, fp, s, events).reg.db.log, SightingOf(agentId))| ==
      |Filter(s.reg.db.log, SightingOf(agentId))| +
        if exists j :: 0 <= j < |events| && IsArrival(cfg, fp, s, events, j, agentId) then 1 else 0
  {
    hide Filter, Gateway.Run, Arrivals, IsArrival;
    DiscoveryRowsAreArrivals(cfg, fp, s, events);
    ArrivalsOf(cfg, fp, s, events, agentId);
    CountFilter(s.reg.db.log, agentId);
    CountFilter(Gateway.Run(cfg, fp, s, events).reg.db.log, agentId);
    CountAdds(Filter(s.reg.db.log, IsSighting), Arrivals(cfg, fp, s, events), agentId);
  }

  /** A request without a token, where none is required, leaves its caller in the table. */
  lemma {:induction false} TokenlessIsSeen(cfg: Config, fp: string -> string, s: Gw, step: Step, now: int)
    requires (step.Start? || (step.Otel? && !cfg.requireToken)) && step.token.None?
    ensures step.caller in Gateway.Apply(cfg, fp, s, step, now).reg.db.agents
  {
    hide Sight, Record, CallOf, AsksLimiter, FiledUnder, Reports;
    match step
    case Start(token, caller, tool, at, allowed, load) =>
      var r := Refreshed(cfg, s, load, now);
      SightRow(r.reg.db, cfg.org, MCP, caller);
      RecordRow(Prepared(cfg, r, token, caller, tool, at, allowed), CallOf(cfg, r, token, caller, tool, at, allowed));
    case Otel(token, caller, items, at, allowed, load) =>
      SightRow(s.reg.db, cfg.org, OTEL, caller);
  }
}
