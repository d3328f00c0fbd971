/**
 What the gateway's log rows add up to: whatever happens in between, the rows of each kind
 beyond those the gateway started with are the calls and reports they stand for.
 */
module Conservation {
  import opened Wrappers
  import opened Registry
  import opened Gateway
  import TB = TokenBucket

  // The rows of a log that satisfy p, in order.
  function Filter(log: seq<LogRow>, p: LogRow -> bool): seq<LogRow> {
    if log == [] then []
    else Filter(log[..|log| - 1], p) + if p(log[|log| - 1]) then [log[|log| - 1]] else []
  }

  predicate IsCalled(r: LogRow) { r.eventType == "tool.called" && r.source == MCP }
  predicate IsDenied(r: LogRow) { r.result == "denied" }
  predicate IsReport(r: LogRow) { r.eventType == "tool.called" && r.source == OTEL }

  function SightingOf(agentId: string): LogRow -> bool {
    (r: LogRow) => r.eventType == "agent.discovered" && r.agentId == agentId
  }

  predicate Known(calls: seq<Call>, completed: seq<Done>) {
    forall i | 0 <= i < |completed| :: completed[i].call < |calls|
  }

  // The tool calls the backend answered, as rows, in the order it answered.
  function Answered(calls: seq<Call>, completed: seq<Done>): seq<LogRow>
    requires Known(calls, completed)
  {
    if completed == [] then []
    else
      var c := calls[completed[|completed| - 1].call];
      Answered(calls, completed[..|completed| - 1]) + if c.outcome.Handed? then [CalledRow(c.agentId, c.tool)] else []
  }

  // The denied calls, as rows, in the order they came.
  function Denials(calls: seq<Call>): seq<LogRow> {
    if calls == [] then []
    else
      var c := calls[|calls| - 1];
      Denials(calls[..|calls| - 1]) + if IsDenial(c.outcome) then [DenialRow(c.outcome, c.agentId, c.tool)] else []
  }

  // A call handed to the backend has its own entry with the limiter, accepted, and either no token
  // where none is required, or an identity whose scope is unset or holds the tool.
  predicate Justified(cfg: Config, limited: seq<TB.Call>, c: Call) {
    c.outcome.Handed? ==> (
      && c.slot < |limited| && limited[c.slot] == TB.Call(c.agentId, c.at, 1.0, true)
      && c.tool != HEARTBEAT_TOOL
      && if c.identity.None? then c.token.None? && !cfg.requireToken
         else c.identity.value.scope.None? || c.tool in c.identity.value.scope.value)
  }

  predicate CallsOk(cfg: Config, limited: seq<TB.Call>, calls: seq<Call>, completed: seq<Done>) {
    && (forall i | 0 <= i < |calls| :: Justified(cfg, limited, calls[i]))
    && (forall i, j | 0 <= i < j < |calls| && calls[i].outcome.Handed? && calls[j].outcome.Handed? ::
          calls[i].slot < calls[j].slot)
    && Known(calls, completed)
    && (forall i | 0 <= i < |completed| :: !IsDenial(calls[completed[i].call].outcome))
    && (forall i, j | 0 <= i < j < |completed| :: completed[i].call != completed[j].call)
  }

  // One discovery row at most since the start, and none for an agent known by then.
  ghost predicate SightedOnce(s: Gw, agentId: string) {
    |Filter(s.reg.db.log, SightingOf(agentId))| <= |Filter(s.base.log, SightingOf(agentId))| +
      if agentId in s.reg.db.agents && agentId !in s.base.agents then 1 else 0
  }

  // What the log has beyond the rows it started with.
  ghost predicate Conserved(cfg: Config, s: Gw) {
    && CallsOk(cfg, s.limited, s.calls, s.completed)
    && Filter(s.reg.db.log, IsCalled) == Filter(s.base.log, IsCalled) + Answered(s.calls, s.completed)
    && Filter(s.reg.db.log, IsDenied) == Filter(s.base.log, IsDenied) + Denials(s.calls)
    && Filter(s.reg.db.log, IsReport) + ReportRows(s.batch) == Filter(s.base.log, IsReport) + ReportRows(s.accepted)
    && s.base.agents.Keys <= s.reg.db.agents.Keys
    && forall agentId: string :: SightedOnce(s, agentId)
  }

  lemma {:induction false} FilterAppend(log: seq<LogRow>, row: LogRow, p: LogRow -> bool)
    ensures Filter(log + [row], p) == Filter(log, p) + if p(row) then [row] else []
  {
    assert (log + [row])[..|log|] == log;
  }

  // What one more row does to every count.
  lemma {:induction false} RowCounts(log: seq<LogRow>, row: LogRow)
    ensures Filter(log + [row], IsCalled) == Filter(log, IsCalled) + if IsCalled(row) then [row] else []
    ensures Filter(log + [row], IsDenied) == Filter(log, IsDenied) + if IsDenied(row) then [row] else []
    ensures Filter(log + [row], IsReport) == Filter(log, IsReport) + if IsReport(row) then [row] else []
    ensures forall agentId: string ::
      |Filter(log + [row], SightingOf(agentId))| == |Filter(log, SightingOf(agentId))| +
        if row.eventType == "agent.discovered" && row.agentId == agentId then 1 else 0
  {
    hide Filter, IsCalled, IsDenied, IsReport;
    FilterAppend(log, row, IsCalled);
    FilterAppend(log, row, IsDenied);
    FilterAppend(log, row, IsReport);
    forall agentId: string
      ensures |Filter(log + [row], SightingOf(agentId))| == |Filter(log, SightingOf(agentId))| +
        if row.eventType == "agent.discovered" && row.agentId == agentId then 1 else 0
    {
      FilterAppend(log, row, SightingOf(agentId));
    }
  }

  lemma {:induction false} AnsweredAppend(calls: seq<Call>, c: Call, completed: seq<Done>)
    requires Known(calls, completed)
    ensures Answered(calls + [c], completed) == Answered(calls, completed)
  {
    if completed != [] { AnsweredAppend(calls, c, completed[..|completed| - 1]); }
  }

  lemma DenialsAppend(calls: seq<Call>, c: Call)
    ensures Denials(calls + [c]) == Denials(calls) +
      if IsDenial(c.outcome) then [DenialRow(c.outcome, c.agentId, c.tool)] else []
  {
    assert (calls + [c])[..|calls|] == calls;
  }

  // Rows of other processes count for nothing here.
  predicate Foreign(row: LogRow) {
    row.source == "registry" && row.result == "success" && row.eventType != "agent.discovered"
  }

  lemma {:induction false} OtherLog(s: State, fp: string -> string, op: Op, now: int)
    ensures var after := Registry.Apply(s, fp, op, now).db;
      && s.db.agents.Keys <= after.agents.Keys
      && (after.log == s.db.log || (after.log == s.db.log + after.log[|s.db.log|..] &&
            |after.log| == |s.db.log| + 1 && Foreign(after.log[|s.db.log|])))
  {
  }

  // One more row, which is not a discovery: only the calls, completions and reports it stands for change.
  lemma {:induction false} RowKeeps(cfg: Config, s: Gw, t: Gw, row: LogRow)
    requires Conserved(cfg, s) && CallsOk(cfg, t.limited, t.calls, t.completed)
    requires t.base == s.base && t.reg.db.log == s.reg.db.log + [row] && row.eventType != "agent.discovered"
    requires s.reg.db.agents.Keys <= t.reg.db.agents.Keys
    requires Answered(t.calls, t.completed) == Answered(s.calls, s.completed) + if IsCalled(row) then [row] else []
    requires Denials(t.calls) == Denials(s.calls) + if IsDenied(row) then [row] else []
    requires t.accepted == s.accepted
    requires ReportRows(s.batch) == (if IsReport(row) then [row] else []) + ReportRows(t.batch)
    ensures Conserved(cfg, t)
  {
    CallsKept(cfg, s);
    hide Filter, Answered, Denials, ReportRows, Justified, IsCalled, IsDenied, IsReport, SightingOf;
    RowCounts(s.reg.db.log, row);
    forall agentId: string ensures SightedOnce(t, agentId) { assert SightedOnce(s, agentId); }
    Regroup(Filter(s.base.log, IsCalled), Answered(s.calls, s.completed), if IsCalled(row) then [row] else []);
    Regroup(Filter(s.base.log, IsDenied), Denials(s.calls), if IsDenied(row) then [row] else []);
    Regroup(Filter(s.reg.db.log, IsReport), if IsReport(row) then [row] else [], ReportRows(t.batch));
  }

  lemma Regroup(a: seq<LogRow>, b: seq<LogRow>, c: seq<LogRow>)
    ensures (a + b) + c == a + (b + c)
  {
  }

  lemma {:induction false} NoRowKeeps(cfg: Config, s: Gw, t: Gw)
    requires Conserved(cfg, s) && CallsOk(cfg, t.limited, t.calls, t.completed)
    requires t.base == s.base && t.reg.db.log == s.reg.db.log && s.reg.db.agents.Keys <= t.reg.db.agents.Keys
    requires Answered(t.calls, t.completed) == Answered(s.calls, s.completed) && Denials(t.calls) == Denials(s.calls)
    requires t.batch == s.batch && t.accepted == s.accepted
    ensures Conserved(cfg, t)
  {
    hide Filter, Answered, Denials, ReportRows, CallsOk, SightingOf;
    forall agentId: string ensures SightedOnce(t, agentId) { assert SightedOnce(s, agentId); }
  }

  lemma CallsKept(cfg: Config, s: Gw)
    requires Conserved(cfg, s)
    ensures CallsOk(cfg, s.limited, s.calls, s.completed)
  {
  }

  // The calls seen by the limiter are only ever added to.
  lemma CallsOkLater(cfg: Config, limited: seq<TB.Call>, more: seq<TB.Call>, calls: seq<Call>, completed: seq<Done>)
    requires CallsOk(cfg, limited, calls, completed)
    ensures CallsOk(cfg, limited + more, calls, completed)
  {
    forall i | 0 <= i < |calls| ensures Justified(cfg, limited + more, calls[i]) {
      assert Justified(cfg, limited, calls[i]);
    }
  }

  lemma ForeignCountsForNothing(row: LogRow)
    requires Foreign(row)
    ensures !IsCalled(row) && !IsDenied(row) && !IsReport(row) && row.eventType != "agent.discovered"
  {
  }

  lemma {:induction false} OtherKeeps(cfg: Config, fp: string -> string, s: Gw, op: Op, now: int)
    requires Conserved(cfg, s)
    ensures Conserved(cfg, s.(reg := Registry.Apply(s.reg, fp, op, now)))
  {
    hide Conserved, Foreign, Registry.Apply, IsCalled, IsDenied, IsReport, CallsOk, Answered, Denials, ReportRows;
    var t := s.(reg := Registry.Apply(s.reg, fp, op, now));
    OtherLog(s.reg, fp, op, now);
    CallsKept(cfg, s);
    if t.reg.db.log == s.reg.db.log {
      NoRowKeeps(cfg, s, t);
    } else {
      var row := t.reg.db.log[|s.reg.db.log|];
      assert t.reg.db.log[|s.reg.db.log|..] == [row];
      ForeignCountsForNothing(row);
      assert [] + ReportRows(t.batch) == ReportRows(s.batch);
      RowKeeps(cfg, s, t, row);
    }
  }

  lemma DiscoveredCounts(source: string, caller: string)
    ensures var row := DiscoveredRow(source, caller);
      !IsCalled(row) && !IsDenied(row) && !IsReport(row) && row.eventType == "agent.discovered" && row.agentId == caller
  {
  }

  lemma {:induction false} SightKeeps(cfg: Config, s: Gw, source: string, caller: string)
    requires Conserved(cfg, s)
    ensures Conserved(cfg, WithDb(s, Sight(s.reg.db, cfg.org, source, caller)))
  {
    hide Filter, Answered, Denials, ReportRows, CallsOk, IsCalled, IsDenied, IsReport, SightingOf, DiscoveredRow;
    var t := WithDb(s, Sight(s.reg.db, cfg.org, source, caller));
    if caller in s.reg.db.agents {
      NoRowKeeps(cfg, s, t);
    } else {
      DiscoveredCounts(source, caller);
      RowCounts(s.reg.db.log, DiscoveredRow(source, caller));
      forall agentId: string ensures SightedOnce(t, agentId) { assert SightedOnce(s, agentId); }
    }
  }

  lemma DenialCounts(c: Call)
    requires IsDenial(c.outcome)
    ensures var row := DenialRow(c.outcome, c.agentId, c.tool);
      !IsCalled(row) && IsDenied(row) && !IsReport(row) && row.eventType != "agent.discovered"
  {
  }

  predicate LaterSlot(calls: seq<Call>, c: Call) {
    forall i | 0 <= i < |calls| && calls[i].outcome.Handed? :: calls[i].slot < c.slot
  }

  lemma SlotsUsed(cfg: Config, s: Gw)
    requires Conserved(cfg, s)
    ensures forall i | 0 <= i < |s.calls| && s.calls[i].outcome.Handed? :: s.calls[i].slot < |s.limited|
  {
    assert forall i | 0 <= i < |s.calls| :: Justified(cfg, s.limited, s.calls[i]);
  }

  // Recording a call, with its denial row if it is denied.
  lemma {:induction false} RecordKeeps(cfg: Config, s: Gw, c: Call)
    requires Conserved(cfg, s) && Justified(cfg, s.limited, c) && LaterSlot(s.calls, c)
    ensures Conserved(cfg, Record(s, c))
  {
    hide Answered, Denials, ReportRows, Justified, Conserved, DenialRow, IsDenial, IsCalled, IsDenied, IsReport;
    var t := Record(s, c);
    CallsKept(cfg, s);
    AnsweredAppend(s.calls, c, s.completed);
    DenialsAppend(s.calls, c);
    assert Answered(s.calls, s.completed) + [] == Answered(s.calls, s.completed);
    assert Denials(s.calls) + [] == Denials(s.calls) && [] + ReportRows(s.batch) == ReportRows(s.batch);
    if IsDenial(c.outcome) {
      DenialCounts(c);
      RowKeeps(cfg, s, t, DenialRow(c.outcome, c.agentId, c.tool));
    } else {
      NoRowKeeps(cfg, s, t);
    }
  }

  // The limiter hears of one more call.
  lemma {:induction false} AskedKeeps(cfg: Config, s: Gw, call: TB.Call)
    requires Conserved(cfg, s)
    ensures Conserved(cfg, s.(limited := s.limited + [call]))
  {
    hide CallsOk, Answered, Denials, ReportRows;
    CallsOkLater(cfg, s.limited, [call], s.calls, s.completed);
    NoRowKeeps(cfg, s, s.(limited := s.limited + [call]));
  }

  lemma AdmitJustified(cfg: Config, limited: seq<TB.Call>, c: Call, allowed: bool)
    requires c.outcome == Admit(cfg, c.identity, c.token, c.tool, allowed)
    requires AsksLimiter(cfg, c.identity, c.token, c.tool) ==>
      c.slot < |limited| && limited[c.slot] == TB.Call(c.agentId, c.at, 1.0, allowed)
    ensures Justified(cfg, limited, c)
  {
  }

  lemma {:induction false} StartKeeps(cfg: Config, s: Gw, token: Option<string>, caller: string, tool: string, at: real,
                                      allowed: bool)
    requires Conserved(cfg, s)
    ensures Conserved(cfg, StartCall(cfg, s, token, caller, tool, at, allowed))
  {
    hide Conserved, Justified, Admit, Sight, Record, AsksLimiter, FiledUnder, NeedsDiscovery, Resolve;
    SlotsUsed(cfg, s);
    var identity := Resolve(s.cache, token);
    var agentId := FiledUnder(s.reg.db, cfg.org, identity, token, caller);
    var asked := s;
    if NeedsDiscovery(s.reg.db, cfg.org, identity, token) {
      SightKeeps(cfg, s, MCP, caller);
      asked := WithDb(s, Sight(s.reg.db, cfg.org, MCP, caller));
    }
    if AsksLimiter(cfg, identity, token, tool) {
      AskedKeeps(cfg, asked, TB.Call(agentId, at, 1.0, allowed));
      asked := asked.(limited := s.limited + [TB.Call(agentId, at, 1.0, allowed)]);
    }
    var c := Call(agentId, tool, token, identity, at, |s.limited|, Admit(cfg, identity, token, tool, allowed));
    AdmitJustified(cfg, asked.limited, c, allowed);
    RecordKeeps(cfg, asked, c);
  }

  lemma {:induction false} CompletionOk(cfg: Config, s: Gw, done: Done)
    requires CallsOk(cfg, s.limited, s.calls, s.completed)
    requires done.call < |s.calls| && !IsDenial(s.calls[done.call].outcome) && IsOpen(s.completed, done.call)
    ensures CallsOk(cfg, s.limited, s.calls, s.completed + [done])
    ensures var c := s.calls[done.call];
      Answered(s.calls, s.completed + [done]) == Answered(s.calls, s.completed) +
        if c.outcome.Handed? then [CalledRow(c.agentId, c.tool)] else []
  {
    hide Justified, IsDenial;
    assert (s.completed + [done])[..|s.completed|] == s.completed;
  }

  lemma {:induction false} HeartbeatKeeps(cfg: Config, s: Gw, call: nat, failed: bool)
    requires Conserved(cfg, s) && call < |s.calls| && IsOpen(s.completed, call)
    requires s.calls[call].outcome.Heartbeat?
    ensures Conserved(cfg, FinishCall(s, call, failed))
  {
    hide Conserved, Answered, Denials, ReportRows, CallsOk, IsCalled, IsDenied, IsReport, HeartbeatRow;
    var t, row := FinishCall(s, call, failed), HeartbeatRow(s.calls[call].agentId);
    CallsKept(cfg, s);
    CompletionOk(cfg, s, Done(call, failed));
    assert Answered(s.calls, s.completed) + [] == Answered(s.calls, s.completed);
    if failed {
      NoRowKeeps(cfg, s, t);
    } else {
      HeartbeatCounts(s.calls[call].agentId);
      assert Denials(s.calls) + [] == Denials(s.calls) && [] + ReportRows(s.batch) == ReportRows(s.batch);
      RowKeeps(cfg, s, t, row);
    }
  }

  lemma HeartbeatCounts(agentId: string)
    ensures var row := HeartbeatRow(agentId);
      !IsCalled(row) && !IsDenied(row) && !IsReport(row) && row.eventType != "agent.discovered"
  {
  }

  lemma CalledCounts(agentId: string, tool: string)
    ensures var row := CalledRow(agentId, tool);
      IsCalled(row) && !IsDenied(row) && !IsReport(row) && row.eventType != "agent.discovered"
  {
  }

  lemma {:induction false} CalledKeeps(cfg: Config, s: Gw, call: nat, failed: bool)
    requires Conserved(cfg, s) && call < |s.calls| && IsOpen(s.completed, call)
    requires s.calls[call].outcome.Handed?
    ensures Conserved(cfg, FinishCall(s, call, failed))
  {
    hide Conserved, Answered, Denials, ReportRows, CallsOk, IsCalled, IsDenied, IsReport, CalledRow;
    var t, c := FinishCall(s, call, failed), s.calls[call];
    CallsKept(cfg, s);
    CompletionOk(cfg, s, Done(call, failed));
    CalledCounts(c.agentId, c.tool);
    assert Denials(s.calls) + [] == Denials(s.calls) && [] + ReportRows(s.batch) == ReportRows(s.batch);
    RowKeeps(cfg, s, t, CalledRow(c.agentId, c.tool));
  }

  lemma {:induction false} AcceptKeeps(cfg: Config, s: Gw, batch: seq<Report>)
    requires Conserved(cfg, s) && s.batch == []
    ensures Conserved(cfg, Accept(s, batch))
  {
    hide Filter, Answered, Denials, CallsOk, ReportRows, SightingOf, IsCalled, IsDenied, IsReport;
    var t := Accept(s, batch);
    ReportRowsAdd(s.accepted, batch);
    NoReports();
    var base, log := Filter(s.base.log, IsReport), Filter(s.reg.db.log, IsReport);
    assert log + [] == log;
    Regroup(base, ReportRows(s.accepted), ReportRows(batch));
    forall agentId: string ensures SightedOnce(t, agentId) { assert SightedOnce(s, agentId); }
  }

  lemma ReportRowsAdd(a: seq<Report>, b: seq<Report>)
    ensures ReportRows(a + b) == ReportRows(a) + ReportRows(b)
  {
  }

  lemma {:induction false} BatchKeeps(cfg: Config, s: Gw, token: Option<string>, caller: string,
                                      items: seq<(string, bool)>, at: real, allowed: bool)
    requires Conserved(cfg, s) && s.batch == []
    ensures Conserved(cfg, StartBatch(cfg, s, token, caller, items, at, allowed))
  {
    hide Conserved, Reports, Sight, Accept, Resolve;
    var identity := Resolve(s.cache, token);
    if !BatchRefused(cfg, identity, token) {
      var agentId := ReportedBy(identity, caller);
      if identity.None? { SightKeeps(cfg, s, OTEL, caller); }
      var sighted := if identity.Some? then s else WithDb(s, Sight(s.reg.db, cfg.org, OTEL, caller));
      var call := TB.Call(agentId, at, 1.0, allowed);
      AskedKeeps(cfg, sighted, call);
      if allowed { AcceptKeeps(cfg, sighted.(limited := s.limited + [call]), Reports(agentId, items)); }
    }
  }

  lemma FirstReport(batch: seq<Report>)
    requires batch != []
    ensures ReportRows(batch) == [ReportRow(batch[0])] + ReportRows(batch[1..])
    ensures var row := ReportRow(batch[0]);
      !IsCalled(row) && !IsDenied(row) && IsReport(row) && row.eventType != "agent.discovered"
  {
  }

  lemma {:induction false} OtelLogKeeps(cfg: Config, s: Gw)
    requires Conserved(cfg, s) && s.batch != []
    ensures Conserved(cfg, LogTo(s.(batch := s.batch[1..]), ReportRow(s.batch[0])))
  {
    hide Conserved, Answered, Denials, CallsOk, ReportRows, ReportRow, IsCalled, IsDenied, IsReport;
    var t := LogTo(s.(batch := s.batch[1..]), ReportRow(s.batch[0]));
    CallsKept(cfg, s);
    FirstReport(s.batch);
    assert Answered(s.calls, s.completed) + [] == Answered(s.calls, s.completed);
    assert Denials(s.calls) + [] == Denials(s.calls);
    RowKeeps(cfg, s, t, ReportRow(s.batch[0]));
  }

  lemma {:induction false} RefreshKeeps(cfg: Config, s: Gw, load: map<string, Identity>, now: int)
    requires Conserved(cfg, s)
    ensures Conserved(cfg, Refreshed(cfg, s, load, now))
  {
    hide CallsOk, Answered, Denials, ReportRows;
    NoRowKeeps(cfg, s, Refreshed(cfg, s, load, now));
  }

  lemma {:induction false} StepKeeps(cfg: Config, fp: string -> string, s: Gw, step: Step, now: int)
    requires Conserved(cfg, s) && Enabled(cfg, s, step, now)
    ensures Conserved(cfg, Gateway.Apply(cfg, fp, s, step, now))
  {
    hide Conserved, StartCall, StartBatch, FinishCall, LoadOk, StartAnswered, BatchAnswered, IsOpen;
    match step
    case Other(op) => OtherKeeps(cfg, fp, s, op, now);
    case Start(token, caller, tool, at, allowed, load) =>
      RefreshKeeps(cfg, s, load, now);
      StartKeeps(cfg, Refreshed(cfg, s, load, now), token, caller, tool, at, allowed);
    case Finish(call, failed) =>
      if s.calls[call].outcome.Heartbeat? {
        HeartbeatKeeps(cfg, s, call, failed);
      } else {
        CalledKeeps(cfg, s, call, failed);
      }
    case Otel(token, caller, items, at, allowed, load) =>
      RefreshKeeps(cfg, s, load, now);
      BatchKeeps(cfg, Refreshed(cfg, s, load, now), token, caller, items, at, allowed);
    case OtelLog => OtelLogKeeps(cfg, s);
  }

  /**
   Conservation. In every run, whatever the log held at the start and whatever other processes
   do in between: the gateway's new tool.called rows are the calls the backend answered, in that
   order; each such call has its own accepted entry with the limiter and was within scope or
   presented no token where none is required; the new denied rows are the denied calls, one
   each, in order; at most one new discovery row an agent, none for one known before; and the
   new OTel rows are the accepted batches, whole and in order, but for the tail of the batch
   still being logged.
   */
  lemma {:induction false} EveryRunConserves(cfg: Config, fp: string -> string, s: Gw, events: seq<Event>)
    requires Starts(cfg, s) && Legal(cfg, fp, s, events)
    ensures Conserved(cfg, Gateway.Run(cfg, fp, s, events)) && Gateway.Run(cfg, fp, s, events).base == s.reg.db
  {
    hide Conserved, Gateway.Apply, Enabled, Starts;
    if events == [] {
      StartsConserved(cfg, s);
    } else {
      var n := |events| - 1;
      LegalPrefix(cfg, fp, s, events, n);
      EveryRunConserves(cfg, fp, s, events[..n]);
      assert LegalAt(cfg, fp, s, events, n);
      StepKeeps(cfg, fp, Gateway.Run(cfg, fp, s, events[..n]), events[n].step, events[n].at);
      BaseStays(cfg, fp, Gateway.Run(cfg, fp, s, events[..n]), events[n].step, events[n].at);
    }
  }

  /* ----- what the rows say of the outcome ----- */

  // The rows of the answered calls if each told how its call went.
  function TrueRows(calls: seq<Call>, completed: seq<Done>): seq<LogRow>
    requires Known(calls, completed)
  {
    if completed == [] then []
    else
      var last := completed[|completed| - 1];
      var c := calls[last.call];
      var row := CalledRow(c.agentId, c.tool).(result := if last.failed then "error" else "success");
      TrueRows(calls, completed[..|completed| - 1]) + if c.outcome.Handed? then [row] else []
  }

  predicate NoneFailed(calls: seq<Call>, completed: seq<Done>)
    requires Known(calls, completed)
  {
    forall i | 0 <= i < |completed| && calls[completed[i].call].outcome.Handed? :: !completed[i].failed
  }

  lemma {:induction false} RowsTellIff(calls: seq<Call>, completed: seq<Done>)
    requires Known(calls, completed)
    ensures |TrueRows(calls, completed)| == |Answered(calls, completed)|
    ensures TrueRows(calls, completed) == Answered(calls, completed) <==> NoneFailed(calls, completed)
  {
    hide NoneFailed;
    if completed == [] {
      NothingFailed(calls);
    } else {
      var last := completed[|completed| - 1];
      var init, c := completed[..|completed| - 1], calls[last.call];
      RowsTellIff(calls, init);
      LastFailed(calls, completed);
      if c.outcome.Handed? {
        var row := CalledRow(c.agentId, c.tool);
        SameEnds(TrueRows(calls, init), row.(result := if last.failed then "error" else "success"),
                 Answered(calls, init), row);
      } else {
        assert TrueRows(calls, init) + [] == TrueRows(calls, init);
        assert Answered(calls, init) + [] == Answered(calls, init);
      }
    }
  }

  lemma NothingFailed(calls: seq<Call>)
    ensures NoneFailed(calls, [])
  {
  }

  lemma LastFailed(calls: seq<Call>, completed: seq<Done>)
    requires Known(calls, completed) && completed != []
    ensures var last := completed[|completed| - 1];
      NoneFailed(calls, completed) <==>
        NoneFailed(calls, completed[..|completed| - 1]) && (calls[last.call].outcome.Handed? ==> !last.failed)
  {
  }

  lemma SameEnds(a: seq<LogRow>, x: LogRow, b: seq<LogRow>, y: LogRow)
    requires |a| == |b|
    ensures a + [x] == b + [y] <==> a == b && x == y
  {
    assert (a + [x])[..|a|] == a && (b + [y])[..|b|] == b;
    assert (a + [x])[|a|] == x && (b + [y])[|b|] == y;
  }

  /**
   The result column of the gateway's own rows is right exactly when no call failed: in every
   run they are the rows that tell how each call went if and only if the backend raised in none.
   */
  lemma {:induction false} ResultsRightIff(cfg: Config, fp: string -> string, s: Gw, events: seq<Event>)
    requires Starts(cfg, s) && Legal(cfg, fp, s, events)
    ensures var t := Gateway.Run(cfg, fp, s, events);
      && Known(t.calls, t.completed)
      && (NoneFailed(t.calls, t.completed) <==>
        Filter(t.reg.db.log, IsCalled) == Filter(s.reg.db.log, IsCalled) + TrueRows(t.calls, t.completed))
  {
    hide Starts, Legal, Filter, TrueRows, Answered, Denials, NoneFailed, ReportRows, SightedOnce, IsCalled, IsDenied;
    EveryRunConserves(cfg, fp, s, events);
    var t := Gateway.Run(cfg, fp, s, events);
    RowsTellIff(t.calls, t.completed);
    SamePrefix(Filter(s.reg.db.log, IsCalled), TrueRows(t.calls, t.completed), Answered(t.calls, t.completed));
  }

  // A call without a token is let through, and the backend raises.
  function FailingCall(caller: string, tool: string, at: real, load: map<string, Identity>, now: int): seq<Event> {
    [Event(Start(None, caller, tool, at, true, load), now), Event(Finish(0, true), now)]
  }

  /** So the row of a call that failed says success, in the first two events of any new gateway. */
  lemma {:induction false} FailureReadsAsSuccess(cfg: Config, fp: string -> string, s: Gw, caller: string, tool: string,
                                                 at: real, load: map<string, Identity>, now: int)
    requires Starts(cfg, s) && s.limited == [] && cfg.burst >= 1.0 && !cfg.requireToken && tool != HEARTBEAT_TOOL
    requires LoadOk(cfg, s, load, now)
    ensures var events := FailingCall(caller, tool, at, load, now);
      var t := Gateway.Run(cfg, fp, s, events);
      && Legal(cfg, fp, s, events) && t.completed == [Done(0, true)]
      && |t.reg.db.log| > 0 && t.reg.db.log[|t.reg.db.log| - 1] == CalledRow(caller, tool)
      && CalledRow(caller, tool).result == "success"
  {
    hide Sight, LoadOk, IsLoad, LimiterConforms, TB.Fits;
    var events := FailingCall(caller, tool, at, load, now);
    FirstCallFits(cfg, caller, at);
    assert events[..0] == [] && events[..2] == events;
    assert Gateway.Run(cfg, fp, s, []) == s;
    RunNext(cfg, fp, s, events, 0);
    RunNext(cfg, fp, s, events, 1);
    assert TB.Of([], caller) + [TB.Call(caller, at, 1.0, true)] == [TB.Call(caller, at, 1.0, true)];
    var one := Gateway.Run(cfg, fp, s, events[..1]);
    assert one == StartCall(cfg, Refreshed(cfg, s, load, now), None, caller, tool, at, true);
    assert |one.calls| == 1 && one.calls[0].outcome == Handed && one.calls[0].agentId == caller;
    assert LegalAt(cfg, fp, s, events, 0) && LegalAt(cfg, fp, s, events, 1);
  }

  lemma FirstCallFits(cfg: Config, caller: string, at: real)
    requires cfg.burst >= 1.0
    ensures TB.Fits(cfg.rate, cfg.burst, [TB.Call(caller, at, 1.0, true)], 0)
  {
    TB.TimesZero(cfg.rate, at - at);
  }

  lemma SamePrefix(p: seq<LogRow>, a: seq<LogRow>, b: seq<LogRow>)
    ensures p + a == p + b <==> a == b
  {
    assert (p + a)[|p|..] == a && (p + b)[|p|..] == b;
  }

  lemma BaseStays(cfg: Config, fp: string -> string, s: Gw, step: Step, now: int)
    ensures Gateway.Apply(cfg, fp, s, step, now).base == s.base
  {
    hide Registry.Apply, Sight, Admit, Reports;
  }

  lemma StartsConserved(cfg: Config, s: Gw)
    requires Starts(cfg, s)
    ensures Conserved(cfg, s) && s.base == s.reg.db
  {
    hide LimiterConforms, IsLoad;
  }
}
