/**
 The gateway: tool calls resolved through a cached token registry, admitted or denied, handed
 to the backend and logged when it answers; batches reported through the OTel endpoint; and,
 between any two of these, the registry operations of other processes.
 */
module Gateway {
  import opened Wrappers
  import opened Registry
  import TB = TokenBucket

  const HEARTBEAT_TOOL := "bf_heartbeat"
  const MCP := "mcp_gateway"
  const OTEL := "otel_sdk"

  // rate and burst are the limiter's.
  datatype Config = Config(org: string, refresh: int, requireToken: bool, rate: real, burst: real)

  /* ----- resolution ----- */

  predicate RefreshDue(cfg: Config, loadedAt: int, now: int) { now - loadedAt >= cfg.refresh }

  function Resolve(cache: map<string, Identity>, token: Option<string>): Option<Identity> {
    if token.Some? && token.value != "" && token.value in cache then Some(cache[token.value]) else None
  }

  // The agent the presented, unresolved token was issued to, if this organization knows it.
  function HolderOf(db: Db, org: string, token: Option<string>): Option<string> {
    if token.Some? && token.value in db.credentials
       && db.credentials[token.value].agentId in db.agents
       && db.agents[db.credentials[token.value].agentId].org == org
    then Some(db.credentials[token.value].agentId) else None
  }

  // The agent a call is filed under; `caller` is the id passive discovery gives it.
  function FiledUnder(db: Db, org: string, identity: Option<Identity>, token: Option<string>, caller: string): string {
    if identity.Some? then identity.value.agentId
    else if HolderOf(db, org, token).Some? then HolderOf(db, org, token).value
    else caller
  }

  predicate NeedsDiscovery(db: Db, org: string, identity: Option<Identity>, token: Option<string>) {
    identity.None? && HolderOf(db, org, token).None?
  }

  /* ----- admission ----- */

  datatype Outcome = BadToken | NoToken | Limited | Blocked | Heartbeat | Handed

  predicate IsDenial(o: Outcome) { o.BadToken? || o.NoToken? || o.Limited? || o.Blocked? }

  function Admit(cfg: Config, identity: Option<Identity>, token: Option<string>, tool: string, allowed: bool): Outcome {
    if identity.None? && token.Some? then BadToken
    else if identity.None? && cfg.requireToken then NoToken
    else if tool == HEARTBEAT_TOOL then Heartbeat
    else if !allowed then Limited
    else if identity.Some? && identity.value.scope.Some? && tool !in identity.value.scope.value then Blocked
    else Handed
  }

  // Neither a refused token nor a heartbeat asks the limiter.
  predicate AsksLimiter(cfg: Config, identity: Option<Identity>, token: Option<string>, tool: string) {
    !(identity.None? && (token.Some? || cfg.requireToken)) && tool != HEARTBEAT_TOOL
  }

  // The limiter's answer to one more call of the agent, after the calls it has seen.
  predicate LimiterSays(cfg: Config, limited: seq<TB.Call>, agentId: string, at: real, allowed: bool) {
    var mine := TB.Of(limited, agentId);
    allowed <==> TB.Fits(cfg.rate, cfg.burst, mine + [TB.Call(agentId, at, 1.0, allowed)], |mine|)
  }

  function DenialType(o: Outcome): string {
    if o.BadToken? then "tool.rejected_unrecognized_token"
    else if o.NoToken? then "tool.rejected_no_token"
    else if o.Limited? then "tool.rate_limited"
    else "tool.blocked"
  }

  function DenialRow(o: Outcome, agentId: string, tool: string): LogRow {
    LogRow(DenialType(o), MCP, agentId, Some(tool), "denied", None)
  }

  function DiscoveredRow(source: string, agentId: string): LogRow {
    LogRow("agent.discovered", source, agentId, None, "success", None)
  }

  function CalledRow(agentId: string, tool: string): LogRow {
    LogRow("tool.called", MCP, agentId, Some(tool), "success", None)
  }

  function HeartbeatRow(agentId: string): LogRow {
    LogRow("agent.heartbeat", MCP, agentId, Some(HEARTBEAT_TOOL), "success", None)
  }

  function ReportRow(r: Report): LogRow {
    LogRow("tool.called", OTEL, r.agentId, Some(r.tool), if r.failed then "error" else "success", None)
  }

  // Passive discovery, with its row on first sighting.
  function Sight(db: Db, org: string, source: string, caller: string): Db {
    var seen := Discover(db, org, caller);
    if caller in db.agents then seen else seen.(log := seen.log + [DiscoveredRow(source, caller)])
  }

  /* ----- the machine ----- */

  // One tool call, as decided on arrival: at its time `at` by the limiter's clock, and when as many
  // calls as `slot` had asked the limiter.
  datatype Call = Call(agentId: string, tool: string, token: Option<string>, identity: Option<Identity>,
                       at: real, slot: nat, outcome: Outcome)

  // A call the backend answered, and whether it failed.
  datatype Done = Done(call: nat, failed: bool)

  datatype Report = Report(agentId: string, tool: string, failed: bool)

  // base: the tables the gateway started on. limited: the calls that asked the limiter, in order.
  // batch: reports accepted and not yet logged.
  datatype Gw = Gw(base: Db, reg: State, cache: map<string, Identity>, loadedAt: int,
                   limited: seq<TB.Call>, calls: seq<Call>, completed: seq<Done>,
                   batch: seq<Report>, accepted: seq<Report>)

  // `load` is what a refresh of the cache returns, if one is due; `allowed` the limiter's answer.
  datatype Step =
    | Other(op: Op)
    | Start(token: Option<string>, caller: string, tool: string, at: real, allowed: bool, load: map<string, Identity>)
    | Finish(call: nat, failed: bool)
    | Otel(token: Option<string>, caller: string, items: seq<(string, bool)>, at: real, allowed: bool,
           load: map<string, Identity>)
    | OtelLog

  // A request runs to its next await without another request of this process in between.
  ghost predicate Enabled(cfg: Config, s: Gw, step: Step, now: int) {
    match step
    case Other(_) => true
    case Start(token, caller, tool, at, allowed, load) =>
      && s.batch == [] && LoadOk(cfg, s, load, now)
      && StartAnswered(cfg, Refreshed(cfg, s, load, now), token, caller, tool, at, allowed)
    case Finish(call, _) =>
      s.batch == [] && call < |s.calls| && !IsDenial(s.calls[call].outcome) && IsOpen(s.completed, call)
    case Otel(token, caller, items, at, allowed, load) =>
      && s.batch == [] && items != [] && LoadOk(cfg, s, load, now)
      && BatchAnswered(cfg, Refreshed(cfg, s, load, now), token, caller, at, allowed)
    case OtelLog => s.batch != []
  }

  predicate IsOpen(completed: seq<Done>, call: nat) { forall i | 0 <= i < |completed| :: completed[i].call != call }

  predicate StartAnswered(cfg: Config, s: Gw, token: Option<string>, caller: string, tool: string, at: real,
                          allowed: bool)
  {
    var identity := Resolve(s.cache, token);
    if AsksLimiter(cfg, identity, token, tool)
    then LimiterSays(cfg, s.limited, FiledUnder(s.reg.db, cfg.org, identity, token, caller), at, allowed)
    else !allowed
  }

  predicate BatchAnswered(cfg: Config, s: Gw, token: Option<string>, caller: string, at: real, allowed: bool) {
    var identity := Resolve(s.cache, token);
    if BatchRefused(cfg, identity, token) then !allowed
    else LimiterSays(cfg, s.limited, ReportedBy(identity, caller), at, allowed)
  }

  predicate BatchRefused(cfg: Config, identity: Option<Identity>, token: Option<string>) {
    identity.None? && (token.Some? || cfg.requireToken)
  }

  function ReportedBy(identity: Option<Identity>, caller: string): string {
    if identity.Some? then identity.value.agentId else caller
  }

  ghost predicate LoadOk(cfg: Config, s: Gw, load: map<string, Identity>, now: int) {
    RefreshDue(cfg, s.loadedAt, now) ==> IsLoad(s.reg.db, cfg.org, now, load)
  }

  function Refreshed(cfg: Config, s: Gw, load: map<string, Identity>, now: int): Gw {
    if RefreshDue(cfg, s.loadedAt, now) then s.(cache := load, loadedAt := now) else s
  }

  function WithDb(s: Gw, db: Db): Gw { s.(reg := s.reg.(db := db)) }

  function LogTo(s: Gw, row: LogRow): Gw { WithDb(s, s.reg.db.(log := s.reg.db.log + [row])) }

  // on_call_tool up to its await: the caller sighted and the limiter asked, then the call recorded.
  function StartCall(cfg: Config, s: Gw, token: Option<string>, caller: string, tool: string, at: real,
                     allowed: bool): Gw
  {
    Record(Prepared(cfg, s, token, caller, tool, at, allowed), CallOf(cfg, s, token, caller, tool, at, allowed))
  }

  function CallOf(cfg: Config, s: Gw, token: Option<string>, caller: string, tool: string, at: real,
                  allowed: bool): Call
  {
    var identity := Resolve(s.cache, token);
    Call(FiledUnder(s.reg.db, cfg.org, identity, token, caller), tool, token, identity, at, |s.limited|,
         Admit(cfg, identity, token, tool, allowed))
  }

  function Prepared(cfg: Config, s: Gw, token: Option<string>, caller: string, tool: string, at: real,
                    allowed: bool): Gw
  {
    var identity := Resolve(s.cache, token);
    var agentId := FiledUnder(s.reg.db, cfg.org, identity, token, caller);
    var sighted := if NeedsDiscovery(s.reg.db, cfg.org, identity, token)
                   then WithDb(s, Sight(s.reg.db, cfg.org, MCP, caller)) else s;
    if AsksLimiter(cfg, identity, token, tool)
    then sighted.(limited := s.limited + [TB.Call(agentId, at, 1.0, allowed)]) else sighted
  }

  function Record(s: Gw, c: Call): Gw {
    var called := s.(calls := s.calls + [c]);
    if IsDenial(c.outcome) then LogTo(called, DenialRow(c.outcome, c.agentId, c.tool)) else called
  }

  // on_call_tool from its await on: a failed tool call is logged too, a failed heartbeat is not.
  function FinishCall(s: Gw, call: nat, failed: bool): Gw
    requires call < |s.calls|
  {
    var c, done := s.calls[call], s.(completed := s.completed + [Done(call, failed)]);
    if c.outcome.Heartbeat? then if failed then done else LogTo(done, HeartbeatRow(c.agentId))
    else LogTo(done, CalledRow(c.agentId, c.tool))
  }

  function Reports(agentId: string, items: seq<(string, bool)>): seq<Report> {
    seq(|items|, i requires 0 <= i < |items| => Report(agentId, items[i].0, items[i].1))
  }

  function ReportRows(rs: seq<Report>): seq<LogRow> {
    seq(|rs|, i requires 0 <= i < |rs| => ReportRow(rs[i]))
  }

  lemma NoReports()
    ensures ReportRows([]) == []
  {
  }

  // ingest_otel_events up to the logging of its first report.
  function StartBatch(cfg: Config, s: Gw, token: Option<string>, caller: string, items: seq<(string, bool)>,
                      at: real, allowed: bool): Gw
  {
    var identity := Resolve(s.cache, token);
    if BatchRefused(cfg, identity, token) then s
    else
      var agentId := ReportedBy(identity, caller);
      var sighted := if identity.Some? then s else WithDb(s, Sight(s.reg.db, cfg.org, OTEL, caller));
      var asked := sighted.(limited := s.limited + [TB.Call(agentId, at, 1.0, allowed)]);
      if !allowed then asked else Accept(asked, Reports(agentId, items))
  }

  function Accept(s: Gw, batch: seq<Report>): Gw { s.(batch := batch, accepted := s.accepted + batch) }

  function Apply(cfg: Config, fp: string -> string, s: Gw, step: Step, now: int): Gw {
    match step
    case Other(op) => s.(reg := Registry.Apply(s.reg, fp, op, now))
    case Start(token, caller, tool, at, allowed, load) =>
      StartCall(cfg, Refreshed(cfg, s, load, now), token, caller, tool, at, allowed)
    case Finish(call, failed) => if call < |s.calls| then FinishCall(s, call, failed) else s
    case Otel(token, caller, items, at, allowed, load) =>
      StartBatch(cfg, Refreshed(cfg, s, load, now), token, caller, items, at, allowed)
    case OtelLog => if s.batch == [] then s else LogTo(s.(batch := s.batch[1..]), ReportRow(s.batch[0]))
  }

  datatype Event = Event(step: Step, at: int)

  // The gateway as constructed, on whatever tables there are: the registry loaded and stamped at
  // one instant. The limiter may have been in use.
  ghost predicate Starts(cfg: Config, s: Gw) {
    && s.base == s.reg.db && s.calls == [] && s.completed == [] && s.batch == [] && s.accepted == []
    && IsLoad(s.reg.db, cfg.org, s.loadedAt, s.cache)
    && TB.UnitCosts(s.limited) && LimiterConforms(cfg, s.limited)
  }

  ghost predicate LimiterConforms(cfg: Config, limited: seq<TB.Call>) {
    forall agentId: string :: TB.Conforms(cfg.rate, cfg.burst, TB.Of(limited, agentId))
  }

  function Run(cfg: Config, fp: string -> string, s: Gw, events: seq<Event>): Gw {
    if events == [] then s
    else
      var last := events[|events| - 1];
      Apply(cfg, fp, Run(cfg, fp, s, events[..|events| - 1]), last.step, last.at)
  }

  ghost predicate Legal(cfg: Config, fp: string -> string, s: Gw, events: seq<Event>) {
    forall i | 0 <= i < |events| :: LegalAt(cfg, fp, s, events, i)
  }

  ghost predicate LegalAt(cfg: Config, fp: string -> string, s: Gw, events: seq<Event>, i: nat)
    requires i < |events|
  {
    Enabled(cfg, Run(cfg, fp, s, events[..i]), events[i].step, events[i].at)
  }

  lemma RunNothing(cfg: Config, fp: string -> string, s: Gw, events: seq<Event>)
    requires events == []
    ensures Run(cfg, fp, s, events) == s
  {
  }

  lemma RunNext(cfg: Config, fp: string -> string, s: Gw, events: seq<Event>, n: nat)
    requires n < |events|
    ensures Run(cfg, fp, s, events[..n + 1]) ==
      Apply(cfg, fp, Run(cfg, fp, s, events[..n]), events[n].step, events[n].at)
  {
    assert events[..n + 1][..n] == events[..n];
  }

  lemma LegalPrefix(cfg: Config, fp: string -> string, s: Gw, events: seq<Event>, n: nat)
    requires n <= |events| && Legal(cfg, fp, s, events)
    ensures Legal(cfg, fp, s, events[..n])
  {
    hide Run, Enabled;
    forall i | 0 <= i < n ensures LegalAt(cfg, fp, s, events[..n], i) {
      assert LegalAt(cfg, fp, s, events, i) && events[..n][..i] == events[..i];
    }
  }
}
