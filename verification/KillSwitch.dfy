/**
 The kill switch: how long a gateway can go on honouring a credential that was revoked or
 has expired, given that it resolves tokens from a cache it reloads every refresh interval.
 */
module KillSwitch {
  import opened Wrappers
  import opened Registry
  import opened Gateway

  // From event i on, at or after time d.
  predicate After(events: seq<Event>, i: nat, d: int) {
    && i <= |events|
    && (forall j | 0 <= j < i :: events[j].at <= d)
    && (forall j | i <= j < |events| :: d <= events[j].at)
    && (forall j, k | i <= j < k < |events| :: events[j].at <= events[k].at)
  }

  // Event j is a late renewal that revives the token.
  predicate RevivedAt(cfg: Config, fp: string -> string, s: Gw, events: seq<Event>, j: nat, token: string)
    requires j < |events|
  {
    events[j].step.Other? && Revives(Gateway.Run(cfg, fp, s, events[..j]).reg, events[j].step.op, token)
  }

  // No such event from i on.
  predicate NotRevived(cfg: Config, fp: string -> string, s: Gw, events: seq<Event>, i: nat, token: string) {
    forall j | i <= j < |events| :: !RevivedAt(cfg, fp, s, events, j, token)
  }

  // The token is dead, and cached only if the cache was loaded by the time d it died.
  predicate CutSince(s: Gw, token: string, d: int, now: int) {
    Dead(s.reg.db, token, now) && (token in s.cache ==> s.loadedAt <= d)
  }

  // The gateway's first load was made by d, or on the tables in which the token is found dead.
  ghost predicate LoadedFor(cfg: Config, s: Gw, i: nat, d: int) {
    s.loadedAt <= d || (i == 0 && IsLoad(s.reg.db, cfg.org, s.loadedAt, s.cache))
  }

  // A gateway that starts after the token died does not load it.
  lemma StartsWithout(cfg: Config, s: Gw, token: string, d: int)
    requires d < s.loadedAt && IsLoad(s.reg.db, cfg.org, s.loadedAt, s.cache) && Dead(s.reg.db, token, d)
    ensures CutSince(s, token, d, d)
  {
    assert !Loadable(s.reg.db, cfg.org, s.loadedAt, token);
  }

  lemma {:induction false} LoadedBy(cfg: Config, fp: string -> string, s: Gw, events: seq<Event>, d: int)
    requires s.loadedAt <= d && forall j | 0 <= j < |events| :: events[j].at <= d
    ensures Gateway.Run(cfg, fp, s, events).loadedAt <= d
  {
    if events != [] {
      var n := |events| - 1;
      LoadedBy(cfg, fp, s, events[..n], d);
      StampStep(cfg, fp, Gateway.Run(cfg, fp, s, events[..n]), events[n].step, events[n].at);
    }
  }

  lemma {:induction false} StampStep(cfg: Config, fp: string -> string, s: Gw, step: Step, now: int)
    ensures var t := Gateway.Apply(cfg, fp, s, step, now); t.loadedAt == s.loadedAt || t.loadedAt == now
  {
    hide Registry.Apply, Sight, Admit;
  }

  // Requests leave the credentials alone; only a refresh touches the cache.
  lemma {:induction false} RequestStep(cfg: Config, fp: string -> string, s: Gw, step: Step, now: int)
    requires !step.Other?
    ensures Gateway.Apply(cfg, fp, s, step, now).reg.db.credentials == s.reg.db.credentials
    ensures step.Start? || step.Otel? ==>
      var t, r := Gateway.Apply(cfg, fp, s, step, now), Refreshed(cfg, s, step.load, now);
      t.cache == r.cache && t.loadedAt == r.loadedAt
    ensures step.Finish? || step.OtelLog? ==>
      var t := Gateway.Apply(cfg, fp, s, step, now);
      t.cache == s.cache && t.loadedAt == s.loadedAt
  {
    hide StartCall, StartBatch;
    match step
    case Start(token, caller, tool, at, allowed, load) =>
      StartQuiet(cfg, Refreshed(cfg, s, load, now), token, caller, tool, at, allowed);
    case Otel(token, caller, items, at, allowed, load) =>
      BatchQuiet(cfg, Refreshed(cfg, s, load, now), token, caller, items, at, allowed);
    case _ =>
  }

  lemma StartQuiet(cfg: Config, s: Gw, token: Option<string>, caller: string, tool: string, at: real,
                   allowed: bool)
    ensures var t := StartCall(cfg, s, token, caller, tool, at, allowed);
      t.reg.db.credentials == s.reg.db.credentials && t.cache == s.cache && t.loadedAt == s.loadedAt
  {
    hide Admit, Sight, FiledUnder, NeedsDiscovery, Resolve, AsksLimiter, Record, CallOf;
    SightQuiet(s.reg.db, cfg.org, MCP, caller);
    RecordQuiet(Prepared(cfg, s, token, caller, tool, at, allowed), CallOf(cfg, s, token, caller, tool, at, allowed));
  }

  lemma RecordQuiet(s: Gw, c: Call)
    ensures Record(s, c).reg.db.credentials == s.reg.db.credentials
    ensures Record(s, c).cache == s.cache && Record(s, c).loadedAt == s.loadedAt
  {
    hide IsDenial, DenialRow;
  }

  lemma BatchQuiet(cfg: Config, s: Gw, token: Option<string>, caller: string, items: seq<(string, bool)>,
                   at: real, allowed: bool)
    ensures var t := StartBatch(cfg, s, token, caller, items, at, allowed);
      t.reg.db.credentials == s.reg.db.credentials && t.cache == s.cache && t.loadedAt == s.loadedAt
  {
    hide Sight, Resolve, Reports;
    SightQuiet(s.reg.db, cfg.org, OTEL, caller);
  }

  lemma SightQuiet(db: Db, org: string, source: string, caller: string)
    ensures Sight(db, org, source, caller).credentials == db.credentials
  {
  }

  // A load of a table in which the token is dead does not hold it.
  lemma RefreshDrops(cfg: Config, s: Gw, load: map<string, Identity>, token: string, d: int, now: int)
    requires CutSince(s, token, d, now) && LoadOk(cfg, s, load, now)
    ensures token in Refreshed(cfg, s, load, now).cache ==>
      !RefreshDue(cfg, s.loadedAt, now) && Refreshed(cfg, s, load, now) == s
  {
    if RefreshDue(cfg, s.loadedAt, now) {
      assert !Loadable(s.reg.db, cfg.org, now, token);
    }
  }

  lemma {:induction false} StepKeepsCut(cfg: Config, fp: string -> string, s: Gw, step: Step, token: string,
                                        d: int, t0: int, now: int)
    requires CutSince(s, token, d, t0) && t0 <= now && Enabled(cfg, s, step, now)
    requires step.Other? ==> !Revives(s.reg, step.op, token)
    ensures CutSince(Gateway.Apply(cfg, fp, s, step, now), token, d, now)
  {
    hide Gateway.Apply, Registry.Apply, IsLoad, Revives;
    if step.Other? {
      DeadStep(s.reg, fp, step.op, now, token, t0);
      OtherApply(cfg, fp, s, step, now);
    } else {
      RequestStep(cfg, fp, s, step, now);
      if step.Start? || step.Otel? { RefreshDrops(cfg, s, step.load, token, d, now); }
    }
  }

  lemma OtherApply(cfg: Config, fp: string -> string, s: Gw, step: Step, now: int)
    requires step.Other?
    ensures Gateway.Apply(cfg, fp, s, step, now) == s.(reg := Registry.Apply(s.reg, fp, step.op, now))
  {
  }

  lemma {:induction false} CutUpTo(cfg: Config, fp: string -> string, s: Gw, events: seq<Event>, i: nat, j: nat,
                                   token: string, d: int)
    requires Legal(cfg, fp, s, events) && LoadedFor(cfg, s, i, d) && After(events, i, d)
    requires NotRevived(cfg, fp, s, events, i, token)
    requires i <= j <= |events| && Dead(Gateway.Run(cfg, fp, s, events[..i]).reg.db, token, d)
    ensures CutSince(Gateway.Run(cfg, fp, s, events[..j]), token, d, if j == i then d else events[j - 1].at)
    decreases j
  {
    hide Gateway.Apply, Enabled, Dead, Revives, IsLoad;
    if j == i && s.loadedAt <= d {
      LoadedBy(cfg, fp, s, events[..i], d);
    } else if j == i {
      assert events[..0] == [];
      StartsWithout(cfg, s, token, d);
    } else {
      CutUpTo(cfg, fp, s, events, i, j - 1, token, d);
      assert LegalAt(cfg, fp, s, events, j - 1) && !RevivedAt(cfg, fp, s, events, j - 1, token);
      assert events[..j][..j - 1] == events[..j - 1];
      var t0 := if j - 1 == i then d else events[j - 2].at;
      var before := Gateway.Run(cfg, fp, s, events[..j - 1]);
      StepKeepsCut(cfg, fp, before, events[j - 1].step, token, d, t0, events[j - 1].at);
    }
  }

  // What a request makes of the token it presents.
  predicate Refused(cfg: Config, fp: string -> string, s: Gw, step: Step, now: int) {
    match step
    case Start(_, _, _, _, _, load) =>
      var t := Gateway.Apply(cfg, fp, s, step, now);
      && Resolve(Refreshed(cfg, s, load, now).cache, step.token) == None
      && |t.calls| == |s.calls| + 1 && t.calls[|s.calls|].outcome == BadToken
    case Otel(_, _, _, _, _, load) =>
      && Resolve(Refreshed(cfg, s, load, now).cache, step.token) == None
      && Gateway.Apply(cfg, fp, s, step, now) == Refreshed(cfg, s, load, now)
    case _ => true
  }

  lemma {:induction false} UnresolvedRefused(cfg: Config, fp: string -> string, s: Gw, step: Step, now: int)
    requires (step.Start? || step.Otel?) && step.token.Some?
    requires Resolve(Refreshed(cfg, s, step.load, now).cache, step.token) == None
    ensures Refused(cfg, fp, s, step, now)
  {
    hide Sight, HolderOf, Resolve;
  }

  /**
   Kill-switch bound. In any run, let a token be revoked or expired in the database by time d,
   at some point of the run or already when the gateway started, however long after d that was,
   and not revived by a late renewal of its own. Every later request
   that presents it at d plus the refresh interval or after is refused: it resolves to no
   identity, a tool call gets no further than its rejection row, and an OTel batch logs nothing.
   */
  lemma {:induction false} KilledWithinInterval(cfg: Config, fp: string -> string, s: Gw, events: seq<Event>,
                                                i: nat, j: nat, token: string, d: int)
    requires Legal(cfg, fp, s, events) && LoadedFor(cfg, s, i, d) && After(events, i, d)
    requires NotRevived(cfg, fp, s, events, i, token)
    requires i <= j < |events| && Dead(Gateway.Run(cfg, fp, s, events[..i]).reg.db, token, d)
    requires (events[j].step.Start? || events[j].step.Otel?) && events[j].step.token == Some(token)
    requires d + cfg.refresh <= events[j].at
    ensures Refused(cfg, fp, Gateway.Run(cfg, fp, s, events[..j]), events[j].step, events[j].at)
  {
    hide Gateway.Apply, Dead, Refused, Gateway.Run, IsLoad, NotRevived;
    var before, now := Gateway.Run(cfg, fp, s, events[..j]), events[j].at;
    CutUpTo(cfg, fp, s, events, i, j, token, d);
    assert LegalAt(cfg, fp, s, events, j);
    CutLater(before, token, d, if j == i then d else events[j - 1].at, now);
    RefreshDrops(cfg, before, events[j].step.load, token, d, now);
    UnresolvedRefused(cfg, fp, before, events[j].step, now);
  }

  predicate IsRevoked(db: Db, token: string) { token in db.credentials && db.credentials[token].status == Revoked }

  lemma {:induction false} StaysRevoked(cfg: Config, fp: string -> string, s: Gw, events: seq<Event>, i: nat, j: nat,
                                        token: string)
    requires i <= j <= |events| && IsRevoked(Gateway.Run(cfg, fp, s, events[..i]).reg.db, token)
    ensures IsRevoked(Gateway.Run(cfg, fp, s, events[..j]).reg.db, token)
    decreases j
  {
    hide Gateway.Apply;
    if i < j {
      StaysRevoked(cfg, fp, s, events, i, j - 1, token);
      assert events[..j][..j - 1] == events[..j - 1];
      var before, step, now := Gateway.Run(cfg, fp, s, events[..j - 1]), events[j - 1].step, events[j - 1].at;
      if step.Other? {
        DeadStep(before.reg, fp, step.op, now, token, now);
        OtherApply(cfg, fp, before, step, now);
      } else {
        RequestStep(cfg, fp, before, step, now);
      }
    }
  }

  /** A revocation needs no proviso: however renewals are split, the token is refused an interval later. */
  lemma {:induction false} RevokedWithinInterval(cfg: Config, fp: string -> string, s: Gw, events: seq<Event>,
                                                 i: nat, j: nat, token: string, d: int)
    requires Legal(cfg, fp, s, events) && LoadedFor(cfg, s, i, d) && After(events, i, d)
    requires i <= j < |events| && IsRevoked(Gateway.Run(cfg, fp, s, events[..i]).reg.db, token)
    requires (events[j].step.Start? || events[j].step.Otel?) && events[j].step.token == Some(token)
    requires d + cfg.refresh <= events[j].at
    ensures Refused(cfg, fp, Gateway.Run(cfg, fp, s, events[..j]), events[j].step, events[j].at)
  {
    hide Gateway.Run, Refused;
    forall n | i <= n < |events| ensures !RevivedAt(cfg, fp, s, events, n, token) {
      StaysRevoked(cfg, fp, s, events, i, n, token);
    }
    KilledWithinInterval(cfg, fp, s, events, i, j, token, d);
  }

  lemma CutLater(s: Gw, token: string, d: int, t0: int, now: int)
    requires CutSince(s, token, d, t0) && t0 <= now
    ensures CutSince(s, token, d, now)
  {
  }

  /* ----- and what it does honour ----- */

  // Some table of the run is the one the cache was loaded from.
  lemma {:induction false} CacheWasLoaded(cfg: Config, fp: string -> string, s: Gw, events: seq<Event>) returns (i: nat)
    requires IsLoad(s.reg.db, cfg.org, s.loadedAt, s.cache) && Legal(cfg, fp, s, events)
    ensures var after := Gateway.Run(cfg, fp, s, events);
      && i <= |events|
      && IsLoad(Gateway.Run(cfg, fp, s, events[..i]).reg.db, cfg.org, after.loadedAt, after.cache)
      && (after.loadedAt == s.loadedAt || (i < |events| && events[i].at == after.loadedAt))
  {
    hide Gateway.Apply, Enabled, IsLoad;
    if events == [] {
      i := 0;
      assert IsLoad(s.reg.db, cfg.org, s.loadedAt, s.cache);
    } else {
      var n := |events| - 1;
      LegalPrefix(cfg, fp, s, events, n);
      i := CacheWasLoaded(cfg, fp, s, events[..n]);
      assert events[..n][..i] == events[..i];
      assert LegalAt(cfg, fp, s, events, n);
      var before, step, now := Gateway.Run(cfg, fp, s, events[..n]), events[n].step, events[n].at;
      CacheStep(cfg, fp, before, step, now);
      if (step.Start? || step.Otel?) && RefreshDue(cfg, before.loadedAt, now) { i := n; }
    }
  }

  lemma CacheStep(cfg: Config, fp: string -> string, s: Gw, step: Step, now: int)
    requires Enabled(cfg, s, step, now)
    ensures var t := Gateway.Apply(cfg, fp, s, step, now);
      if (step.Start? || step.Otel?) && RefreshDue(cfg, s.loadedAt, now)
      then t.loadedAt == now && IsLoad(s.reg.db, cfg.org, now, t.cache)
      else t.loadedAt == s.loadedAt && t.cache == s.cache
  {
    hide Gateway.Apply, Registry.Apply, IsLoad;
    if step.Other? { OtherApply(cfg, fp, s, step, now); } else { RequestStep(cfg, fp, s, step, now); }
  }

  // The identity a request resolves to, by the table after i events.
  ghost predicate LiveAt(cfg: Config, fp: string -> string, s: Gw, events: seq<Event>, i: nat, token: string,
                         identity: Identity, at: int)
    requires i <= |events|
  {
    var db := Gateway.Run(cfg, fp, s, events[..i]).reg.db;
    exists id :: Resolves(db, cfg.org, at, token, id) && identity == db.identities[id]
  }

  /**
   A request that does resolve was entitled to, less than a refresh interval before: at some
   earlier point of the run its token was active, unexpired and held by an agent of the
   organization with just the identity, and so the scope, the request is judged by.
   */
  lemma {:induction false} ResolvedWasLive(cfg: Config, fp: string -> string, s: Gw, events: seq<Event>, j: nat)
      returns (i: nat)
    requires IsLoad(s.reg.db, cfg.org, s.loadedAt, s.cache) && Legal(cfg, fp, s, events) && cfg.refresh > 0
    requires j < |events| && (events[j].step.Start? || events[j].step.Otel?)
    requires var before := Gateway.Run(cfg, fp, s, events[..j]);
      Resolve(Refreshed(cfg, before, events[j].step.load, events[j].at).cache, events[j].step.token).Some?
    ensures var after := Refreshed(cfg, Gateway.Run(cfg, fp, s, events[..j]), events[j].step.load, events[j].at);
      && i <= j && events[j].at - after.loadedAt < cfg.refresh
      && (after.loadedAt == s.loadedAt || events[i].at == after.loadedAt)
      && events[j].step.token.Some?
      && var identity := Resolve(after.cache, events[j].step.token).value;
      LiveAt(cfg, fp, s, events, i, events[j].step.token.value, identity, after.loadedAt)
  {
    hide Gateway.Run, Resolves;
    var before := Gateway.Run(cfg, fp, s, events[..j]);
    LegalPrefix(cfg, fp, s, events, j);
    assert LegalAt(cfg, fp, s, events, j);
    i := CacheWasLoaded(cfg, fp, s, events[..j]);
    assert events[..j][..i] == events[..i];
    if RefreshDue(cfg, before.loadedAt, events[j].at) { i := j; }
  }
}
