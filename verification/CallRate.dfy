/**
 How often an agent can get through: the gateway's rows, its calls to the backend and the
 limiter's decisions counted against the clock.
 */
module CallRate {
  import opened Wrappers
  import opened Registry
  import opened Gateway
  import opened Conservation
  import TB = TokenBucket

  predicate InWindow(c: Call, agentId: string, lo: real, hi: real) {
    c.outcome.Handed? && c.agentId == agentId && lo <= c.at <= hi
  }

  // How many calls of the agent begun from lo to hi were handed to the backend.
  function HandedWithin(calls: seq<Call>, agentId: string, lo: real, hi: real): nat {
    if calls == [] then 0
    else
      HandedWithin(calls[..|calls| - 1], agentId, lo, hi) +
        if InWindow(calls[|calls| - 1], agentId, lo, hi) then 1 else 0
  }

  // The rows of the agent's answered calls begun from lo to hi.
  function AnsweredWithin(calls: seq<Call>, completed: seq<Done>, agentId: string, lo: real, hi: real): seq<LogRow>
    requires Known(calls, completed)
  {
    if completed == [] then []
    else
      var c := calls[completed[|completed| - 1].call];
      AnsweredWithin(calls, completed[..|completed| - 1], agentId, lo, hi) +
        if InWindow(c, agentId, lo, hi) then [CalledRow(c.agentId, c.tool)] else []
  }

  // The limiter's log conforms, and every call handed on was one it accepted.
  ghost predicate Metered(cfg: Config, limited: seq<TB.Call>, calls: seq<Call>) {
    && TB.UnitCosts(limited) && LimiterConforms(cfg, limited)
    && forall agentId: string, lo: real, hi: real :: MeteredWithin(limited, calls, agentId, lo, hi)
  }

  predicate MeteredWithin(limited: seq<TB.Call>, calls: seq<Call>, agentId: string, lo: real, hi: real) {
    HandedWithin(calls, agentId, lo, hi) <= TB.AcceptedWithin(TB.Of(limited, agentId), lo, hi)
  }

  lemma {:induction false} AcceptedAppend(cs: seq<TB.Call>, c: TB.Call, lo: real, hi: real)
    ensures TB.AcceptedWithin(cs + [c], lo, hi) ==
      TB.AcceptedWithin(cs, lo, hi) + if TB.IsAccepted(c, lo, hi) then 1 else 0
  {
    assert (cs + [c])[..|cs|] == cs;
  }

  lemma {:induction false} HandedAppend(calls: seq<Call>, c: Call, agentId: string, lo: real, hi: real)
    ensures HandedWithin(calls + [c], agentId, lo, hi) ==
      HandedWithin(calls, agentId, lo, hi) + if InWindow(c, agentId, lo, hi) then 1 else 0
  {
    assert (calls + [c])[..|calls|] == calls;
  }

  // One more answer of the limiter.
  lemma {:induction false} AskConforms(cfg: Config, limited: seq<TB.Call>, agentId: string, at: real, allowed: bool)
    requires TB.UnitCosts(limited) && LimiterConforms(cfg, limited) && LimiterSays(cfg, limited, agentId, at, allowed)
    ensures var more := limited + [TB.Call(agentId, at, 1.0, allowed)];
      TB.UnitCosts(more) && LimiterConforms(cfg, more)
  {
    hide TB.Conforms, TB.Fits, TB.Of;
    var c := TB.Call(agentId, at, 1.0, allowed);
    forall other: string ensures TB.Conforms(cfg.rate, cfg.burst, TB.Of(limited + [c], other)) {
      TB.OfAppend(limited, c, other);
      if other == agentId {
        TB.ConformsExtend(cfg.rate, cfg.burst, TB.Of(limited, agentId), c);
      } else {
        assert TB.Of(limited, other) + [] == TB.Of(limited, other);
      }
    }
  }

  // An answer the calls make no use of.
  lemma {:induction false} AskKeeps(cfg: Config, s: Gw, agentId: string, at: real, allowed: bool)
    requires Metered(cfg, s.limited, s.calls) && LimiterSays(cfg, s.limited, agentId, at, allowed)
    ensures Metered(cfg, s.limited + [TB.Call(agentId, at, 1.0, allowed)], s.calls)
  {
    hide TB.Of, TB.UnitCosts, LimiterConforms, LimiterSays, HandedWithin, TB.AcceptedWithin;
    var c := TB.Call(agentId, at, 1.0, allowed);
    AskConforms(cfg, s.limited, agentId, at, allowed);
    forall other: string, lo: real, hi: real ensures MeteredWithin(s.limited + [c], s.calls, other, lo, hi) {
      assert MeteredWithin(s.limited, s.calls, other, lo, hi);
      TB.OfAppend(s.limited, c, other);
      AcceptedAppend(TB.Of(s.limited, other), c, lo, hi);
      assert TB.Of(s.limited, other) + [] == TB.Of(s.limited, other);
    }
  }

  // A call recorded with the answer it was decided on.
  lemma {:induction false} AskedCallKeeps(cfg: Config, s: Gw, c: Call, allowed: bool)
    requires Metered(cfg, s.limited, s.calls) && LimiterSays(cfg, s.limited, c.agentId, c.at, allowed)
    requires c.outcome.Handed? ==> allowed
    ensures Metered(cfg, s.limited + [TB.Call(c.agentId, c.at, 1.0, allowed)], s.calls + [c])
  {
    hide TB.Of, TB.UnitCosts, LimiterConforms, LimiterSays, HandedWithin, TB.AcceptedWithin;
    var x := TB.Call(c.agentId, c.at, 1.0, allowed);
    AskConforms(cfg, s.limited, c.agentId, c.at, allowed);
    forall agentId: string, lo: real, hi: real
      ensures MeteredWithin(s.limited + [x], s.calls + [c], agentId, lo, hi)
    {
      assert MeteredWithin(s.limited, s.calls, agentId, lo, hi);
      TB.OfAppend(s.limited, x, agentId);
      AcceptedAppend(TB.Of(s.limited, agentId), x, lo, hi);
      HandedAppend(s.calls, c, agentId, lo, hi);
      assert TB.Of(s.limited, agentId) + [] == TB.Of(s.limited, agentId);
    }
  }

  lemma {:induction false} UnaskedCallKeeps(cfg: Config, s: Gw, c: Call)
    requires Metered(cfg, s.limited, s.calls) && !c.outcome.Handed?
    ensures Metered(cfg, s.limited, s.calls + [c])
  {
    hide TB.Of, TB.UnitCosts, LimiterConforms, HandedWithin, TB.AcceptedWithin;
    forall agentId: string, lo: real, hi: real ensures MeteredWithin(s.limited, s.calls + [c], agentId, lo, hi) {
      assert MeteredWithin(s.limited, s.calls, agentId, lo, hi);
      HandedAppend(s.calls, c, agentId, lo, hi);
    }
  }

  lemma HandedOnlyIfAsked(cfg: Config, identity: Option<Identity>, token: Option<string>, tool: string, allowed: bool)
    requires Admit(cfg, identity, token, tool, allowed).Handed?
    ensures AsksLimiter(cfg, identity, token, tool) && allowed
  {
  }

  lemma {:induction false} StartMetered(cfg: Config, s: Gw, token: Option<string>, caller: string, tool: string,
                                        at: real, allowed: bool)
    requires Metered(cfg, s.limited, s.calls) && StartAnswered(cfg, s, token, caller, tool, at, allowed)
    ensures var t := StartCall(cfg, s, token, caller, tool, at, allowed); Metered(cfg, t.limited, t.calls)
  {
    hide Metered, LimiterSays, AsksLimiter, Admit, Sight, FiledUnder, NeedsDiscovery, Resolve, DenialRow;
    var identity := Resolve(s.cache, token);
    var c := CallOf(cfg, s, token, caller, tool, at, allowed);
    if c.outcome.Handed? { HandedOnlyIfAsked(cfg, identity, token, tool, allowed); }
    if AsksLimiter(cfg, identity, token, tool) {
      AskedCallKeeps(cfg, s, c, allowed);
    } else {
      UnaskedCallKeeps(cfg, s, c);
    }
  }

  lemma {:induction false} BatchMetered(cfg: Config, s: Gw, token: Option<string>, caller: string,
                                        items: seq<(string, bool)>, at: real, allowed: bool)
    requires Metered(cfg, s.limited, s.calls) && BatchAnswered(cfg, s, token, caller, at, allowed)
    ensures var t := StartBatch(cfg, s, token, caller, items, at, allowed); Metered(cfg, t.limited, t.calls)
  {
    hide Metered, LimiterSays, Sight, Resolve, Reports;
    var identity := Resolve(s.cache, token);
    if !BatchRefused(cfg, identity, token) { AskKeeps(cfg, s, ReportedBy(identity, caller), at, allowed); }
  }

  lemma OthersQuiet(cfg: Config, fp: string -> string, s: Gw, step: Step, now: int)
    requires !step.Start? && !step.Otel?
    ensures Gateway.Apply(cfg, fp, s, step, now).limited == s.limited
    ensures Gateway.Apply(cfg, fp, s, step, now).calls == s.calls
  {
    hide Registry.Apply;
  }

  lemma {:induction false} StepMetered(cfg: Config, fp: string -> string, s: Gw, step: Step, now: int)
    requires Metered(cfg, s.limited, s.calls) && Enabled(cfg, s, step, now)
    ensures var t := Gateway.Apply(cfg, fp, s, step, now); Metered(cfg, t.limited, t.calls)
  {
    hide Metered, StartCall, StartBatch, FinishCall, LoadOk, StartAnswered, BatchAnswered, IsOpen, Registry.Apply;
    match step
    case Start(token, caller, tool, at, allowed, load) =>
      StartMetered(cfg, Refreshed(cfg, s, load, now), token, caller, tool, at, allowed);
    case Otel(token, caller, items, at, allowed, load) =>
      BatchMetered(cfg, Refreshed(cfg, s, load, now), token, caller, items, at, allowed);
    case _ => OthersQuiet(cfg, fp, s, step, now);
  }

  lemma {:induction false} RunMetered(cfg: Config, fp: string -> string, s: Gw, events: seq<Event>)
    requires Starts(cfg, s) && Legal(cfg, fp, s, events)
    ensures var t := Gateway.Run(cfg, fp, s, events); Metered(cfg, t.limited, t.calls)
  {
    hide Metered, Gateway.Apply, Enabled, Starts;
    if events == [] {
      StartsMetered(cfg, s);
    } else {
      var n := |events| - 1;
      LegalPrefix(cfg, fp, s, events, n);
      RunMetered(cfg, fp, s, events[..n]);
      assert LegalAt(cfg, fp, s, events, n);
      StepMetered(cfg, fp, Gateway.Run(cfg, fp, s, events[..n]), events[n].step, events[n].at);
    }
  }

  lemma StartsMetered(cfg: Config, s: Gw)
    requires Starts(cfg, s)
    ensures Metered(cfg, s.limited, s.calls)
  {
    hide LimiterConforms, IsLoad, TB.UnitCosts, TB.Of;
  }

  /* ----- no call is answered twice ----- */

  ghost function HandedSet(calls: seq<Call>, agentId: string, lo: real, hi: real): set<nat> {
    set i | 0 <= i < |calls| && InWindow(calls[i], agentId, lo, hi)
  }

  ghost function AnsweredSet(calls: seq<Call>, completed: seq<Done>, agentId: string, lo: real, hi: real): set<nat>
    requires Known(calls, completed)
  {
    set j | 0 <= j < |completed| && InWindow(calls[completed[j].call], agentId, lo, hi) :: completed[j].call
  }

  lemma {:induction false} CountHanded(calls: seq<Call>, agentId: string, lo: real, hi: real)
    ensures |HandedSet(calls, agentId, lo, hi)| == HandedWithin(calls, agentId, lo, hi)
  {
    hide InWindow;
    if calls != [] {
      var n := |calls| - 1;
      CountHanded(calls[..n], agentId, lo, hi);
      var before, now := HandedSet(calls[..n], agentId, lo, hi), HandedSet(calls, agentId, lo, hi);
      assert now == if InWindow(calls[n], agentId, lo, hi) then before + {n} else before;
    }
  }

  lemma {:induction false} CountAnswered(calls: seq<Call>, completed: seq<Done>, agentId: string, lo: real, hi: real)
    requires Known(calls, completed)
    requires forall i, j | 0 <= i < j < |completed| :: completed[i].call != completed[j].call
    ensures |AnsweredWithin(calls, completed, agentId, lo, hi)| == |AnsweredSet(calls, completed, agentId, lo, hi)|
    ensures multiset(AnsweredWithin(calls, completed, agentId, lo, hi)) <= multiset(Answered(calls, completed))
  {
    if completed != [] {
      var n := |completed| - 1;
      var init, last := completed[..n], completed[n].call;
      CountAnswered(calls, init, agentId, lo, hi);
      var before, now := AnsweredSet(calls, init, agentId, lo, hi), AnsweredSet(calls, completed, agentId, lo, hi);
      LastAnswered(calls, completed, agentId, lo, hi);
      assert last !in before;
    }
  }

  lemma {:induction false} LastAnswered(calls: seq<Call>, completed: seq<Done>, agentId: string, lo: real, hi: real)
    requires Known(calls, completed) && completed != []
    ensures var n := |completed| - 1;
      AnsweredSet(calls, completed, agentId, lo, hi) == AnsweredSet(calls, completed[..n], agentId, lo, hi) +
        if InWindow(calls[completed[n].call], agentId, lo, hi) then {completed[n].call} else {}
  {
    hide InWindow;
    var n := |completed| - 1;
    forall x | x in AnsweredSet(calls, completed[..n], agentId, lo, hi)
      ensures x in AnsweredSet(calls, completed, agentId, lo, hi)
    {
      var j :| 0 <= j < n && completed[..n][j].call == x && InWindow(calls[x], agentId, lo, hi);
      assert completed[j].call == x;
    }
  }

  lemma SubsetCount(a: set<nat>, b: set<nat>)
    requires a <= b
    ensures |a| <= |b|
  {
    assert b == a + (b - a);
  }

  lemma {:induction false} AnsweredAtMostHanded(calls: seq<Call>, completed: seq<Done>, agentId: string, lo: real,
                                                  hi: real)
    requires Known(calls, completed)
    requires forall i, j | 0 <= i < j < |completed| :: completed[i].call != completed[j].call
    ensures |AnsweredWithin(calls, completed, agentId, lo, hi)| <= HandedWithin(calls, agentId, lo, hi)
  {
    hide AnsweredWithin, HandedWithin, InWindow;
    CountHanded(calls, agentId, lo, hi);
    CountAnswered(calls, completed, agentId, lo, hi);
    SubsetCount(AnsweredSet(calls, completed, agentId, lo, hi), HandedSet(calls, agentId, lo, hi));
  }

  /**
   The rate of an agent's calls. In every run, however its calls are spread over other agents'
   and reported batches, an agent has at most burst + rate * span calls begun within a span of
   the limiter's clock handed to the backend, and at most that many tool.called rows for them.
   */
  lemma {:induction false} CallsWithinRate(cfg: Config, fp: string -> string, s: Gw, events: seq<Event>,
                                           agentId: string, lo: real, hi: real)
    requires Starts(cfg, s) && Legal(cfg, fp, s, events)
    requires cfg.rate >= 0.0 && cfg.burst >= 0.0 && lo <= hi
    ensures var t := Gateway.Run(cfg, fp, s, events);
      && HandedWithin(t.calls, agentId, lo, hi) as real <= cfg.burst + cfg.rate * (hi - lo)
      && Known(t.calls, t.completed)
      && var rows := AnsweredWithin(t.calls, t.completed, agentId, lo, hi);
      && |rows| as real <= cfg.burst + cfg.rate * (hi - lo)
      && multiset(rows) <= multiset(Answered(t.calls, t.completed))
      && Filter(t.reg.db.log, IsCalled) == Filter(s.reg.db.log, IsCalled) + Answered(t.calls, t.completed)
  {
    hide Starts, Legal, Filter, Answered, Denials, ReportRows, SightedOnce, IsCalled, IsDenied, IsReport, TB.Bound,
      HandedWithin, AnsweredWithin, TB.AcceptedWithin, TB.Of, TB.Conforms, TB.UnitCosts, Gateway.Run, Justified;
    var t := Gateway.Run(cfg, fp, s, events);
    EveryRunConserves(cfg, fp, s, events);
    RunMetered(cfg, fp, s, events);
    assert MeteredWithin(t.limited, t.calls, agentId, lo, hi);
    UnitOf(t.limited, agentId);
    TB.ClockBound(cfg.rate, cfg.burst, TB.Of(t.limited, agentId), lo, hi);
    CountAnswered(t.calls, t.completed, agentId, lo, hi);
    AnsweredAtMostHanded(t.calls, t.completed, agentId, lo, hi);
  }

  lemma {:induction false} UnitOf(limited: seq<TB.Call>, agentId: string)
    requires TB.UnitCosts(limited)
    ensures TB.UnitCosts(TB.Of(limited, agentId))
  {
    if limited != [] { UnitOf(limited[..|limited| - 1], agentId); }
  }
}
