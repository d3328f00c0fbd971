/**
 The per-agent token bucket, over exact arithmetic. Calls are taken in the order they get
 the lock; their times were sampled before it and may be out of order.
 */
module TokenBucket {

  datatype Call = Call(agent: string, at: real, cost: real, ok: bool)
  datatype Bucket = Bucket(tokens: real, lastRefill: real)

  function Of(calls: seq<Call>, agent: string): seq<Call> {
    if calls == [] then []
    else
      var last := calls[|calls| - 1];
      Of(calls[..|calls| - 1], agent) + if last.agent == agent then [last] else []
  }

  // Cost accepted by calls i, ..., k - 1.
  function Spent(cs: seq<Call>, i: nat, k: nat): real
    requires k <= |cs|
    decreases k
  {
    if k <= i then 0.0 else Spent(cs, i, k - 1) + if cs[k - 1].ok then cs[k - 1].cost else 0.0
  }

  // What may be accepted within `span` seconds.
  function Bound(rate: real, burst: real, span: real): real { burst + rate * span }

  // What the bucket may have accepted since call i, by the time `at`.
  function Allowance(rate: real, burst: real, cs: seq<Call>, i: nat, at: real): real
    requires i < |cs|
  {
    Bound(rate, burst, at - cs[i].at)
  }

  // Call k fits: from every call i up to it, the cost accepted since i plus its own is allowed.
  predicate Fits(rate: real, burst: real, cs: seq<Call>, k: nat)
    requires k < |cs|
  {
    forall i | 0 <= i <= k :: Spent(cs, i, k) + cs[k].cost <= Allowance(rate, burst, cs, i, cs[k].at)
  }

  // A log in which exactly the calls that fit were accepted.
  predicate Conforms(rate: real, burst: real, cs: seq<Call>) {
    forall k | 0 <= k < |cs| :: cs[k].ok <==> Fits(rate, burst, cs, k)
  }

  /* ----- what the bucket's level means ----- */

  // The level at time `at`, before any call then: the least room left since any earlier call.
  ghost predicate IsRoom(rate: real, burst: real, cs: seq<Call>, at: real, room: real) {
    && (forall i | 0 <= i < |cs| :: room <= Allowance(rate, burst, cs, i, at) - Spent(cs, i, |cs|))
    && exists i :: 0 <= i < |cs| && room == Allowance(rate, burst, cs, i, at) - Spent(cs, i, |cs|)
  }

  // The bucket an agent has after its calls.
  ghost predicate Reflects(rate: real, burst: real, cs: seq<Call>, b: Bucket) {
    cs != [] && b.lastRefill == cs[|cs| - 1].at && IsRoom(rate, burst, cs, b.lastRefill, b.tokens)
  }

  function Refilled(rate: real, burst: real, b: Bucket, now: real): real {
    var filled := b.tokens + (now - b.lastRefill) * rate;
    if burst < filled then burst else filled
  }

  lemma RefilledIs(rate: real, burst: real, b: Bucket, now: real)
    ensures var filled := b.tokens + (now - b.lastRefill) * rate;
      Refilled(rate, burst, b, now) == if burst < filled then burst else filled
  {
  }

  lemma StaysFull(rate: real, burst: real, now: real)
    ensures Refilled(rate, burst, Bucket(burst, now), now) == burst
  {
  }

  lemma {:induction false} SpentPrefix(cs: seq<Call>, c: Call, i: nat, k: nat)
    requires k <= |cs|
    ensures Spent(cs + [c], i, k) == Spent(cs, i, k)
    decreases k
  {
    if i < k { SpentPrefix(cs, c, i, k - 1); }
  }

  lemma AllowanceLater(rate: real, burst: real, cs: seq<Call>, i: nat, at: real, now: real)
    requires i < |cs|
    ensures Allowance(rate, burst, cs, i, now) == Allowance(rate, burst, cs, i, at) + (now - at) * rate
  {
  }

  // A further call changes neither the allowance since an earlier one nor, being no time away, its own.
  lemma AllowanceAppended(rate: real, burst: real, cs: seq<Call>, c: Call, i: nat)
    requires i <= |cs|
    ensures i < |cs| ==> Allowance(rate, burst, cs + [c], i, c.at) == Allowance(rate, burst, cs, i, c.at)
    ensures i == |cs| ==> Allowance(rate, burst, cs + [c], i, c.at) == burst
  {
    if i == |cs| {
      assert (cs + [c])[i].at == c.at;
      TimesZero(rate, c.at - c.at);
    }
  }

  lemma TimesZero(rate: real, elapsed: real)
    requires elapsed == 0.0
    ensures rate * elapsed == 0.0
  {
  }

  // Time passing moves the room of every earlier call alike.
  lemma {:induction false} RoomLater(rate: real, burst: real, cs: seq<Call>, at: real, now: real, room: real,
                                     filled: real)
    requires IsRoom(rate, burst, cs, at, room) && filled == room + (now - at) * rate
    ensures IsRoom(rate, burst, cs, now, filled)
  {
    hide Allowance, Spent;
    forall i | 0 <= i < |cs|
      ensures Allowance(rate, burst, cs, i, now) == Allowance(rate, burst, cs, i, at) + (now - at) * rate
    {
      AllowanceLater(rate, burst, cs, i, at, now);
    }
    var i :| 0 <= i < |cs| && room == Allowance(rate, burst, cs, i, at) - Spent(cs, i, |cs|);
    assert filled == Allowance(rate, burst, cs, i, now) - Spent(cs, i, |cs|);
  }

  // The refilled level covers the cost of the next call exactly when that call fits.
  lemma {:induction false} RoomDecides(rate: real, burst: real, cs: seq<Call>, c: Call, filled: real)
    requires cs == [] ==> filled >= burst
    requires cs != [] ==> IsRoom(rate, burst, cs, c.at, filled)
    ensures var level := if burst < filled then burst else filled;
      c.cost <= level <==> Fits(rate, burst, cs + [c], |cs|)
  {
    hide Allowance;
    var all, k := cs + [c], |cs|;
    forall i | 0 <= i <= k
      ensures Spent(all, i, k) == Spent(cs, i, k)
      ensures i < k ==> Allowance(rate, burst, all, i, c.at) == Allowance(rate, burst, cs, i, c.at)
      ensures i == k ==> Allowance(rate, burst, all, i, c.at) == burst && Spent(cs, i, k) == 0.0
    {
      AllowanceAppended(rate, burst, cs, c, i);
      SpentPrefix(cs, c, i, k);
    }
    hide Spent;
    if Fits(rate, burst, all, k) {
      assert Spent(all, k, k) + c.cost <= Allowance(rate, burst, all, k, c.at);
      if cs != [] {
        var i :| 0 <= i < k && filled == Allowance(rate, burst, cs, i, c.at) - Spent(cs, i, k);
        assert Spent(all, i, k) + c.cost <= Allowance(rate, burst, all, i, c.at);
      }
    }
  }

  // After the decision, the level is again the room left.
  lemma {:induction false} RoomAfter(rate: real, burst: real, cs: seq<Call>, c: Call, filled: real)
    requires cs == [] ==> filled >= burst
    requires cs != [] ==> IsRoom(rate, burst, cs, c.at, filled)
    ensures var level := if burst < filled then burst else filled;
      IsRoom(rate, burst, cs + [c], c.at, level - if c.ok then c.cost else 0.0)
  {
    hide Allowance;
    var all, k := cs + [c], |cs|;
    var spent := if c.ok then c.cost else 0.0;
    var level := if burst < filled then burst else filled;
    forall i | 0 <= i <= k
      ensures Spent(all, i, k + 1) == Spent(cs, i, k) + spent
      ensures i < k ==> Allowance(rate, burst, all, i, c.at) == Allowance(rate, burst, cs, i, c.at)
      ensures i == k ==> Allowance(rate, burst, all, i, c.at) == burst && Spent(cs, i, k) == 0.0
    {
      AllowanceAppended(rate, burst, cs, c, i);
      SpentPrefix(cs, c, i, k);
    }
    hide Spent;
    var least := k;
    if !(burst < filled) && cs != [] {
      least :| 0 <= least < k && filled == Allowance(rate, burst, cs, least, c.at) - Spent(cs, least, k);
    }
    assert level - spent == Allowance(rate, burst, all, least, c.at) - Spent(all, least, k + 1);
  }

  /* ----- what fitting means ----- */

  lemma AllowanceIs(rate: real, burst: real, cs: seq<Call>, i: nat, at: real)
    requires i < |cs|
    ensures Allowance(rate, burst, cs, i, at) == burst + rate * (at - cs[i].at)
  {
  }

  lemma {:induction false} FitsMeans(rate: real, burst: real, cs: seq<Call>, k: nat)
    requires k < |cs|
    ensures Fits(rate, burst, cs, k) <==>
      forall i | 0 <= i <= k :: Spent(cs, i, k) + cs[k].cost <= burst + rate * (cs[k].at - cs[i].at)
  {
    hide Spent, Bound, Allowance;
    forall i | 0 <= i <= k ensures Allowance(rate, burst, cs, i, cs[k].at) == burst + rate * (cs[k].at - cs[i].at) {
      AllowanceIs(rate, burst, cs, i, cs[k].at);
    }
  }

  // How many of these calls were accepted.
  function Accepted(cs: seq<Call>): nat {
    if cs == [] then 0 else (if cs[0].ok then 1 else 0) + Accepted(cs[1..])
  }

  lemma {:induction false} AcceptedAppend(cs: seq<Call>, c: Call)
    ensures Accepted(cs + [c]) == Accepted(cs) + if c.ok then 1 else 0
  {
    if cs != [] {
      assert (cs + [c])[1..] == cs[1..] + [c];
      AcceptedAppend(cs[1..], c);
    }
  }

  /** At cost 1.0, as every caller here asks, what was spent is the number of calls accepted. */
  lemma {:induction false} SpentIsTheCount(cs: seq<Call>, i: nat, k: nat)
    requires i <= k <= |cs| && UnitCosts(cs)
    ensures Spent(cs, i, k) == Accepted(cs[i..k]) as real
    decreases k
  {
    if i < k {
      SpentIsTheCount(cs, i, k - 1);
      assert cs[i..k] == cs[i..k - 1] + [cs[k - 1]];
      AcceptedAppend(cs[i..k - 1], cs[k - 1]);
    }
  }

  /* ----- what a conforming log guarantees ----- */

  lemma FitsSince(rate: real, burst: real, cs: seq<Call>, i: nat, k: nat)
    requires i <= k < |cs| && Fits(rate, burst, cs, k)
    ensures Spent(cs, i, k) + cs[k].cost <= Bound(rate, burst, cs[k].at - cs[i].at)
  {
    hide Spent, Bound;
    assert Spent(cs, i, k) + cs[k].cost <= Allowance(rate, burst, cs, i, cs[k].at);
  }

  lemma BoundIs(rate: real, burst: real, span: real)
    ensures Bound(rate, burst, span) == burst + rate * span
  {
  }

  lemma {:induction false} RunWithin(rate: real, burst: real, cs: seq<Call>, i: nat, k: nat)
    requires Conforms(rate, burst, cs) && i <= k < |cs| && cs[k].ok
    ensures Spent(cs, i, k + 1) <= Bound(rate, burst, cs[k].at - cs[i].at)
  {
    hide Fits, Bound;
    assert Fits(rate, burst, cs, k);
    hide Conforms;
    FitsSince(rate, burst, cs, i, k);
    assert Spent(cs, i, k + 1) == Spent(cs, i, k) + cs[k].cost;
  }

  /** Accepted cost over any run of calls that ends in an accepted one stays within the bound. */
  lemma RunBound(rate: real, burst: real, cs: seq<Call>, i: nat, k: nat)
    requires Conforms(rate, burst, cs) && i <= k < |cs| && cs[k].ok
    ensures Spent(cs, i, k + 1) <= burst + rate * (cs[k].at - cs[i].at)
  {
    hide Conforms, Spent;
    RunWithin(rate, burst, cs, i, k);
  }

  lemma BoundGrows(rate: real, burst: real, a: real, b: real)
    requires rate >= 0.0 && a <= b
    ensures Bound(rate, burst, a) <= Bound(rate, burst, b)
  {
  }

  lemma BoundHoldsNothing(rate: real, burst: real, span: real)
    requires rate >= 0.0 && burst >= 0.0 && span >= 0.0
    ensures 0.0 <= Bound(rate, burst, span)
  {
    TimesZero(rate, 0.0);
    BoundGrows(rate, burst, 0.0, span);
  }

  /**
   Rate bound. Over any run of calls that ends at most `span` after its first, whatever order the times
   in between are in, the cost accepted is at most burst + rate * span.
   */
  lemma {:induction false} WindowBound(rate: real, burst: real, cs: seq<Call>, i: nat, k: nat, span: real)
    requires Conforms(rate, burst, cs) && i <= k <= |cs|
    requires rate >= 0.0 && burst >= 0.0 && span >= 0.0
    requires forall a | i <= a < k :: cs[a].at <= cs[i].at + span
    ensures Spent(cs, i, k) <= burst + rate * span
    decreases k
  {
    hide Conforms, Bound;
    BoundIs(rate, burst, span);
    if i == k {
      BoundHoldsNothing(rate, burst, span);
    } else if cs[k - 1].ok {
      RunWithin(rate, burst, cs, i, k - 1);
      BoundGrows(rate, burst, cs[k - 1].at - cs[i].at, span);
    } else {
      WindowBound(rate, burst, cs, i, k - 1, span);
    }
  }

  lemma {:induction false} FitsPrefix(rate: real, burst: real, cs: seq<Call>, c: Call, k: nat)
    requires k < |cs|
    ensures Fits(rate, burst, cs + [c], k) <==> Fits(rate, burst, cs, k)
  {
    hide Spent;
    var all := cs + [c];
    forall i | 0 <= i <= k
      ensures Spent(all, i, k) == Spent(cs, i, k)
      ensures Allowance(rate, burst, all, i, all[k].at) == Allowance(rate, burst, cs, i, cs[k].at)
    {
      SpentPrefix(cs, c, i, k);
    }
  }

  lemma {:induction false} ConformsExtend(rate: real, burst: real, cs: seq<Call>, c: Call)
    requires Conforms(rate, burst, cs) && (c.ok <==> Fits(rate, burst, cs + [c], |cs|))
    ensures Conforms(rate, burst, cs + [c])
  {
    hide Fits;
    var all := cs + [c];
    forall k | 0 <= k < |cs|
      ensures Fits(rate, burst, all, k) <==> Fits(rate, burst, cs, k)
    {
      FitsPrefix(rate, burst, cs, c, k);
    }
  }

  /* ----- counting calls by the clock ----- */

  // How many calls with a time from lo to hi were accepted, in whatever order they came.
  function AcceptedWithin(cs: seq<Call>, lo: real, hi: real): nat {
    if cs == [] then 0
    else AcceptedWithin(cs[..|cs| - 1], lo, hi) + if IsAccepted(cs[|cs| - 1], lo, hi) then 1 else 0
  }

  predicate IsAccepted(c: Call, lo: real, hi: real) { c.ok && lo <= c.at <= hi }

  predicate UnitCosts(cs: seq<Call>) { forall i | 0 <= i < |cs| :: cs[i].cost == 1.0 }

  lemma {:induction false} CountWithinSpent(cs: seq<Call>, i: nat, k: nat, lo: real, hi: real)
    requires i <= k <= |cs| && UnitCosts(cs)
    ensures AcceptedWithin(cs[..k], lo, hi) as real <= AcceptedWithin(cs[..i], lo, hi) as real + Spent(cs, i, k)
    decreases k
  {
    if i < k {
      CountWithinSpent(cs, i, k - 1, lo, hi);
      assert cs[..k][..k - 1] == cs[..k - 1];
    }
  }

  // The first accepted call of the window, with none before it.
  lemma {:induction false} FirstWithin(cs: seq<Call>, n: nat, lo: real, hi: real) returns (i: nat)
    requires n < |cs| && IsAccepted(cs[n], lo, hi)
    ensures i <= n && IsAccepted(cs[i], lo, hi) && AcceptedWithin(cs[..i], lo, hi) == 0
  {
    i := 0;
    while !IsAccepted(cs[i], lo, hi)
      invariant i <= n && AcceptedWithin(cs[..i], lo, hi) == 0
      decreases n - i
    {
      assert cs[..i + 1][..i] == cs[..i];
      i := i + 1;
    }
  }

  lemma {:induction false} ConformsPrefix(rate: real, burst: real, cs: seq<Call>)
    requires cs != [] && Conforms(rate, burst, cs)
    ensures Conforms(rate, burst, cs[..|cs| - 1])
  {
    hide Fits;
    var init := cs[..|cs| - 1];
    assert cs == init + [cs[|cs| - 1]];
    forall k | 0 <= k < |init| ensures init[k].ok <==> Fits(rate, burst, init, k) {
      FitsPrefix(rate, burst, init, cs[|cs| - 1], k);
    }
  }

  lemma SpentInWindow(rate: real, burst: real, cs: seq<Call>, i: nat, n: nat, lo: real, hi: real)
    requires Conforms(rate, burst, cs) && rate >= 0.0
    requires i <= n < |cs| && IsAccepted(cs[i], lo, hi) && IsAccepted(cs[n], lo, hi)
    ensures Spent(cs, i, n + 1) <= Bound(rate, burst, hi - lo)
  {
    hide Conforms, Spent, Bound;
    RunWithin(rate, burst, cs, i, n);
    BoundGrows(rate, burst, cs[n].at - cs[i].at, hi - lo);
  }

  /** Rate bound by the clock: among calls in any order, those accepted with times from lo to hi. */
  lemma {:induction false} ClockBound(rate: real, burst: real, cs: seq<Call>, lo: real, hi: real)
    requires Conforms(rate, burst, cs) && UnitCosts(cs)
    requires rate >= 0.0 && burst >= 0.0 && lo <= hi
    ensures AcceptedWithin(cs, lo, hi) as real <= burst + rate * (hi - lo)
    decreases |cs|
  {
    hide Conforms, Spent, Bound;
    BoundIs(rate, burst, hi - lo);
    if cs == [] {
      BoundHoldsNothing(rate, burst, hi - lo);
      assert AcceptedWithin(cs, lo, hi) == 0;
    } else {
      var n := |cs| - 1;
      if IsAccepted(cs[n], lo, hi) {
        var i := FirstWithin(cs, n, lo, hi);
        SpentInWindow(rate, burst, cs, i, n, lo, hi);
        CountWithinSpent(cs, i, n + 1, lo, hi);
        assert cs[..n + 1] == cs;
        assert AcceptedWithin(cs, lo, hi) as real <= Spent(cs, i, n + 1);
      } else {
        ConformsPrefix(rate, burst, cs);
        ClockBound(rate, burst, cs[..n], lo, hi);
      }
    }
  }

  lemma {:induction false} StepFits(rate: real, burst: real, cs: seq<Call>, b: Bucket, c: Call)
    requires Conforms(rate, burst, cs)
    requires if cs == [] then b == Bucket(burst, c.at) else Reflects(rate, burst, cs, b)
    requires c.ok <==> Refilled(rate, burst, b, c.at) >= c.cost
    ensures c.ok <==> Fits(rate, burst, cs + [c], |cs|)
    ensures Conforms(rate, burst, cs + [c])
    ensures Reflects(rate, burst, cs + [c],
      Bucket(Refilled(rate, burst, b, c.at) - if c.ok then c.cost else 0.0, c.at))
  {
    hide Conforms, Fits, IsRoom;
    var filled := b.tokens + (c.at - b.lastRefill) * rate;
    if cs != [] {
      RoomLater(rate, burst, cs, b.lastRefill, c.at, b.tokens, filled);
    } else {
      assert c.at - b.lastRefill == 0.0;
    }
    RoomDecides(rate, burst, cs, c, filled);
    RoomAfter(rate, burst, cs, c, filled);
    ConformsExtend(rate, burst, cs, c);
  }

  /**
   Exact admission. The bucket's comparison accepts a call if and only if, from every earlier or
   equal call of the agent, the cost accepted since plus the call's own is at most
   burst + rate * elapsed; and the bucket it leaves again reflects all the calls.
   */
  lemma {:induction false} StepExact(rate: real, burst: real, cs: seq<Call>, b: Bucket, c: Call)
    requires Conforms(rate, burst, cs)
    requires if cs == [] then b == Bucket(burst, c.at) else Reflects(rate, burst, cs, b)
    requires c.ok <==> Refilled(rate, burst, b, c.at) >= c.cost
    ensures c.ok <==> forall i | 0 <= i <= |cs| ::
      Spent(cs + [c], i, |cs|) + (cs + [c])[|cs|].cost <= burst + rate * ((cs + [c])[|cs|].at - (cs + [c])[i].at)
    ensures Conforms(rate, burst, cs + [c])
    ensures Reflects(rate, burst, cs + [c],
      Bucket(Refilled(rate, burst, b, c.at) - if c.ok then c.cost else 0.0, c.at))
  {
    hide Conforms, Fits, Reflects, Refilled, Spent;
    StepFits(rate, burst, cs, b, c);
    FitsMeans(rate, burst, cs + [c], |cs|);
  }

  /* ----- the limiter ----- */

  // The agent's bucket, if it has one yet, reflects the agent's own calls, and these conform.
  ghost predicate AgentOk(rate: real, burst: real, buckets: map<string, Bucket>, calls: seq<Call>, agent: string) {
    var mine := Of(calls, agent);
    && (agent in buckets <==> mine != [])
    && (agent in buckets ==> Reflects(rate, burst, mine, buckets[agent]))
    && Conforms(rate, burst, mine)
  }

  // The bucket a call finds, a full one if it is the agent's first.
  function BucketFor(burst: real, buckets: map<string, Bucket>, agent: string, now: real): Bucket {
    if agent in buckets then buckets[agent] else Bucket(burst, now)
  }

  lemma {:induction false} OfAppend(calls: seq<Call>, c: Call, agent: string)
    ensures Of(calls + [c], agent) == Of(calls, agent) + if c.agent == agent then [c] else []
  {
    assert (calls + [c])[..|calls|] == calls;
  }

  // The caller's bucket after its call.
  lemma {:induction false} CallerOk(rate: real, burst: real, buckets: map<string, Bucket>, calls: seq<Call>, c: Call)
    requires AgentOk(rate, burst, buckets, calls, c.agent)
    requires c.ok <==> Refilled(rate, burst, BucketFor(burst, buckets, c.agent, c.at), c.at) >= c.cost
    ensures var level := Refilled(rate, burst, BucketFor(burst, buckets, c.agent, c.at), c.at);
      AgentOk(rate, burst, buckets[c.agent := Bucket(level - if c.ok then c.cost else 0.0, c.at)], calls + [c], c.agent)
    ensures Fits(rate, burst, Of(calls + [c], c.agent), |Of(calls, c.agent)|) <==> c.ok
  {
    hide Conforms, Fits, Reflects, Refilled;
    OfAppend(calls, c, c.agent);
    StepFits(rate, burst, Of(calls, c.agent), BucketFor(burst, buckets, c.agent, c.at), c);
  }

  // The other buckets are left alone.
  lemma {:induction false} OthersOk(rate: real, burst: real, buckets: map<string, Bucket>, calls: seq<Call>, c: Call,
                                    b: Bucket, other: string)
    requires AgentOk(rate, burst, buckets, calls, other) && other != c.agent
    ensures AgentOk(rate, burst, buckets[c.agent := b], calls + [c], other)
  {
    hide Conforms, Reflects;
    OfAppend(calls, c, other);
    assert Of(calls, other) + [] == Of(calls, other);
  }

  class TokenBucketLimiter {
    const rate: real
    const burst: real
    var buckets: map<string, Bucket>
    ghost var calls: seq<Call>   // every call, in the order it got the lock

    // Every agent's bucket reflects that agent's own calls, and its calls conform.
    ghost predicate Valid()
      reads this
    {
      forall agent: string :: AgentOk(rate, burst, buckets, calls, agent)
    }

    constructor (rate: real, burst: real)
      ensures Valid() && calls == [] && this.rate == rate && this.burst == burst
    {
      this.rate, this.burst, buckets, calls := rate, burst, map[], [];
    }

    method Allow(agent: string, now: real, cost: real) returns (ok: bool)
      requires Valid()
      modifies this
      ensures Valid()
      ensures calls == old(calls) + [Call(agent, now, cost, ok)]
      ensures var mine := Of(calls, agent);
        mine == Of(old(calls), agent) + [Call(agent, now, cost, ok)] && (ok <==> Fits(rate, burst, mine, |mine| - 1))
      ensures agent !in old(buckets) ==>
        && (ok <==> burst >= cost)
        && buckets == old(buckets)[agent := Bucket(if ok then burst - cost else burst, now)]
      ensures agent in old(buckets) ==>
        var filled := old(buckets)[agent].tokens + (now - old(buckets)[agent].lastRefill) * rate;
        var level := if burst < filled then burst else filled;
        && (ok <==> level >= cost)
        && buckets == old(buckets)[agent := Bucket(if ok then level - cost else level, now)]
    {
      hide AgentOk, Fits, Refilled, Of;
      ghost var was := buckets;
      if agent !in buckets { buckets := buckets[agent := Bucket(burst, now)]; }
      var bucket := buckets[agent];
      var tokens := Refilled(rate, burst, bucket, now);
      if agent in was { RefilledIs(rate, burst, was[agent], now); } else { StaysFull(rate, burst, now); }
      ok := tokens >= cost;
      ghost var call := Call(agent, now, cost, ok);
      if ok { tokens := tokens - cost; }
      buckets := buckets[agent := Bucket(tokens, now)];
      calls := calls + [call];
      assert bucket == BucketFor(burst, was, agent, now) && buckets == was[agent := Bucket(tokens, now)];
      CallerOk(rate, burst, was, old(calls), call);
      OfAppend(old(calls), call, agent);
      forall other: string | other != agent ensures AgentOk(rate, burst, buckets, calls, other) {
        OthersOk(rate, burst, was, old(calls), call, Bucket(tokens, now), other);
      }
    }

    method Remaining(agent: string) returns (tokens: real)
      requires Valid()
      ensures Of(calls, agent) == [] ==> tokens == burst
      ensures tokens == if agent in buckets then buckets[agent].tokens else burst
      ensures var mine := Of(calls, agent);
        mine != [] ==> IsRoom(rate, burst, mine, mine[|mine| - 1].at, tokens)
    {
      hide Conforms, IsRoom, Of;
      assert AgentOk(rate, burst, buckets, calls, agent);
      if agent in buckets { tokens := buckets[agent].tokens; } else { tokens := burst; }
    }
  }
}
