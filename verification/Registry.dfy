/**
 Agents, their identities and their bearer tokens: the tables, the operations on them, and
 the event rows they log. Times are whole seconds. `fp` is the fingerprint under which a
 credential appears in the log.
 */
module Registry {
  import opened Wrappers

  datatype Agent = Agent(org: string, owner: Option<string>, unclaimed: bool)

  // scope None: no ceiling recorded.
  datatype Identity = Identity(id: string, agentId: string, parent: Option<string>, scope: Option<set<string>>)

  datatype Status = Active | Revoked
  datatype Credential = Credential(agentId: string, status: Status, expiry: Option<int>)

  // What a credential event records about its credential.
  datatype CredentialNote = CredentialNote(fingerprint: string, expiry: Option<int>)
  datatype LogRow = LogRow(eventType: string, source: string, agentId: string, tool: Option<string>,
                           result: string, credential: Option<CredentialNote>)

  datatype Db = Db(
    humans: map<string, string>,   // human -> organization
    agents: map<string, Agent>, identities: map<string, Identity>,
    credentials: map<string, Credential>, log: seq<LogRow>)

  const ISSUED := "credential.issued"
  const RENEWED := "credential.renewed"
  const REVOKED := "credential.revoked"

  /* ----- credentials ----- */

  // No row when the credential's agent does not exist.
  function LogCredential(db: Db, fp: string -> string, token: string, eventType: string): (r: Db)
    requires token in db.credentials
    ensures r == db.(log := r.log) && db.log <= r.log
  {
    var c := db.credentials[token];
    if c.agentId !in db.agents then db
    else db.(log := db.log +
      [LogRow(eventType, "registry", c.agentId, None, "success", Some(CredentialNote(fp(token), c.expiry)))])
  }

  // A token already in use breaks the primary key: nothing is stored.
  function Issue(db: Db, fp: string -> string, token: string, agentId: string, ttl: Option<int>, now: int): Db {
    if token in db.credentials then db
    else
      var expiry := if ttl.None? then None else Some(now + ttl.value);
      LogCredential(db.(credentials := db.credentials[token := Credential(agentId, Active, expiry)]), fp, token, ISSUED)
  }

  predicate Expired(expiry: Option<int>, now: int) { expiry.Some? && expiry.value <= now }

  predicate Renewable(db: Db, token: string, now: int) {
    token in db.credentials && db.credentials[token].status == Active && !Expired(db.credentials[token].expiry, now)
  }

  // The writing half of a renewal: only the expiry changes.
  function SetExpiry(db: Db, fp: string -> string, token: string, expiry: int): Db
    requires token in db.credentials
  {
    var c := db.credentials[token].(expiry := Some(expiry));
    LogCredential(db.(credentials := db.credentials[token := c]), fp, token, RENEWED)
  }

  function Renew(db: Db, fp: string -> string, token: string, ttl: int, now: int): Db {
    if Renewable(db, token, now) then SetExpiry(db, fp, token, now + ttl) else db
  }

  function Revoke(db: Db, fp: string -> string, token: string): Db {
    if token in db.credentials && db.credentials[token].status == Active then
      var c := db.credentials[token].(status := Revoked);
      LogCredential(db.(credentials := db.credentials[token := c]), fp, token, REVOKED)
    else db
  }

  /* ----- identities ----- */

  // A scope that may be granted under this ceiling.
  predicate Within(scope: Option<set<string>>, ceiling: Option<set<string>>) {
    ceiling.None? || (scope.Some? && scope.value <= ceiling.value)
  }

  predicate OwnerIn(db: Db, human: string, org: string) { human in db.humans && db.humans[human] == org }

  // The identity exists and its agent belongs to the organization.
  predicate IdentityIn(db: Db, id: string, org: string) {
    && id in db.identities
    && db.identities[id].agentId in db.agents
    && db.agents[db.identities[id].agentId].org == org
  }

  predicate RegisterOk(db: Db, org: string, owner: string, scope: set<string>, parent: Option<string>) {
    && (parent.Some? ==> IdentityIn(db, parent.value, org) && Within(Some(scope), db.identities[parent.value].scope))
    && OwnerIn(db, owner, org)
  }

  // Both rows replace rows with the same id.
  function Register(db: Db, org: string, agentId: string, owner: string, scope: set<string>,
                    parent: Option<string>, identityId: string): Db {
    if RegisterOk(db, org, owner, scope, parent) then
      db.(agents := db.agents[agentId := Agent(org, Some(owner), false)],
          identities := db.identities[identityId := Identity(identityId, agentId, parent, Some(scope))])
    else db
  }

  // An existing row is left alone.
  function Discover(db: Db, org: string, agentId: string): Db {
    if agentId in db.agents then db else db.(agents := db.agents[agentId := Agent(org, None, true)])
  }

  function ClaimedId(agentId: string): string { "identity-" + agentId }

  predicate ClaimOk(db: Db, org: string, agentId: string, owner: string) {
    agentId in db.agents && db.agents[agentId].org == org && db.agents[agentId].unclaimed && OwnerIn(db, owner, org)
  }

  function Claim(db: Db, org: string, agentId: string, owner: string, scope: set<string>): Db {
    if ClaimOk(db, org, agentId, owner) then
      var id := ClaimedId(agentId);
      db.(agents := db.agents[agentId := Agent(org, Some(owner), false)],
          identities := db.identities[id := Identity(id, agentId, None, Some(scope))])
    else db
  }

  /* ----- the token registry ----- */

  // A row of the join: an active, unexpired credential with an identity of its agent, in this organization.
  predicate Resolves(db: Db, org: string, now: int, token: string, id: string) {
    && token in db.credentials && id in db.identities
    && db.credentials[token].status == Active && !Expired(db.credentials[token].expiry, now)
    && db.identities[id].agentId == db.credentials[token].agentId
    && IdentityIn(db, id, org)
  }

  ghost predicate Loadable(db: Db, org: string, now: int, token: string) {
    exists id :: Resolves(db, org, now, token, id)
  }

  // What a load may return: every loadable token and no other, each with an identity it resolves to.
  ghost predicate IsLoad(db: Db, org: string, now: int, registry: map<string, Identity>) {
    && (forall token :: token in registry <==> Loadable(db, org, now, token))
    && (forall token :: token in registry ==>
      exists id :: Resolves(db, org, now, token, id) && registry[token] == db.identities[id])
  }

  // Revoked, or expired by now.
  predicate Dead(db: Db, token: string, now: int) {
    token in db.credentials && (db.credentials[token].status == Revoked || Expired(db.credentials[token].expiry, now))
  }

  /* ----- runs ----- */

  datatype Op =
    | IssueToken(token: string, agentId: string, ttl: Option<int>)
    | RenewToken(token: string, extend: int)
    | RenewRead(token: string, extend: int)   // the two halves of a renewal, when they are not one transaction
    | RenewWrite(job: nat)
    | RevokeToken(token: string)
    | RegisterIdentity(org: string, agentId: string, owner: string, scope: set<string>,
                       parent: Option<string>, identityId: string)
    | DiscoverAgent(org: string, agentId: string)
    | ClaimAgent(org: string, agentId: string, owner: string, scope: set<string>)

  // A renewal that has read and passed its checks.
  datatype Renewal = Renewal(token: string, extend: int)

  // audited: tokens issued while their agent existed. born: how many identities came before each.
  datatype State = State(db: Db, renewing: seq<Renewal>, audited: set<string>, born: map<string, nat>)

  function Apply(s: State, fp: string -> string, op: Op, now: int): State {
    match op
    case IssueToken(token, agentId, ttl) =>
      s.(db := Issue(s.db, fp, token, agentId, ttl, now),
         audited := if token !in s.db.credentials && agentId in s.db.agents then s.audited + {token} else s.audited)
    case RenewToken(token, extend) => s.(db := Renew(s.db, fp, token, extend, now))
    case RenewRead(token, extend) =>
      if Renewable(s.db, token, now) then s.(renewing := s.renewing + [Renewal(token, extend)]) else s
    case RenewWrite(job) =>
      if job < |s.renewing| && s.renewing[job].token in s.db.credentials then
        s.(db := SetExpiry(s.db, fp, s.renewing[job].token, now + s.renewing[job].extend))
      else s
    case RevokeToken(token) => s.(db := Revoke(s.db, fp, token))
    case RegisterIdentity(org, agentId, owner, scope, parent, identityId) =>
      s.(db := Register(s.db, org, agentId, owner, scope, parent, identityId),
         born := if RegisterOk(s.db, org, owner, scope, parent) then s.born[identityId := |s.born|] else s.born)
    case DiscoverAgent(org, agentId) => s.(db := Discover(s.db, org, agentId))
    case ClaimAgent(org, agentId, owner, scope) =>
      s.(db := Claim(s.db, org, agentId, owner, scope),
         born := if ClaimOk(s.db, org, agentId, owner) then s.born[ClaimedId(agentId) := |s.born|] else s.born)
  }

  datatype Timed = Timed(op: Op, at: int)

  predicate ClockRuns(ops: seq<Timed>, from: int) {
    (forall i | 0 <= i < |ops| :: from <= ops[i].at) && (forall i, j | 0 <= i < j < |ops| :: ops[i].at <= ops[j].at)
  }

  function Run(s: State, fp: string -> string, ops: seq<Timed>): State {
    if ops == [] then s
    else
      var last := ops[|ops| - 1];
      Apply(Run(s, fp, ops[..|ops| - 1]), fp, last.op, last.at)
  }

  function EmptyState(humans: map<string, string>): State {
    State(Db(humans, map[], map[], map[], []), [], {}, map[])
  }

  /* ----- a dead credential stays dead ----- */

  lemma CredentialsPersist(s: State, fp: string -> string, op: Op, now: int)
    ensures s.db.credentials.Keys <= Apply(s, fp, op, now).db.credentials.Keys
    ensures s.db.agents.Keys <= Apply(s, fp, op, now).db.agents.Keys
    ensures s.db.log <= Apply(s, fp, op, now).db.log
  {
    hide LogCredential, RegisterOk, ClaimOk, Renewable;
  }

  // The late half of a renewal of this token, which passed its checks when it read.
  predicate OwnWrite(s: State, op: Op, token: string) {
    op.RenewWrite? && op.job < |s.renewing| && s.renewing[op.job].token == token
  }

  // ... and that finds it unrevoked and reaches past the clock.
  predicate Revives(s: State, op: Op, token: string) {
    && OwnWrite(s, op, token) && s.renewing[op.job].extend > 0
    && token in s.db.credentials && s.db.credentials[token].status == Active
  }

  // One step: a dead credential comes back exactly by a late renewal of its own.
  lemma {:induction false} DeadStep(s: State, fp: string -> string, op: Op, now: int, token: string, t0: int)
    requires Dead(s.db, token, t0) && t0 <= now
    ensures s.db.credentials[token].status == Revoked ==>
      token in Apply(s, fp, op, now).db.credentials && Apply(s, fp, op, now).db.credentials[token].status == Revoked
    ensures Dead(Apply(s, fp, op, now).db, token, now) <==> !Revives(s, op, token)
  {
    hide LogCredential, RegisterOk, ClaimOk;
  }

  /**
   Once revoked, a credential is never loaded again, whatever operations follow and however
   renewals' reads and writes interleave with them.
   */
  lemma {:induction false} RevokedStaysDead(s: State, fp: string -> string, ops: seq<Timed>, token: string,
                                            org: string, now: int)
    requires token in s.db.credentials && s.db.credentials[token].status == Revoked
    ensures var after := Run(s, fp, ops).db;
      token in after.credentials && after.credentials[token].status == Revoked && !Loadable(after, org, now, token)
  {
    hide Apply;
    if ops != [] {
      var before, last := Run(s, fp, ops[..|ops| - 1]), ops[|ops| - 1];
      RevokedStaysDead(s, fp, ops[..|ops| - 1], token, org, now);
      DeadStep(before, fp, last.op, last.at, token, last.at);
    }
  }

  predicate RevivesAt(s: State, fp: string -> string, ops: seq<Timed>, i: nat, token: string)
    requires i < |ops|
  {
    Revives(Run(s, fp, ops[..i]), ops[i].op, token)
  }

  /**
   Once its expiry is at or before the clock, a credential is never loaded at any later time,
   as long as the clock does not run back and no late renewal of its own revives it. Split
   renewals of other credentials, or of this one before it expired, do not matter.
   */
  lemma {:induction false} ExpiredStaysDead(s: State, fp: string -> string, ops: seq<Timed>, token: string, org: string,
                                            t0: int, now: int)
    requires Dead(s.db, token, t0) && ClockRuns(ops, t0)
    requires forall i | 0 <= i < |ops| :: !RevivesAt(s, fp, ops, i, token)
    requires t0 <= now && forall i | 0 <= i < |ops| :: ops[i].at <= now
    ensures Dead(Run(s, fp, ops).db, token, now) && !Loadable(Run(s, fp, ops).db, org, now, token)
    decreases |ops|
  {
    hide Apply, Revives;
    if ops != [] {
      var init, last := ops[..|ops| - 1], ops[|ops| - 1];
      forall i | 0 <= i < |init| ensures !RevivesAt(s, fp, init, i, token) {
        assert !RevivesAt(s, fp, ops, i, token) && init[..i] == ops[..i];
      }
      ExpiredStaysDead(s, fp, init, token, org, t0, last.at);
      assert !RevivesAt(s, fp, ops, |ops| - 1, token);
      DeadStep(Run(s, fp, init), fp, last.op, last.at, token, last.at);
    }
  }

  predicate DeadAfter(s: State, fp: string -> string, ops: seq<Timed>, n: nat, token: string)
    requires 0 < n <= |ops|
  {
    Dead(Run(s, fp, ops[..n]).db, token, ops[n - 1].at)
  }

  /**
   Exactly when expiry is final. Over any run on a clock that does not run back, a dead
   credential is dead after every operation if and only if no operation is a late renewal of
   its own that finds it unrevoked and reaches past the clock.
   */
  lemma {:induction false} StaysDeadIff(s: State, fp: string -> string, ops: seq<Timed>, token: string, t0: int)
    requires Dead(s.db, token, t0) && ClockRuns(ops, t0)
    ensures (forall n | 0 < n <= |ops| :: DeadAfter(s, fp, ops, n, token))
      <==> (forall i | 0 <= i < |ops| :: !RevivesAt(s, fp, ops, i, token))
  {
    hide Apply, Revives, Run, Dead;
    if forall i | 0 <= i < |ops| :: !RevivesAt(s, fp, ops, i, token) {
      forall n | 0 < n <= |ops| ensures DeadAfter(s, fp, ops, n, token) { DeadUpTo(s, fp, ops, n, token, t0); }
    }
    if forall n | 0 < n <= |ops| :: DeadAfter(s, fp, ops, n, token) {
      forall i | 0 <= i < |ops| ensures !RevivesAt(s, fp, ops, i, token) {
        assert DeadAfter(s, fp, ops, i + 1, token) && (i > 0 ==> DeadAfter(s, fp, ops, i, token));
        DeadAfterStep(s, fp, ops, i, token, t0);
      }
    }
  }

  lemma {:induction false} DeadAfterStep(s: State, fp: string -> string, ops: seq<Timed>, i: nat, token: string,
                                         t0: int)
    requires Dead(s.db, token, t0) && ClockRuns(ops, t0)
    requires i < |ops| && (i == 0 || DeadAfter(s, fp, ops, i, token))
    ensures DeadAfter(s, fp, ops, i + 1, token) <==> !RevivesAt(s, fp, ops, i, token)
  {
    hide Apply, Revives;
    assert ops[..i + 1][..i] == ops[..i];
    DeadStep(Run(s, fp, ops[..i]), fp, ops[i].op, ops[i].at, token, if i == 0 then t0 else ops[i - 1].at);
  }

  lemma {:induction false} DeadUpTo(s: State, fp: string -> string, ops: seq<Timed>, n: nat, token: string, t0: int)
    requires Dead(s.db, token, t0) && ClockRuns(ops, t0) && 0 < n <= |ops|
    requires forall i | 0 <= i < |ops| :: !RevivesAt(s, fp, ops, i, token)
    ensures DeadAfter(s, fp, ops, n, token)
  {
    hide Apply, Revives, Run, Dead;
    if n > 1 { DeadUpTo(s, fp, ops, n - 1, token, t0); }
    assert !RevivesAt(s, fp, ops, n - 1, token);
    DeadAfterStep(s, fp, ops, n - 1, token, t0);
  }

  // An agent is registered and given a token good for 10 seconds; a renewal reads at 9 and writes at 11.
  function LateRenewal(org: string, owner: string): seq<Timed> {
    [Timed(RegisterIdentity(org, "a", owner, {}, None, "i"), 0), Timed(IssueToken("t", "a", Some(10)), 0),
     Timed(RenewRead("t", 10), 9), Timed(RenewWrite(0), 11)]
  }

  lemma RunStep(s: State, fp: string -> string, ops: seq<Timed>, n: nat)
    requires n < |ops|
    ensures Run(s, fp, ops[..n + 1]) == Apply(Run(s, fp, ops[..n]), fp, ops[n].op, ops[n].at)
  {
    assert ops[..n + 1][..n] == ops[..n];
  }

  /** With the halves apart expiry is not final: the token is dead at 11 until the write, which makes it loadable. */
  lemma SplitRenewalRevives(fp: string -> string, org: string, owner: string)
    ensures var start, ops := EmptyState(map[owner := org]), LateRenewal(org, owner);
      && Dead(Run(start, fp, ops[..3]).db, "t", 11) && RevivesAt(start, fp, ops, 3, "t")
      && Loadable(Run(start, fp, ops).db, org, 11, "t")
  {
    hide Run, LogCredential, LateRenewal;
    var start, ops := EmptyState(map[owner := org]), LateRenewal(org, owner);
    LateRenewalReads(fp, org, owner);
    RunStep(start, fp, ops, 3);
    assert |ops| == 4 && ops[3] == Timed(RenewWrite(0), 11) by { LateRenewalOps(org, owner); }
    assert ops[..4] == ops;
    var after := Run(start, fp, ops);
    assert after.db.credentials["t"] == Credential("a", Active, Some(21));
    assert Resolves(after.db, org, 11, "t", "i");
  }

  lemma LateRenewalOps(org: string, owner: string)
    ensures var ops := LateRenewal(org, owner);
      && |ops| == 4 && ops[0] == Timed(RegisterIdentity(org, "a", owner, {}, None, "i"), 0)
      && ops[1] == Timed(IssueToken("t", "a", Some(10)), 0)
      && ops[2] == Timed(RenewRead("t", 10), 9) && ops[3] == Timed(RenewWrite(0), 11)
  {
  }

  lemma LateRenewalReads(fp: string -> string, org: string, owner: string)
    ensures |LateRenewal(org, owner)| == 4
    ensures var read := Run(EmptyState(map[owner := org]), fp, LateRenewal(org, owner)[..3]);
      && read.db.identities == map["i" := Identity("i", "a", None, Some({}))]
      && read.db.agents == map["a" := Agent(org, Some(owner), false)]
      && read.db.credentials == map["t" := Credential("a", Active, Some(10))]
      && read.renewing == [Renewal("t", 10)]
  {
    hide Run, LogCredential, LateRenewal;
    var start, ops := EmptyState(map[owner := org]), LateRenewal(org, owner);
    LateRenewalOps(org, owner);
    RunNothing(start, fp, ops[..0]);
    RunStep(start, fp, ops, 0);
    var registered := Run(start, fp, ops[..1]);
    assert registered.db.identities == map["i" := Identity("i", "a", None, Some({}))];
    assert registered.db.agents == map["a" := Agent(org, Some(owner), false)];
    RunStep(start, fp, ops, 1);
    RunStep(start, fp, ops, 2);
  }

  lemma RunNothing(s: State, fp: string -> string, ops: seq<Timed>)
    requires ops == []
    ensures Run(s, fp, ops) == s
  {
  }
}
