/**
 The life of one credential, from the issue or renewal that fixes its expiry to the operation
 that next concerns it: when it can be loaded, and when it cannot.
 */
module Credentials {
  import opened Wrappers
  import opened Registry

  // Good until this time, or for good.
  predicate Before(at: int, expiry: Option<int>) { expiry.None? || at < expiry.value }

  // The identity exists and its agent belongs to the organization.
  predicate Holds(db: Db, org: string, agentId: string, id: string) {
    && id in db.identities && db.identities[id].agentId == agentId
    && agentId in db.agents && db.agents[agentId].org == org
  }

  // Stored as active, with this expiry.
  predicate StoredAs(db: Db, token: string, agentId: string, expiry: Option<int>) {
    token in db.credentials && db.credentials[token] == Credential(agentId, Active, expiry)
  }

  /** A stored, active credential of an agent with an identity is loadable at exactly the times before its expiry. */
  lemma {:induction false} LoadableUntil(db: Db, org: string, token: string, agentId: string, id: string,
                                         expiry: Option<int>, at: int)
    requires StoredAs(db, token, agentId, expiry) && Holds(db, org, agentId, id)
    ensures Loadable(db, org, at, token) <==> Before(at, expiry)
  {
    if Before(at, expiry) { assert Resolves(db, org, at, token, id); }
  }

  /** Issued without a time to live a token is good for good, with one until that has passed. */
  lemma {:induction false} IssuedIsLive(db: Db, fp: string -> string, token: string, agentId: string, ttl: Option<int>,
                                        now: int, org: string, id: string, at: int)
    requires token !in db.credentials && Holds(db, org, agentId, id)
    ensures var after := Issue(db, fp, token, agentId, ttl, now);
      && (Loadable(after, org, at, token) <==> ttl.None? || at < now + ttl.value)
      && StoredAs(after, token, agentId, if ttl.None? then None else Some(now + ttl.value))
      && |after.log| == |db.log| + 1
      && after.log[|db.log|] == LogRow("credential.issued", "registry", agentId, None, "success",
           Some(CredentialNote(fp(token), if ttl.None? then None else Some(now + ttl.value))))
  {
    var expiry := if ttl.None? then None else Some(now + ttl.value);
    LoadableUntil(Issue(db, fp, token, agentId, ttl, now), org, token, agentId, id, expiry, at);
  }

  /** Renewed while active and unexpired, a token is good until its new time to live has passed, whatever was left. */
  lemma {:induction false} RenewedIsLive(db: Db, fp: string -> string, token: string, agentId: string,
                                         expiry: Option<int>, ttl: int, now: int, org: string, id: string, at: int)
    requires StoredAs(db, token, agentId, expiry) && Before(now, expiry) && Holds(db, org, agentId, id)
    ensures var after := Renew(db, fp, token, ttl, now);
      && (Loadable(after, org, at, token) <==> at < now + ttl) && StoredAs(after, token, agentId, Some(now + ttl))
      && |after.log| == |db.log| + 1
      && after.log[|db.log|] == LogRow("credential.renewed", "registry", agentId, None, "success",
           Some(CredentialNote(fp(token), Some(now + ttl))))
  {
    LoadableUntil(Renew(db, fp, token, ttl, now), org, token, agentId, id, Some(now + ttl), at);
  }

  /** Revoked, a token is good no more, and no other token is touched. */
  lemma {:induction false} RevokedIsDead(db: Db, fp: string -> string, token: string, agentId: string,
                                         expiry: Option<int>, org: string, at: int, other: string)
    requires StoredAs(db, token, agentId, expiry) && other != token
    ensures var after := Revoke(db, fp, token);
      && !Loadable(after, org, at, token)
      && (Loadable(after, org, at, other) <==> Loadable(db, org, at, other))
  {
    hide LogCredential;
    var after := Revoke(db, fp, token);
    if Loadable(db, org, at, other) {
      var id :| Resolves(db, org, at, other, id);
      assert Resolves(after, org, at, other, id);
    }
    if Loadable(after, org, at, other) {
      var id :| Resolves(after, org, at, other, id);
      assert Resolves(db, org, at, other, id);
    }
  }

  /* ----- until another operation concerns it ----- */

  // The operation is about this token, its agent or its identity.
  predicate Concerns(s: State, op: Op, token: string, agentId: string, id: string) {
    match op
    case IssueToken(_, _, _) => false
    case RenewToken(u, _) => u == token
    case RenewRead(_, _) => false
    case RenewWrite(_) => OwnWrite(s, op, token)
    case RevokeToken(u) => u == token
    case RegisterIdentity(_, a, _, _, _, i) => a == agentId || i == id
    case DiscoverAgent(_, _) => false
    case ClaimAgent(_, a, _, _) => a == agentId || ClaimedId(a) == id
  }

  lemma {:induction false} Unconcerned(s: State, fp: string -> string, op: Op, now: int, org: string, token: string,
                                       agentId: string, id: string, expiry: Option<int>)
    requires StoredAs(s.db, token, agentId, expiry) && Holds(s.db, org, agentId, id)
    requires !Concerns(s, op, token, agentId, id)
    ensures var db := Apply(s, fp, op, now).db; StoredAs(db, token, agentId, expiry) && Holds(db, org, agentId, id)
  {
    hide LogCredential, RegisterOk, ClaimOk, Renewable;
  }

  predicate ConcernsAt(s: State, fp: string -> string, ops: seq<Timed>, i: nat, token: string, agentId: string,
                       id: string)
    requires i < |ops|
  {
    Concerns(Run(s, fp, ops[..i]), ops[i].op, token, agentId, id)
  }

  /**
   Until another operation concerns it, a credential stays good until its expiry and not longer:
   what an issue or a renewal answered holds through any run of other operations.
   */
  lemma {:induction false} LiveUntilExpiry(s: State, fp: string -> string, ops: seq<Timed>, org: string, token: string,
                                           agentId: string, id: string, expiry: Option<int>, at: int)
    requires StoredAs(s.db, token, agentId, expiry) && Holds(s.db, org, agentId, id)
    requires forall i | 0 <= i < |ops| :: !ConcernsAt(s, fp, ops, i, token, agentId, id)
    ensures Loadable(Run(s, fp, ops).db, org, at, token) <==> Before(at, expiry)
  {
    StaysStored(s, fp, ops, org, token, agentId, id, expiry);
    LoadableUntil(Run(s, fp, ops).db, org, token, agentId, id, expiry, at);
  }

  lemma {:induction false} StaysStored(s: State, fp: string -> string, ops: seq<Timed>, org: string, token: string,
                                       agentId: string, id: string, expiry: Option<int>)
    requires StoredAs(s.db, token, agentId, expiry) && Holds(s.db, org, agentId, id)
    requires forall i | 0 <= i < |ops| :: !ConcernsAt(s, fp, ops, i, token, agentId, id)
    ensures var db := Run(s, fp, ops).db; StoredAs(db, token, agentId, expiry) && Holds(db, org, agentId, id)
  {
    hide Apply, Concerns, StoredAs, Holds;
    if ops != [] {
      var n := |ops| - 1;
      forall i | 0 <= i < n ensures !ConcernsAt(s, fp, ops[..n], i, token, agentId, id) {
        assert !ConcernsAt(s, fp, ops, i, token, agentId, id) && ops[..n][..i] == ops[..i];
      }
      StaysStored(s, fp, ops[..n], org, token, agentId, id, expiry);
      assert !ConcernsAt(s, fp, ops, n, token, agentId, id);
      Unconcerned(Run(s, fp, ops[..n]), fp, ops[n].op, ops[n].at, org, token, agentId, id, expiry);
    }
  }
}
