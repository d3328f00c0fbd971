/**
 The identity tables in place: each operation of the registry and of passive discovery as it
 changes them, tied to the function in `Registry` that the theorems are about. A `false` or
 `None` result stands for the exception the operation raises.
 */
module RegistryTables {
  import opened Wrappers
  import opened Registry

  class IdentityTables {
    const fp: string -> string
    var humans: map<string, string>
    var agents: map<string, Agent>
    var identities: map<string, Identity>
    var credentials: map<string, Credential>
    var log: seq<LogRow>

    constructor (fp: string -> string, humans: map<string, string>)
      ensures this.fp == fp && Content() == EmptyState(humans).db
    {
      this.fp, this.humans := fp, humans;
      agents, identities, credentials, log := map[], map[], map[], [];
    }

    function Content(): Db
      reads this
    {
      Db(humans, agents, identities, credentials, log)
    }

    method LogCredentialEvent(token: string, eventType: string)
      requires token in credentials
      modifies this`log
      ensures Content() == LogCredential(old(Content()), fp, token, eventType)
      ensures var c := credentials[token];
        log == old(log) + if c.agentId !in agents then [] else
          [LogRow(eventType, "registry", c.agentId, None, "success", Some(CredentialNote(fp(token), c.expiry)))]
    {
      var c := credentials[token];
      if c.agentId !in agents { return; }
      var note := CredentialNote(fp(token), c.expiry);
      log := log + [LogRow(eventType, "registry", c.agentId, None, "success", Some(note))];
    }

    // Any other event row.
    method LogEvent(row: LogRow)
      modifies this`log
      ensures Content() == old(Content()).(log := old(log) + [row])
    {
      log := log + [row];
    }

    // `token` is a fresh random value; one already in use breaks the primary key.
    method IssueToken(token: string, agentId: string, ttl: Option<int>, now: int) returns (ok: bool)
      modifies this
      ensures ok <==> token !in old(credentials)
      ensures Content() == Issue(old(Content()), fp, token, agentId, ttl, now)
      ensures agents == old(agents) && identities == old(identities) && humans == old(humans)
      ensures !ok ==> Content() == old(Content())
      ensures ok ==>
        var expiry := if ttl.None? then None else Some(now + ttl.value);
        && credentials == old(credentials)[token := Credential(agentId, Active, expiry)]
        && log == old(log) + if agentId !in agents then [] else
             [LogRow("credential.issued", "registry", agentId, None, "success",
                     Some(CredentialNote(fp(token), expiry)))]
    {
      if token in credentials { return false; }
      var expiry := None;
      if ttl.Some? { expiry := Some(now + ttl.value); }
      credentials := credentials[token := Credential(agentId, Active, expiry)];
      LogCredentialEvent(token, ISSUED);
      return true;
    }

    method RenewToken(token: string, ttl: int, now: int) returns (expiry: Option<int>)
      modifies this
      ensures expiry == if Renewable(old(Content()), token, now) then Some(now + ttl) else None
      ensures Content() == Renew(old(Content()), fp, token, ttl, now)
      ensures agents == old(agents) && identities == old(identities) && humans == old(humans)
      ensures expiry.Some? <==>
        && token in old(credentials) && old(credentials)[token].status == Active
        && (old(credentials)[token].expiry.None? || now < old(credentials)[token].expiry.value)
      ensures expiry.None? ==> Content() == old(Content())
      ensures expiry.Some? ==>
        var c := old(credentials)[token];
        && expiry.value == now + ttl && credentials == old(credentials)[token := c.(expiry := expiry)]
        && log == old(log) + if c.agentId !in agents then [] else
             [LogRow("credential.renewed", "registry", c.agentId, None, "success",
                     Some(CredentialNote(fp(token), expiry)))]
    {
      if token !in credentials { return None; }
      var c := credentials[token];
      if c.status != Active { return None; }
      if c.expiry.Some? && c.expiry.value <= now { return None; }
      credentials := credentials[token := c.(expiry := Some(now + ttl))];
      LogCredentialEvent(token, RENEWED);
      return Some(now + ttl);
    }

    method RevokeToken(token: string) returns (ok: bool)
      modifies this
      ensures ok <==> token in old(credentials) && old(credentials)[token].status == Active
      ensures Content() == Revoke(old(Content()), fp, token)
      ensures agents == old(agents) && identities == old(identities) && humans == old(humans)
      ensures !ok ==> Content() == old(Content())
      ensures ok ==>
        var c := old(credentials)[token];
        && credentials == old(credentials)[token := c.(status := Revoked)]
        && log == old(log) + if c.agentId !in agents then [] else
             [LogRow("credential.revoked", "registry", c.agentId, None, "success",
                     Some(CredentialNote(fp(token), c.expiry)))]
    {
      ok := token in credentials && credentials[token].status == Active;
      if ok {
        credentials := credentials[token := credentials[token].(status := Revoked)];
        LogCredentialEvent(token, REVOKED);
      }
    }

    method RegisterIdentity(org: string, agentId: string, owner: string, scope: set<string>,
                            parent: Option<string>, identityId: string) returns (identity: Option<Identity>)
      modifies this
      ensures identity == if RegisterOk(old(Content()), org, owner, scope, parent)
        then Some(Identity(identityId, agentId, parent, Some(scope))) else None
      ensures Content() == Register(old(Content()), org, agentId, owner, scope, parent, identityId)
      ensures identity.Some? <==>
        && owner in humans && humans[owner] == org
        && (parent.Some? ==>
          && parent.value in old(identities) && old(identities)[parent.value].agentId in old(agents)
          && old(agents)[old(identities)[parent.value].agentId].org == org
          && var ceiling := old(identities)[parent.value].scope; ceiling.None? || scope <= ceiling.value)
      ensures identity.None? ==> Content() == old(Content())
      ensures identity.Some? ==>
        && agents == old(agents)[agentId := Agent(org, Some(owner), false)]
        && identities == old(identities)[identityId := Identity(identityId, agentId, parent, Some(scope))]
        && humans == old(humans) && credentials == old(credentials) && log == old(log)
    {
      if parent.Some? {
        var p := parent.value;
        if p !in identities { return None; }
        var holder := identities[p].agentId;
        if holder !in agents || agents[holder].org != org { return None; }
        var ceiling := identities[p].scope;
        if ceiling.Some? && !(scope <= ceiling.value) { return None; }
      }
      if owner !in humans || humans[owner] != org { return None; }
      agents := agents[agentId := Agent(org, Some(owner), false)];
      identities := identities[identityId := Identity(identityId, agentId, parent, Some(scope))];
      return Some(identities[identityId]);
    }

    method DiscoverAgent(org: string, agentId: string) returns (firstSighting: bool)
      modifies this
      ensures firstSighting <==> agentId !in old(agents)
      ensures Content() == Discover(old(Content()), org, agentId)
      ensures agents == if firstSighting then old(agents)[agentId := Agent(org, None, true)] else old(agents)
      ensures identities == old(identities) && credentials == old(credentials) && log == old(log)
      ensures humans == old(humans)
    {
      firstSighting := agentId !in agents;
      if firstSighting { agents := agents[agentId := Agent(org, None, true)]; }
    }

    method ClaimDiscoveredAgent(org: string, agentId: string, owner: string,
                                scope: set<string>) returns (identity: Option<Identity>)
      modifies this
      ensures identity == if ClaimOk(old(Content()), org, agentId, owner)
        then Some(Identity(ClaimedId(agentId), agentId, None, Some(scope))) else None
      ensures Content() == Claim(old(Content()), org, agentId, owner, scope)
      ensures identity.Some? <==>
        && agentId in old(agents) && old(agents)[agentId].org == org && old(agents)[agentId].unclaimed
        && owner in humans && humans[owner] == org
      ensures identity.None? ==> Content() == old(Content())
      ensures identity.Some? ==>
        var id := "identity-" + agentId;
        && agents == old(agents)[agentId := Agent(org, Some(owner), false)]
        && identities == old(identities)[id := Identity(id, agentId, None, Some(scope))]
        && humans == old(humans) && credentials == old(credentials) && log == old(log)
    {
      if agentId !in agents || agents[agentId].org != org { return None; }
      if !agents[agentId].unclaimed { return None; }
      if owner !in humans || humans[owner] != org { return None; }
      agents := agents[agentId := agents[agentId].(owner := Some(owner), unclaimed := false)];
      var id := "identity-" + agentId;
      identities := identities[id := Identity(id, agentId, None, Some(scope))];
      return Some(identities[id]);
    }

    // The join's rows come in an unspecified order and a later row overwrites an earlier one.
    method LoadTokenRegistry(org: string, now: int) returns (registry: map<string, Identity>)
      ensures IsLoad(Content(), org, now, registry)
      ensures forall token :: token in registry <==> exists id :: TokenRow(token, id, org, now)
      ensures forall token | token in registry ::
        exists id :: TokenRow(token, id, org, now) && registry[token] == identities[id]
    {
      registry := map[];
      var tokens := credentials.Keys;
      while tokens != {}
        invariant tokens <= credentials.Keys
        invariant forall t :: t in registry <==> t !in tokens && Loadable(Content(), org, now, t)
        invariant forall t :: t in registry ==> Loaded(registry, org, now, t)
        decreases |tokens|
      {
        var token :| token in tokens;
        tokens := tokens - {token};
        ghost var before := registry;
        var ids := identities.Keys;
        while ids != {}
          invariant ids <= identities.Keys
          invariant forall t | t != token :: t in registry <==> t in before
          invariant forall t | t != token :: t in registry ==> registry[t] == before[t]
          invariant token in registry <==>
            exists i :: i in identities && i !in ids && Resolves(Content(), org, now, token, i)
          invariant token in registry ==> Loaded(registry, org, now, token)
          decreases |ids|
        {
          var id :| id in ids;
          ids := ids - {id};
          var c, row := credentials[token], identities[id];
          if && c.status == Active && !(c.expiry.Some? && c.expiry.value <= now)
             && row.agentId == c.agentId && row.agentId in agents && agents[row.agentId].org == org
          {
            assert Resolves(Content(), org, now, token, id);
            registry := registry[token := row];
          } else {
            assert !Resolves(Content(), org, now, token, id);
          }
        }
        forall t | t in registry ensures Loaded(registry, org, now, t) {
          assert t != token ==> Loaded(before, org, now, t);
        }
        assert forall t :: Loadable(Content(), org, now, t) ==> t in credentials;
      }
      RowsResolve(org, now);
    }

    // The join: an active credential not yet expired, and an identity of its agent in the organization.
    predicate TokenRow(token: string, id: string, org: string, now: int)
      reads this
    {
      && token in credentials && credentials[token].status == Active
      && (credentials[token].expiry.None? || now < credentials[token].expiry.value)
      && id in identities && identities[id].agentId == credentials[token].agentId
      && credentials[token].agentId in agents && agents[credentials[token].agentId].org == org
    }

    lemma RowsResolve(org: string, now: int)
      ensures forall token, id :: TokenRow(token, id, org, now) <==> Resolves(Content(), org, now, token, id)
    {
    }

    ghost predicate Loaded(registry: map<string, Identity>, org: string, now: int, token: string)
      requires token in registry
      reads this
    {
      exists id :: Resolves(Content(), org, now, token, id) && registry[token] == identities[id]
    }
  }
}
