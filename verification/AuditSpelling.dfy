/**
 How the rows about a credential are ordered in the log. They spell issued, renewed*, revoked?
 unless the late half of a split renewal finds the credential revoked: it logs all the same.
 */
module AuditSpelling {
  import opened Wrappers
  import opened Registry
  import opened AuditReplay

  // issued, then renewals, then at most one revocation, the last row of a revoked credential.
  predicate Spelled(trace: seq<string>, status: Status) {
    && trace != [] && trace[0] == ISSUED
    && (forall i | 1 <= i < |trace| - 1 :: trace[i] == RENEWED)
    && (status == Revoked <==> |trace| > 1 && trace[|trace| - 1] == REVOKED)
    && (status == Active && |trace| > 1 ==> trace[|trace| - 1] == RENEWED)
  }

  // A revocation with a row after it.
  predicate Scrambled(trace: seq<string>) { exists k :: 0 <= k < |trace| - 1 && trace[k] == REVOKED }

  lemma NeverBoth(trace: seq<string>, status: Status)
    requires Scrambled(trace)
    ensures !Spelled(trace, status)
  {
  }

  // The late half of a renewal of this token finds it revoked.
  predicate LateOnRevoked(s: State, op: Op, token: string) {
    OwnWrite(s, op, token) && token in s.db.credentials && s.db.credentials[token].status == Revoked
  }

  // The rows an operation writes about the token.
  function Written(s: State, op: Op, now: int, token: string): seq<string>
    requires token in s.db.credentials
  {
    if op.RenewToken? && op.token == token && Renewable(s.db, token, now) then [RENEWED]
    else if OwnWrite(s, op, token) then [RENEWED]
    else if op.RevokeToken? && op.token == token && s.db.credentials[token].status == Active then [REVOKED]
    else []
  }

  predicate Audited(db: Db, token: string) {
    token in db.credentials && db.credentials[token].agentId in db.agents
  }

  lemma {:induction false} LoggedAbout(fp: string -> string, db: Db, u: string, eventType: string, token: string)
    requires u in db.credentials && Audited(db, token) && NoClash(fp, db)
    ensures Trace(LogCredential(db, fp, u, eventType).log, fp(token)) ==
      Trace(db.log, fp(token)) + if u == token then [eventType] else []
  {
    var c := db.credentials[u];
    if c.agentId in db.agents {
      var note := CredentialNote(fp(u), c.expiry);
      AppendTrace(db.log, LogRow(eventType, "registry", c.agentId, None, "success", Some(note)), fp(token));
    }
  }

  lemma SameClash(fp: string -> string, db: Db, after: Db)
    requires NoClash(fp, after) && db.credentials.Keys <= after.credentials.Keys
    ensures NoClash(fp, db)
  {
  }

  lemma {:induction false} TraceStep(s: State, fp: string -> string, op: Op, now: int, token: string)
    requires Audited(s.db, token) && NoClash(fp, Apply(s, fp, op, now).db)
    ensures Trace(Apply(s, fp, op, now).db.log, fp(token)) == Trace(s.db.log, fp(token)) + Written(s, op, now, token)
  {
    hide LogCredential, SetExpiry, NoClash, Trace, RegisterOk, ClaimOk, Expired;
    var after := Apply(s, fp, op, now).db;
    match op
    case IssueToken(u, agentId, ttl) =>
      if u !in s.db.credentials { IssueLogged(fp, s.db, u, agentId, ttl, now, token); }
    case RenewToken(u, extend) =>
      if Renewable(s.db, u, now) { ExpiryLogged(fp, s.db, u, now + extend, token, after); }
    case RenewWrite(job) =>
      if job < |s.renewing| && s.renewing[job].token in s.db.credentials {
        ExpiryLogged(fp, s.db, s.renewing[job].token, now + s.renewing[job].extend, token, after);
      }
    case RevokeToken(u) =>
      if u in s.db.credentials && s.db.credentials[u].status == Active { RevocationLogged(fp, s.db, u, token); }
    case _ =>
  }

  lemma IssueLogged(fp: string -> string, db: Db, u: string, agentId: string, ttl: Option<int>, now: int, token: string)
    requires u !in db.credentials && NoClash(fp, Issue(db, fp, u, agentId, ttl, now)) && Audited(db, token)
    ensures Trace(Issue(db, fp, u, agentId, ttl, now).log, fp(token)) == Trace(db.log, fp(token))
  {
    hide LogCredential, NoClash, Trace;
    var expiry := if ttl.None? then None else Some(now + ttl.value);
    var stored := db.(credentials := db.credentials[u := Credential(agentId, Active, expiry)]);
    SameClash(fp, stored, Issue(db, fp, u, agentId, ttl, now));
    LoggedAbout(fp, stored, u, ISSUED, token);
  }

  lemma RevocationLogged(fp: string -> string, db: Db, u: string, token: string)
    requires u in db.credentials && db.credentials[u].status == Active && NoClash(fp, Revoke(db, fp, u))
    requires Audited(db, token)
    ensures Trace(Revoke(db, fp, u).log, fp(token)) == Trace(db.log, fp(token)) + if u == token then [REVOKED] else []
  {
    hide LogCredential, NoClash, Trace;
    var stored := db.(credentials := db.credentials[u := db.credentials[u].(status := Revoked)]);
    SameClash(fp, stored, Revoke(db, fp, u));
    LoggedAbout(fp, stored, u, REVOKED, token);
  }

  lemma ExpiryLogged(fp: string -> string, db: Db, u: string, expiry: int, token: string, after: Db)
    requires u in db.credentials && after == SetExpiry(db, fp, u, expiry) && NoClash(fp, after)
    requires Audited(db, token)
    ensures Trace(after.log, fp(token)) == Trace(db.log, fp(token)) + if u == token then [RENEWED] else []
  {
    hide LogCredential, NoClash, Trace;
    var stored := db.(credentials := db.credentials[u := db.credentials[u].(expiry := Some(expiry))]);
    SameClash(fp, stored, after);
    LoggedAbout(fp, stored, u, RENEWED, token);
  }

  // What an operation does to an audited credential.
  lemma StatusStep(s: State, fp: string -> string, op: Op, now: int, token: string)
    requires Audited(s.db, token)
    ensures var after := Apply(s, fp, op, now).db;
      && Audited(after, token)
      && after.credentials[token].status ==
           if op.RevokeToken? && op.token == token then Revoked else s.db.credentials[token].status
  {
    hide LogCredential, RegisterOk, ClaimOk;
  }

  lemma SpellMore(trace: seq<string>, status: Status, row: string)
    requires Spelled(trace, status) && status == Active
    ensures row == RENEWED ==> Spelled(trace + [row], Active)
    ensures row == REVOKED ==> Spelled(trace + [row], Revoked)
  {
  }

  lemma ScrambleMore(trace: seq<string>, more: seq<string>)
    ensures Scrambled(trace) ==> Scrambled(trace + more)
    ensures trace != [] && trace[|trace| - 1] == REVOKED && more != [] ==> Scrambled(trace + more)
  {
    if Scrambled(trace) {
      var k :| 0 <= k < |trace| - 1 && trace[k] == REVOKED;
      assert (trace + more)[k] == REVOKED;
    }
    assert trace != [] ==> (trace + more)[|trace| - 1] == trace[|trace| - 1];
  }

  /** One step: the rows go on spelling the credential's life unless a late renewal finds it revoked. */
  lemma {:induction false} SpellStep(s: State, fp: string -> string, op: Op, now: int, token: string)
    requires Audited(s.db, token) && NoClash(fp, Apply(s, fp, op, now).db)
    ensures var after, before := Apply(s, fp, op, now).db, Trace(s.db.log, fp(token));
      && Audited(after, token)
      && (Spelled(before, s.db.credentials[token].status) ==>
            if LateOnRevoked(s, op, token) then Scrambled(Trace(after.log, fp(token)))
            else Spelled(Trace(after.log, fp(token)), after.credentials[token].status))
      && (Scrambled(before) ==> Scrambled(Trace(after.log, fp(token))))
  {
    hide Apply, NoClash, Spelled, Scrambled, Trace;
    var before, status, rows := Trace(s.db.log, fp(token)), s.db.credentials[token].status, Written(s, op, now, token);
    TraceStep(s, fp, op, now, token);
    StatusStep(s, fp, op, now, token);
    ScrambleMore(before, rows);
    if Spelled(before, status) {
      if status == Active {
        if rows != [] { SpellMore(before, status, rows[0]); }
        assert before + [] == before;
      } else {
        LastRevoked(before);
        assert before + [] == before;
      }
    }
  }

  lemma LastRevoked(trace: seq<string>)
    requires Spelled(trace, Revoked)
    ensures trace != [] && trace[|trace| - 1] == REVOKED
  {
  }

  predicate LateAt(s: State, fp: string -> string, ops: seq<Timed>, j: nat, token: string)
    requires j < |ops|
  {
    LateOnRevoked(Run(s, fp, ops[..j]), ops[j].op, token)
  }

  ghost predicate NoneLate(s: State, fp: string -> string, ops: seq<Timed>, token: string) {
    forall j | 0 <= j < |ops| :: !LateAt(s, fp, ops, j, token)
  }

  // Spelled while no late renewal came, scrambled from then on.
  ghost predicate StoryOk(s: State, fp: string -> string, ops: seq<Timed>, token: string) {
    var db := Run(s, fp, ops).db;
    && Audited(db, token)
    && if NoneLate(s, fp, ops, token) then Spelled(Trace(db.log, fp(token)), db.credentials[token].status)
       else Scrambled(Trace(db.log, fp(token)))
  }

  lemma {:induction false} NoneLateStep(s: State, fp: string -> string, ops: seq<Timed>, token: string)
    requires ops != []
    ensures var n := |ops| - 1;
      NoneLate(s, fp, ops, token) <==> NoneLate(s, fp, ops[..n], token) && !LateAt(s, fp, ops, n, token)
  {
    hide Run, LateOnRevoked;
    var n := |ops| - 1;
    forall j | 0 <= j < n ensures LateAt(s, fp, ops[..n], j, token) <==> LateAt(s, fp, ops, j, token) {
      assert ops[..n][..j] == ops[..j];
    }
  }

  // Before its issue there is nothing about a token, late renewals included.
  lemma {:induction false} IssueStarts(humans: map<string, string>, fp: string -> string, ops: seq<Timed>)
    requires ops != [] && NoClash(fp, Run(EmptyState(humans), fp, ops).db)
    requires IssuesAt(EmptyState(humans), fp, ops, |ops| - 1)
    ensures StoryOk(EmptyState(humans), fp, ops, ops[|ops| - 1].op.token)
  {
    hide NoClash;
    var start, n, token := EmptyState(humans), |ops| - 1, ops[|ops| - 1].op.token;
    var before := Run(start, fp, ops[..n]);
    NoClashBefore(before, fp, ops[n].op, ops[n].at);
    AuditReplay.RunKeeps(humans, fp, ops[..n]);
    NeverRevokedBefore(start, fp, ops[..n], token);
    NoneLateStep(start, fp, ops, token);
    IssuedTrace(before, fp, ops[n].op, ops[n].at);
  }

  lemma {:induction false} IssuedTrace(s: State, fp: string -> string, op: Op, now: int)
    requires AuditOk(fp, s) && op.IssueToken? && op.token !in s.db.credentials && op.agentId in s.db.agents
    requires NoClash(fp, Apply(s, fp, op, now).db)
    ensures var after := Apply(s, fp, op, now).db;
      && Audited(after, op.token) && after.credentials[op.token].status == Active
      && Trace(after.log, fp(op.token)) == [ISSUED] && Spelled([ISSUED], Active)
  {
    hide LogCredential, NoClash, Trace, Told;
    var expiry := if op.ttl.None? then None else Some(now + op.ttl.value);
    var stored := s.db.(credentials := s.db.credentials[op.token := Credential(op.agentId, Active, expiry)]);
    SameClash(fp, stored, Apply(s, fp, op, now).db);
    FreshPrint(fp, s.db, stored, op.token);
    LoggedAbout(fp, stored, op.token, ISSUED, op.token);
  }

  lemma {:induction false} NeverRevokedBefore(s: State, fp: string -> string, ops: seq<Timed>, token: string)
    requires token !in Run(s, fp, ops).db.credentials
    ensures NoneLate(s, fp, ops, token)
  {
    hide Apply;
    if ops != [] {
      var n := |ops| - 1;
      CredentialsPersist(Run(s, fp, ops[..n]), fp, ops[n].op, ops[n].at);
      NeverRevokedBefore(s, fp, ops[..n], token);
      NoneLateStep(s, fp, ops, token);
    }
  }

  lemma {:induction false} StoryOfRun(humans: map<string, string>, fp: string -> string, ops: seq<Timed>, i: nat)
    requires NoClash(fp, Run(EmptyState(humans), fp, ops).db)
    requires i < |ops| && IssuesAt(EmptyState(humans), fp, ops, i)
    ensures StoryOk(EmptyState(humans), fp, ops, ops[i].op.token)
    decreases |ops|
  {
    hide NoClash, Apply, Spelled, Scrambled, LateOnRevoked;
    var n, start := |ops| - 1, EmptyState(humans);
    if i == n {
      IssueStarts(humans, fp, ops);
    } else {
      var before, token := Run(start, fp, ops[..n]), ops[i].op.token;
      NoClashBefore(before, fp, ops[n].op, ops[n].at);
      IssuesEarlier(start, fp, ops, i);
      StoryOfRun(humans, fp, ops[..n], i);
      NoneLateStep(start, fp, ops, token);
      SpellStep(before, fp, ops[n].op, ops[n].at, token);
    }
  }

  lemma IssuesEarlier(s: State, fp: string -> string, ops: seq<Timed>, i: nat)
    requires i < |ops| - 1 && IssuesAt(s, fp, ops, i)
    ensures IssuesAt(s, fp, ops[..|ops| - 1], i)
  {
    hide Run;
    assert ops[..|ops| - 1][..i] == ops[..i];
  }

  /**
   Exactly when the rows spell a life. In any run from empty tables, without a fingerprint clash,
   the rows of a credential issued to an agent that exists spell issued, renewed*, revoked? if and
   only if no late half of a renewal of its own found it revoked; else the revocation has rows after it.
   */
  lemma {:induction false} SpelledIff(humans: map<string, string>, fp: string -> string, ops: seq<Timed>, i: nat)
    requires NoClash(fp, Run(EmptyState(humans), fp, ops).db)
    requires i < |ops| && IssuesAt(EmptyState(humans), fp, ops, i)
    ensures var db, token := Run(EmptyState(humans), fp, ops).db, ops[i].op.token;
      && token in db.credentials
      && (NoneLate(EmptyState(humans), fp, ops, token) <==>
        Spelled(Trace(db.log, fp(token)), db.credentials[token].status))
      && (NoneLate(EmptyState(humans), fp, ops, token) || Scrambled(Trace(db.log, fp(token))))
  {
    hide NoClash, Run, Spelled, Scrambled, LateAt, Trace;
    StoryOfRun(humans, fp, ops, i);
    var db, token := Run(EmptyState(humans), fp, ops).db, ops[i].op.token;
    if Scrambled(Trace(db.log, fp(token))) { NeverBoth(Trace(db.log, fp(token)), db.credentials[token].status); }
  }

  // An agent is registered and given a token; a renewal reads, the token is revoked, the renewal writes.
  function LateOnRevocation(org: string, owner: string): seq<Timed> {
    [Timed(RegisterIdentity(org, "a", owner, {}, None, "i"), 0), Timed(IssueToken("t", "a", None), 0),
     Timed(RenewRead("t", 10), 1), Timed(RevokeToken("t"), 2), Timed(RenewWrite(0), 3)]
  }

  /** So a renewal that read before the revocation leaves a row after it: issued, revoked, renewed. */
  lemma RevokedThenRenewed(fp: string -> string, org: string, owner: string)
    ensures var start, ops := EmptyState(map[owner := org]), LateOnRevocation(org, owner);
      && IssuesAt(start, fp, ops, 1) && LateAt(start, fp, ops, 4, "t")
      && Trace(Run(start, fp, ops).db.log, fp("t")) == [ISSUED, REVOKED, RENEWED]
      && !Spelled([ISSUED, REVOKED, RENEWED], Revoked)
  {
    hide Run, LogCredential, Trace;
    var start, ops := EmptyState(map[owner := org]), LateOnRevocation(org, owner);
    RunNothing(start, fp, ops[..0]);
    RunStep(start, fp, ops, 0);
    RunStep(start, fp, ops, 1);
    RunStep(start, fp, ops, 2);
    RunStep(start, fp, ops, 3);
    RunStep(start, fp, ops, 4);
    assert ops[..5] == ops;
    var registered, issued := Run(start, fp, ops[..1]), Run(start, fp, ops[..2]);
    assert registered.db.agents == map["a" := Agent(org, Some(owner), false)] && registered.db.log == [];
    assert issued.db.credentials == map["t" := Credential("a", Active, None)];
    LoggedAbout(fp, registered.db.(credentials := issued.db.credentials), "t", ISSUED, "t");
    TraceStep(issued, fp, ops[2].op, 1, "t");
    TraceStep(Run(start, fp, ops[..3]), fp, ops[3].op, 2, "t");
    TraceStep(Run(start, fp, ops[..4]), fp, ops[4].op, 3, "t");
    assert Trace([], fp("t")) == [] by { NoTrace(fp("t")); }
  }

  lemma NoTrace(fingerprint: string)
    ensures Trace([], fingerprint) == []
  {
  }
}
