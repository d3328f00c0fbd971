/**
 The credential events in an unpruned log tell the whole story of every audited credential.
 In every run, however renewals are split, replaying them gives its status and expiry; and they
 spell issued, renewed*, revoked? exactly if no late renewal was written after a revocation.
 */
module AuditReplay {
  import opened Wrappers
  import opened Registry

  // What replay knows of a credential.
  datatype View = View(status: Status, expiry: Option<int>)

  predicate About(row: LogRow, fingerprint: string) {
    row.credential.Some? && row.credential.value.fingerprint == fingerprint
  }

  // The event types logged about a fingerprint, in order.
  function Trace(log: seq<LogRow>, fingerprint: string): seq<string> {
    if log == [] then []
    else
      var last := log[|log| - 1];
      Trace(log[..|log| - 1], fingerprint) + if About(last, fingerprint) then [last.eventType] else []
  }

  // Folding the rows: an issue starts the view, a renewal moves the expiry, a revocation the status.
  function Replay(log: seq<LogRow>, fingerprint: string): Option<View> {
    if log == [] then None
    else
      var last, before := log[|log| - 1], Replay(log[..|log| - 1], fingerprint);
      if !About(last, fingerprint) then before
      else if last.eventType == ISSUED then Some(View(Active, last.credential.value.expiry))
      else if before.None? then None
      else if last.eventType == RENEWED then Some(before.value.(expiry := last.credential.value.expiry))
      else if last.eventType == REVOKED then Some(before.value.(status := Revoked))
      else before
  }

  ghost predicate NoClash(fp: string -> string, db: Db) {
    forall t, u | t in db.credentials && u in db.credentials :: fp(t) == fp(u) ==> t == u
  }

  // Every row about a fingerprint is about a credential in the table.
  ghost predicate LogKnown(fp: string -> string, db: Db) {
    forall i | 0 <= i < |db.log| :: KnownRow(fp, db, db.log[i])
  }

  ghost predicate KnownRow(fp: string -> string, db: Db, row: LogRow) {
    row.credential.Some? ==> exists t :: t in db.credentials && fp(t) == row.credential.value.fingerprint
  }

  predicate Told(fp: string -> string, db: Db, token: string) {
    && token in db.credentials
    && db.credentials[token].agentId in db.agents
    && Replay(db.log, fp(token)) == Some(View(db.credentials[token].status, db.credentials[token].expiry))
  }

  ghost predicate AuditOk(fp: string -> string, s: State) {
    && LogKnown(fp, s.db)
    && forall token | token in s.audited :: Told(fp, s.db, token)
  }

  lemma {:induction false} AppendTrace(log: seq<LogRow>, row: LogRow, fingerprint: string)
    ensures Trace(log + [row], fingerprint) ==
      Trace(log, fingerprint) + if About(row, fingerprint) then [row.eventType] else []
    ensures !About(row, fingerprint) ==> Replay(log + [row], fingerprint) == Replay(log, fingerprint)
    ensures !About(row, fingerprint) ==> Trace(log + [row], fingerprint) == Trace(log, fingerprint)
  {
    assert (log + [row])[..|log|] == log;
  }

  // A fingerprint no credential has yet has no rows.
  lemma {:induction false} Untold(fp: string -> string, db: Db, log: seq<LogRow>, fingerprint: string)
    requires forall t | t in db.credentials :: fp(t) != fingerprint
    requires forall i | 0 <= i < |log| :: KnownRow(fp, db, log[i])
    ensures Trace(log, fingerprint) == [] && Replay(log, fingerprint) == None
  {
    if log != [] {
      Untold(fp, db, log[..|log| - 1], fingerprint);
      assert KnownRow(fp, db, log[|log| - 1]);
    }
  }

  // Logging about one credential leaves the others' stories as they were.
  lemma {:induction false} OthersTold(fp: string -> string, db: Db, after: Db, token: string, other: string,
                                      eventType: string)
    requires Told(fp, db, other) && other != token && token in after.credentials && NoClash(fp, after)
    requires other in after.credentials && after.credentials[other] == db.credentials[other]
    requires db.agents.Keys <= after.agents.Keys && after.log == db.log
    ensures Told(fp, LogCredential(after, fp, token, eventType), other)
  {
    var c := after.credentials[token];
    if c.agentId in after.agents {
      var note := CredentialNote(fp(token), c.expiry);
      AppendTrace(db.log, LogRow(eventType, "registry", c.agentId, None, "success", Some(note)), fp(other));
    }
  }

  // The credential logged about, after an issue, a renewal or a revocation.
  lemma {:induction false} SelfTold(fp: string -> string, db: Db, after: Db, token: string, eventType: string)
    requires token in after.credentials && after.credentials[token].agentId in after.agents && after.log == db.log
    requires eventType == ISSUED ==> after.credentials[token].status == Active
    requires eventType != ISSUED ==>
      && Told(fp, db, token)
      && if eventType == RENEWED then after.credentials[token].status == db.credentials[token].status
         else eventType == REVOKED && after.credentials[token] == db.credentials[token].(status := Revoked)
    ensures Told(fp, LogCredential(after, fp, token, eventType), token)
  {
    var c := after.credentials[token];
    var row := LogRow(eventType, "registry", c.agentId, None, "success", Some(CredentialNote(fp(token), c.expiry)));
    AppendTrace(db.log, row, fp(token));
    assert (db.log + [row])[..|db.log|] == db.log;
  }

  lemma {:induction false} KnownGrows(fp: string -> string, db: Db, after: Db, token: string, eventType: string)
    requires LogKnown(fp, db) && db.credentials.Keys <= after.credentials.Keys
    requires token in after.credentials && after.log == db.log
    ensures LogKnown(fp, LogCredential(after, fp, token, eventType))
  {
    var final := LogCredential(after, fp, token, eventType);
    forall i | 0 <= i < |final.log| ensures KnownRow(fp, final, final.log[i]) {
      if i < |db.log| { assert KnownRow(fp, db, db.log[i]); }
    }
  }

  lemma {:induction false} IssueKeeps(s: State, fp: string -> string, op: Op, now: int)
    requires AuditOk(fp, s) && op.IssueToken? && NoClash(fp, Apply(s, fp, op, now).db)
    requires op.token !in s.db.credentials
    ensures AuditOk(fp, Apply(s, fp, op, now))
  {
    hide LogKnown, Told, NoClash;
    var t := Apply(s, fp, op, now);
    var expiry := if op.ttl.None? then None else Some(now + op.ttl.value);
    var stored := s.db.(credentials := s.db.credentials[op.token := Credential(op.agentId, Active, expiry)]);
    assert t.db == LogCredential(stored, fp, op.token, ISSUED);
    KnownGrows(fp, s.db, stored, op.token, ISSUED);
    assert op.token !in s.audited by {
      if op.token in s.audited { TokenKnown(fp, s.db, op.token); }
    }
    forall token | token in t.audited ensures Told(fp, t.db, token) {
      if token == op.token {
        SelfTold(fp, s.db, stored, token, ISSUED);
      } else {
        TokenKnown(fp, s.db, token);
        NoClashStored(fp, stored, op.token, ISSUED);
        OthersTold(fp, s.db, stored, op.token, token, ISSUED);
      }
    }
  }

  lemma NoClashStored(fp: string -> string, db: Db, token: string, eventType: string)
    requires token in db.credentials && NoClash(fp, LogCredential(db, fp, token, eventType))
    ensures NoClash(fp, db)
  {
  }

  lemma TokenKnown(fp: string -> string, db: Db, token: string)
    requires Told(fp, db, token)
    ensures token in db.credentials && db.credentials[token].agentId in db.agents
  {
  }

  lemma {:induction false} FreshPrint(fp: string -> string, db: Db, stored: Db, token: string)
    requires LogKnown(fp, db) && token !in db.credentials
    requires stored.credentials.Keys == db.credentials.Keys + {token}
    requires NoClash(fp, LogCredential(stored, fp, token, ISSUED))
    ensures Trace(db.log, fp(token)) == []
  {
    forall t | t in db.credentials ensures fp(t) != fp(token) {
      assert t in stored.credentials && token in stored.credentials;
    }
    Untold(fp, db, db.log, fp(token));
  }

  // A change of one credential that is logged about, with nothing else changing.
  lemma {:induction false} ChangeKeeps(s: State, fp: string -> string, stored: Db, token: string, eventType: string)
    requires AuditOk(fp, s) && token in s.db.credentials
    requires stored == s.db.(credentials := stored.credentials)
    requires token in stored.credentials && stored.credentials == s.db.credentials[token := stored.credentials[token]]
    requires stored.credentials[token].agentId == s.db.credentials[token].agentId
    requires NoClash(fp, LogCredential(stored, fp, token, eventType))
    requires || (eventType == RENEWED && stored.credentials[token].status == s.db.credentials[token].status)
             || (eventType == REVOKED && stored.credentials[token] == s.db.credentials[token].(status := Revoked))
    ensures AuditOk(fp, s.(db := LogCredential(stored, fp, token, eventType)))
  {
    hide LogKnown, Told, NoClash;
    KnownGrows(fp, s.db, stored, token, eventType);
    NoClashStored(fp, stored, token, eventType);
    forall other | other in s.audited
      ensures Told(fp, LogCredential(stored, fp, token, eventType), other)
    {
      TokenKnown(fp, s.db, other);
      if other == token {
        SelfTold(fp, s.db, stored, token, eventType);
      } else {
        OthersTold(fp, s.db, stored, token, other, eventType);
      }
    }
  }

  // Operations on agents and identities write no credential rows.
  lemma {:induction false} AgentsKeep(s: State, fp: string -> string, t: State)
    requires AuditOk(fp, s)
    requires t.db.credentials == s.db.credentials && t.db.log == s.db.log && t.audited == s.audited
    requires s.db.agents.Keys <= t.db.agents.Keys
    ensures AuditOk(fp, t)
  {
    hide Replay, Trace;
    forall i | 0 <= i < |t.db.log| ensures KnownRow(fp, t.db, t.db.log[i]) {
      assert KnownRow(fp, s.db, s.db.log[i]);
    }
    forall token | token in t.audited ensures Told(fp, t.db, token) {
      assert Told(fp, s.db, token);
    }
  }

  lemma {:induction false} StepKeeps(s: State, fp: string -> string, op: Op, now: int)
    requires AuditOk(fp, s) && NoClash(fp, Apply(s, fp, op, now).db)
    ensures AuditOk(fp, Apply(s, fp, op, now))
  {
    hide AuditOk, NoClash, LogCredential;
    match op
    case IssueToken(token, agentId, ttl) =>
      if token !in s.db.credentials { IssueKeeps(s, fp, op, now); }
    case RenewToken(token, extend) =>
      if Renewable(s.db, token, now) {
        var c := s.db.credentials[token].(expiry := Some(now + extend));
        ChangeKeeps(s, fp, s.db.(credentials := s.db.credentials[token := c]), token, RENEWED);
      }
    case RenewWrite(job) =>
      if job < |s.renewing| && s.renewing[job].token in s.db.credentials {
        var token := s.renewing[job].token;
        var c := s.db.credentials[token].(expiry := Some(now + s.renewing[job].extend));
        ChangeKeeps(s, fp, s.db.(credentials := s.db.credentials[token := c]), token, RENEWED);
      } else {
        AgentsKeep(s, fp, s);
      }
    case RevokeToken(token) =>
      if token in s.db.credentials && s.db.credentials[token].status == Active {
        var c := s.db.credentials[token].(status := Revoked);
        ChangeKeeps(s, fp, s.db.(credentials := s.db.credentials[token := c]), token, REVOKED);
      }
    case _ => AgentsKeep(s, fp, Apply(s, fp, op, now));
  }

  lemma NoClashBefore(s: State, fp: string -> string, op: Op, now: int)
    requires NoClash(fp, Apply(s, fp, op, now).db)
    ensures NoClash(fp, s.db)
  {
    CredentialsPersist(s, fp, op, now);
  }

  lemma {:induction false} RunKeeps(humans: map<string, string>, fp: string -> string, ops: seq<Timed>)
    requires NoClash(fp, Run(EmptyState(humans), fp, ops).db)
    ensures AuditOk(fp, Run(EmptyState(humans), fp, ops))
  {
    hide NoClash, Apply;
    if ops != [] {
      var init, last := ops[..|ops| - 1], ops[|ops| - 1];
      NoClashBefore(Run(EmptyState(humans), fp, init), fp, last.op, last.at);
      RunKeeps(humans, fp, init);
      StepKeeps(Run(EmptyState(humans), fp, init), fp, last.op, last.at);
    }
  }

  // Operation i issues a fresh token to an agent that exists.
  predicate IssuesAt(s: State, fp: string -> string, ops: seq<Timed>, i: nat)
    requires i < |ops|
  {
    var before := Run(s, fp, ops[..i]).db;
    ops[i].op.IssueToken? && ops[i].op.token !in before.credentials && ops[i].op.agentId in before.agents
  }

  lemma {:induction false} AuditedGrows(s: State, fp: string -> string, ops: seq<Timed>, n: nat)
    requires n <= |ops|
    ensures Run(s, fp, ops[..n]).audited <= Run(s, fp, ops).audited
    decreases |ops|
  {
    hide Issue, Register, Claim;
    if n == |ops| {
      assert ops[..n] == ops;
    } else {
      assert ops[..|ops| - 1][..n] == ops[..n];
      AuditedGrows(s, fp, ops[..|ops| - 1], n);
    }
  }

  /**
   Audit replay. Operation i of a run from empty tables issues a fresh token to an agent that
   exists. However renewals are split, and with no two tokens of one fingerprint, folding the log
   at the end of the run gives that credential's status and expiry.
   */
  lemma {:induction false} LogTellsEveryCredential(humans: map<string, string>, fp: string -> string, ops: seq<Timed>,
                                                   i: nat)
    requires NoClash(fp, Run(EmptyState(humans), fp, ops).db)
    requires i < |ops| && IssuesAt(EmptyState(humans), fp, ops, i)
    ensures Told(fp, Run(EmptyState(humans), fp, ops).db, ops[i].op.token)
  {
    hide NoClash, Told, Issue;
    RunKeeps(humans, fp, ops);
    assert ops[..i + 1][..i] == ops[..i];
    AuditedGrows(EmptyState(humans), fp, ops, i + 1);
  }
}
