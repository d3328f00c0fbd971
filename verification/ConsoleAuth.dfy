/**
 Console login: password, then one-time code, then a session. The state keeps, besides the
 tables, what has happened: every pending login issued, every one spent, every session opened
 and every session closed. Token hashes are the keys; times are whole seconds.
 */
module ConsoleAuth {
  import opened Wrappers
  import opened Lockout

  const PENDING_SECONDS := 300
  const SESSION_SECONDS := 43200

  // password: does this password match this salt and hash; totp: does this secret accept this code now.
  datatype Checks = Checks(password: (string, string, string) -> bool, totp: (string, string, int) -> bool)

  datatype Account = Account(salt: string, hash: string, secret: string, enrolled: bool, lock: Lock)
  datatype Pending = Pending(human: string, expires: int)
  datatype Session = Session(human: string, expires: int)

  // A pending login as issued, and as spent on an accepted code.
  datatype Grant = Grant(human: string, at: int, password: string, salt: string, hash: string)
  datatype Use = Use(at: int, secret: string, code: string)

  datatype Console = Console(
    emails: map<string, string>, accounts: map<string, Account>,
    pending: map<string, Pending>, sessions: map<string, Session>,
    granted: map<string, Grant>, used: map<string, Use>, openedBy: map<string, string>, closed: set<string>)

  datatype Op =
    | Provision(human: string, salt: string, hash: string, secret: string)
    | StartLogin(email: string, password: string, token: string)
    | EnrollTotp(token: string, code: string, session: string)
    | CompleteLogin(token: string, code: string, session: string)
    | ResolveSession(session: string)
    | DestroySession(session: string)

  /* ----- the operations ----- */

  function ProvisionUser(s: Console, human: string, salt: string, hash: string, secret: string): Console {
    s.(accounts := s.accounts[human := Account(salt, hash, secret, false, Lock(0, None))])
  }

  datatype LoginStatus = Ok | NeedsEnrollment | Invalid | Locked

  // The account behind an email, if it has console credentials.
  function AccountOf(s: Console, email: string): Option<string> {
    if email in s.emails && s.emails[email] in s.accounts then Some(s.emails[email]) else None
  }

  function Attempt(c: Checks, a: Account, password: string, now: int): Try {
    Try(now, c.password(password, a.salt, a.hash))
  }

  function LoginAnswer(c: Checks, s: Console, email: string, password: string, now: int): LoginStatus {
    match AccountOf(s, email)
    case None => Invalid
    case Some(h) =>
      var a := s.accounts[h];
      if LockedOut(a.lock, now) then Locked
      else if !c.password(password, a.salt, a.hash) then
        if After(a.lock, Attempt(c, a, password, now)).until.Some? then Locked else Invalid
      else if a.enrolled then Ok else NeedsEnrollment
  }

  // A correct password issues the pending login `token`; a wrong one counts.
  function Login(c: Checks, s: Console, email: string, password: string, token: string, now: int): Console {
    match AccountOf(s, email)
    case None => s
    case Some(h) =>
      var a := s.accounts[h];
      var tried := s.(accounts := s.accounts[h := a.(lock := After(a.lock, Attempt(c, a, password, now)))]);
      if LockedOut(a.lock, now) || !c.password(password, a.salt, a.hash) then tried
      else tried.(pending := s.pending[token := Pending(h, now + PENDING_SECONDS)],
                  granted := s.granted[token := Grant(h, now, password, a.salt, a.hash)])
  }

  // The human a pending login is good for.
  function PendingHuman(s: Console, token: string, now: int): Option<string> {
    if token in s.pending && s.pending[token].expires > now then Some(s.pending[token].human) else None
  }

  predicate CodeAccepted(c: Checks, s: Console, token: string, code: string, now: int) {
    && PendingHuman(s, token, now).Some?
    && PendingHuman(s, token, now).value in s.accounts
    && c.totp(s.accounts[PendingHuman(s, token, now).value].secret, code, now)
  }

  // Spending a pending login removes it whatever the code; an accepted code opens a session.
  function Spend(c: Checks, s: Console, token: string, code: string, session: string, enroll: bool, now: int): Console {
    var spent := s.(pending := s.pending - {token});
    if !CodeAccepted(c, s, token, code, now) then spent
    else
      var h := s.pending[token].human;
      var a := s.accounts[h];
      spent.(accounts := if enroll then s.accounts[h := a.(enrolled := true)] else s.accounts,
             sessions := s.sessions[session := Session(h, now + SESSION_SECONDS)],
             used := s.used[token := Use(now, a.secret, code)],
             openedBy := s.openedBy[session := token])
  }

  function SessionHuman(s: Console, session: string, now: int): Option<string> {
    if session in s.sessions && s.sessions[session].expires > now then Some(s.sessions[session].human) else None
  }

  function Close(s: Console, session: string): Console {
    if session in s.sessions then s.(sessions := s.sessions - {session}, closed := s.closed + {session}) else s
  }

  function Apply(c: Checks, s: Console, op: Op, now: int): Console {
    match op
    case Provision(human, salt, hash, secret) => ProvisionUser(s, human, salt, hash, secret)
    case StartLogin(email, password, token) => Login(c, s, email, password, token, now)
    case EnrollTotp(token, code, session) => Spend(c, s, token, code, session, true, now)
    case CompleteLogin(token, code, session) => Spend(c, s, token, code, session, false, now)
    case ResolveSession(session) => if SessionHuman(s, session, now).Some? then s else Close(s, session)
    case DestroySession(session) => Close(s, session)
  }

  // Fresh random tokens: neither pending logins nor sessions reuse one.
  predicate UsesFreshTokens(s: Console, op: Op) {
    match op
    case StartLogin(_, _, token) => token !in s.granted
    case EnrollTotp(_, _, session) => session !in s.openedBy
    case CompleteLogin(_, _, session) => session !in s.openedBy
    case _ => true
  }

  datatype Timed = Timed(op: Op, at: int)

  function Run(c: Checks, s: Console, ops: seq<Timed>): Console {
    if ops == [] then s
    else Apply(c, Run(c, s, ops[..|ops| - 1]), ops[|ops| - 1].op, ops[|ops| - 1].at)
  }

  function Empty(emails: map<string, string>): Console {
    Console(emails, map[], map[], map[], map[], map[], map[], {})
  }

  predicate LegalAt(c: Checks, s: Console, ops: seq<Timed>, i: nat)
    requires i < |ops|
  {
    UsesFreshTokens(Run(c, s, ops[..i]), ops[i].op) && (i > 0 ==> ops[i - 1].at <= ops[i].at)
  }

  // Fresh tokens throughout, on a clock that does not run back.
  predicate Legal(c: Checks, s: Console, ops: seq<Timed>) {
    forall i | 0 <= i < |ops| :: LegalAt(c, s, ops, i)
  }

  /* ----- provenance ----- */

  // A session opened: for a spent pending login, in time, on an accepted code, after a correct password.
  predicate OpenedRightly(c: Checks, s: Console, session: string)
    requires session in s.openedBy
  {
    var token := s.openedBy[session];
    && token in s.granted && token in s.used
    && GrantedRightly(c, s.granted[token])
    && UsedRightly(c, s.granted[token], s.used[token])
  }

  predicate GrantedRightly(c: Checks, g: Grant) { c.password(g.password, g.salt, g.hash) }

  predicate UsedRightly(c: Checks, g: Grant, u: Use) {
    g.at <= u.at < g.at + PENDING_SECONDS && c.totp(u.secret, u.code, u.at)
  }

  predicate PendingOk(c: Checks, s: Console, token: string, now: int)
    requires token in s.pending
  {
    && token in s.granted && token !in s.used
    && s.pending[token] == Pending(s.granted[token].human, s.granted[token].at + PENDING_SECONDS)
    && s.granted[token].at <= now
    && GrantedRightly(c, s.granted[token])
  }

  predicate SessionOk(s: Console, session: string)
    requires session in s.sessions
  {
    && session in s.openedBy && session !in s.closed
    && s.openedBy[session] in s.granted && s.openedBy[session] in s.used
    && var token := s.openedBy[session];
    s.sessions[session] == Session(s.granted[token].human, s.used[token].at + SESSION_SECONDS)
  }

  predicate Provenance(c: Checks, s: Console, now: int) { AccountedFor(c, s, now) && OneSessionEach(s) }

  // Everything on the table is accounted for.
  predicate AccountedFor(c: Checks, s: Console, now: int) {
    && (forall t | t in s.pending :: PendingOk(c, s, t, now))
    && (forall x | x in s.sessions :: SessionOk(s, x))
    && (forall x | x in s.openedBy :: OpenedRightly(c, s, x))
  }

  // No pending login opened two sessions, and sessions are open or closed.
  predicate OneSessionEach(s: Console) {
    && (forall x, y | x in s.openedBy && y in s.openedBy && s.openedBy[x] == s.openedBy[y] :: x == y)
    && s.used.Keys <= s.granted.Keys
    && s.openedBy.Keys == s.sessions.Keys + s.closed
  }

  // The pending logins not touched by a change stay accounted for.
  lemma PendingFrame(c: Checks, s: Console, t: Console, token: string, t0: int, now: int)
    requires token in s.pending && PendingOk(c, s, token, t0) && t0 <= now
    requires token in t.pending && t.pending[token] == s.pending[token]
    requires token in t.granted && t.granted[token] == s.granted[token] && token !in t.used
    ensures PendingOk(c, t, token, now)
  {
  }

  // Grants and uses on record stay as they are.
  predicate RecordGrows(s: Console, t: Console) {
    && (forall k | k in s.granted :: k in t.granted && t.granted[k] == s.granted[k])
    && (forall k | k in s.used :: k in t.used && t.used[k] == s.used[k])
  }

  // What was opened stays rightly opened when grants and uses are only added.
  lemma OpenedFrame(c: Checks, s: Console, t: Console, x: string)
    requires x in s.openedBy && OpenedRightly(c, s, x) && x in t.openedBy && t.openedBy[x] == s.openedBy[x]
    requires RecordGrows(s, t)
    ensures OpenedRightly(c, t, x)
    ensures x in s.sessions && SessionOk(s, x) && x in t.sessions && t.sessions[x] == s.sessions[x] && x !in t.closed
      ==> SessionOk(t, x)
  {
  }

  // Changes to accounts, and pending logins dropped.
  lemma {:induction false} AccountsKeep(c: Checks, s: Console, t: Console, t0: int, now: int)
    requires Provenance(c, s, t0) && t0 <= now && t == s.(accounts := t.accounts, pending := t.pending)
    requires forall k | k in t.pending :: k in s.pending && t.pending[k] == s.pending[k]
    ensures Provenance(c, t, now)
  {
    assert RecordGrows(s, t);
    hide PendingOk, OpenedRightly, SessionOk, RecordGrows;
    forall k | k in t.pending ensures PendingOk(c, t, k, now) {
      InGrants(c, s, k, t0);
      PendingFrame(c, s, t, k, t0, now);
    }
    forall x | x in t.openedBy ensures OpenedRightly(c, t, x) { OpenedFrame(c, s, t, x); }
    forall x | x in t.sessions ensures SessionOk(t, x) {
      SessionKnown(s, x);
      OpenedFrame(c, s, t, x);
    }
  }

  // A pending login issued on a correct password.
  lemma {:induction false} GrantKeeps(c: Checks, s: Console, t: Console, token: string, g: Grant, now: int)
    requires Provenance(c, s, now) && token !in s.granted && GrantedRightly(c, g) && g.at == now
    requires t ==
      s.(pending := s.pending[token := Pending(g.human, now + PENDING_SECONDS)], granted := s.granted[token := g])
    ensures Provenance(c, t, now)
  {
    assert RecordGrows(s, t);
    hide PendingOk, OpenedRightly, SessionOk, GrantedRightly, RecordGrows;
    forall k | k in t.pending ensures PendingOk(c, t, k, now) {
      if k == token {
        NewGrant(c, t, k, now);
      } else {
        InGrants(c, s, k, now);
        PendingFrame(c, s, t, k, now, now);
      }
    }
    forall x | x in t.openedBy ensures OpenedRightly(c, t, x) { OpenedFrame(c, s, t, x); }
    forall x | x in t.sessions ensures SessionOk(t, x) {
      SessionKnown(s, x);
      OpenedFrame(c, s, t, x);
    }
  }

  lemma {:induction false} LoginKeeps(c: Checks, s: Console, email: string, password: string, token: string,
                                      t0: int, now: int)
    requires Provenance(c, s, t0) && t0 <= now && token !in s.granted
    ensures Provenance(c, Login(c, s, email, password, token, now), now)
  {
    hide After, LockedOut, Provenance;
    match AccountOf(s, email)
    case None => AccountsKeep(c, s, s, t0, now);
    case Some(h) =>
      var a := s.accounts[h];
      var tried := s.(accounts := s.accounts[h := a.(lock := After(a.lock, Attempt(c, a, password, now)))]);
      AccountsKeep(c, s, tried, t0, now);
      if !(LockedOut(a.lock, now) || !c.password(password, a.salt, a.hash)) {
        var g := Grant(h, now, password, a.salt, a.hash);
        GrantKeeps(c, tried, Login(c, s, email, password, token, now), token, g, now);
      }
  }

  lemma InGrants(c: Checks, s: Console, k: string, t0: int)
    requires k in s.pending && PendingOk(c, s, k, t0)
    ensures k in s.granted && k !in s.used && s.granted[k].human == s.pending[k].human
  {
  }

  lemma SessionKnown(s: Console, x: string)
    requires x in s.sessions && SessionOk(s, x)
    ensures x in s.openedBy && x !in s.closed
  {
  }

  lemma NewGrant(c: Checks, t: Console, k: string, now: int)
    requires k in t.pending && k in t.granted && k !in t.used
    requires t.granted[k].at == now && GrantedRightly(c, t.granted[k])
    requires t.pending[k] == Pending(t.granted[k].human, now + PENDING_SECONDS)
    ensures PendingOk(c, t, k, now)
  {
  }

  lemma {:induction false} SpendKeeps(c: Checks, s: Console, token: string, code: string, session: string,
                                      enroll: bool, t0: int, now: int)
    requires Provenance(c, s, t0) && t0 <= now && session !in s.openedBy
    ensures Provenance(c, Spend(c, s, token, code, session, enroll, now), now)
  {
    hide Provenance, CodeAccepted;
    var spent, t := s.(pending := s.pending - {token}), Spend(c, s, token, code, session, enroll, now);
    AccountsKeep(c, s, spent, t0, now);
    if CodeAccepted(c, s, token, code, now) {
      SpentRightly(c, s, token, code, t0, now);
      OpenKeeps(c, spent, t, token, session, t.used[token], now);
    }
  }

  // A session opened for a pending login no longer on the table.
  predicate Opens(s: Console, t: Console, token: string, session: string, u: Use) {
    && token !in s.pending && token in s.granted && token !in s.used && session !in s.openedBy
    && t == s.(accounts := t.accounts,
      sessions := s.sessions[session := Session(s.granted[token].human, u.at + SESSION_SECONDS)],
      used := s.used[token := u], openedBy := s.openedBy[session := token])
  }

  lemma {:induction false} OpenKeeps(c: Checks, s: Console, t: Console, token: string, session: string, u: Use,
                                     now: int)
    requires Provenance(c, s, now) && Opens(s, t, token, session, u)
    requires GrantedRightly(c, s.granted[token]) && UsedRightly(c, s.granted[token], u)
    ensures Provenance(c, t, now)
  {
    hide Opens, PendingOk, OpenedRightly, SessionOk, OneSessionEach;
    OpensOne(c, s, t, token, session, u);
    hide AccountedFor;
    OpenAccounted(c, s, t, token, session, u, now);
  }

  lemma {:induction false} OpenAccounted(c: Checks, s: Console, t: Console, token: string, session: string, u: Use,
                                         now: int)
    requires AccountedFor(c, s, now) && Opens(s, t, token, session, u) && session !in t.closed
    requires GrantedRightly(c, s.granted[token]) && UsedRightly(c, s.granted[token], u)
    ensures AccountedFor(c, t, now)
  {
    assert RecordGrows(s, t);
    hide PendingOk, OpenedRightly, SessionOk, GrantedRightly, UsedRightly, RecordGrows;
    forall k | k in t.pending ensures PendingOk(c, t, k, now) {
      InGrants(c, s, k, now);
      PendingFrame(c, s, t, k, now, now);
    }
    NewlyOpened(c, t, token, session, u);
    forall x | x in s.openedBy ensures OpenedRightly(c, t, x) { OpenedFrame(c, s, t, x); }
    forall x | x in s.sessions ensures SessionOk(t, x) {
      SessionKnown(s, x);
      OpenedFrame(c, s, t, x);
    }
  }

  lemma {:induction false} OpensOne(c: Checks, s: Console, t: Console, token: string, session: string, u: Use)
    requires (forall x | x in s.openedBy :: OpenedRightly(c, s, x)) && OneSessionEach(s)
    requires Opens(s, t, token, session, u)
    ensures session !in t.closed && OneSessionEach(t)
  {
    hide OpenedRightly;
    forall x | x in s.openedBy ensures s.openedBy[x] != token { WasUsed(c, s, x); }
  }

  lemma WasUsed(c: Checks, s: Console, x: string)
    requires x in s.openedBy && OpenedRightly(c, s, x)
    ensures s.openedBy[x] in s.used && s.openedBy[x] in s.granted
  {
  }

  // A code accepted for a pending login is used in time, and for the first time.
  lemma SpentRightly(c: Checks, s: Console, token: string, code: string, t0: int, now: int)
    requires Provenance(c, s, t0) && t0 <= now && CodeAccepted(c, s, token, code, now)
    ensures token in s.pending && s.pending[token].human in s.accounts && token in s.granted && token !in s.used
    ensures GrantedRightly(c, s.granted[token]) && s.pending[token].human == s.granted[token].human
    ensures UsedRightly(c, s.granted[token], Use(now, s.accounts[s.pending[token].human].secret, code))
  {
    hide OpenedRightly, SessionOk;
    assert PendingOk(c, s, token, t0);
  }

  lemma NewlyOpened(c: Checks, t: Console, token: string, session: string, u: Use)
    requires session in t.openedBy && t.openedBy[session] == token && session !in t.closed
    requires token in t.granted && token in t.used && t.used[token] == u
    requires GrantedRightly(c, t.granted[token]) && UsedRightly(c, t.granted[token], u)
    requires session in t.sessions && t.sessions[session] == Session(t.granted[token].human, u.at + SESSION_SECONDS)
    ensures OpenedRightly(c, t, session) && SessionOk(t, session)
  {
  }

  lemma {:induction false} CloseKeeps(c: Checks, s: Console, session: string, t0: int, now: int)
    requires Provenance(c, s, t0) && t0 <= now
    ensures Provenance(c, Close(s, session), now)
  {
    hide AccountedFor, OneSessionEach;
    if session in s.sessions {
      ClosesOne(s, session);
      ClosedAccounted(c, s, session, t0, now);
    } else {
      AccountsKeep(c, s, s, t0, now);
    }
  }

  lemma ClosesOne(s: Console, session: string)
    requires OneSessionEach(s) && session in s.sessions
    ensures OneSessionEach(Close(s, session))
  {
  }

  lemma {:induction false} ClosedAccounted(c: Checks, s: Console, session: string, t0: int, now: int)
    requires AccountedFor(c, s, t0) && t0 <= now && session in s.sessions
    ensures AccountedFor(c, Close(s, session), now)
  {
    var t := Close(s, session);
    assert RecordGrows(s, t);
    hide PendingOk, OpenedRightly, SessionOk, RecordGrows;
    forall k | k in t.pending ensures PendingOk(c, t, k, now) {
      InGrants(c, s, k, t0);
      PendingFrame(c, s, t, k, t0, now);
    }
    forall x | x in t.openedBy ensures OpenedRightly(c, t, x) { OpenedFrame(c, s, t, x); }
    forall x | x in t.sessions ensures SessionOk(t, x) {
      SessionKnown(s, x);
      OpenedFrame(c, s, t, x);
    }
  }

  lemma {:induction false} StepKeeps(c: Checks, s: Console, op: Op, t0: int, now: int)
    requires Provenance(c, s, t0) && t0 <= now && UsesFreshTokens(s, op)
    ensures Provenance(c, Apply(c, s, op, now), now)
  {
    hide Login, Spend, Close, Provenance;
    match op
    case Provision(_, _, _, _) => AccountsKeep(c, s, Apply(c, s, op, now), t0, now);
    case StartLogin(email, password, token) => LoginKeeps(c, s, email, password, token, t0, now);
    case EnrollTotp(token, code, session) => SpendKeeps(c, s, token, code, session, true, t0, now);
    case CompleteLogin(token, code, session) => SpendKeeps(c, s, token, code, session, false, t0, now);
    case ResolveSession(session) => CloseKeeps(c, s, session, t0, now); AccountsKeep(c, s, s, t0, now);
    case DestroySession(session) => CloseKeeps(c, s, session, t0, now);
  }

  lemma {:induction false} RunKeeps(c: Checks, emails: map<string, string>, ops: seq<Timed>, now: int)
    requires Legal(c, Empty(emails), ops) && (ops != [] ==> ops[|ops| - 1].at <= now)
    ensures Provenance(c, Run(c, Empty(emails), ops), now)
  {
    hide Apply, UsesFreshTokens;
    if ops != [] {
      var n := |ops| - 1;
      LegalPrefix(c, Empty(emails), ops, n);
      assert LegalAt(c, Empty(emails), ops, n);
      RunKeeps(c, emails, ops[..n], ops[n].at);
      StepKeeps(c, Run(c, Empty(emails), ops[..n]), ops[n].op, ops[n].at, ops[n].at);
      AccountsKeep(c, Run(c, Empty(emails), ops), Run(c, Empty(emails), ops), ops[n].at, now);
    }
  }

  lemma LegalPrefix(c: Checks, s: Console, ops: seq<Timed>, n: nat)
    requires n <= |ops| && Legal(c, s, ops)
    ensures Legal(c, s, ops[..n])
  {
    hide Run, UsesFreshTokens;
    forall i | 0 <= i < n ensures LegalAt(c, s, ops[..n], i) {
      assert LegalAt(c, s, ops, i) && ops[..n][..i] == ops[..i];
    }
  }

  // Operation j is the login that issued this grant: not locked out, and with the right password.
  predicate GrantedAt(c: Checks, start: Console, ops: seq<Timed>, j: nat, token: string, g: Grant) {
    && j < |ops| && ops[j].op.StartLogin? && ops[j].op.token == token
    && var before := Run(c, start, ops[..j]);
    && AccountOf(before, ops[j].op.email) == Some(g.human)
    && var a := before.accounts[g.human];
    && !LockedOut(a.lock, ops[j].at) && c.password(ops[j].op.password, a.salt, a.hash)
    && g == Grant(g.human, ops[j].at, ops[j].op.password, a.salt, a.hash)
  }

  // Operation i is the code check that spent `token`, then pending for `human`, and opened `session`.
  predicate OpenedAt(c: Checks, start: Console, ops: seq<Timed>, i: nat, token: string, session: string,
                     human: string, u: Use)
  {
    && i < |ops|
    && (ops[i].op == EnrollTotp(token, u.code, session) || ops[i].op == CompleteLogin(token, u.code, session))
    && var before := Run(c, start, ops[..i]);
    && CodeAccepted(c, before, token, u.code, ops[i].at)
    && before.pending[token].human == human
    && u == Use(ops[i].at, before.accounts[human].secret, u.code)
  }

  ghost predicate WasGranted(c: Checks, start: Console, ops: seq<Timed>, token: string, g: Grant) {
    exists j: nat :: GrantedAt(c, start, ops, j, token, g)
  }

  ghost predicate WasOpened(c: Checks, start: Console, ops: seq<Timed>, token: string, session: string,
                            human: string, u: Use)
  {
    exists i: nat :: OpenedAt(c, start, ops, i, token, session, human, u)
  }

  lemma EarlierGrant(c: Checks, start: Console, ops: seq<Timed>, token: string, g: Grant)
    requires ops != [] && WasGranted(c, start, ops[..|ops| - 1], token, g)
    ensures WasGranted(c, start, ops, token, g)
  {
    hide Run;
    var init := ops[..|ops| - 1];
    var j: nat :| GrantedAt(c, start, init, j, token, g);
    assert init[..j] == ops[..j];
    assert GrantedAt(c, start, ops, j, token, g);
  }

  lemma EarlierOpening(c: Checks, start: Console, ops: seq<Timed>, token: string, session: string, human: string,
                       u: Use)
    requires ops != [] && WasOpened(c, start, ops[..|ops| - 1], token, session, human, u)
    ensures WasOpened(c, start, ops, token, session, human, u)
  {
    hide Run;
    var init := ops[..|ops| - 1];
    var i: nat :| OpenedAt(c, start, init, i, token, session, human, u);
    assert init[..i] == ops[..i];
    assert OpenedAt(c, start, ops, i, token, session, human, u);
  }

  // One step: grants on record stay as they are; a new one is a login's.
  lemma {:induction false} GrantStep(c: Checks, s: Console, op: Op, now: int, token: string)
    requires UsesFreshTokens(s, op) && token in Apply(c, s, op, now).granted
    ensures var t := Apply(c, s, op, now);
      if token in s.granted then t.granted[token] == s.granted[token]
      else
        var g := t.granted[token];
        && op.StartLogin? && op.token == token && AccountOf(s, op.email) == Some(g.human)
        && !LockedOut(s.accounts[g.human].lock, now)
        && c.password(op.password, s.accounts[g.human].salt, s.accounts[g.human].hash)
        && g == Grant(g.human, now, op.password, s.accounts[g.human].salt, s.accounts[g.human].hash)
  {
    hide After, LockedOut, Spend;
    StepKeys(c, s, op, now);
  }

  // Every recorded grant was issued by a login of the run.
  lemma {:induction false} GrantsComeFromLogins(c: Checks, start: Console, ops: seq<Timed>, token: string)
    requires start.granted == map[] && Legal(c, start, ops)
    requires token in Run(c, start, ops).granted
    ensures WasGranted(c, start, ops, token, Run(c, start, ops).granted[token])
  {
    hide Apply, UsesFreshTokens, LockedOut, AccountOf;
    var n := |ops| - 1;
    var before := Run(c, start, ops[..n]);
    LegalPrefix(c, start, ops, n);
    assert LegalAt(c, start, ops, n);
    GrantStep(c, before, ops[n].op, ops[n].at, token);
    if token in before.granted {
      GrantsComeFromLogins(c, start, ops[..n], token);
      EarlierGrant(c, start, ops, token, before.granted[token]);
    } else {
      assert GrantedAt(c, start, ops, n, token, Run(c, start, ops).granted[token]);
    }
  }

  // Every session was opened by a code check of the run, for the human its pending login was granted to.
  lemma {:induction false} SessionsComeFromChecks(c: Checks, emails: map<string, string>, ops: seq<Timed>,
                                                  session: string)
    requires Legal(c, Empty(emails), ops) && session in Run(c, Empty(emails), ops).openedBy
    ensures var s := Run(c, Empty(emails), ops);
      var token := s.openedBy[session];
      && token in s.used && token in s.granted
      && WasOpened(c, Empty(emails), ops, token, session, s.granted[token].human, s.used[token])
  {
    hide After, LockedOut, Login, CodeAccepted;
    var n := |ops| - 1;
    var before, s := Run(c, Empty(emails), ops[..n]), Run(c, Empty(emails), ops);
    LegalPrefix(c, Empty(emails), ops, n);
    assert LegalAt(c, Empty(emails), ops, n);
    RunKeeps(c, emails, ops[..n], ops[n].at);
    OpeningStep(c, before, ops[n].op, ops[n].at, session);
    var token := s.openedBy[session];
    GrantStep(c, before, ops[n].op, ops[n].at, token);
    if session in before.openedBy {
      SessionsComeFromChecks(c, emails, ops[..n], session);
      EarlierOpening(c, Empty(emails), ops, token, session, s.granted[token].human, s.used[token]);
    } else {
      assert OpenedAt(c, Empty(emails), ops, n, token, session, s.granted[token].human, s.used[token]);
    }
  }

  // One step: sessions and uses on record stay as they are; a new one is a code check's.
  lemma {:induction false} OpeningStep(c: Checks, s: Console, op: Op, now: int, session: string)
    requires Provenance(c, s, now) && UsesFreshTokens(s, op) && session in Apply(c, s, op, now).openedBy
    ensures var t := Apply(c, s, op, now);
      var token := t.openedBy[session];
      && token in s.granted && token in t.granted
      && if session in s.openedBy then
        && token == s.openedBy[session] && token in s.used && token in t.used && t.used[token] == s.used[token]
      else
        && (op.EnrollTotp? || op.CompleteLogin?) && op.session == session && token == op.token
        && CodeAccepted(c, s, token, op.code, now)
        && s.granted[token].human == s.pending[token].human
        && token in t.used && t.used[token] == Use(now, s.accounts[s.pending[token].human].secret, op.code)
  {
    hide Login, Spend, PendingOk, OpenedRightly, SessionOk, CodeAccepted;
    if session in s.openedBy { WasUsed(c, s, session); }
    if op.StartLogin? { LoginOpensNone(c, s, op.email, op.password, op.token, now); }
    if op.EnrollTotp? || op.CompleteLogin? {
      if op.token in s.pending { InGrants(c, s, op.token, now); }
      SpendOpens(c, s, op.token, op.code, op.session, op.EnrollTotp?, now);
    }
  }

  lemma LoginOpensNone(c: Checks, s: Console, email: string, password: string, token: string, now: int)
    ensures var t := Login(c, s, email, password, token, now);
      t.openedBy == s.openedBy && t.used == s.used && s.granted.Keys <= t.granted.Keys && t.closed == s.closed
  {
    hide After, LockedOut;
  }

  lemma LoginKeepsAccounts(c: Checks, s: Console, email: string, password: string, token: string, now: int)
    ensures Login(c, s, email, password, token, now).accounts.Keys == s.accounts.Keys
  {
    hide After, LockedOut;
    match AccountOf(s, email)
    case None =>
    case Some(h) => assert h in s.accounts;
  }

  // Spending opens one session, or none.
  lemma SpendOpens(c: Checks, s: Console, token: string, code: string, session: string, enroll: bool, now: int)
    ensures Spend(c, s, token, code, session, enroll, now).granted == s.granted
    ensures var t := Spend(c, s, token, code, session, enroll, now);
      if CodeAccepted(c, s, token, code, now) then
        && token in s.pending && s.pending[token].human in s.accounts
        && t.openedBy == s.openedBy[session := token]
        && t.used == s.used[token := Use(now, s.accounts[s.pending[token].human].secret, code)]
      else t.openedBy == s.openedBy && t.used == s.used
  {
  }

  /**
   Two-factor provenance. In every run, a session that resolves, at most twelve hours old and
   not closed, was opened by a code check of that run: it accepted the code against that
   human's secret at that moment and spent a pending login which a login, not locked out and
   with the same human's right password, had issued less than 300 seconds before. No other
   session ever came from that pending login.
   */
  lemma {:induction false} SessionsHaveTwoFactors(c: Checks, emails: map<string, string>, ops: seq<Timed>,
                                                  session: string, now: int)
    requires Legal(c, Empty(emails), ops) && (ops != [] ==> ops[|ops| - 1].at <= now)
    requires SessionHuman(Run(c, Empty(emails), ops), session, now).Some?
    ensures var s := Run(c, Empty(emails), ops);
      && session in s.openedBy && session !in s.closed
      && s.openedBy[session] in s.granted && s.openedBy[session] in s.used
      && var token := s.openedBy[session];
      && var g, u := s.granted[token], s.used[token];
      && SessionHuman(s, session, now) == Some(g.human)
      && WasGranted(c, Empty(emails), ops, token, g)
      && WasOpened(c, Empty(emails), ops, token, session, g.human, u)
      && g.at <= u.at < g.at + 300 && now < u.at + 43200
      && forall other | other in s.openedBy && s.openedBy[other] == token :: other == session
  {
    hide Run, Legal, WasGranted, WasOpened;
    RunKeeps(c, emails, ops, now);
    var s := Run(c, Empty(emails), ops);
    assert SessionOk(s, session) && OpenedRightly(c, s, session);
    GrantsComeFromLogins(c, Empty(emails), ops, s.openedBy[session]);
    SessionsComeFromChecks(c, emails, ops, session);
  }

  // A grant once made is never pending again after it was taken off the table.
  lemma {:induction false} GoneStays(c: Checks, s: Console, ops: seq<Timed>, n: nat, token: string)
    requires Legal(c, s, ops) && n <= |ops|
    requires token in Run(c, s, ops[..n]).granted && token !in Run(c, s, ops[..n]).pending
    ensures token in Run(c, s, ops).granted && token !in Run(c, s, ops).pending
    decreases |ops|
  {
    hide Apply, UsesFreshTokens;
    if n == |ops| {
      assert ops[..n] == ops;
    } else {
      var m := |ops| - 1;
      LegalPrefix(c, s, ops, m);
      assert LegalAt(c, s, ops, m);
      assert ops[..m][..n] == ops[..n];
      GoneStays(c, s, ops[..m], n, token);
      GoneStep(c, Run(c, s, ops[..m]), ops[m].op, ops[m].at, token);
    }
  }

  lemma GoneStep(c: Checks, s: Console, op: Op, now: int, token: string)
    requires UsesFreshTokens(s, op) && token in s.granted && token !in s.pending
    ensures token in Apply(c, s, op, now).granted && token !in Apply(c, s, op, now).pending
  {
    hide Login, Spend;
    match op
    case StartLogin(email, password, issued) => LoginPends(c, s, email, password, issued, now);
    case EnrollTotp(spent, code, session) => SpendRemoves(c, s, spent, code, session, true, now);
    case CompleteLogin(spent, code, session) => SpendRemoves(c, s, spent, code, session, false, now);
    case _ =>
  }

  lemma LoginPends(c: Checks, s: Console, email: string, password: string, token: string, now: int)
    ensures var t := Login(c, s, email, password, token, now);
      s.granted.Keys <= t.granted.Keys && t.pending.Keys <= s.pending.Keys + {token}
  {
    hide After, LockedOut;
  }

  lemma SpendRemoves(c: Checks, s: Console, token: string, code: string, session: string, enroll: bool, now: int)
    ensures var t := Spend(c, s, token, code, session, enroll, now);
      && t.granted == s.granted && t.pending == s.pending - {token}
      && t.closed == s.closed && t.accounts.Keys == s.accounts.Keys
  {
  }

  /** One guess a login: once a code was checked for a pending login, right or wrong,
      no code is accepted for it again. */
  lemma {:induction false} OneCodePerLogin(c: Checks, s: Console, ops: seq<Timed>, i: nat, token: string,
                                           code: string, now: int)
    requires Legal(c, s, ops) && i < |ops|
    requires ops[i].op.EnrollTotp? || ops[i].op.CompleteLogin?
    requires ops[i].op.token == token && token in Run(c, s, ops[..i]).granted
    ensures PendingHuman(Run(c, s, ops), token, now) == None && !CodeAccepted(c, Run(c, s, ops), token, code, now)
  {
    hide CodeAccepted, Login, Spend;
    var before, op := Run(c, s, ops[..i]), ops[i].op;
    SpendRemoves(c, before, token, op.code, op.session, op.EnrollTotp?, ops[i].at);
    assert ops[..i + 1][..i] == ops[..i];
    GoneStays(c, s, ops, i + 1, token);
    assert !CodeAccepted(c, Run(c, s, ops), token, code, now) by { NotAccepted(c, Run(c, s, ops), token, code, now); }
  }

  lemma NotAccepted(c: Checks, s: Console, token: string, code: string, now: int)
    requires token !in s.pending
    ensures !CodeAccepted(c, s, token, code, now)
  {
  }

  lemma ClosedIsGone(c: Checks, s: Console, session: string, now: int)
    requires Provenance(c, s, now) && session in s.closed
    ensures session !in s.sessions
  {
    assert forall x | x in s.sessions :: SessionOk(s, x);
  }

  // A closed session stays closed.
  lemma {:induction false} ClosedStays(c: Checks, s: Console, ops: seq<Timed>, n: nat)
    requires n <= |ops|
    ensures Run(c, s, ops[..n]).closed <= Run(c, s, ops).closed
    decreases |ops|
  {
    hide Login, Spend, ProvisionUser;
    if n == |ops| {
      assert ops[..n] == ops;
    } else {
      assert ops[..|ops| - 1][..n] == ops[..n];
      ClosedStays(c, s, ops[..|ops| - 1], n);
      QuietOnClosed(c, Run(c, s, ops[..|ops| - 1]), ops[|ops| - 1].op, ops[|ops| - 1].at);
    }
  }

  lemma QuietOnClosed(c: Checks, s: Console, op: Op, now: int)
    ensures s.closed <= Apply(c, s, op, now).closed
  {
    hide Login, Spend;
    StepKeys(c, s, op, now);
  }

  // What logins and code checks leave alone.
  lemma StepKeys(c: Checks, s: Console, op: Op, now: int)
    ensures op.StartLogin? || op.EnrollTotp? || op.CompleteLogin? ==>
      Apply(c, s, op, now).closed == s.closed && Apply(c, s, op, now).accounts.Keys == s.accounts.Keys
    ensures op.EnrollTotp? || op.CompleteLogin? ==> Apply(c, s, op, now).granted == s.granted
  {
    hide Login, Spend;
    match op
    case StartLogin(email, password, token) =>
      LoginOpensNone(c, s, email, password, token, now);
      LoginKeepsAccounts(c, s, email, password, token, now);
    case EnrollTotp(token, code, session) => SpendRemoves(c, s, token, code, session, true, now);
    case CompleteLogin(token, code, session) => SpendRemoves(c, s, token, code, session, false, now);
    case _ =>
  }

  /** Once destroyed, or found expired, a session never resolves again. */
  lemma {:induction false} DestroyedIsFinal(c: Checks, emails: map<string, string>, ops: seq<Timed>, i: nat,
                                            session: string, now: int)
    requires Legal(c, Empty(emails), ops) && i < |ops| && ops[|ops| - 1].at <= now
    requires var before := Run(c, Empty(emails), ops[..i]);
      || ops[i].op == DestroySession(session)
      || (ops[i].op == ResolveSession(session) && SessionHuman(before, session, ops[i].at).None?)
    requires session in Run(c, Empty(emails), ops[..i]).openedBy
    ensures SessionHuman(Run(c, Empty(emails), ops), session, now) == None
  {
    var before := Run(c, Empty(emails), ops[..i]);
    assert ops[..i + 1][..i] == ops[..i];
    ClosedStays(c, Empty(emails), ops, i + 1);
    RunKeeps(c, emails, ops, now);
    LegalPrefix(c, Empty(emails), ops, i);
    assert LegalAt(c, Empty(emails), ops, i);
    RunKeeps(c, emails, ops[..i], ops[i].at);
    ClosedIsGone(c, Run(c, Empty(emails), ops), session, now);
  }

  /* ----- lockout over runs ----- */

  // The login attempts of a run on one account, with whether the password was right.
  function TriesOn(c: Checks, s: Console, ops: seq<Timed>, human: string): seq<Try> {
    if ops == [] then []
    else
      var init, last := ops[..|ops| - 1], ops[|ops| - 1];
      var before := Run(c, s, init);
      TriesOn(c, s, init, human) +
        if last.op.StartLogin? && AccountOf(before, last.op.email) == Some(human)
        then [Attempt(c, before.accounts[human], last.op.password, last.at)] else []
  }

  predicate NotProvisioned(ops: seq<Timed>, human: string) {
    forall i | 0 <= i < |ops| :: ops[i].op.Provision? ==> ops[i].op.human != human
  }

  lemma {:induction false} LockStep(c: Checks, s: Console, op: Op, now: int, human: string)
    requires human in s.accounts && (op.Provision? ==> op.human != human)
    ensures human in Apply(c, s, op, now).accounts
    ensures Apply(c, s, op, now).accounts[human].lock ==
      if op.StartLogin? && AccountOf(s, op.email) == Some(human)
      then After(s.accounts[human].lock, Attempt(c, s.accounts[human], op.password, now)) else s.accounts[human].lock
  {
    hide After, LockedOut, CodeAccepted, Spend;
    if op.EnrollTotp? || op.CompleteLogin? {
      SpendKeepsLocks(c, s, op.token, op.code, op.session, op.EnrollTotp?, now, human);
    }
  }

  lemma SpendKeepsLocks(c: Checks, s: Console, token: string, code: string, session: string, enroll: bool,
                        now: int, human: string)
    requires human in s.accounts
    ensures var t := Spend(c, s, token, code, session, enroll, now);
      human in t.accounts && t.accounts[human].lock == s.accounts[human].lock
  {
  }

  // Whatever happens to other accounts, the lock is that of the account's own attempts.
  lemma {:induction false} LockOfRun(c: Checks, s: Console, ops: seq<Timed>, human: string)
    requires human in s.accounts && NotProvisioned(ops, human)
    ensures human in Run(c, s, ops).accounts
    ensures Run(c, s, ops).accounts[human].lock == AfterAll(s.accounts[human].lock, TriesOn(c, s, ops, human))
  {
    hide Apply, After, AccountOf, Attempt;
    if ops != [] {
      var init, last := ops[..|ops| - 1], ops[|ops| - 1];
      LockOfRun(c, s, init, human);
      LockStep(c, Run(c, s, init), last.op, last.at, human);
      var tries := TriesOn(c, s, init, human);
      assert forall t :: (tries + [t])[..|tries|] == tries;
      assert tries + [] == tries;
    }
  }

  lemma {:induction false} TriesInOrder(c: Checks, s: Console, ops: seq<Timed>, human: string)
    requires forall i, j | 0 <= i < j < |ops| :: ops[i].at <= ops[j].at
    ensures InOrder(TriesOn(c, s, ops, human))
    ensures forall i | 0 <= i < |TriesOn(c, s, ops, human)| ::
      ops != [] && TriesOn(c, s, ops, human)[i].at <= ops[|ops| - 1].at
  {
    hide Run, AccountOf;
    if ops != [] { TriesInOrder(c, s, ops[..|ops| - 1], human); }
  }

  lemma {:induction false} FailuresBounded(c: Checks, emails: map<string, string>, ops: seq<Timed>, human: string)
    requires human in Run(c, Empty(emails), ops).accounts
    ensures Run(c, Empty(emails), ops).accounts[human].lock.failed < MAX_FAILED
  {
    hide LockedOut;
    if ops != [] {
      var init, last := ops[..|ops| - 1], ops[|ops| - 1];
      var before := Run(c, Empty(emails), init);
      if last.op.Provision? && last.op.human == human {
      } else {
        KeptAccount(c, before, last.op, last.at, human);
        FailuresBounded(c, emails, init, human);
        LockStep(c, before, last.op, last.at, human);
      }
    }
  }

  lemma KeptAccount(c: Checks, s: Console, op: Op, now: int, human: string)
    requires human in Apply(c, s, op, now).accounts && !(op.Provision? && op.human == human)
    ensures human in s.accounts
  {
    hide Login, Spend;
    StepKeys(c, s, op, now);
  }

  /**
   Lockout over runs. After any run, let the account live through more operations, on itself
   and on others, without being provisioned anew and without a successful login. Within
   `window` seconds at most 5 * (1 + window / 900) wrong passwords are checked against it.
   */
  lemma {:induction false} AccountLockoutRate(c: Checks, emails: map<string, string>, ops: seq<Timed>, more: seq<Timed>,
                                              human: string, i: nat, n: nat, window: nat)
    requires var s := Run(c, Empty(emails), ops);
      human in s.accounts && NotProvisioned(more, human)
      && NoSuccess(s.accounts[human].lock, TriesOn(c, s, more, human))
      && var w := WrongChecks(s.accounts[human].lock, TriesOn(c, s, more, human));
      0 < n && i + n <= |w| && w[i + n - 1] - w[i] <= window
    requires forall a, b | 0 <= a < b < |more| :: more[a].at <= more[b].at
    ensures n <= 5 * (1 + window / 900)
    ensures var s := Run(c, Empty(emails), ops);
      && human in Run(c, s, more).accounts
      && Run(c, s, more).accounts[human].lock == AfterAll(s.accounts[human].lock, TriesOn(c, s, more, human))
  {
    hide Run, TriesOn, WrongChecks, NoSuccess, AfterAll;
    var s := Run(c, Empty(emails), ops);
    FailuresBounded(c, emails, ops, human);
    TriesInOrder(c, s, more, human);
    LockOfRun(c, s, more, human);
    LockoutRate(s.accounts[human].lock, TriesOn(c, s, more, human), i, n, window);
  }

  /* ----- what logins are answered ----- */

  // The answers to the login attempts of a run on one account.
  function AnswersOn(c: Checks, s: Console, ops: seq<Timed>, human: string): seq<LoginStatus> {
    if ops == [] then []
    else
      var init, last := ops[..|ops| - 1], ops[|ops| - 1];
      var before := Run(c, s, init);
      AnswersOn(c, s, init, human) +
        if last.op.StartLogin? && AccountOf(before, last.op.email) == Some(human)
        then [LoginAnswer(c, before, last.op.email, last.op.password, last.at)] else []
  }

  function AsReply(status: LoginStatus): Reply {
    match status
    case Ok => Accepted
    case NeedsEnrollment => Accepted
    case Invalid => Refused
    case Locked => Shut
  }

  function AsReplies(answers: seq<LoginStatus>): seq<Reply> {
    seq(|answers|, i requires 0 <= i < |answers| => AsReply(answers[i]))
  }

  lemma AnswerIsReply(c: Checks, s: Console, email: string, password: string, now: int, human: string)
    requires AccountOf(s, email) == Some(human)
    ensures AsReply(LoginAnswer(c, s, email, password, now)) ==
      ReplyTo(s.accounts[human].lock, Attempt(c, s.accounts[human], password, now))
  {
  }

  lemma {:induction false} AnswersAreReplies(c: Checks, s: Console, ops: seq<Timed>, human: string)
    requires human in s.accounts && NotProvisioned(ops, human)
    ensures |AnswersOn(c, s, ops, human)| == |TriesOn(c, s, ops, human)|
    ensures AsReplies(AnswersOn(c, s, ops, human)) == Replies(s.accounts[human].lock, TriesOn(c, s, ops, human))
  {
    hide Apply, ReplyTo, AfterAll, AccountOf, Attempt, LoginAnswer, AsReply;
    if ops != [] {
      var init, last := ops[..|ops| - 1], ops[|ops| - 1];
      var before, tries, answers := Run(c, s, init), TriesOn(c, s, init, human), AnswersOn(c, s, init, human);
      AnswersAreReplies(c, s, init, human);
      LockOfRun(c, s, init, human);
      if last.op.StartLogin? && AccountOf(before, last.op.email) == Some(human) {
        AnswerIsReply(c, before, last.op.email, last.op.password, last.at, human);
        var t := Attempt(c, before.accounts[human], last.op.password, last.at);
        assert (tries + [t])[..|tries|] == tries;
      } else {
        assert tries + [] == tries && answers + [] == answers;
      }
    }
  }

  /**
   What logins are answered, successes included. Over any run on all accounts from one's fresh
   provisioning on, every attempt on it is answered as promised by the attempts and answers
   before: locked for 900 seconds, or by the fifth wrong password since a success or a lock.
   */
  lemma {:induction false} LoginsAnsweredAsPromised(c: Checks, s: Console, ops: seq<Timed>, human: string, j: nat)
    requires human in s.accounts && s.accounts[human].lock == Lock(0, None) && NotProvisioned(ops, human)
    requires j < |AnswersOn(c, s, ops, human)|
    ensures var tries, answers := TriesOn(c, s, ops, human), AnswersOn(c, s, ops, human);
      && |tries| == |answers|
      && AsReply(answers[j]) == Promised(tries[..j], AsReplies(answers)[..j], tries[j])
  {
    hide TriesOn, AnswersOn, Replies, Promised, AsReply;
    AnswersAreReplies(c, s, ops, human);
    RepliesArePromised(TriesOn(c, s, ops, human), j);
    assert AsReplies(AnswersOn(c, s, ops, human))[j] == AsReply(AnswersOn(c, s, ops, human)[j]);
  }

  /* ----- those who should get in do ----- */

  /**
   The right password and, within 300 seconds, an accepted code get a session that resolves to the
   account's human for the next 43200 seconds and not after, through either second step.
   */
  lemma {:induction false} RightCredentialsGetIn(c: Checks, s: Console, email: string, password: string, human: string,
                                                 token: string, code: string, session: string, enroll: bool,
                                                 at: int, next: int, later: int)
    requires email in s.emails && s.emails[email] == human && human in s.accounts
    requires s.accounts[human].lock.until.None? || s.accounts[human].lock.until.value <= at
    requires c.password(password, s.accounts[human].salt, s.accounts[human].hash)
    requires at <= next < at + 300 && c.totp(s.accounts[human].secret, code, next)
    ensures var pending := Apply(c, s, StartLogin(email, password, token), at);
      var op := if enroll then EnrollTotp(token, code, session) else CompleteLogin(token, code, session);
      var open := Apply(c, pending, op, next);
      && (LoginAnswer(c, s, email, password, at) == if s.accounts[human].enrolled then Ok else NeedsEnrollment)
      && SessionHuman(open, session, later) == (if later < next + 43200 then Some(human) else None)
      && token !in open.pending
  {
    hide After;
  }

  /** An expired pending login gets no session, however right the code: from 300 seconds on it is too late. */
  lemma {:induction false} TooLateForTheCode(c: Checks, s: Console, email: string, password: string, human: string,
                                             token: string, code: string, session: string, enroll: bool,
                                             at: int, next: int)
    requires AccountOf(s, email) == Some(human) && at + 300 <= next && session !in s.sessions
    requires c.password(password, s.accounts[human].salt, s.accounts[human].hash)
    requires !LockedOut(s.accounts[human].lock, at)
    ensures var pending := Apply(c, s, StartLogin(email, password, token), at);
      var op := if enroll then EnrollTotp(token, code, session) else CompleteLogin(token, code, session);
      session !in Apply(c, pending, op, next).sessions
  {
    hide After;
  }

  /** Provisioning leaves no failures, no lock and no enrolment, and other accounts alone. */
  lemma ProvisionedAfresh(c: Checks, s: Console, human: string, salt: string, hash: string, secret: string, now: int)
    ensures var t := Apply(c, s, Provision(human, salt, hash, secret), now);
      && human in t.accounts && t.accounts[human] == Account(salt, hash, secret, false, Lock(0, None))
      && t == s.(accounts := t.accounts) && t.accounts - {human} == s.accounts - {human}
  {
  }
}
