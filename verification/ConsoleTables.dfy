/**
 The console's login tables in place: each operation as it changes them, tied to the function
 in `ConsoleAuth` that the theorems are about. Only token hashes are stored; what has happened
 is kept in ghost fields.
 */
module ConsoleTables {
  import opened Wrappers
  import opened Lockout
  import opened ConsoleAuth

  class LoginTables {
    const c: Checks
    const hashToken: string -> string
    var emails: map<string, string>
    var accounts: map<string, Account>
    var pending: map<string, Pending>
    var sessions: map<string, Session>
    ghost var granted: map<string, Grant>
    ghost var used: map<string, Use>
    ghost var openedBy: map<string, string>
    ghost var closed: set<string>

    ghost function Now(): Console
      reads this
    {
      Console(emails, accounts, pending, sessions, granted, used, openedBy, closed)
    }

    constructor (c: Checks, hashToken: string -> string, emails: map<string, string>)
      ensures this.c == c && this.hashToken == hashToken && Now() == Empty(emails)
    {
      this.c, this.hashToken, this.emails := c, hashToken, emails;
      accounts, pending, sessions := map[], map[], map[];
      granted, used, openedBy, closed := map[], map[], map[], {};
    }

    method ProvisionConsoleUser(human: string, salt: string, hash: string, secret: string)
      modifies this`accounts
      ensures Now() == ProvisionUser(old(Now()), human, salt, hash, secret)
      ensures accounts == old(accounts)[human := Account(salt, hash, secret, false, Lock(0, None))]
    {
      accounts := accounts[human := Account(salt, hash, secret, false, Lock(0, None))];
    }

    // `token` is the random pending token to hand out if the password is right.
    method StartLogin(email: string, password: string, token: string, now: int) returns (status: LoginStatus)
      modifies this
      ensures status == LoginAnswer(c, old(Now()), email, password, now)
      ensures Now() == Login(c, old(Now()), email, password, hashToken(token), now)
      ensures emails == old(emails) && sessions == old(sessions)
      ensures email !in emails || emails[email] !in old(accounts) ==> status == Invalid && Now() == old(Now())
      ensures email in emails && emails[email] in old(accounts) ==>
        var h := emails[email];
        var a := old(accounts)[h];
        if a.lock.until.Some? && now < a.lock.until.value then status == Locked && Now() == old(Now())
        else if c.password(password, a.salt, a.hash) then
          && status == (if a.enrolled then Ok else NeedsEnrollment)
          && accounts == old(accounts)[h := a.(lock := Lock(0, None))]
          && pending == old(pending)[hashToken(token) := Pending(h, now + 300)]
        else
          && pending == old(pending)
          && if a.lock.failed + 1 >= 5
             then status == Locked && accounts == old(accounts)[h := a.(lock := Lock(0, Some(now + 900)))]
             else status == Invalid && accounts == old(accounts)[h := a.(lock := Lock(a.lock.failed + 1, None))]
    {
      if email !in emails || emails[email] !in accounts { return Invalid; }
      var human := emails[email];
      var a := accounts[human];
      if a.lock.until.Some? && a.lock.until.value > now {
        assert accounts[human := a] == accounts;
        return Locked;
      }
      if !c.password(password, a.salt, a.hash) {
        var failed, until := a.lock.failed + 1, None;
        if failed >= MAX_FAILED { failed, until := 0, Some(now + LOCKOUT_SECONDS); }
        accounts := accounts[human := a.(lock := Lock(failed, until))];
        return if until.Some? then Locked else Invalid;
      }
      accounts := accounts[human := a.(lock := Lock(0, None))];
      pending := pending[hashToken(token) := Pending(human, now + PENDING_SECONDS)];
      granted := granted[hashToken(token) := Grant(human, now, password, a.salt, a.hash)];
      return if a.enrolled then Ok else NeedsEnrollment;
    }

    // One shot: the pending login is gone whatever comes of it.
    method ConsumePendingLogin(token: string, now: int) returns (human: Option<string>)
      modifies this`pending
      ensures human == PendingHuman(old(Now()), hashToken(token), now)
      ensures pending == old(pending) - {hashToken(token)}
      ensures human.Some? <==> hashToken(token) in old(pending) && now < old(pending)[hashToken(token)].expires
      ensures human.Some? ==> human.value == old(pending)[hashToken(token)].human
    {
      var key := hashToken(token);
      var found := key in pending;
      var row := Pending("", 0);
      if found { row := pending[key]; }
      pending := pending - {key};
      if !found || row.expires <= now { return None; }
      return Some(row.human);
    }

    ghost predicate SessionResolves(session: string, human: string, at: int, from: int)
      reads this
    {
      SessionHuman(Now(), session, at) == if at < from + SESSION_SECONDS then Some(human) else None
    }

    // The new session resolves to its human for twelve hours.
    method CreateSession(human: string, session: string, ghost token: string, ghost u: Use, now: int)
      modifies this`sessions, this`used, this`openedBy
      ensures forall at :: SessionResolves(hashToken(session), human, at, now)
      ensures sessions == old(sessions)[hashToken(session) := Session(human, now + SESSION_SECONDS)]
      ensures used == old(used)[hashToken(token) := u]
      ensures openedBy == old(openedBy)[hashToken(session) := hashToken(token)]
    {
      sessions := sessions[hashToken(session) := Session(human, now + SESSION_SECONDS)];
      used := used[hashToken(token) := u];
      openedBy := openedBy[hashToken(session) := hashToken(token)];
    }

    method EnrollTotp(token: string, code: string, session: string, now: int) returns (ok: bool)
      modifies this
      ensures ok == CodeAccepted(c, old(Now()), hashToken(token), code, now)
      ensures Now() == Spend(c, old(Now()), hashToken(token), code, hashToken(session), true, now)
      ensures emails == old(emails) && pending == old(pending) - {hashToken(token)}
      ensures ok <==>
        && hashToken(token) in old(pending) && now < old(pending)[hashToken(token)].expires
        && old(pending)[hashToken(token)].human in old(accounts)
        && c.totp(old(accounts)[old(pending)[hashToken(token)].human].secret, code, now)
      ensures !ok ==> accounts == old(accounts) && sessions == old(sessions)
      ensures ok ==>
        var h := old(pending)[hashToken(token)].human;
        var a := old(accounts)[h];
        && accounts == old(accounts)[h := a.(enrolled := true)]
        && sessions == old(sessions)[hashToken(session) := Session(h, now + 43200)]
    {
      var human := ConsumePendingLogin(token, now);
      if human.None? || human.value !in accounts { return false; }
      var a := accounts[human.value];
      if !c.totp(a.secret, code, now) { return false; }
      accounts := accounts[human.value := a.(enrolled := true)];
      CreateSession(human.value, session, token, Use(now, a.secret, code), now);
      return true;
    }

    method CompleteLogin(token: string, code: string, session: string, now: int) returns (ok: bool)
      modifies this
      ensures ok == CodeAccepted(c, old(Now()), hashToken(token), code, now)
      ensures Now() == Spend(c, old(Now()), hashToken(token), code, hashToken(session), false, now)
      ensures emails == old(emails) && pending == old(pending) - {hashToken(token)}
      ensures ok <==>
        && hashToken(token) in old(pending) && now < old(pending)[hashToken(token)].expires
        && old(pending)[hashToken(token)].human in old(accounts)
        && c.totp(old(accounts)[old(pending)[hashToken(token)].human].secret, code, now)
      ensures !ok ==> accounts == old(accounts) && sessions == old(sessions)
      ensures ok ==>
        var h := old(pending)[hashToken(token)].human;
        && accounts == old(accounts)
        && sessions == old(sessions)[hashToken(session) := Session(h, now + 43200)]
    {
      var human := ConsumePendingLogin(token, now);
      if human.None? || human.value !in accounts { return false; }
      var a := accounts[human.value];
      if !c.totp(a.secret, code, now) { return false; }
      CreateSession(human.value, session, token, Use(now, a.secret, code), now);
      return true;
    }

    method ResolveSession(token: string, now: int) returns (human: Option<string>)
      modifies this
      ensures human == if token == "" then None else SessionHuman(old(Now()), hashToken(token), now)
      ensures Now() ==
        if token == "" then old(Now())
        else ConsoleAuth.Apply(c, old(Now()), Op.ResolveSession(hashToken(token)), now)
      ensures human.Some? <==>
        token != "" && hashToken(token) in old(sessions) && now < old(sessions)[hashToken(token)].expires
      ensures human.Some? ==> human.value == old(sessions)[hashToken(token)].human
      ensures accounts == old(accounts) && pending == old(pending)
      ensures sessions == if token == "" || human.Some? then old(sessions) else old(sessions) - {hashToken(token)}
    {
      if token == "" { return None; }
      var key := hashToken(token);
      if key !in sessions { return None; }
      var row := sessions[key];
      if row.expires <= now {
        sessions := sessions - {key};
        closed := closed + {key};
        return None;
      }
      return Some(row.human);
    }

    method DestroySession(token: string, now: int)
      modifies this
      ensures Now() ==
        if token == "" then old(Now())
        else ConsoleAuth.Apply(c, old(Now()), Op.DestroySession(hashToken(token)), now)
      ensures accounts == old(accounts) && pending == old(pending)
      ensures sessions == if token == "" then old(sessions) else old(sessions) - {hashToken(token)}
    {
      if token == "" { return; }
      var key := hashToken(token);
      if key in sessions { closed := closed + {key}; }
      sessions := sessions - {key};
    }
  }
}
