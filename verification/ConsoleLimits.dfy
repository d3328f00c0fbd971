/**
 What the console's second step does not check: whether the account was ever enrolled.
 */
module ConsoleLimits {
  import opened Wrappers
  import opened Lockout
  import opened ConsoleAuth

  // The session is open for an account whose one-time code was never enrolled.
  predicate IsUnenrolled(s: Console, session: string) {
    && session in s.sessions && s.sessions[session].human in s.accounts
    && !s.accounts[s.sessions[session].human].enrolled
  }

  /**
   A code check opens a session for an account that is not enrolled if and only if it is made by
   `complete_login`, is accepted, and the account is not enrolled at that moment.
   */
  lemma {:induction false} OpensUnenrolledIff(c: Checks, s: Console, op: Op, now: int)
    requires (op.EnrollTotp? || op.CompleteLogin?) && op.session !in s.sessions
    ensures IsUnenrolled(Apply(c, s, op, now), op.session) <==>
      && CodeAccepted(c, s, op.token, op.code, now)
      && op.CompleteLogin? && !s.accounts[s.pending[op.token].human].enrolled
  {
    hide CodeAccepted, Spend;
    SpendAccount(c, s, op.token, op.code, op.session, op.EnrollTotp?, now);
  }

  lemma SpendAccount(c: Checks, s: Console, token: string, code: string, session: string, enroll: bool, now: int)
    requires session !in s.sessions
    ensures var t := Spend(c, s, token, code, session, enroll, now);
      if CodeAccepted(c, s, token, code, now) then
        && token in s.pending && s.pending[token].human in s.accounts
        && session in t.sessions && t.sessions[session].human == s.pending[token].human
        && s.pending[token].human in t.accounts
        && t.accounts[s.pending[token].human].enrolled == (enroll || s.accounts[s.pending[token].human].enrolled)
      else session !in t.sessions
  {
  }

  // An account is provisioned, its password given and, the enrollment step left out, a code.
  function SkippedEnrollment(human: string, email: string, a: Account, password: string, code: string, at: int)
      : seq<Timed>
  {
    [Timed(Provision(human, a.salt, a.hash, a.secret), at), Timed(StartLogin(email, password, "p"), at),
     Timed(CompleteLogin("p", code, "x"), at)]
  }

  lemma RunStep(c: Checks, s: Console, ops: seq<Timed>, n: nat)
    requires n < |ops|
    ensures Run(c, s, ops[..n + 1]) == Apply(c, Run(c, s, ops[..n]), ops[n].op, ops[n].at)
  {
    assert ops[..n + 1][..n] == ops[..n];
  }

  lemma RunNothing(c: Checks, s: Console, ops: seq<Timed>)
    requires ops == []
    ensures Run(c, s, ops) == s
  {
  }

  lemma {:induction false} SkippedRun(c: Checks, human: string, email: string, a: Account, password: string,
                                      code: string, at: int)
    requires c.password(password, a.salt, a.hash)
    ensures var start, ops := Empty(map[email := human]), SkippedEnrollment(human, email, a, password, code, at);
      var blank := Account(a.salt, a.hash, a.secret, false, Lock(0, None));
      && Run(c, start, ops[..0]) == start
      && Run(c, start, ops[..1]) == start.(accounts := map[human := blank])
      && Run(c, start, ops[..2]) == start.(accounts := map[human := blank],
           pending := map["p" := Pending(human, at + PENDING_SECONDS)],
           granted := map["p" := Grant(human, at, password, a.salt, a.hash)])
      && Run(c, start, ops) == Spend(c, Run(c, start, ops[..2]), "p", code, "x", false, at)
  {
    hide Run, Spend;
    var start, ops := Empty(map[email := human]), SkippedEnrollment(human, email, a, password, code, at);
    RunNothing(c, start, ops[..0]);
    RunStep(c, start, ops, 0);
    RunStep(c, start, ops, 1);
    RunStep(c, start, ops, 2);
    assert ops[..3] == ops;
  }

  /** So an account just provisioned gets a session without its code ever having been enrolled. */
  lemma {:induction false} EnrollmentCanBeSkipped(c: Checks, human: string, email: string, a: Account, password: string,
                                                  code: string, at: int)
    requires c.password(password, a.salt, a.hash) && c.totp(a.secret, code, at)
    ensures var start, ops := Empty(map[email := human]), SkippedEnrollment(human, email, a, password, code, at);
      && Legal(c, start, ops)
      && LoginAnswer(c, Run(c, start, ops[..1]), email, password, at) == NeedsEnrollment
      && SessionHuman(Run(c, start, ops), "x", at) == Some(human) && IsUnenrolled(Run(c, start, ops), "x")
  {
    hide Run;
    var start, ops := Empty(map[email := human]), SkippedEnrollment(human, email, a, password, code, at);
    SkippedRun(c, human, email, a, password, code, at);
    assert LegalAt(c, start, ops, 0) && LegalAt(c, start, ops, 1) && LegalAt(c, start, ops, 2);
  }
}
