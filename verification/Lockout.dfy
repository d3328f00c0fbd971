/**
 The password lockout of one console account: how its failure counter and lock move, and how
 many wrong passwords can be checked in a window of time. Times are whole seconds.
 */
module Lockout {
  import opened Wrappers

  const MAX_FAILED := 5
  const LOCKOUT_SECONDS := 900

  datatype Lock = Lock(failed: nat, until: Option<int>)
  datatype Try = Try(at: int, correct: bool)

  predicate LockedOut(l: Lock, now: int) { l.until.Some? && l.until.value > now }

  // The lock after one login attempt: nothing is checked while it holds.
  function After(l: Lock, t: Try): Lock {
    if LockedOut(l, t.at) then l
    else if t.correct then Lock(0, None)
    else if l.failed + 1 >= MAX_FAILED then Lock(0, Some(t.at + LOCKOUT_SECONDS))
    else Lock(l.failed + 1, None)
  }

  function AfterAll(l: Lock, tries: seq<Try>): Lock {
    if tries == [] then l else After(AfterAll(l, tries[..|tries| - 1]), tries[|tries| - 1])
  }

  // The times at which a wrong password was actually checked.
  function WrongChecks(l: Lock, tries: seq<Try>): seq<int> {
    if tries == [] then []
    else
      var init, t := tries[..|tries| - 1], tries[|tries| - 1];
      WrongChecks(l, init) + if !LockedOut(AfterAll(l, init), t.at) && !t.correct then [t.at] else []
  }

  // No attempt succeeds: every correct password arrives during a lock.
  predicate NoSuccess(l: Lock, tries: seq<Try>) {
    forall i | 0 <= i < |tries| :: tries[i].correct ==> LockedOut(AfterAll(l, tries[..i]), tries[i].at)
  }

  predicate InOrder(tries: seq<Try>) {
    forall i, j | 0 <= i < j < |tries| :: tries[i].at <= tries[j].at
  }

  // Counting from the failures before the run, every fifth wrong check locks, and the next one waits it out.
  predicate Spaced(failed: nat, w: seq<int>) {
    && (forall i, j | 0 <= i < j < |w| :: w[i] <= w[j])
    && (forall m | 0 < m < |w| && (failed + m) % MAX_FAILED == 0 :: w[m - 1] + LOCKOUT_SECONDS <= w[m])
  }

  // The lock is where the wrong checks so far put it.
  predicate LockFollows(l: Lock, w: seq<int>, now: Lock) {
    && now.failed == (l.failed + |w|) % MAX_FAILED
    && (w == [] ==> now == l)
    && (w != [] ==> now.until == if now.failed == 0 then Some(w[|w| - 1] + LOCKOUT_SECONDS) else None)
  }

  lemma NextCount(f: nat, n: nat)
    ensures (f + n + 1) % MAX_FAILED == if (f + n) % MAX_FAILED == MAX_FAILED - 1 then 0 else (f + n) % MAX_FAILED + 1
  {
  }

  // One more wrong check.
  lemma {:induction false} WrongStep(l: Lock, w: seq<int>, lock: Lock, t: Try)
    requires l.failed < MAX_FAILED && Spaced(l.failed, w) && LockFollows(l, w, lock)
    requires !LockedOut(lock, t.at) && !t.correct
    requires forall i | 0 <= i < |w| :: w[i] <= t.at
    ensures Spaced(l.failed, w + [t.at]) && LockFollows(l, w + [t.at], After(lock, t))
  {
    hide Spaced, After, LockedOut;
    CountStep(l, w, lock, t);
    SpacedStep(l, w, lock, t);
  }

  lemma {:induction false} CountStep(l: Lock, w: seq<int>, lock: Lock, t: Try)
    requires l.failed < MAX_FAILED && LockFollows(l, w, lock) && !LockedOut(lock, t.at) && !t.correct
    ensures LockFollows(l, w + [t.at], After(lock, t))
  {
    var f, n := l.failed, |w|;
    NextCount(f, n);
    assert |w + [t.at]| == n + 1 && (w + [t.at])[n] == t.at;
  }

  // A count that has come round to 0 means that the last check locked.
  lemma {:induction false} SpacedStep(l: Lock, w: seq<int>, lock: Lock, t: Try)
    requires l.failed < MAX_FAILED && Spaced(l.failed, w) && LockFollows(l, w, lock) && !LockedOut(lock, t.at)
    requires forall i | 0 <= i < |w| :: w[i] <= t.at
    ensures Spaced(l.failed, w + [t.at])
  {
    var longer := w + [t.at];
    forall m | 0 < m < |longer| && (l.failed + m) % MAX_FAILED == 0
      ensures longer[m - 1] + LOCKOUT_SECONDS <= longer[m]
    {
      if m < |w| { assert w[m - 1] + LOCKOUT_SECONDS <= w[m]; }
    }
  }

  lemma {:induction false} ChecksAreSpaced(l: Lock, tries: seq<Try>)
    requires l.failed < MAX_FAILED && NoSuccess(l, tries) && InOrder(tries)
    ensures Spaced(l.failed, WrongChecks(l, tries)) && LockFollows(l, WrongChecks(l, tries), AfterAll(l, tries))
    ensures forall i | 0 <= i < |WrongChecks(l, tries)| ::
      tries != [] && WrongChecks(l, tries)[i] <= tries[|tries| - 1].at
  {
    hide Spaced, After, LockedOut;
    if tries == [] {
      NoChecks(l);
    } else {
      var init, t := tries[..|tries| - 1], tries[|tries| - 1];
      assert forall i | 0 <= i < |init| :: init[..i] == tries[..i];
      ChecksAreSpaced(l, init);
      var w, lock := WrongChecks(l, init), AfterAll(l, init);
      assert forall i | 0 <= i < |w| :: w[i] <= init[|init| - 1].at <= t.at;
      if LockedOut(lock, t.at) {
        Unchanged(lock, t);
        assert WrongChecks(l, tries) == w + [] == w;
      } else {
        WrongStep(l, w, lock, t);
      }
    }
  }

  lemma NoChecks(l: Lock)
    requires l.failed < MAX_FAILED
    ensures Spaced(l.failed, []) && LockFollows(l, [], l)
  {
  }

  lemma Unchanged(l: Lock, t: Try)
    requires LockedOut(l, t.at)
    ensures After(l, t) == l
  {
  }

  /** Six wrong-password checks with no success among them span at least 900 seconds. */
  lemma {:induction false} SixSpanLockout(l: Lock, tries: seq<Try>, i: nat)
    requires l.failed < MAX_FAILED && NoSuccess(l, tries) && InOrder(tries)
    requires i + 5 < |WrongChecks(l, tries)|
    ensures WrongChecks(l, tries)[i] + 900 <= WrongChecks(l, tries)[i + 5]
  {
    hide WrongChecks, AfterAll, NoSuccess, Spaced;
    ChecksAreSpaced(l, tries);
    SpacedSpans(l.failed, WrongChecks(l, tries), i);
  }

  lemma SpacedSpans(failed: nat, w: seq<int>, i: nat)
    requires Spaced(failed, w) && i + 5 < |w|
    ensures w[i] + 900 <= w[i + 5]
  {
    var m := LockingCheck(failed, i);
    assert w[i] <= w[m - 1] && w[m] <= w[i + 5];
  }

  // One of any five checks locks.
  lemma LockingCheck(failed: nat, i: nat) returns (m: nat)
    ensures i < m <= i + 5 && (failed + m) % MAX_FAILED == 0
  {
    m := i + 5 - (failed + i) % 5;
  }

  // 5 * k + 1 checks span at least k lockouts.
  lemma {:induction false} ManySpan(l: Lock, tries: seq<Try>, i: nat, k: nat)
    requires l.failed < MAX_FAILED && NoSuccess(l, tries) && InOrder(tries)
    requires i + 5 * k < |WrongChecks(l, tries)|
    ensures WrongChecks(l, tries)[i] + 900 * k <= WrongChecks(l, tries)[i + 5 * k]
    decreases k
  {
    hide WrongChecks, NoSuccess;
    if k > 0 {
      ManySpan(l, tries, i, k - 1);
      SixSpanLockout(l, tries, i + 5 * (k - 1));
    }
  }

  /**
   Lockout rate: within `window` seconds, first check to last, at most
   5 * (1 + window / 900) wrong passwords are checked.
   */
  lemma {:induction false} LockoutRate(l: Lock, tries: seq<Try>, i: nat, n: nat, window: nat)
    requires l.failed < MAX_FAILED && NoSuccess(l, tries) && InOrder(tries)
    requires 0 < n && i + n <= |WrongChecks(l, tries)|
    requires WrongChecks(l, tries)[i + n - 1] - WrongChecks(l, tries)[i] <= window
    ensures n <= 5 * (1 + window / 900)
  {
    hide WrongChecks, NoSuccess;
    var w, k := WrongChecks(l, tries), (n - 1) / 5;
    ChecksAreSpaced(l, tries);
    ManySpan(l, tries, i, k);
    assert w[i + 5 * k] <= w[i + n - 1];
    assert 900 * k <= window;
  }

  /* ----- successes included: what is answered, told from what was answered ----- */

  datatype Reply = Accepted | Refused | Shut

  // Shut: the account was shut, or this is the wrong password that shuts it.
  function ReplyTo(l: Lock, t: Try): Reply {
    if LockedOut(l, t.at) then Shut
    else if t.correct then Accepted
    else if After(l, t).until.Some? then Shut
    else Refused
  }

  function Replies(l: Lock, tries: seq<Try>): (rs: seq<Reply>)
    ensures |rs| == |tries|
  {
    if tries == [] then []
    else
      var n := |tries| - 1;
      Replies(l, tries[..n]) + [ReplyTo(AfterAll(l, tries[..n]), tries[n])]
  }

  // How many attempts in a row were refused last.
  function RefusedLast(rs: seq<Reply>): nat {
    if rs == [] || rs[|rs| - 1] != Refused then 0 else 1 + RefusedLast(rs[..|rs| - 1])
  }

  predicate EndsShut(rs: seq<Reply>) { rs != [] && rs[|rs| - 1] == Shut }

  // When the account was shut: the time of the first of the attempts that were answered so last.
  function ShutSince(tries: seq<Try>, rs: seq<Reply>): int
    requires |tries| == |rs| && EndsShut(rs)
  {
    var n := |rs| - 1;
    if EndsShut(rs[..n]) then ShutSince(tries[..n], rs[..n]) else tries[n].at
  }

  // What the promise is, in terms of the attempts and their answers so far: shut for 900 seconds,
  // shut by the fifth wrong password in a row, accepted on the right one.
  function Promised(tries: seq<Try>, rs: seq<Reply>, t: Try): Reply
    requires |tries| == |rs|
  {
    if EndsShut(rs) && t.at < ShutSince(tries, rs) + 900 then Shut
    else if t.correct then Accepted
    else if RefusedLast(rs) == 4 then Shut
    else Refused
  }

  // The lock says no more than the answers do.
  predicate LockTells(l: Lock, tries: seq<Try>, rs: seq<Reply>)
    requires |tries| == |rs|
  {
    && l.failed == RefusedLast(rs) < 5
    && l.until == if EndsShut(rs) then Some(ShutSince(tries, rs) + 900) else None
  }

  lemma {:induction false} ReplyStep(l: Lock, tries: seq<Try>, rs: seq<Reply>, t: Try)
    requires |tries| == |rs| && LockTells(l, tries, rs)
    ensures ReplyTo(l, t) == Promised(tries, rs, t)
    ensures LockTells(After(l, t), tries + [t], rs + [ReplyTo(l, t)])
  {
    assert (tries + [t])[..|tries|] == tries && (rs + [ReplyTo(l, t)])[..|rs|] == rs;
  }

  lemma {:induction false} LockToldByReplies(tries: seq<Try>)
    ensures LockTells(AfterAll(Lock(0, None), tries), tries, Replies(Lock(0, None), tries))
  {
    hide ReplyTo, After;
    if tries != [] {
      var n := |tries| - 1;
      LockToldByReplies(tries[..n]);
      ReplyStep(AfterAll(Lock(0, None), tries[..n]), tries[..n], Replies(Lock(0, None), tries[..n]), tries[n]);
      assert tries[..n] + [tries[n]] == tries;
    }
  }

  /**
   What every attempt is answered, successes included. From a fresh account on, an attempt is
   shut out for 900 seconds after the attempt that shut the account; otherwise the right password
   is accepted, and a wrong one refused, unless it is the fifth in a row, which shuts the account.
   A success therefore starts the count anew.
   */
  lemma {:induction false} RepliesArePromised(tries: seq<Try>, j: nat)
    requires j < |tries|
    ensures var rs := Replies(Lock(0, None), tries); rs[j] == Promised(tries[..j], rs[..j], tries[j])
  {
    hide ReplyTo, After, Promised, LockTells;
    RepliesPrefix(Lock(0, None), tries, j);
    RepliesPrefix(Lock(0, None), tries, j + 1);
    var init := tries[..j];
    assert tries[..j + 1][..j] == init;
    LockToldByReplies(init);
    ReplyStep(AfterAll(Lock(0, None), init), init, Replies(Lock(0, None), init), tries[j]);
  }

  lemma {:induction false} RepliesPrefix(l: Lock, tries: seq<Try>, j: nat)
    requires j <= |tries|
    ensures Replies(l, tries)[..j] == Replies(l, tries[..j])
    decreases |tries|
  {
    hide ReplyTo, AfterAll;
    if j == |tries| {
      assert tries[..j] == tries;
    } else {
      var n := |tries| - 1;
      RepliesPrefix(l, tries[..n], j);
      assert tries[..n][..j] == tries[..j];
    }
  }
}
