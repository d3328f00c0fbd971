/**
 Where the log's promises end: short honest runs, with nothing tampered with, on which its
 checks fail, and the loss that one prune at a time avoids.
 */
module AuditLimits {
  import opened Wrappers
  import opened EventChain
  import opened EventStore
  import opened TextOrder
  import opened Anchor
  import opened AuditTrail

  lemma StartReachable(k: Keys)
    ensures Reachable(k, Init([]))
  {
    assert IsLog(k, []) && Run(k, [], []) == Some(Init([]));
  }

  lemma StepReachable(k: Keys, s: System, step: Step)
    requires Reachable(k, s) && Enabled(s, step)
    ensures Reachable(k, AuditTrail.Apply(k, s, step))
  {
    hide Ready, StillHolds, AuditTrail.Apply;
    var log, steps :| IsLog(k, log) && Run(k, log, steps) == Some(s);
    assert (steps + [step])[..|steps|] == steps;
    assert Run(k, log, steps + [step]) == Some(AuditTrail.Apply(k, s, step));
  }

  // One writer locks, reads the tip, inserts and commits.
  function Logged(k: Keys, s: System, f: Fields, at: int): System {
    var row := NewRow(k.H, LastHash(s.store), f, NextRowid(s.store.events), at);
    s.(store := s.store.(events := s.store.events + [row]), history := s.history + [row])
  }

  lemma WriteReachable(k: Keys, s: System, f: Fields, at: int)
    requires Reachable(k, s) && s.txn.None?
    ensures Reachable(k, Logged(k, s, f, at))
  {
    hide NewRow, NextRowid, StartHash, Tip;
    assert s.store.events + [] == s.store.events;
    var a := AuditTrail.Apply(k, s, Begin(0));
    StepReachable(k, s, Begin(0));
    var b := AuditTrail.Apply(k, a, ReadTip(0));
    StepReachable(k, a, ReadTip(0));
    var c := AuditTrail.Apply(k, b, Insert(0, f, at));
    StepReachable(k, b, Insert(0, f, at));
    StepReachable(k, c, Commit(0));
    assert [] + [NewRow(k.H, LastHash(s.store), f, NextRowid(s.store.events), at)]
      == [NewRow(k.H, LastHash(s.store), f, NextRowid(s.store.events), at)];
  }

  // One writer reads the tip and the file, signs and appends.
  function Signed(k: Keys, s: System, at: string): System {
    var draft := Draft(NewCheckpoint(k, s.file, s.store, at), |s.history|, s.pruned, |s.file|);
    s.(drafts := s.drafts + [draft], file := s.file + [draft.cp], anchored := s.anchored + [draft.upTo],
      gone := s.gone + [draft.gone])
  }

  lemma SignReachable(k: Keys, s: System, at: string)
    requires Reachable(k, s)
    ensures Reachable(k, Signed(k, s, at))
  {
    hide NewCheckpoint, Reachable;
    var a := AuditTrail.Apply(k, s, AnchorRead(at));
    StepReachable(k, s, AnchorRead(at));
    StepReachable(k, a, AnchorAppend(|s.drafts|));
  }

  /** An event is logged, its tip signed and the event pruned when it is old enough: the anchor check fails. */
  lemma {:induction false} PrunedAnchorRejected(k: Keys, f: Fields, at: int, signedAt: string, cutoff: string)
      returns (s: System)
    requires Digests(k.H) && Before(f.occurredAt, cutoff)
    ensures Reachable(k, s) && |s.history| == 1 && |s.file| == 1 && Verifies(k.H, s.store)
    ensures !AgainstEvents(k, s.file, s.store)
  {
    hide Before, ChainText, CheckpointText, Logged, StalePrefix, Reachable, NewRow;
    StartReachable(k);
    WriteReachable(k, Init([]), f, at);
    var logged := Logged(k, Init([]), f, at);
    var row := OneLogged(k, f, at);
    var signed := Signed(k, logged, signedAt);
    SignReachable(k, logged, signedAt);
    StalePrefixLongest([row], cutoff, 1);
    var scanned := Scanned(signed, 1);
    ScanReachable(k, signed, cutoff, 1);
    ScanFits(signed, 1);
    s := CommitJob(scanned, 0);
    CommitReachable(k, scanned, 0);
    DeleteFromOne(row, 1);
    NothingVerifies(k, s.store);
  }

  lemma OneLogged(k: Keys, f: Fields, at: int) returns (row: Row)
    requires Digests(k.H)
    ensures var s := Logged(k, Init([]), f, at);
      && s.store == Store([row], []) && s.history == [row] && s.pruned == 0
      && s.jobs == [] && s.txn == None && s.file == []
    ensures row.rowid == 1 && row.fields == f && IsDigest(row.contentHash)
  {
    hide ChainText;
    row := Logged(k, Init([]), f, at).store.events[0];
  }

  lemma ReplaySwaps(first: Row, second: Row)
    requires second.createdAt < first.createdAt
    ensures ReplayOrder([first, second]) == [second, first]
  {
    assert [first][..0] == [] && [first, second][..1] == [first];
    assert ReplayOrder([first]) == [first];
    assert InsertByCreatedAt([], second) == [second];
    assert InsertByCreatedAt([first], second) == [second] + [first];
  }

  /**
   Two events are logged while the clock steps back a second: replay fails, unless two different
   texts share a hash.
   */
  lemma {:induction false} SteppedBackClockRejected(k: Keys, f: Fields, g: Fields, at: int) returns (s: System)
    requires Digests(k.H)
    ensures Reachable(k, s) && |s.history| == 2 && s.store.events == s.history
    ensures
      || !Verifies(k.H, s.store)
      || (ChainText(GENESIS, "v2", g) != ChainText(s.history[0].contentHash, "v2", g)
          && k.H(ChainText(GENESIS, "v2", g)) == k.H(ChainText(s.history[0].contentHash, "v2", g)))
  {
    hide ChainText;
    StartReachable(k);
    WriteReachable(k, Init([]), f, at);
    var one := Logged(k, Init([]), f, at);
    WriteReachable(k, one, g, at - 1);
    s := Logged(k, one, g, at - 1);
    var first, second := s.history[0], s.history[1];
    assert s.store.events == [first, second];
    ReplaySwaps(first, second);
    assert first.contentHash != GENESIS by { assert IsDigest(first.contentHash); }
    ChainTextInjective(GENESIS, "v2", g, first.contentHash, "v2", g);
    if Verifies(k.H, s.store) {
      assert Chained(k.H, GENESIS, [second, first]);
      assert GoodAt(k.H, GENESIS, [second, first], 0);
    }
  }

  /* ----- prunes that no longer fit ----- */

  /**
   What a commit that does not fit does, unless hashed texts collide. If it leaves rows, replay
   fails from then on; if it leaves none, the tip goes back and the events after it are lost.
   */
  lemma {:induction false} MisfitShows(k: Keys, s: System, j: nat)
    requires Digests(k.H) && Inv(k, s) && s.txn.None? && j < |s.jobs| && !Fits(s.store, s.jobs[j])
    ensures var t := CommitJob(s, j);
      || Collides(k, t)
      || if t.store.events != [] then !Verifies(k.H, t.store)
         else LastHash(t.store) != Tip(GENESIS, t.history) && s.jobs[j].upTo < |t.history|
  {
    hide Inv, Fits, CommitJob, Collides, TableIsSuffix, Tip, StartHash, Verifies, CollisionBetween, RowTexts, Chained,
      Digests, JobOk;
    var t, job := CommitJob(s, j), s.jobs[j];
    var m := CommitMoves(k, s, j);
    JobInHistory(k, s, j);
    JobRange(s, job);
    if !Collides(k, t) {
      NoCollisionParts(k, t, 0);
      CommitKeepsIffFits(k, s, j);
      LandsElsewhere(k, s, t, j);
      if t.store.events == [] {
        EmptyTip(t.store);
        assert t.history[..|t.history|] == t.history;
        if Tip(GENESIS, t.history[..job.upTo]) == Tip(GENESIS, t.history) {
          TipsDistinct(k.H, t.history, job.upTo, |t.history|);
        }
      } else if Verifies(k.H, t.store) {
        ReplayStartsThere(k, t, job.upTo);
      }
    }
  }

  lemma JobRange(s: System, job: PruneJob)
    requires JobOk(s, job)
    ensures 0 < job.upTo <= |s.history|
  {
  }

  lemma EmptyTip(s: Store)
    requires s.events == []
    ensures LastHash(s) == StartHash(s)
  {
  }

  lemma LandsElsewhere(k: Keys, s: System, t: System, j: nat)
    requires j < |s.jobs| && t == CommitJob(s, j) && !Fits(s.store, s.jobs[j]) && t.history == s.history
    requires t.pruned == s.jobs[j].upTo ==> TableIsSuffix(t)
    requires TableIsSuffix(t) ==> Fits(s.store, s.jobs[j]) || HistoryCollides(k, s)
    requires !CollisionBetween(k.H, RowTexts(GENESIS, t.history), RowTexts(GENESIS, t.history))
    ensures t.pruned != s.jobs[j].upTo
  {
  }

  // A replay that starts after n rows of the history and succeeds has a table that starts there.
  lemma {:induction false} ReplayStartsThere(k: Keys, t: System, n: nat)
    requires Digests(k.H) && TableIsRest(t) && t.store.events != [] && Chained(k.H, GENESIS, t.history)
    requires !Collides(k, t) && Verifies(k.H, t.store)
    requires n <= |t.history| && StartHash(t.store) == Tip(GENESIS, t.history[..n])
    ensures t.pruned == n
  {
    hide Collides, Tip, StartHash, CollisionBetween, RowTexts, Chained, Digests, ReplayOrder, SameRow;
    var rows := ReplayOrder(t.store.events);
    var j := LastReplayed(t);
    ReplayIsSuffix(k, t, j);
    NoCollisionParts(k, t, 0);
    var upTo := t.history[..j + 1];
    var from := |upTo| - |rows|;
    assert upTo[..from] == t.history[..from];
    TipsDistinct(k.H, t.history, from, n);
    assert n <= t.pruned;
    SameHashes(rows, upTo[from..], 0);
    ReplayOrderSorts(t.store.events);
    assert rows[0] in multiset(rows);
    var i :| 0 <= i < |t.store.events| && t.store.events[i] == rows[0];
    RowsDistinct(k, t.history, t.pruned + i, n);
  }

  lemma DeleteFromOne(r: Row, n: nat)
    ensures DeleteThrough([r], n) == if r.rowid <= n then [] else [r]
  {
    assert [r][1..] == [];
  }

  lemma OnePruned(b: System, first: Row)
    requires b.store.events == [first] == b.history && first.rowid == 1 && |b.jobs| == 2 && b.jobs[1].through == 1
    ensures var c := CommitJob(b, 1);
      c.store.events == [] && c.history == b.history && c.jobs == [b.jobs[0]] && c.txn == b.txn
  {
    DeleteFromOne(first, 1);
  }

  lemma LoggedAfter(k: Keys, s: System, f: Fields, at: int)
    requires s.store.events == []
    ensures var t := Logged(k, s, f, at);
      && t.jobs == s.jobs && t.txn == s.txn && |t.history| == |s.history| + 1 && t.history[..|s.history|] == s.history
      && t.store.events == [t.history[|s.history|]]
      && t.history[|s.history|].fields == f && t.history[|s.history|].rowid == 1
  {
    hide ChainHash, Tip, StartHash;
  }

  // Two prunes read the one event there is; one commits; a second event takes the first one's rowid.
  lemma {:induction false} TwoPrunesOfOne(k: Keys, f: Fields, g: Fields, at: int, cutoff: string) returns (s: System)
    requires Digests(k.H) && Before(f.occurredAt, cutoff)
    ensures Reachable(k, s) && s.txn.None? && |s.jobs| == 1 && |s.history| == 2
    ensures s.store.events == s.history[1..] && s.store.events[0].fields == g && s.store.events[0].rowid == 1
    ensures s.jobs[0].through == 1 && s.jobs[0].mark.chainTipHash == s.history[0].contentHash
  {
    hide Before, ChainText, Logged, CommitPrune, StalePrefix, Reachable, Fits;
    var empty := Init([]);
    StartReachable(k);
    WriteReachable(k, empty, f, at);
    var one := Logged(k, empty, f, at);
    var first := OneLogged(k, f, at);
    StalePrefixLongest([first], cutoff, 1);
    var a := Scanned(one, 1);
    ScanReachable(k, one, cutoff, 1);
    var b := Scanned(a, 1);
    ScanReachable(k, a, cutoff, 1);
    ScanFits(a, 1);
    var c := CommitJob(b, 1);
    CommitReachable(k, b, 1);
    OnePruned(b, first);
    WriteReachable(k, c, g, at);
    s := Logged(k, c, g, at);
    LoggedAfter(k, c, g, at);
  }

  /** The second of two prunes deletes an event it never read: replay succeeds and no later tip knows of that event. */
  lemma {:induction false} SecondPruneLosesAnEvent(k: Keys, f: Fields, g: Fields, at: int, cutoff: string)
      returns (s: System)
    requires Digests(k.H) && Before(f.occurredAt, cutoff)
    ensures Reachable(k, s) && s.txn.None? && |s.jobs| == 1 && |s.history| == 2 && s.history[1].fields == g
    ensures Fits(s.store, s.jobs[0]) ==> HistoryCollides(k, s)
    ensures var t := CommitJob(s, 0);
      t.store.events == [] && Verifies(k.H, t.store) && LastHash(t.store) == s.history[0].contentHash
  {
    hide Before, ChainText, NewRow, ChainHash, CollisionBetween, RowTexts, Chained, Inv, Reachable;
    s := TwoPrunesOfOne(k, f, g, at, cutoff);
    EveryRunKeepsTheLog(k, s);
    DigestNotEmpty(k, s.history, 1);
    assert s.store.events == [s.history[1]];
    DeleteFromOne(s.history[1], 1);
    NothingVerifies(k, CommitJob(s, 0).store);
    if Fits(s.store, s.jobs[0]) && !HistoryCollides(k, s) {
      TipsDistinct(k.H, s.history, 1, 2);
    }
  }

  lemma NothingVerifies(k: Keys, s: Store)
    requires s.events == []
    ensures Verifies(k.H, s)
  {
  }

  lemma DigestNotEmpty(k: Keys, history: seq<Row>, n: nat)
    requires Digests(k.H) && Chained(k.H, GENESIS, history) && 0 < n <= |history|
    ensures IsDigest(history[n - 1].contentHash)
    ensures Tip(GENESIS, history[..n]) == history[n - 1].contentHash
  {
    hide ChainText;
    assert GoodAt(k.H, GENESIS, history, n - 1);
  }

  // Of three events one prune read one and another two; the other has committed.
  lemma {:induction false} ShorterScanWaits(k: Keys, fs: seq<Fields>, at: int, early: string, late: string)
      returns (s: System)
    requires Digests(k.H) && |fs| == 3
    requires Before(fs[0].occurredAt, early) && !Before(fs[1].occurredAt, early)
    requires Before(fs[0].occurredAt, late) && Before(fs[1].occurredAt, late) && !Before(fs[2].occurredAt, late)
    ensures Reachable(k, s) && s.txn.None? && |s.jobs| == 1 && |s.history| == 3
    ensures s.store.events == s.history[2..] && s.store.events[0].rowid == 3
    ensures s.jobs[0].through == 1 && s.jobs[0].mark.chainTipHash == s.history[0].contentHash
    ensures StartHash(s.store) == s.history[1].contentHash
  {
    hide Before, Logged, CommitPrune, StalePrefix, Enabled, Reachable, NextRowid, Tip, StartHash;
    var three := ThreeReachable(k, fs, at);
    StalePrefixLongest(three.store.events, early, 1);
    StalePrefixLongest(three.store.events, late, 2);
    var a := Scanned(three, 1);
    ScanReachable(k, three, early, 1);
    var b := Scanned(a, 2);
    ScanReachable(k, a, late, 2);
    s := CommitJob(b, 1);
    assert Fits(b.store, b.jobs[1]) by { ScanFits(a, 2); }
    CommitReachable(k, b, 1);
    TwoPruned(k, b, s);
  }

  // The prune's reading half, when the longest stale prefix has n rows.
  function Scanned(s: System, n: nat): System
    requires 0 < n <= |s.store.events|
  {
    s.(jobs := s.jobs +
      [PruneJob(s.store.events[n - 1].rowid, MarkFor(s.store.events, n), s.pruned + n, |s.store.marks|)])
  }

  lemma ScanReachable(k: Keys, s: System, cutoff: string, n: nat)
    requires Reachable(k, s) && 0 < n <= |s.store.events| && n == StalePrefix(s.store.events, cutoff)
    ensures Reachable(k, Scanned(s, n))
  {
    hide StalePrefix, Reachable, MarkFor;
    StepReachable(k, s, PruneScan(cutoff));
  }

  lemma ScanFits(s: System, n: nat)
    requires 0 < n <= |s.store.events|
    ensures Fits(Scanned(s, n).store, Scanned(s, n).jobs[|s.jobs|])
  {
    assert IsJobRow(s.store.events[n - 1], Scanned(s, n).jobs[|s.jobs|]);
  }

  lemma CommitReachable(k: Keys, s: System, j: nat)
    requires Reachable(k, s) && s.txn.None? && j < |s.jobs| && Fits(s.store, s.jobs[j])
    ensures Reachable(k, CommitJob(s, j))
  {
    hide Reachable, Fits, CommitJob;
    StepReachable(k, s, PruneCommit(j));
  }

  lemma LoggedIdle(k: Keys, s: System, f: Fields, at: int)
    ensures Logged(k, s, f, at).txn == s.txn
  {
  }

  lemma {:induction false} ThreeReachable(k: Keys, fs: seq<Fields>, at: int) returns (s: System)
    requires |fs| == 3
    ensures Reachable(k, s)
    ensures s.history == s.store.events && |s.history| == 3 && s.jobs == [] && s.txn.None? && s.pruned == 0
    ensures s.store.marks == []
    ensures forall i | 0 <= i < 3 :: s.history[i].rowid == i + 1 && s.history[i].fields == fs[i]
  {
    hide Reachable, Logged;
    StartReachable(k);
    WriteReachable(k, Init([]), fs[0], at);
    var one := Logged(k, Init([]), fs[0], at);
    LoggedIdle(k, Init([]), fs[0], at);
    WriteReachable(k, one, fs[1], at);
    var two := Logged(k, one, fs[1], at);
    LoggedIdle(k, one, fs[1], at);
    WriteReachable(k, two, fs[2], at);
    s := Logged(k, two, fs[2], at);
    ThreeRows(k, fs, at, s);
  }

  lemma {:induction false} TwoPruned(k: Keys, b: System, s: System)
    requires Digests(k.H) && Reachable(k, s) && |b.jobs| == 2 && s == CommitJob(b, 1)
    requires b.history == b.store.events && |b.history| == 3
    requires forall i | 0 <= i < 3 :: b.history[i].rowid == i + 1
    requires b.jobs[1].through == 2 && b.jobs[1].mark.chainTipHash == b.history[1].contentHash
    ensures s.store.events == s.history[2..] && s.history == b.history && s.jobs == [b.jobs[0]]
    ensures StartHash(s.store) == s.history[1].contentHash
  {
    hide Reachable, Inv, Chained, Digests;
    EveryRunKeepsTheLog(k, s);
    DigestNotEmpty(k, s.history, 2);
    DeleteThroughPrefix(b.store.events, 2);
  }

  lemma ThreeRows(k: Keys, fs: seq<Fields>, at: int, s: System)
    requires |fs| == 3
    requires s == Logged(k, Logged(k, Logged(k, Init([]), fs[0], at), fs[1], at), fs[2], at)
    ensures s.history == s.store.events && |s.history| == 3 && s.jobs == [] && s.txn.None? && s.pruned == 0
    ensures s.store.marks == []
    ensures forall i | 0 <= i < 3 :: s.history[i].rowid == i + 1 && s.history[i].fields == fs[i]
  {
    hide ChainHash, Tip, StartHash;
  }

  /** When the prune that read less commits last, replay fails although nothing was tampered with. */
  lemma {:induction false} ShorterScanBreaksReplay(k: Keys, fs: seq<Fields>, at: int, early: string, late: string)
      returns (s: System)
    requires Digests(k.H) && |fs| == 3
    requires Before(fs[0].occurredAt, early) && !Before(fs[1].occurredAt, early)
    requires Before(fs[0].occurredAt, late) && Before(fs[1].occurredAt, late) && !Before(fs[2].occurredAt, late)
    ensures Reachable(k, s) && s.txn.None? && |s.jobs| == 1 && |s.history| == 3
    ensures var t := CommitJob(s, 0);
      t.store.events == s.history[2..] && (!Verifies(k.H, t.store) || Collides(k, t))
  {
    hide Before, Collides, Chained, Inv, Reachable, Verifies;
    s := ShorterScanWaits(k, fs, at, early, late);
    EveryRunKeepsTheLog(k, s);
    var t := CommitJob(s, 0);
    DeleteFromOne(s.history[2], 1);
    assert s.store.events == [s.history[2]];
    if !Collides(k, t) {
      NoCollisionParts(k, t, 0);
      DigestNotEmpty(k, s.history, 1);
      DigestNotEmpty(k, s.history, 2);
      if Fits(s.store, s.jobs[0]) { TipsDistinct(k.H, s.history, 1, 2); }
      MisfitShows(k, s, 0);
    }
  }

  /* ----- markers and checkpoints whose reads no longer hold ----- */

  lemma Reads(k: Keys, s: System, t: System)
    requires Reachable(k, s) && t == s.(tips := s.tips + [LastHash(s.store)])
    ensures Reachable(k, t)
  {
    hide Reachable, Tip, StartHash;
    StepReachable(k, s, MarkerRead);
  }

  /** An event is committed between a gap marker's read and its insert: replay fails, with nothing tampered with. */
  lemma {:induction false} StaleMarkerBreaksReplay(k: Keys, f: Fields, g: Fields, marker: Fields, at: int)
      returns (s: System)
    requires Digests(k.H)
    ensures Reachable(k, s) && s.txn.None? && |s.tips| == 1 && |s.history| == 2 && s.tips[0] == s.history[0].contentHash
    ensures
      || !Verifies(k.H, InsertMarker(k, s, 0, marker, at).store)
      || MarkerCollides(k, s, 0, marker) || HistoryCollides(k, s)
  {
    hide Reachable, ChainText, NewRow, Verifies, Inv, Chained, CollisionBetween, RowTexts, MarkerCollides;
    StartReachable(k);
    WriteReachable(k, Init([]), f, at);
    var one := Logged(k, Init([]), f, at);
    var row := OneLogged(k, f, at);
    var read := one.(tips := [row.contentHash]);
    Reads(k, one, read);
    WriteReachable(k, read, g, at);
    s := Logged(k, read, g, at);
    EveryRunKeepsTheLog(k, s);
    DigestNotEmpty(k, s.history, 1);
    DigestNotEmpty(k, s.history, 2);
    assert s.history[..2] == s.history;
    SameClock(k, f, g, marker, s, at);
    MarkerKeepsIff(k, s, 0, marker, at);
    if s.tips[0] == LastHash(s.store) && !HistoryCollides(k, s) { TipsDistinct(k.H, s.history, 1, 2); }
  }

  lemma SameClock(k: Keys, f: Fields, g: Fields, marker: Fields, s: System, at: int)
    requires |s.tips| == 1 && s == Logged(k, Logged(k, Init([]), f, at).(tips := s.tips), g, at)
    ensures ClockOrdered(InsertMarker(k, s, 0, marker, at).store.events)
  {
    hide ChainHash, Tip, StartHash;
  }

  /** Two writers read the file, both sign and both append: the file fails its check. */
  lemma {:induction false} SecondSignerBreaksFile(k: Keys, first: string, second: string) returns (s: System)
    requires Digests(k.H)
    ensures Reachable(k, s) && |s.drafts| == 2 && s.file == [s.drafts[0].cp]
    ensures !FileValid(k, AppendDraft(s, 1).file)
  {
    hide Reachable, CheckpointText, FileValid;
    StartReachable(k);
    var a := AuditTrail.Apply(k, Init([]), AnchorRead(first));
    StepReachable(k, Init([]), AnchorRead(first));
    var b := AuditTrail.Apply(k, a, AnchorRead(second));
    StepReachable(k, a, AnchorRead(second));
    s := AuditTrail.Apply(k, b, AnchorAppend(0));
    StepReachable(k, b, AnchorAppend(0));
    assert IsDigest(s.drafts[0].cp.checkpointHash);
    if FileValid(k, AppendDraft(s, 1).file) { LastFollows(k, s.file, s.drafts[1].cp); }
  }
}
