/**
 The log under concurrent use, as a state machine: writers that lock, read the tip, insert
 and commit or roll back; gap markers, prunes and signed checkpoints, any number of each in
 flight, their reading and writing halves apart. `history` keeps every row ever committed. A
 second half may run in any state. The invariant is about runs in which it does so only where
 what its first half read still holds, and `CommitKeepsIffFits`, `MarkerKeepsIff` and
 `AppendKeepsIff` say that these are exactly the runs in which log and file are kept.
 */
module AuditTrail {
  import opened Wrappers
  import opened EventChain
  import opened EventStore
  import opened Anchor

  // The open write transaction: its rows, and the tip its writer read, if it has read one.
  datatype Txn = Txn(writer: int, rows: seq<Row>, tip: Option<string>)

  // A prune between its halves. upTo: the rows of the history up to the last one it read.
  // since: how many prunes had committed when it read.
  datatype PruneJob = PruneJob(through: nat, mark: PruneMark, upTo: nat, since: nat)

  // A checkpoint signed and not yet appended. upTo: the rows of the history when it read the tip.
  // gone: those of them that were pruned. after: the entries of the file when it read that.
  datatype Draft = Draft(cp: Checkpoint, upTo: nat, gone: nat, after: nat)

  // tips: those read for gap markers.
  datatype System = System(
    store: Store, txn: Option<Txn>, jobs: seq<PruneJob>, file: seq<Checkpoint>,
    history: seq<Row>, pruned: nat, anchored: seq<nat>, gone: seq<nat>, tips: seq<string>, drafts: seq<Draft>)

  datatype Step =
    | Begin(writer: int)
    | ReadTip(writer: int)
    | Insert(writer: int, fields: Fields, createdAt: int)
    | Commit(writer: int)
    | Rollback(writer: int)
    | MarkerRead
    | MarkerInsert(read: nat, marker: Fields, createdAt: int)
    | PruneScan(cutoff: string)
    | PruneCommit(job: nat)
    | AnchorRead(signedAt: string)
    | AnchorAppend(draft: nat)

  // A log to start from: empty, or written before, by this version or the one that hashed fewer columns.
  predicate IsLog(k: Keys, rows: seq<Row>) { Chained(k.H, GENESIS, rows) && Increasing(rows) }

  function Init(log: seq<Row>): System { System(Store(log, []), None, [], [], log, 0, [], [], [], []) }

  predicate Holds(s: System, writer: int) { s.txn.Some? && s.txn.value.writer == writer }

  // The step can run: a lock is free or held as it must be, and a second half had its first.
  predicate Ready(s: System, step: Step) {
    match step
    case Begin(_) => s.txn.None?
    case ReadTip(w) => Holds(s, w)
    case Insert(w, _, _) => Holds(s, w) && s.txn.value.tip.Some?
    case Commit(w) => Holds(s, w)
    case Rollback(w) => Holds(s, w)
    case MarkerRead => true
    case MarkerInsert(r, _, _) => s.txn.None? && r < |s.tips|
    case PruneScan(_) => true
    case PruneCommit(j) => s.txn.None? && j < |s.jobs|
    case AnchorRead(_) => true
    case AnchorAppend(d) => d < |s.drafts|
  }

  // What the first half read still holds.
  predicate StillHolds(s: System, step: Step)
    requires Ready(s, step)
  {
    match step
    case MarkerInsert(r, _, _) => s.tips[r] == LastHash(s.store)
    case PruneCommit(j) => Fits(s.store, s.jobs[j])
    case AnchorAppend(d) => s.drafts[d].after == |s.file|
    case _ => true
  }

  predicate Enabled(s: System, step: Step) { Ready(s, step) && StillHolds(s, step) }

  // What a caller can check inside the write transaction: the last row it read is still there,
  // or was the last one pruned and no row it would delete is left.
  predicate Fits(s: Store, job: PruneJob) {
    || (exists i :: 0 <= i < |s.events| && IsJobRow(s.events[i], job))
    || (StartHash(s) == job.mark.chainTipHash && forall i | 0 <= i < |s.events| :: job.through < s.events[i].rowid)
  }

  predicate IsJobRow(r: Row, job: PruneJob) { r.rowid == job.through && r.contentHash == job.mark.chainTipHash }

  // The transaction with one more row, after the tip its writer read.
  function WithRow(k: Keys, events: seq<Row>, t: Txn, f: Fields, at: int): Txn
    requires t.tip.Some?
  {
    Txn(t.writer, t.rows + [NewRow(k.H, t.tip.value, f, NextRowid(events + t.rows), at)], None)
  }

  // The reading half of a prune.
  function Scan(s: System, cutoff: string): System {
    var n := StalePrefix(s.store.events, cutoff);
    if n == 0 then s
    else
      var job := PruneJob(s.store.events[n - 1].rowid, MarkFor(s.store.events, n), s.pruned + n, |s.store.marks|);
      s.(jobs := s.jobs + [job])
  }

  // The writing half of a prune, as it runs in any state.
  function CommitJob(s: System, j: nat): System
    requires j < |s.jobs|
  {
    var after := CommitPrune(s.store, s.jobs[j].through, s.jobs[j].mark);
    s.(store := after, pruned := s.pruned + Deleted(s, j), jobs := s.jobs[..j] + s.jobs[j + 1..])
  }

  // The writing half of a gap marker, as it runs in any state.
  function InsertMarker(k: Keys, s: System, read: nat, marker: Fields, at: int): System
    requires read < |s.tips|
  {
    var row := NewRow(k.H, s.tips[read], marker, NextRowid(s.store.events), at);
    s.(store := s.store.(events := s.store.events + [row]), history := s.history + [row])
  }

  // The writing half of a checkpoint, as it runs in any state.
  function AppendDraft(s: System, d: nat): System
    requires d < |s.drafts|
  {
    var draft := s.drafts[d];
    s.(file := s.file + [draft.cp], anchored := s.anchored + [draft.upTo], gone := s.gone + [draft.gone])
  }

  function Deleted(s: System, j: nat): nat
    requires j < |s.jobs|
  {
    DeleteShrinks(s.store.events, s.jobs[j].through);
    |s.store.events| - |DeleteThrough(s.store.events, s.jobs[j].through)|
  }

  lemma DeleteShrinks(rows: seq<Row>, n: nat)
    ensures |DeleteThrough(rows, n)| <= |rows|
  {
  }

  function CommitRows(s: System, rows: seq<Row>): System {
    s.(store := s.store.(events := s.store.events + rows), history := s.history + rows, txn := None)
  }

  // The reading half of a checkpoint, signed.
  function Prepare(k: Keys, s: System, at: string): System {
    s.(drafts := s.drafts + [Draft(NewCheckpoint(k, s.file, s.store, at), |s.history|, s.pruned, |s.file|)])
  }

  function Read(s: System): System
    requires s.txn.Some?
  {
    var t := s.txn.value;
    s.(txn := Some(t.(tip := Some(Tip(StartHash(s.store), s.store.events + t.rows)))))
  }

  function Apply(k: Keys, s: System, step: Step): System
    requires Ready(s, step)
  {
    match step
    case Begin(w) => s.(txn := Some(Txn(w, [], None)))
    case ReadTip(_) => Read(s)
    case Insert(_, f, at) => s.(txn := Some(WithRow(k, s.store.events, s.txn.value, f, at)))
    case Commit(_) => CommitRows(s, s.txn.value.rows)
    case Rollback(_) => s.(txn := None)
    case MarkerRead => s.(tips := s.tips + [LastHash(s.store)])
    case MarkerInsert(r, f, at) => InsertMarker(k, s, r, f, at)
    case PruneScan(cutoff) => Scan(s, cutoff)
    case PruneCommit(j) => CommitJob(s, j)
    case AnchorRead(at) => Prepare(k, s, at)
    case AnchorAppend(d) => AppendDraft(s, d)
  }

  // The state after a run, None if some step was not enabled.
  function Run(k: Keys, log: seq<Row>, steps: seq<Step>): Option<System> {
    if steps == [] then Some(Init(log))
    else
      match Run(k, log, steps[..|steps| - 1])
      case None => None
      case Some(s) =>
        if Enabled(s, steps[|steps| - 1]) then Some(Apply(k, s, steps[|steps| - 1])) else None
  }

  ghost predicate Reachable(k: Keys, s: System) { exists log, steps :: IsLog(k, log) && Run(k, log, steps) == Some(s) }

  /* ----- what every step keeps ----- */

  function OpenRows(s: System): seq<Row> { if s.txn.None? then [] else s.txn.value.rows }

  // The table is the history after the pruned rows ...
  predicate TableIsRest(s: System) { s.pruned <= |s.history| && s.store.events == s.history[s.pruned..] }

  // ... and replay starts where they ended.
  predicate TableIsSuffix(s: System) {
    TableIsRest(s) && StartHash(s.store) == Tip(GENESIS, s.history[..s.pruned])
  }

  predicate TxnOk(s: System) {
    s.txn.Some? && s.txn.value.tip.Some? ==> s.txn.value.tip.value == Tip(GENESIS, s.history + OpenRows(s))
  }

  // What a prune in flight read is in the history; unless another prune has committed since, it
  // is a prefix of the table.
  predicate JobOk(s: System, job: PruneJob) {
    && 0 < job.upTo <= |s.history| && IsJobRow(s.history[job.upTo - 1], job)
    && job.since <= |s.store.marks|
    && (job.since == |s.store.marks| ==> s.pruned < job.upTo <= s.pruned + |s.store.events|)
  }

  predicate JobsOk(s: System) { forall j | 0 <= j < |s.jobs| :: JobOk(s, s.jobs[j]) }

  predicate AnchorsOk(k: Keys, s: System) {
    && |s.anchored| == |s.file| == |s.gone|
    && Written(k, s.file)
    && forall i | 0 <= i < |s.file| :: AnchorOk(s, i)
  }

  predicate AnchorOk(s: System, i: nat)
    requires i < |s.file| == |s.anchored| == |s.gone|
  {
    && s.anchored[i] <= |s.history| && s.file[i].chainTipHash == Tip(GENESIS, s.history[..s.anchored[i]])
    && s.gone[i] <= s.anchored[i] && s.file[i].eventCount == s.anchored[i] - s.gone[i]
  }

  // What a draft records was true of the log and of the file when it read them.
  predicate DraftOk(k: Keys, s: System, d: Draft) {
    && d.gone <= d.upTo && d.cp.eventCount == d.upTo - d.gone
    && d.upTo <= |s.history| && d.cp.chainTipHash == Tip(GENESIS, s.history[..d.upTo])
    && d.after <= |s.file| && d.cp.seqNo == d.after && d.cp.prevCheckpointHash == PrevHash(s.file[..d.after])
    && d.cp.checkpointHash == k.H(CheckpointText(d.cp)) && d.cp.signature == k.sign(d.cp.checkpointHash)
  }

  predicate DraftsOk(k: Keys, s: System) { forall d | 0 <= d < |s.drafts| :: DraftOk(k, s, s.drafts[d]) }

  predicate Inv(k: Keys, s: System) {
    && TableIsSuffix(s)
    && Chained(k.H, GENESIS, s.history + OpenRows(s))
    && Increasing(s.store.events + OpenRows(s))
    && TxnOk(s)
    && JobsOk(s)
    && AnchorsOk(k, s)
    && DraftsOk(k, s)
  }

  lemma IncreasingAppend(rows: seq<Row>, r: Row)
    requires Increasing(rows) && r.rowid == NextRowid(rows)
    ensures Increasing(rows + [r])
  {
  }

  lemma IncreasingParts(rows: seq<Row>, more: seq<Row>, n: nat)
    requires Increasing(rows + more) && n <= |rows|
    ensures Increasing(rows) && Increasing(rows[n..] + more)
  {
    assert rows == (rows + more)[..|rows|];
    assert rows[n..] + more == (rows + more)[n..];
  }

  // The tip a reader computes from the table is that of the whole history.
  lemma {:induction false} TableTip(s: System, more: seq<Row>)
    requires TableIsSuffix(s)
    ensures Tip(StartHash(s.store), s.store.events + more) == Tip(GENESIS, s.history + more)
  {
    var all := s.history + more;
    assert all[..s.pruned] == s.history[..s.pruned];
    assert all[s.pruned..] == s.store.events + more;
    TipOfParts(GENESIS, all, s.pruned);
  }

  lemma {:induction false} AnchorsGrow(k: Keys, s: System, t: System)
    requires AnchorsOk(k, s) && s.file == t.file && s.anchored == t.anchored && s.gone == t.gone
    requires s.history <= t.history
    ensures AnchorsOk(k, t)
  {
    hide Written, Tip;
    forall i | 0 <= i < |t.file|
      ensures AnchorOk(t, i)
    {
      assert AnchorOk(s, i);
      assert t.history[..s.anchored[i]] == s.history[..s.anchored[i]];
    }
  }

  // Drafts outlive steps that only add to the history and the file.
  lemma {:induction false} DraftsGrow(k: Keys, s: System, t: System)
    requires DraftsOk(k, s) && t.drafts == s.drafts && s.history <= t.history && s.file <= t.file
    ensures DraftsOk(k, t)
  {
    hide Tip, PrevHash, CheckpointText;
    forall d | 0 <= d < |t.drafts| ensures DraftOk(k, t, t.drafts[d]) {
      var draft := t.drafts[d];
      assert DraftOk(k, s, draft);
      assert t.history[..draft.upTo] == s.history[..draft.upTo] && t.file[..draft.after] == s.file[..draft.after];
    }
  }

  // A row made after the tip extends the chain.
  lemma {:induction false} NewRowLinks(k: Keys, rows: seq<Row>, prev: string, f: Fields, rowid: nat, at: int)
    requires Chained(k.H, GENESIS, rows) && prev == Tip(GENESIS, rows)
    ensures Chained(k.H, GENESIS, rows + [NewRow(k.H, prev, f, rowid, at)])
  {
    hide ChainText;
    ChainExtend(k.H, GENESIS, rows, NewRow(k.H, prev, f, rowid, at));
  }

  lemma {:induction false} InsertKeeps(k: Keys, s: System, step: Step)
    requires Digests(k.H) && Inv(k, s) && Enabled(s, step) && step.Insert?
    ensures Inv(k, Apply(k, s, step))
  {
    hide JobsOk, DraftsOk, Chained, AnchorsOk, StartHash, NewRow, Tip;
    var t := Apply(k, s, step);
    JobsGrow(s, t);
    DraftsGrow(k, s, t);
    var rows, f := s.txn.value.rows, step.fields;
    var row := NewRow(k.H, s.txn.value.tip.value, f, NextRowid(s.store.events + rows), step.createdAt);
    NewRowLinks(k, s.history + rows, s.txn.value.tip.value, f, NextRowid(s.store.events + rows), step.createdAt);
    assert s.history + OpenRows(t) == s.history + rows + [row];
    RowidOfNew(k, s.txn.value.tip.value, f, NextRowid(s.store.events + rows), step.createdAt);
    IncreasingAppend(s.store.events + rows, row);
    assert s.store.events + OpenRows(t) == s.store.events + rows + [row];
    AnchorsGrow(k, s, t);
  }

  lemma RowidOfNew(k: Keys, prev: string, f: Fields, rowid: nat, at: int)
    ensures NewRow(k.H, prev, f, rowid, at).rowid == rowid
  {
  }

  lemma {:induction false} CommitKeeps(k: Keys, s: System, step: Step)
    requires Digests(k.H) && Inv(k, s) && Enabled(s, step) && step.Commit?
    ensures Inv(k, Apply(k, s, step))
  {
    hide JobsOk, DraftsOk, Chained, AnchorsOk, Tip;
    var t := Apply(k, s, step);
    JobsGrow(s, t);
    DraftsGrow(k, s, t);
    var rows := s.txn.value.rows;
    assert t.history + OpenRows(t) == s.history + rows;
    assert t.store.events + OpenRows(t) == s.store.events + rows;
    assert t.history[..s.pruned] == s.history[..s.pruned];
    AnchorsGrow(k, s, t);
  }

  lemma {:induction false} MarkerKeeps(k: Keys, s: System, step: Step)
    requires Digests(k.H) && Inv(k, s) && Enabled(s, step) && step.MarkerInsert?
    ensures Inv(k, Apply(k, s, step))
  {
    hide JobsOk, DraftsOk, Chained, AnchorsOk, NewRow, Tip, StartHash;
    var t := Apply(k, s, step);
    JobsGrow(s, t);
    DraftsGrow(k, s, t);
    var prev, rowid := LastHash(s.store), NextRowid(s.store.events);
    var row := NewRow(k.H, prev, step.marker, rowid, step.createdAt);
    TableTip(s, []);
    assert s.history + [] == s.history && s.store.events + [] == s.store.events;
    NewRowLinks(k, s.history, prev, step.marker, rowid, step.createdAt);
    RowidOfNew(k, prev, step.marker, rowid, step.createdAt);
    IncreasingAppend(s.store.events, row);
    assert t.history + OpenRows(t) == s.history + [row];
    assert t.store.events + OpenRows(t) == s.store.events + [row];
    assert t.history[..s.pruned] == s.history[..s.pruned];
    StartUnchanged(s.store, t.store);
    AnchorsGrow(k, s, t);
  }

  // The two texts hashed for a marker, as its writer does and as a replay would.
  ghost predicate MarkerCollides(k: Keys, s: System, read: nat, marker: Fields)
    requires read < |s.tips|
  {
    var wrote, replays := ChainText(s.tips[read], "v2", marker), ChainText(LastHash(s.store), "v2", marker);
    wrote != replays && k.H(wrote) == k.H(replays)
  }

  /**
   When a gap marker may be inserted. Whatever was committed since its writer read the tip, the
   history it leaves is a chain if and only if the tip read is still the tip; and if it is not,
   replay fails from then on, or hashed texts collide.
   */
  lemma {:induction false} MarkerKeepsIff(k: Keys, s: System, read: nat, marker: Fields, at: int)
    requires Digests(k.H) && Inv(k, s) && s.txn.None? && read < |s.tips|
    ensures s.tips[read] == LastHash(s.store) ==> Chained(k.H, GENESIS, InsertMarker(k, s, read, marker, at).history)
    ensures Chained(k.H, GENESIS, InsertMarker(k, s, read, marker, at).history) ==>
      s.tips[read] == LastHash(s.store) || MarkerCollides(k, s, read, marker)
    ensures var t := InsertMarker(k, s, read, marker, at);
      ClockOrdered(t.store.events) && Verifies(k.H, t.store) ==>
        s.tips[read] == LastHash(s.store) || MarkerCollides(k, s, read, marker)
  {
    hide JobsOk, DraftsOk, AnchorsOk, Chained, StartHash, Tip, ChainText, ReplayOrder, Increasing;
    var t, rowid := InsertMarker(k, s, read, marker, at), NextRowid(s.store.events);
    TableTip(s, []);
    assert s.history + [] == s.history && s.store.events + [] == s.store.events;
    if s.tips[read] == LastHash(s.store) { NewRowLinks(k, s.history, s.tips[read], marker, rowid, at); }
    if Chained(k.H, GENESIS, t.history) { ForkedRow(k, GENESIS, s.history, s.tips[read], marker, rowid, at); }
    if ClockOrdered(t.store.events) && Verifies(k.H, t.store) {
      ReplayOrderIdentity(t.store.events);
      StartUnchanged(s.store, t.store);
      ForkedRow(k, StartHash(s.store), s.store.events, s.tips[read], marker, rowid, at);
    }
    ChainTextInjective(s.tips[read], "v2", marker, LastHash(s.store), "v2", marker);
  }

  // A row made after `prev` ends a chain only if its text after the tip has the same hash.
  lemma {:induction false} ForkedRow(k: Keys, start: string, rows: seq<Row>, prev: string, f: Fields, rowid: nat,
                                     at: int)
    requires Chained(k.H, start, rows + [NewRow(k.H, prev, f, rowid, at)])
    ensures k.H(ChainText(prev, "v2", f)) == k.H(ChainText(Tip(start, rows), "v2", f))
  {
    hide ChainText, Tip;
    var all := rows + [NewRow(k.H, prev, f, rowid, at)];
    assert GoodAt(k.H, start, all, |rows|);
    assert all[..|rows|] == rows;
  }

  lemma StartUnchanged(s: Store, t: Store)
    requires s.marks == t.marks
    ensures StartHash(s) == StartHash(t)
  {
  }

  // The hash of the row a prune ends at: a digest, and where the remaining table starts.
  lemma {:induction false} PrunedTip(k: Keys, history: seq<Row>, from: nat, n: nat)
    requires Digests(k.H) && Chained(k.H, GENESIS, history)
    requires 0 < n && from + n <= |history|
    ensures history[from..][n - 1].contentHash == Tip(GENESIS, history[..from + n]) != ""
  {
    hide ChainText;
    assert GoodAt(k.H, GENESIS, history, from + n - 1);
    assert IsDigest(history[from + n - 1].contentHash);
  }

  // A delete by rowid takes a prefix of the table.
  lemma {:induction false} DeleteIsPrefix(rows: seq<Row>, n: nat) returns (m: nat)
    requires Increasing(rows)
    ensures m <= |rows| && DeleteThrough(rows, n) == rows[m..]
    ensures forall i | 0 <= i < |rows| :: i < m <==> rows[i].rowid <= n
  {
    m := 0;
    while m < |rows| && rows[m].rowid <= n
      invariant m <= |rows| && forall i | 0 <= i < m :: rows[i].rowid <= n
    {
      m := m + 1;
    }
    DeletePrefixBelow(rows, m, n);
  }

  // Where a commit leaves the table: m rows on, and starting from the mark it records.
  lemma {:induction false} CommitMoves(k: Keys, s: System, j: nat) returns (m: nat)
    requires Digests(k.H) && Inv(k, s) && s.txn.None? && j < |s.jobs|
    ensures m <= |s.store.events| && s.pruned + m <= |s.history|
    ensures forall i | 0 <= i < |s.store.events| :: i < m <==> s.store.events[i].rowid <= s.jobs[j].through
    ensures var t := CommitJob(s, j);
      && t.pruned == s.pruned + m && t.history == s.history
      && t.store.events == s.store.events[m..] == s.history[t.pruned..]
      && StartHash(t.store) == s.jobs[j].mark.chainTipHash == Tip(GENESIS, s.history[..s.jobs[j].upTo])
    ensures TableIsSuffix(CommitJob(s, j)) <==>
      Tip(GENESIS, s.history[..s.jobs[j].upTo]) == Tip(GENESIS, s.history[..s.pruned + m])
  {
    hide AnchorsOk, DraftsOk, Chained, MarkFor, DeleteThrough, Tip;
    var job := s.jobs[j];
    assert JobOk(s, job);
    assert s.store.events + OpenRows(s) == s.store.events && s.history + OpenRows(s) == s.history;
    m := DeleteIsPrefix(s.store.events, job.through);
    PrunedTip(k, s.history, 0, job.upTo);
    assert s.history[0..] == s.history;
    assert s.history[s.pruned..][m..] == s.history[s.pruned + m..];
  }

  // A prune that still fits leaves the table where its last row was.
  lemma {:induction false} FitLands(k: Keys, s: System, j: nat, m: nat)
    requires Digests(k.H) && Inv(k, s) && j < |s.jobs| && Fits(s.store, s.jobs[j])
    requires m <= |s.store.events| && s.pruned + m <= |s.history| && s.txn.None?
    requires forall i | 0 <= i < |s.store.events| :: i < m <==> s.store.events[i].rowid <= s.jobs[j].through
    ensures s.jobs[j].mark.chainTipHash == Tip(GENESIS, s.history[..s.pruned + m])
  {
    hide AnchorsOk, DraftsOk, Chained, JobsOk, StartHash;
    var rows, job := s.store.events, s.jobs[j];
    if i :| 0 <= i < |rows| && IsJobRow(rows[i], job) {
      assert Increasing(rows) by { assert rows + OpenRows(s) == rows; }
      assert rows[m - 1].rowid <= rows[i].rowid;
      assert m == i + 1;
      assert rows[i] == s.history[s.pruned + i];
    } else {
      assert rows != [] ==> job.through < rows[0].rowid;
      assert m == 0;
    }
  }

  ghost predicate HistoryCollides(k: Keys, s: System) {
    CollisionBetween(k.H, RowTexts(GENESIS, s.history), RowTexts(GENESIS, s.history))
  }

  /**
   When a prune may commit. However many others have committed since it read, its commit keeps
   the table the unpruned end of the history if and only if it still fits, which is to say that
   the rows pruned by then are just those up to the last one it read; or hashed texts collide.
   */
  lemma {:induction false} CommitKeepsIffFits(k: Keys, s: System, j: nat)
    requires Digests(k.H) && Inv(k, s) && s.txn.None? && j < |s.jobs|
    ensures Fits(s.store, s.jobs[j]) ==> TableIsSuffix(CommitJob(s, j))
    ensures TableIsSuffix(CommitJob(s, j)) ==> Fits(s.store, s.jobs[j]) || HistoryCollides(k, s)
    ensures CommitJob(s, j).pruned == s.jobs[j].upTo ==> TableIsSuffix(CommitJob(s, j))
    ensures TableIsSuffix(CommitJob(s, j)) ==> CommitJob(s, j).pruned == s.jobs[j].upTo || HistoryCollides(k, s)
  {
    hide AnchorsOk, DraftsOk, Chained, JobsOk, TxnOk, Tip, CommitJob, Fits, Collides, RowTexts, CollisionBetween;
    var job := s.jobs[j];
    var m := CommitMoves(k, s, j);
    assert JobOk(s, job) && Chained(k.H, GENESIS, s.history) by { JobInHistory(k, s, j); }
    if Fits(s.store, job) { FitLands(k, s, j, m); }
    if TableIsSuffix(CommitJob(s, j)) && !HistoryCollides(k, s) {
      TipsDistinct(k.H, s.history, job.upTo, s.pruned + m);
      LandedFits(s, job, m);
    }
  }

  lemma JobInHistory(k: Keys, s: System, j: nat)
    requires Inv(k, s) && s.txn.None? && j < |s.jobs|
    ensures JobOk(s, s.jobs[j]) && Chained(k.H, GENESIS, s.history)
  {
    hide AnchorsOk, DraftsOk, Chained, Tip;
    assert s.history + OpenRows(s) == s.history;
  }

  lemma LandedFits(s: System, job: PruneJob, m: nat)
    requires TableIsSuffix(s) && JobOk(s, job) && job.upTo == s.pruned + m && m <= |s.store.events|
    requires forall i | 0 <= i < |s.store.events| :: i < m <==> s.store.events[i].rowid <= job.through
    ensures Fits(s.store, job)
  {
    hide StartHash;
    if m > 0 {
      assert s.store.events[m - 1] == s.history[job.upTo - 1];
    } else {
      assert Tip(GENESIS, s.history[..job.upTo]) == s.history[job.upTo - 1].contentHash;
    }
  }

  /** A prune fits whenever no other has committed since it read: in particular if only one is ever in flight. */
  lemma {:induction false} UndisturbedFits(k: Keys, s: System, j: nat)
    requires Inv(k, s) && s.txn.None? && j < |s.jobs| && s.jobs[j].since == |s.store.marks|
    ensures Fits(s.store, s.jobs[j]) && CommitJob(s, j).pruned == s.jobs[j].upTo
  {
    hide AnchorsOk, DraftsOk, Chained, StartHash, DeleteThrough;
    var job := s.jobs[j];
    assert JobOk(s, job);
    assert s.store.events[job.upTo - 1 - s.pruned] == s.history[job.upTo - 1];
    assert s.store.events + OpenRows(s) == s.store.events;
    DeleteThroughPrefix(s.store.events, job.upTo - s.pruned);
  }

  lemma {:induction false} PruneKeeps(k: Keys, s: System, step: Step)
    requires Digests(k.H) && Inv(k, s) && Enabled(s, step) && step.PruneCommit?
    ensures Inv(k, Apply(k, s, step))
  {
    hide AnchorsOk, DraftsOk, Chained, Tip, CommitJob, Fits, JobOk;
    var t := CommitJob(s, step.job);
    var m := CommitMoves(k, s, step.job);
    CommitKeepsIffFits(k, s, step.job);
    CommitFrame(s, step.job);
    assert s.store.events + OpenRows(s) == s.store.events;
    IncreasingParts(s.store.events, [], m);
    assert s.store.events[m..] + [] == t.store.events + OpenRows(t);
    DraftsGrow(k, s, t);
    AnchorsGrow(k, s, t);
    JobsSurvive(s, step.job);
  }

  lemma CommitFrame(s: System, j: nat)
    requires j < |s.jobs| && s.txn.None?
    ensures var t := CommitJob(s, j);
      && t.txn.None? && t.history == s.history && t.file == s.file && t.anchored == s.anchored && t.gone == s.gone
      && t.drafts == s.drafts
      && s.history + OpenRows(s) == t.history + OpenRows(t)
  {
  }

  lemma JobsSurvive(s: System, j: nat)
    requires JobsOk(s) && j < |s.jobs|
    ensures JobsOk(CommitJob(s, j))
  {
    hide DeleteThrough;
    var t := CommitJob(s, j);
    forall i | 0 <= i < |t.jobs| ensures JobOk(t, t.jobs[i]) {
      assert t.jobs[i] == s.jobs[if i < j then i else i + 1];
      assert JobOk(s, t.jobs[i]);
    }
  }

  // Jobs outlive steps that only add to the history and leave the marks alone.
  lemma JobsGrow(s: System, t: System)
    requires JobsOk(s) && t.jobs == s.jobs && t.store.marks == s.store.marks && t.pruned == s.pruned
    requires s.history <= t.history && |s.store.events| <= |t.store.events|
    ensures JobsOk(t)
  {
    forall j | 0 <= j < |t.jobs| ensures JobOk(t, t.jobs[j]) { assert JobOk(s, s.jobs[j]); }
  }

  lemma {:induction false} AppendKeeps(k: Keys, s: System, step: Step)
    requires Digests(k.H) && Inv(k, s) && Enabled(s, step) && step.AnchorAppend?
    ensures Inv(k, Apply(k, s, step))
  {
    hide JobsOk, DraftsOk, Chained, Written, CheckpointText, StartHash, Tip, PrevHash;
    var t, d := Apply(k, s, step), s.drafts[step.draft];
    JobsGrow(s, t);
    DraftsGrow(k, s, t);
    DraftIs(k, s, step.draft);
    assert s.file[..|s.file|] == s.file;
    AppendWritten(k, s.file, d.cp);
    forall i | 0 <= i < |t.file|
      ensures AnchorOk(t, i)
    {
      if i < |s.file| { assert AnchorOk(s, i); }
    }
  }

  lemma DraftIs(k: Keys, s: System, d: nat)
    requires DraftsOk(k, s) && d < |s.drafts|
    ensures DraftOk(k, s, s.drafts[d])
  {
  }

  lemma {:induction false} AppendWritten(k: Keys, file: seq<Checkpoint>, cp: Checkpoint)
    requires Written(k, file)
    requires cp.checkpointHash == k.H(CheckpointText(cp)) && cp.signature == k.sign(cp.checkpointHash)
    ensures Written(k, file + [cp]) <==> cp.seqNo == |file| && cp.prevCheckpointHash == PrevHash(file)
  {
    hide CheckpointText, PrevHash;
    var all := file + [cp];
    assert all[..|file|] == file;
    if Written(k, all) { assert WrittenAt(k, all, |file|); }
    forall i | 0 <= i < |file| ensures WrittenAt(k, all, i) {
      assert WrittenAt(k, file, i) && all[..i] == file[..i];
    }
  }

  ghost predicate FileCollides(k: Keys, file: seq<Checkpoint>) {
    CollisionBetween(k.H, CheckpointTexts(file), CheckpointTexts(file))
  }

  /**
   When a checkpoint may be appended. However many writers share the file, appending keeps it
   well written if and only if nothing was appended since its writer read the file; and if
   something was, the file fails its check from then on, or checkpoint texts collide.
   */
  lemma {:induction false} AppendKeepsIff(k: Keys, s: System, d: nat)
    requires Digests(k.H) && Inv(k, s) && d < |s.drafts|
    ensures Written(k, AppendDraft(s, d).file) <==> s.drafts[d].after == |s.file|
    ensures FileValid(k, AppendDraft(s, d).file) ==> s.drafts[d].after == |s.file| || FileCollides(k, s.file)
  {
    hide JobsOk, DraftsOk, Chained, Written, CheckpointText, PrevHash, Tip, Increasing, TxnOk, TableIsSuffix, FileValid;
    var draft := s.drafts[d];
    DraftIs(k, s, d);
    assert s.file[..|s.file|] == s.file;
    AppendWritten(k, s.file, draft.cp);
    if FileValid(k, s.file + [draft.cp]) {
      LastFollows(k, s.file, draft.cp);
      if !FileCollides(k, s.file) { SameLength(k, s.file, draft.after); }
    }
  }

  lemma LastFollows(k: Keys, file: seq<Checkpoint>, cp: Checkpoint)
    requires FileValid(k, file + [cp])
    ensures cp.prevCheckpointHash == PrevHash(file)
  {
    hide CheckpointText, PrevHash;
    var all := file + [cp];
    assert EntryOk(k, PrevHash(all[..|file|]), all[|file|]);
    assert all[..|file|] == file;
  }

  // In a written file no two lengths end in the same hash.
  lemma {:induction false} SameLength(k: Keys, file: seq<Checkpoint>, n: nat)
    requires Digests(k.H) && Written(k, file) && n <= |file| && PrevHash(file[..n]) == PrevHash(file)
    requires !FileCollides(k, file)
    ensures n == |file|
  {
    hide CheckpointText, Digests;
    FirstIffSentinel(k, file, n);
    FirstIffSentinel(k, file, |file|);
    assert file[..|file|] == file;
    if 0 < n {
      var a, b := file[n - 1], file[|file| - 1];
      assert WrittenAt(k, file, n - 1) && WrittenAt(k, file, |file| - 1);
      assert CheckpointText(a) in CheckpointTexts(file) && CheckpointText(b) in CheckpointTexts(file);
      CheckpointTextInjective(a, b);
    }
  }

  // A checkpoint as its writer prepares it.
  lemma {:induction false} DraftMade(k: Keys, s: System, at: string)
    requires Inv(k, s)
    ensures DraftOk(k, s, Draft(NewCheckpoint(k, s.file, s.store, at), |s.history|, s.pruned, |s.file|))
  {
    hide JobsOk, DraftsOk, Chained, Increasing, CheckpointText, Tip, StartHash;
    var cp := NewCheckpoint(k, s.file, s.store, at);
    CheckpointTextInjective(cp, cp.(checkpointHash := "", signature := ""));
    TableTip(s, []);
    assert s.history + [] == s.history && s.store.events + [] == s.store.events;
    assert s.history[..|s.history|] == s.history && s.file[..|s.file|] == s.file;
    if s.file != [] { assert WrittenAt(k, s.file, |s.file| - 1); }
  }

  lemma {:induction false} AnchorReadKeeps(k: Keys, s: System, step: Step)
    requires Digests(k.H) && Inv(k, s) && Enabled(s, step) && step.AnchorRead?
    ensures Inv(k, Apply(k, s, step))
  {
    hide JobsOk, DraftOk, Chained, Increasing, AnchorsOk, NewCheckpoint, Tip, StartHash;
    var t := Apply(k, s, step);
    DraftMade(k, s, step.signedAt);
    JobsGrow(s, t);
    AnchorsGrow(k, s, t);
    DraftsGrow(k, s, t.(drafts := s.drafts));
    forall d | 0 <= d < |t.drafts| ensures DraftOk(k, t, t.drafts[d]) {
      SameDraft(k, if d < |s.drafts| then t.(drafts := s.drafts) else s, t, t.drafts[d]);
    }
  }

  lemma SameDraft(k: Keys, s: System, t: System, d: Draft)
    requires DraftOk(k, s, d) && t.history == s.history && t.file == s.file
    ensures DraftOk(k, t, d)
  {
    hide Tip, PrevHash, CheckpointText;
  }

  lemma {:induction false} StepKeeps(k: Keys, s: System, step: Step)
    requires Digests(k.H) && Inv(k, s) && Enabled(s, step)
    ensures Inv(k, Apply(k, s, step))
  {
    match step
    case Insert(_, _, _) => InsertKeeps(k, s, step);
    case Commit(_) => CommitKeeps(k, s, step);
    case MarkerInsert(_, _, _) => MarkerKeeps(k, s, step);
    case PruneCommit(_) => PruneKeeps(k, s, step);
    case AnchorRead(_) => AnchorReadKeeps(k, s, step);
    case AnchorAppend(_) => AppendKeeps(k, s, step);
    case _ => QuietKeeps(k, s, step);
  }

  lemma ScanOk(s: System, cutoff: string, t: System)
    requires TableIsSuffix(s) && JobsOk(s)
    requires t == Scan(s, cutoff)
    ensures JobsOk(t)
  {
    hide StalePrefix;
    forall j | 0 <= j < |t.jobs| ensures JobOk(t, t.jobs[j]) {
      if j < |s.jobs| {
        assert JobOk(s, s.jobs[j]);
      } else {
        assert s.store.events[t.jobs[j].upTo - 1 - s.pruned] == s.history[t.jobs[j].upTo - 1];
      }
    }
  }

  // Steps that change neither table, history nor file.
  lemma {:induction false} QuietKeeps(k: Keys, s: System, step: Step)
    requires Digests(k.H) && Inv(k, s) && Enabled(s, step)
    requires step.Begin? || step.ReadTip? || step.Rollback? || step.PruneScan? || step.MarkerRead?
    ensures Inv(k, Apply(k, s, step))
  {
    hide AnchorsOk, DraftsOk, ChainHash, StartHash, Tip;
    var t := Apply(k, s, step);
    if step.PruneScan? { ScanOk(s, step.cutoff, t); } else { JobsGrow(s, t); }
    DraftsGrow(k, s, t);
    AnchorsGrow(k, s, t);
    if step.ReadTip? {
      TableTip(s, OpenRows(s));
    } else if step.Rollback? {
      ChainPrefix(k.H, GENESIS, s.history + OpenRows(s), |s.history|);
      assert (s.history + OpenRows(s))[..|s.history|] == t.history + OpenRows(t);
      IncreasingParts(s.store.events, OpenRows(s), 0);
      assert s.store.events == t.store.events + OpenRows(t);
    } else if step.Begin? {
      assert OpenRows(s) == OpenRows(t);
    }
  }

  lemma {:induction false} RunKeeps(k: Keys, log: seq<Row>, steps: seq<Step>)
    requires Digests(k.H) && IsLog(k, log)
    ensures Run(k, log, steps).Some? ==> Inv(k, Run(k, log, steps).value)
  {
    hide Inv, Enabled, Apply, IsLog;
    if steps == [] {
      InitOk(k, log);
    } else {
      RunKeeps(k, log, steps[..|steps| - 1]);
      match Run(k, log, steps[..|steps| - 1])
      case None =>
      case Some(s) => if Enabled(s, steps[|steps| - 1]) { StepKeeps(k, s, steps[|steps| - 1]); }
    }
  }

  lemma InitOk(k: Keys, log: seq<Row>)
    requires IsLog(k, log)
    ensures Inv(k, Init(log))
  {
    hide Chained, Increasing;
    assert log + [] == log && log[0..] == log;
  }

  /* ----- what every run guarantees ----- */

  /**
   Every interleaving keeps the log: the table is what the prunes left of one chain from
   GENESIS, the tip a writer reads is that chain's tip even when the table is empty, and
   replay succeeds as long as created_at follows rowid.
   */
  lemma {:induction false} EveryRunKeepsTheLog(k: Keys, s: System)
    requires Digests(k.H) && Reachable(k, s)
    ensures Chained(k.H, GENESIS, s.history)
    ensures s.pruned <= |s.history| && s.store.events == s.history[s.pruned..]
    ensures LastHash(s.store) == Tip(GENESIS, s.history)
    ensures ClockOrdered(s.store.events) ==> Verifies(k.H, s.store)
    ensures Inv(k, s)
  {
    hide ChainHash, AnchorsOk, DraftsOk, ReplayOrder, Tip, StartHash;
    var log, steps :| IsLog(k, log) && Run(k, log, steps) == Some(s);
    RunKeeps(k, log, steps);
    var all := s.history + OpenRows(s);
    ChainPrefix(k.H, GENESIS, all, |s.history|);
    assert all[..|s.history|] == s.history;
    TableTip(s, []);
    assert s.history + [] == s.history && s.store.events + [] == s.store.events;
    ChainSuffix(k.H, GENESIS, s.history, s.pruned);
    ReplayOrderIdentity(s.store.events);
  }

  // Two of the texts hashed by the writers and by a replay of the table share a hash.
  ghost predicate Collides(k: Keys, s: System) {
    var texts := RowTexts(StartHash(s.store), ReplayOrder(s.store.events)) + RowTexts(GENESIS, s.history);
    CollisionBetween(k.H, texts, texts)
  }

  lemma {:induction false} NoCollisionParts(k: Keys, s: System, n: nat)
    requires !Collides(k, s) && n <= |s.history| && Chained(k.H, GENESIS, s.history)
    ensures var replayed := RowTexts(StartHash(s.store), ReplayOrder(s.store.events));
      !CollisionBetween(k.H, replayed, RowTexts(GENESIS, s.history[..n]))
    ensures !CollisionBetween(k.H, RowTexts(GENESIS, s.history), RowTexts(GENESIS, s.history))
  {
    hide RowTexts, ReplayOrder, Chained;
    ChainPrefix(k.H, GENESIS, s.history, n);
  }

  // Two rows of a history with the same hash are the same row.
  lemma {:induction false} RowsDistinct(k: Keys, history: seq<Row>, i: nat, j: nat)
    requires Digests(k.H) && Chained(k.H, GENESIS, history)
    requires i < |history| && j < |history| && history[i].contentHash == history[j].contentHash
    requires !CollisionBetween(k.H, RowTexts(GENESIS, history), RowTexts(GENESIS, history))
    ensures i == j
  {
    hide Chained, RowTexts;
    TipsDistinct(k.H, history, i + 1, j + 1);
  }

  // The last row in replay order, as a row of the history.
  lemma {:induction false} LastReplayed(s: System) returns (j: nat)
    requires TableIsRest(s) && s.store.events != []
    ensures |ReplayOrder(s.store.events)| == |s.store.events|
    ensures s.pruned <= j < |s.history|
    ensures Tip(StartHash(s.store), ReplayOrder(s.store.events)) == Tip(GENESIS, s.history[..j + 1])
  {
    hide ReplayOrder, StartHash;
    var rows := ReplayOrder(s.store.events);
    ReplayOrderSorts(s.store.events);
    assert |multiset(rows)| == |multiset(s.store.events)|;
    assert rows[|rows| - 1] in multiset(rows);
    var m :| 0 <= m < |s.store.events| && s.store.events[m] == rows[|rows| - 1];
    j := s.pruned + m;
  }

  // A replay ending in the hash of row j of the history is the end of the history up to j.
  lemma {:induction false} ReplayIsSuffix(k: Keys, s: System, j: nat)
    requires Digests(k.H) && TableIsRest(s) && Chained(k.H, GENESIS, s.history) && !Collides(k, s)
    requires Chained(k.H, StartHash(s.store), ReplayOrder(s.store.events))
    requires j < |s.history|
    requires Tip(StartHash(s.store), ReplayOrder(s.store.events)) == Tip(GENESIS, s.history[..j + 1])
    ensures SuffixOf(StartHash(s.store), ReplayOrder(s.store.events), GENESIS, s.history[..j + 1])
  {
    hide Chained, ReplayOrder, RowTexts, Tip, StartHash, Collides, CollisionBetween, Digests, SuffixOf;
    var start, rows, upTo := StartHash(s.store), ReplayOrder(s.store.events), s.history[..j + 1];
    NoCollisionParts(k, s, j + 1);
    ChainPrefix(k.H, GENESIS, s.history, j + 1);
    TipDeterminesSuffix(k.H, start, rows, GENESIS, upTo);
    if !SuffixOf(start, rows, GENESIS, upTo) { GenesisSuffix(k.H, upTo, start, rows); }
  }

  lemma {:induction false} WholeTable(k: Keys, s: System, j: nat)
    requires Digests(k.H) && TableIsSuffix(s) && Chained(k.H, GENESIS, s.history) && !Collides(k, s)
    requires j < |s.history| && |ReplayOrder(s.store.events)| == |s.store.events|
    requires SuffixOf(StartHash(s.store), ReplayOrder(s.store.events), GENESIS, s.history[..j + 1])
    ensures SameRows(ReplayOrder(s.store.events), s.store.events)
  {
    hide Chained, ReplayOrder, RowTexts, Tip, StartHash, Collides, CollisionBetween, Digests, SameRows;
    var rows, upTo := ReplayOrder(s.store.events), s.history[..j + 1];
    var from := |upTo| - |rows|;
    NoCollisionParts(k, s, 0);
    assert upTo[..from] == s.history[..from];
    TipsDistinct(k.H, s.history, from, s.pruned);
    assert upTo[from..] == s.store.events;
  }

  // A replay that succeeds visits the rows in the order they were written.
  lemma {:induction false} ReplayIsHistory(k: Keys, s: System)
    requires Digests(k.H) && TableIsSuffix(s) && Chained(k.H, GENESIS, s.history)
    requires !Collides(k, s) && Verifies(k.H, s.store)
    ensures SameRows(ReplayOrder(s.store.events), s.store.events)
  {
    hide Chained, ReplayOrder, SameRows, Tip, StartHash, Collides, Digests, SuffixOf;
    if s.store.events == [] {
      ReplayOrderSorts(s.store.events);
      var rows := ReplayOrder(s.store.events);
      assert |rows| == |multiset(rows)| == |multiset(s.store.events)| == 0;
      assert rows == s.store.events && SameRows(rows, rows) by { NoRows(rows); }
    } else {
      var j := LastReplayed(s);
      ReplayIsSuffix(k, s, j);
      WholeTable(k, s, j);
    }
  }

  lemma NoRows(rows: seq<Row>)
    requires rows == []
    ensures SameRows(rows, rows)
  {
  }

  lemma {:induction false} ReplayedRow(k: Keys, s: System, i: nat)
    requires Digests(k.H) && TableIsRest(s) && Chained(k.H, GENESIS, s.history)
    requires !CollisionBetween(k.H, RowTexts(GENESIS, s.history), RowTexts(GENESIS, s.history))
    requires i < |s.store.events| == |ReplayOrder(s.store.events)|
    requires ReplayOrder(s.store.events)[i].contentHash == s.store.events[i].contentHash
    ensures ReplayOrder(s.store.events)[i] == s.store.events[i]
  {
    hide Chained, ReplayOrder, RowTexts, CollisionBetween, StartHash, Tip, Digests;
    var rows := ReplayOrder(s.store.events);
    ReplayOrderSorts(s.store.events);
    assert rows[i] in multiset(rows);
    var m :| 0 <= m < |s.store.events| && s.store.events[m] == rows[i];
    RowsDistinct(k, s.history, s.pruned + m, s.pruned + i);
  }

  lemma SameHashes(xs: seq<Row>, ys: seq<Row>, i: nat)
    requires SameRows(xs, ys) && i < |xs|
    ensures xs[i].contentHash == ys[i].contentHash
  {
    assert SameRow(xs[i], ys[i]);
  }

  /**
   On honest tables replay succeeds exactly when created_at never decreases with rowid, or
   hashed texts collide: a clock stepped back between two inserts makes `verify_chain` report a fault.
   */
  lemma {:induction false} VerifiesIffClockOrdered(k: Keys, s: System)
    requires Digests(k.H) && Reachable(k, s)
    ensures ClockOrdered(s.store.events) ==> Verifies(k.H, s.store)
    ensures Verifies(k.H, s.store) ==> ClockOrdered(s.store.events) || Collides(k, s)
  {
    hide Chained, ReplayOrder, RowTexts, Collides, CollisionBetween, TableIsSuffix, AnchorsOk, SameRow, ClockOrdered,
      Tip, Digests, Verifies, TxnOk, JobOk, Increasing, Reachable;
    EveryRunKeepsTheLog(k, s);
    if Verifies(k.H, s.store) && !Collides(k, s) {
      var rows := ReplayOrder(s.store.events);
      ReplayIsHistory(k, s);
      NoCollisionParts(k, s, 0);
      forall i | 0 <= i < |rows|
        ensures rows[i] == s.store.events[i]
      {
        SameHashes(rows, s.store.events, i);
        ReplayedRow(k, s, i);
      }
      assert rows == s.store.events;
      ReplayOrderIdentity(s.store.events);
    }
  }

  /** In every run a checkpoint's count is that of the rows then in the table: those ever logged less those pruned. */
  lemma {:induction false} CheckpointsCountTheTable(k: Keys, s: System, i: nat)
    requires Digests(k.H) && Reachable(k, s) && i < |s.file|
    ensures |s.anchored| == |s.gone| == |s.file|
    ensures s.gone[i] <= s.anchored[i] <= |s.history| && s.file[i].eventCount == s.anchored[i] - s.gone[i]
  {
    hide Reachable, Tip, Written, Chained, Digests, TxnOk, JobsOk, DraftsOk, Increasing, TableIsSuffix;
    EveryRunKeepsTheLog(k, s);
    assert AnchorOk(s, i);
  }

  // Signing and checking agree.
  ghost predicate SignaturesCheck(k: Keys) { forall m :: k.verify(k.sign(m), m) }

  // Nothing is anchored, or the anchored row was not pruned from a table that replays in rowid order.
  predicate AnchorKept(s: System)
    requires |s.anchored| == |s.file|
  {
    s.file == [] || (ClockOrdered(s.store.events)
      && (s.anchored[|s.file| - 1] == 0 || s.pruned < s.anchored[|s.file| - 1]))
  }

  /**
   Exact acceptance on honest runs. With n events ever logged when the latest checkpoint's tip
   was read and p pruned since the start, the anchor check accepts if and only if there is no
   checkpoint, or created_at follows rowid and n == 0 or p < n (or hashed texts collide):
   pruning up to the anchored row or past it makes an untouched log fail.
   */
  lemma {:induction false} AcceptsIff(k: Keys, s: System)
    requires Digests(k.H) && SignaturesCheck(k) && Reachable(k, s)
    ensures |s.anchored| == |s.file|
    ensures AnchorKept(s) ==> AgainstEvents(k, s.file, s.store)
    ensures AgainstEvents(k, s.file, s.store) ==> AnchorKept(s) || Collides(k, s)
  {
    hide Chained, ReplayOrder, RowTexts, StartHash, Collides, CollisionBetween, FileValid, CheckpointText, Verifies,
      Digests, ClockOrdered, Written, Reachable, TxnOk, JobOk, Increasing, Tip, HasHash, TableIsSuffix, AnchorOk;
    EveryRunKeepsTheLog(k, s);
    HonestFileValid(k, s.file);
    VerifiesIffClockOrdered(k, s);
    if s.file != [] {
      assert AnchorOk(s, |s.file| - 1);
      AnchorFoundIf(k, s, |s.file| - 1);
      if !Collides(k, s) {
        NoCollisionParts(k, s, 0);
        AnchorFoundOnlyIf(k, s, |s.file| - 1);
      }
    }
  }

  // The tip of checkpoint i is GENESIS or in the table when its row was not pruned ...
  lemma {:induction false} AnchorFoundIf(k: Keys, s: System, i: nat)
    requires Digests(k.H) && TableIsSuffix(s) && Chained(k.H, GENESIS, s.history)
    requires i < |s.file| == |s.anchored| == |s.gone| && AnchorOk(s, i)
    ensures s.anchored[i] == 0 || s.pruned < s.anchored[i]
      ==> s.file[i].chainTipHash == GENESIS || HasHash(s.store.events, s.file[i].chainTipHash)
  {
    hide Chained, StartHash, Digests, Tip;
    var n := s.anchored[i];
    TipIsGenesisIff(k, s.history, n);
    if 0 < n && s.pruned < n {
      assert s.store.events[n - 1 - s.pruned].contentHash == s.history[n - 1].contentHash;
    }
  }

  // ... and only then.
  lemma {:induction false} AnchorFoundOnlyIf(k: Keys, s: System, i: nat)
    requires Digests(k.H) && TableIsSuffix(s) && Chained(k.H, GENESIS, s.history)
    requires i < |s.file| == |s.anchored| == |s.gone| && AnchorOk(s, i)
    requires !CollisionBetween(k.H, RowTexts(GENESIS, s.history), RowTexts(GENESIS, s.history))
    ensures s.file[i].chainTipHash == GENESIS || HasHash(s.store.events, s.file[i].chainTipHash)
      ==> s.anchored[i] == 0 || s.pruned < s.anchored[i]
  {
    hide Chained, RowTexts, StartHash, CollisionBetween, Digests, Tip;
    var n := s.anchored[i];
    TipIsGenesisIff(k, s.history, n);
    if 0 < n {
      var h := s.history[n - 1].contentHash;
      if HasHash(s.store.events, h) {
        var j :| 0 <= j < |s.store.events| && s.store.events[j].contentHash == h;
        RowsDistinct(k, s.history, s.pruned + j, n - 1);
      }
    }
  }

  lemma {:induction false} HonestFileValid(k: Keys, file: seq<Checkpoint>)
    requires SignaturesCheck(k) && Written(k, file)
    ensures FileValid(k, file)
  {
    hide CheckpointText;
    forall i | 0 <= i < |file| ensures SameEntry(k, file[i], file[i]) { assert WrittenAt(k, file, i); }
    PrefixIsValid(k, file, file);
  }

  lemma {:induction false} TipIsGenesisIff(k: Keys, history: seq<Row>, n: nat)
    requires Digests(k.H) && Chained(k.H, GENESIS, history) && n <= |history|
    ensures Tip(GENESIS, history[..n]) == GENESIS <==> n == 0
    ensures n > 0 ==> Tip(GENESIS, history[..n]) == history[n - 1].contentHash
  {
    hide ChainText;
    ChainPrefix(k.H, GENESIS, history, n);
    if n > 0 { TipIsDigest(k.H, GENESIS, history[..n]); }
  }

  // Cut at the row anchored by checkpoint i, the table is the end of the history signed then, or texts collide.
  ghost predicate TracesBack(k: Keys, s: System, i: nat, table: Store) {
    && i < |s.file| == |s.anchored| == |s.gone| && s.anchored[i] <= |s.history|
    && var signed := s.history[..s.anchored[i]];
    || CollisionBetween(k.H, RowTexts(StartHash(table), ReplayOrder(table.events)), RowTexts(GENESIS, signed))
    || IsEndOf(table, signed, s.file[i].chainTipHash)
  }

  /**
   Anchor soundness over runs. After any honest run, let any table and any file be put in
   place of the real ones. If the check accepts them and the file's latest tip is not
   GENESIS, then the table, replayed and cut just after the anchored row, is the end of the
   honest history up to that checkpoint on every covered field, unless a signature was
   forged or two hashed texts collide.
   */
  lemma {:induction false} AcceptedTableIsHonest(k: Keys, s: System, file: seq<Checkpoint>, table: Store)
    requires Digests(k.H) && Reachable(k, s)
    requires AgainstEvents(k, file, table)
    requires file != [] && file[|file| - 1].chainTipHash != GENESIS
    ensures
      || Forged(k, file, s.file)
      || CollisionBetween(k.H, CheckpointTexts(file), CheckpointTexts(s.file))
      || TracesBack(k, s, |file| - 1, table)
  {
    hide AgainstEvents, Reachable, Digests, Forged, CollisionBetween, CheckpointTexts, TracesBack, RowTexts;
    EveryRunKeepsTheLog(k, s);
    AcceptedParts(k, file, table);
    ValidFilesArePrefixes(k, file, s.file);
    if SignedPrefix(k, file, s.file) { TableTracesBack(k, s, file, table); }
  }

  lemma AcceptedParts(k: Keys, file: seq<Checkpoint>, table: Store)
    requires AgainstEvents(k, file, table) && file != [] && file[|file| - 1].chainTipHash != GENESIS
    ensures FileValid(k, file) && Verifies(k.H, table) && HasHash(table.events, file[|file| - 1].chainTipHash)
  {
    hide FileValid, Verifies, HasHash;
  }

  // The last entry is one the writer wrote, so its tip was the history's.
  lemma {:induction false} TableTracesBack(k: Keys, s: System, file: seq<Checkpoint>, table: Store)
    requires Digests(k.H) && Inv(k, s) && Chained(k.H, GENESIS, s.history)
    requires file != [] && SignedPrefix(k, file, s.file)
    requires Verifies(k.H, table) && HasHash(table.events, file[|file| - 1].chainTipHash)
    ensures TracesBack(k, s, |file| - 1, table)
  {
    hide Chained, Verifies, HasHash, Digests, IsEndOf, CollisionBetween, RowTexts, Tip, Written, TableIsSuffix, TxnOk,
      Increasing;
    var last := |file| - 1;
    assert SameEntry(k, file[last], s.file[last]) && AnchorOk(s, last);
    var signed := s.history[..s.anchored[last]];
    ChainPrefix(k.H, GENESIS, s.history, s.anchored[last]);
    AnchorSound(k.H, signed, table, s.file[last].chainTipHash);
  }
}
