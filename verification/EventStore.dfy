/**
 The event table with its retention checkpoints: appending, replaying, pruning. `Store` is
 the committed content; the class `EventTable` changes it in place, as the log, the prune
 job and the gap marker do, and every method is tied to a function of the old content.
 */
module EventStore {
  import opened Wrappers
  import opened Json
  import opened EventChain
  import opened TextOrder

  // A row of retention_checkpoints: the last event a prune removed, and how many it removed.
  datatype PruneMark = PruneMark(throughId: string, throughOccurredAt: string, chainTipHash: string, eventsPruned: nat)

  // Events in rowid order, prune marks in insertion order.
  datatype Store = Store(events: seq<Row>, marks: seq<PruneMark>)

  /* ----- reading the tip ----- */

  function StartHash(s: Store): string {
    if s.marks == [] || s.marks[|s.marks| - 1].chainTipHash == "" then GENESIS
    else s.marks[|s.marks| - 1].chainTipHash
  }

  function LastHash(s: Store): string { Tip(StartHash(s), s.events) }

  /* ----- rowids ----- */

  // Without AUTOINCREMENT the next rowid follows the largest one present.
  function NextRowid(rows: seq<Row>): nat {
    if rows == [] then 1 else rows[|rows| - 1].rowid + 1
  }

  predicate Increasing(rows: seq<Row>) {
    forall i, j | 0 <= i < j < |rows| :: rows[i].rowid < rows[j].rowid
  }

  function NewRow(H: string -> string, prev: string, f: Fields, rowid: nat, createdAt: int): Row {
    Row(rowid, "v2", f, ChainHash(H, prev, "v2", f), createdAt)
  }

  lemma NewHash(H: string -> string, prev: string, f: Fields)
    ensures ChainHash(H, prev, "v2", f) == H(prev + Dumps(PayloadV2(f)))
  {
    hide Dumps, PayloadV1, PayloadV2;
  }

  /* ----- the order of replay: created_at, then rowid ----- */

  function InsertByCreatedAt(sorted: seq<Row>, r: Row): seq<Row> {
    if sorted == [] || sorted[|sorted| - 1].createdAt <= r.createdAt then sorted + [r]
    else InsertByCreatedAt(sorted[..|sorted| - 1], r) + [sorted[|sorted| - 1]]
  }

  // The rows, given in rowid order, by created_at and then rowid.
  function ReplayOrder(rows: seq<Row>): seq<Row> {
    if rows == [] then [] else InsertByCreatedAt(ReplayOrder(rows[..|rows| - 1]), rows[|rows| - 1])
  }

  predicate ClockOrdered(rows: seq<Row>) {
    forall i, j | 0 <= i < j < |rows| :: rows[i].createdAt <= rows[j].createdAt
  }

  lemma {:induction false} InsertPermutes(sorted: seq<Row>, r: Row)
    ensures multiset(InsertByCreatedAt(sorted, r)) == multiset(sorted) + multiset{r}
  {
    if sorted != [] && sorted[|sorted| - 1].createdAt > r.createdAt {
      var init, last := sorted[..|sorted| - 1], sorted[|sorted| - 1];
      InsertPermutes(init, r);
      assert sorted == init + [last];
    }
  }

  lemma Inserted(sorted: seq<Row>, r: Row, x: Row)
    requires x in InsertByCreatedAt(sorted, r)
    ensures x == r || x in sorted
  {
    hide InsertByCreatedAt;
    InsertPermutes(sorted, r);
    assert x in multiset(InsertByCreatedAt(sorted, r));
  }

  lemma {:induction false} InsertSorts(sorted: seq<Row>, r: Row)
    requires ClockOrdered(sorted)
    ensures ClockOrdered(InsertByCreatedAt(sorted, r))
  {
    if sorted != [] && sorted[|sorted| - 1].createdAt > r.createdAt {
      var init, last := sorted[..|sorted| - 1], sorted[|sorted| - 1];
      InsertSorts(init, r);
      forall x | x in InsertByCreatedAt(init, r) ensures x.createdAt <= last.createdAt { Inserted(init, r, x); }
      LastIsLatest(InsertByCreatedAt(init, r), last);
    }
  }

  lemma LastIsLatest(rows: seq<Row>, last: Row)
    requires ClockOrdered(rows) && forall x | x in rows :: x.createdAt <= last.createdAt
    ensures ClockOrdered(rows + [last])
  {
    assert forall i | 0 <= i < |rows| :: rows[i] in rows;
  }

  /** Replay order is a permutation of the table sorted by created_at. */
  lemma {:induction false} ReplayOrderSorts(rows: seq<Row>)
    ensures ClockOrdered(ReplayOrder(rows))
    ensures multiset(ReplayOrder(rows)) == multiset(rows)
  {
    hide InsertByCreatedAt;
    if rows != [] {
      var init, last := rows[..|rows| - 1], rows[|rows| - 1];
      ReplayOrderSorts(init);
      InsertSorts(ReplayOrder(init), last);
      InsertPermutes(ReplayOrder(init), last);
      assert rows == init + [last];
    }
  }

  /** It is the identity exactly when created_at never decreases with rowid. */
  lemma {:induction false} ReplayOrderIdentity(rows: seq<Row>)
    ensures ReplayOrder(rows) == rows <==> ClockOrdered(rows)
  {
    ReplayOrderSorts(rows);
    if ClockOrdered(rows) && rows != [] {
      var init, last := rows[..|rows| - 1], rows[|rows| - 1];
      ReplayOrderIdentity(init);
      assert rows == init + [last];
    }
  }

  // By created_at and, where that is the same, by rowid.
  predicate ByClockThenRowid(rows: seq<Row>) {
    forall i, j | 0 <= i < j < |rows| ::
      rows[i].createdAt < rows[j].createdAt || (rows[i].createdAt == rows[j].createdAt && rows[i].rowid < rows[j].rowid)
  }

  lemma {:induction false} InsertBreaksTies(sorted: seq<Row>, r: Row)
    requires ByClockThenRowid(sorted) && forall x | x in sorted :: x.rowid < r.rowid
    ensures ByClockThenRowid(InsertByCreatedAt(sorted, r))
  {
    if sorted != [] {
      var init, last := sorted[..|sorted| - 1], sorted[|sorted| - 1];
      if last.createdAt > r.createdAt {
        InsertBreaksTies(init, r);
        forall x | x in InsertByCreatedAt(init, r)
          ensures x.createdAt < last.createdAt || (x.createdAt == last.createdAt && x.rowid < last.rowid)
        {
          Inserted(init, r, x);
        }
      } else {
        assert forall i | 0 <= i < |sorted| :: sorted[i] in sorted;
      }
    }
  }

  /** Rows of one second are replayed in the order of their rowids. */
  lemma {:induction false} ReplayBreaksTies(rows: seq<Row>)
    requires Increasing(rows)
    ensures ByClockThenRowid(ReplayOrder(rows))
  {
    hide InsertByCreatedAt, ByClockThenRowid;
    if rows == [] {
      NoTies();
    } else {
      var init, last := rows[..|rows| - 1], rows[|rows| - 1];
      ReplayBreaksTies(init);
      ReplayOrderSorts(init);
      forall x | x in ReplayOrder(init) ensures x.rowid < last.rowid {
        assert x in multiset(ReplayOrder(init)) && x in multiset(init);
      }
      InsertBreaksTies(ReplayOrder(init), last);
    }
  }

  lemma NoTies()
    ensures ByClockThenRowid([])
  {
  }

  // verify_chain accepts the table.
  predicate Verifies(H: string -> string, s: Store) {
    Chained(H, StartHash(s), ReplayOrder(s.events))
  }

  // The hash that replay has reached before row i.
  function HashBefore(start: string, rows: seq<Row>, i: nat): string
    requires i <= |rows|
  {
    if i == 0 then start else rows[i - 1].contentHash
  }

  lemma HashBeforeIsTip(start: string, rows: seq<Row>, i: nat)
    requires i <= |rows|
    ensures HashBefore(start, rows, i) == Tip(start, rows[..i])
  {
  }

  /**
   What replay accepts, row by row: the version is v1 or v2, and the stored hash is that of the
   hash before it followed by the JSON text of that version's columns.
   */
  lemma {:induction false} ReplayAcceptsIff(H: string -> string, s: Store)
    ensures Verifies(H, s) <==>
      forall i | 0 <= i < |ReplayOrder(s.events)| ::
        var r, prev := ReplayOrder(s.events)[i], HashBefore(StartHash(s), ReplayOrder(s.events), i);
        || (r.version == "v1" && r.contentHash == H(prev + Dumps(PayloadV1(r.fields))))
        || (r.version == "v2" && r.contentHash == H(prev + Dumps(PayloadV2(r.fields))))
  {
    hide ReplayOrder, Dumps, PayloadV1, PayloadV2, Tip, HashBefore, GoodAt, RowReplays;
    var start, rows := StartHash(s), ReplayOrder(s.events);
    forall i | 0 <= i < |rows|
      ensures GoodAt(H, start, rows, i) <==>
        var r, prev := rows[i], HashBefore(start, rows, i);
        || (r.version == "v1" && r.contentHash == H(prev + Dumps(PayloadV1(r.fields))))
        || (r.version == "v2" && r.contentHash == H(prev + Dumps(PayloadV2(r.fields))))
    {
      HashBeforeIsTip(start, rows, i);
      GoodMeans(H, start, rows, i);
      ReplaysMeans(H, HashBefore(start, rows, i), rows[i]);
    }
    if Verifies(H, s) {
      forall i | 0 <= i < |rows|
        ensures var r, prev := rows[i], HashBefore(start, rows, i);
          || (r.version == "v1" && r.contentHash == H(prev + Dumps(PayloadV1(r.fields))))
          || (r.version == "v2" && r.contentHash == H(prev + Dumps(PayloadV2(r.fields))))
      {
        assert GoodAt(H, start, rows, i);
      }
    }
  }

  lemma GoodMeans(H: string -> string, start: string, rows: seq<Row>, i: nat)
    requires i < |rows|
    ensures GoodAt(H, start, rows, i) <==> RowReplays(H, Tip(start, rows[..i]), rows[i])
  {
    hide Dumps, PayloadV1, PayloadV2, Tip;
  }

  lemma ReplaysMeans(H: string -> string, prev: string, r: Row)
    ensures RowReplays(H, prev, r) <==>
      || (r.version == "v1" && r.contentHash == H(prev + Dumps(PayloadV1(r.fields))))
      || (r.version == "v2" && r.contentHash == H(prev + Dumps(PayloadV2(r.fields))))
  {
    hide Dumps, PayloadV1, PayloadV2;
  }

  predicate RowReplays(H: string -> string, prev: string, r: Row) {
    || (r.version == "v1" && r.contentHash == H(prev + Dumps(PayloadV1(r.fields))))
    || (r.version == "v2" && r.contentHash == H(prev + Dumps(PayloadV2(r.fields))))
  }

  /** A table written by the version that hashed six columns, with any number of newer rows after them, is accepted. */
  lemma {:induction false} OldRowsStillVerify(H: string -> string, s: Store, k: nat)
    requires ClockOrdered(s.events) && k <= |s.events|
    requires forall i | 0 <= i < |s.events| :: s.events[i].version == if i < k then "v1" else "v2"
    requires forall i | 0 <= i < |s.events| ::
      var columns := if i < k then PayloadV1(s.events[i].fields) else PayloadV2(s.events[i].fields);
      s.events[i].contentHash == H(HashBefore(StartHash(s), s.events, i) + Dumps(columns))
    ensures Verifies(H, s)
  {
    hide ReplayOrder, Dumps, PayloadV1, PayloadV2, HashBefore, Verifies;
    ReplayOrderIdentity(s.events);
    ReplayAcceptsIff(H, s);
  }

  /** A row of any other version is rejected, wherever it stands and whatever its hash. */
  lemma {:induction false} OtherVersionsRejected(H: string -> string, s: Store, r: Row)
    requires r in s.events && r.version != "v1" && r.version != "v2"
    ensures !Verifies(H, s)
  {
    hide ReplayOrder, Dumps, Verifies;
    ReplayAcceptsIff(H, s);
    ReplayOrderSorts(s.events);
    assert r in multiset(s.events);
    assert r in multiset(ReplayOrder(s.events));
    var i :| 0 <= i < |ReplayOrder(s.events)| && ReplayOrder(s.events)[i] == r;
  }

  /* ----- pruning ----- */

  predicate Stale(r: Row, cutoff: string) { Before(r.fields.occurredAt, cutoff) }

  /** The comparison of texts is one of times: a row is stale exactly when it is earlier than the cutoff. */
  lemma StaleInTime(r: Row, t: Stamp, cutoff: Stamp)
    requires Proper(t) && Proper(cutoff) && r.fields.occurredAt == StampText(t)
    ensures Stale(r, StampText(cutoff)) <==> Earlier(t, cutoff)
  {
    StampOrder(t, cutoff);
  }

  function StalePrefix(rows: seq<Row>, cutoff: string): (n: nat)
    ensures n <= |rows|
  {
    if rows == [] || !Stale(rows[0], cutoff) then 0 else 1 + StalePrefix(rows[1..], cutoff)
  }

  /** The pruned prefix is the longest one: all of it is stale and the next row is fresh. */
  lemma {:induction false} StalePrefixLongest(rows: seq<Row>, cutoff: string, n: nat)
    requires n <= |rows|
    ensures n == StalePrefix(rows, cutoff) <==>
      (forall i | 0 <= i < n :: Stale(rows[i], cutoff)) && (n < |rows| ==> !Stale(rows[n], cutoff))
    decreases |rows|
  {
    if rows != [] && Stale(rows[0], cutoff) && n > 0 {
      StalePrefixLongest(rows[1..], cutoff, n - 1);
      assert forall i | 0 <= i < n - 1 :: rows[1..][i] == rows[i + 1];
      assert forall i | 1 <= i < n :: rows[i] == rows[1..][i - 1];
    }
  }

  function MarkFor(rows: seq<Row>, n: nat): PruneMark
    requires 0 < n <= |rows|
  {
    var r := rows[n - 1];
    PruneMark(r.fields.id, r.fields.occurredAt, r.contentHash, n)
  }

  // DELETE FROM events WHERE rowid <= n
  function DeleteThrough(rows: seq<Row>, n: nat): seq<Row> {
    if rows == [] then []
    else (if rows[0].rowid <= n then [] else [rows[0]]) + DeleteThrough(rows[1..], n)
  }

  // Recording the mark and deleting up to its rowid, in one transaction.
  function CommitPrune(s: Store, through: nat, mark: PruneMark): Store {
    Store(DeleteThrough(s.events, through), s.marks + [mark])
  }

  function Prune(s: Store, cutoff: string): Store {
    var n := StalePrefix(s.events, cutoff);
    if n == 0 then s else Store(s.events[n..], s.marks + [MarkFor(s.events, n)])
  }

  // A prune records the id, time and hash of the last row it deletes.
  lemma PruneRecords(s: Store, cutoff: string)
    ensures var n, t := StalePrefix(s.events, cutoff), Prune(s, cutoff);
      if n == 0 then t == s
      else
        && |t.marks| == |s.marks| + 1 && t.marks[..|s.marks|] == s.marks
        && var last, mark := s.events[n - 1], t.marks[|s.marks|];
        && mark.throughId == last.fields.id && mark.throughOccurredAt == last.fields.occurredAt
        && mark.chainTipHash == last.contentHash && mark.eventsPruned == n
  {
  }

  // Deleting by rowid removes exactly the counted prefix.
  lemma {:induction false} DeleteThroughPrefix(rows: seq<Row>, n: nat)
    requires Increasing(rows) && 0 < n <= |rows|
    ensures DeleteThrough(rows, rows[n - 1].rowid) == rows[n..]
  {
    DeletePrefixBelow(rows, n, rows[n - 1].rowid);
  }

  lemma {:induction false} DeletePrefixBelow(rows: seq<Row>, n: nat, bound: nat)
    requires Increasing(rows) && n <= |rows|
    requires forall i | 0 <= i < n :: rows[i].rowid <= bound
    requires forall i | n <= i < |rows| :: bound < rows[i].rowid
    ensures DeleteThrough(rows, bound) == rows[n..]
    decreases |rows|
  {
    if rows != [] {
      DeletePrefixBelow(rows[1..], if n == 0 then 0 else n - 1, bound);
      if n == 0 { assert rows == [rows[0]] + rows[1..]; }
    }
  }

  lemma StaysFresh(t: string, c1: string, c2: string)
    requires !Before(t, c1) && !Before(c1, c2)
    ensures !Before(t, c2)
  {
    hide Before;
    Trichotomy(c1, c2);
    if Before(t, c2) { Transitive(t, c2, c1); }
  }

  /**
   Pruning composes: two prunes leave the rows and the effective start hash of one prune at
   the later cutoff, whichever came first.
   */
  lemma {:induction false} PruneComposes(s: Store, c1: string, c2: string)
    ensures var twice, once := Prune(Prune(s, c1), c2), Prune(s, Later(c1, c2));
      twice.events == once.events && StartHash(twice) == StartHash(once)
  {
    hide Before, StalePrefix, Later;
    var rows, n1 := s.events, StalePrefix(s.events, c1);
    var n2 := StalePrefix(rows[n1..], c2);
    PrefixesCompose(rows, c1, c2);
    assert rows[n1..][n2..] == rows[n1 + n2..];
    assert n2 > 0 ==> rows[n1..][n2 - 1] == rows[n1 + n2 - 1];
    assert n1 == 0 ==> rows[n1..] == rows;
  }

  lemma {:induction false} PrefixesCompose(rows: seq<Row>, c1: string, c2: string)
    ensures var n1 := StalePrefix(rows, c1);
      n1 + StalePrefix(rows[n1..], c2) == StalePrefix(rows, Later(c1, c2))
  {
    hide Before, StalePrefix;
    var n1 := StalePrefix(rows, c1);
    var n2 := StalePrefix(rows[n1..], c2);
    StalePrefixLongest(rows, c1, n1);
    StalePrefixLongest(rows[n1..], c2, n2);
    Trichotomy(c1, c2);
    if Before(c1, c2) {
      forall i | 0 <= i < n1 + n2
        ensures Stale(rows[i], c2)
      {
        if i < n1 {
          Transitive(rows[i].fields.occurredAt, c1, c2);
        } else {
          assert rows[n1..][i - n1] == rows[i];
        }
      }
      assert n1 + n2 < |rows| ==> rows[n1..][n2] == rows[n1 + n2];
    } else if n1 < |rows| {
      StaysFresh(rows[n1].fields.occurredAt, c1, c2);
      StalePrefixLongest(rows[n1..], c2, 0);
    }
    StalePrefixLongest(rows, Later(c1, c2), n1 + n2);
  }

  /* ----- the table in place ----- */

  class EventTable {
    const H: string -> string
    const Seconds: string -> int   // a timestamp read as seconds
    var events: seq<Row>
    var marks: seq<PruneMark>

    constructor (H: string -> string, Seconds: string -> int)
      ensures this.H == H && this.Seconds == Seconds
      ensures Content() == Store([], [])
    {
      this.H, this.Seconds, events, marks := H, Seconds, [], [];
    }

    function Content(): Store
      reads this
    {
      Store(events, marks)
    }

    // None or empty: nothing to replay from but GENESIS.
    method LatestCheckpointHash() returns (h: Option<string>)
      ensures StartHash(Content()) == if h.Some? && h.value != "" then h.value else GENESIS
    {
      if marks == [] { h := None; } else { h := Some(marks[|marks| - 1].chainTipHash); }
    }

    method ReadLastHash() returns (h: string)
      ensures h == LastHash(Content())
      ensures h == if events != [] then events[|events| - 1].contentHash
        else if marks != [] && marks[|marks| - 1].chainTipHash != "" then marks[|marks| - 1].chainTipHash
        else "GENESIS"
    {
      if events != [] { return events[|events| - 1].contentHash; }
      var latest := LatestCheckpointHash();
      if latest.Some? && latest.value != "" { h := latest.value; } else { h := GENESIS; }
    }

    // prevHash None: chain from the tip found in the table.
    method LogEvent(f: Fields, prevHash: Option<string>, createdAt: int) returns (id: string, hash: string)
      modifies this`events
      ensures id == f.id
      ensures var prev := prevHash.GetOr(old(LastHash(Content())), p => p);
        events == old(events) + [NewRow(H, prev, f, NextRowid(old(events)), createdAt)]
      ensures hash == LastHash(Content())
      ensures var prev := prevHash.GetOr(old(LastHash(Content())), p => p);
        var rowid := if old(events) == [] then 1 else old(events)[|old(events)| - 1].rowid + 1;
        events == old(events) + [Row(rowid, "v2", f, H(prev + Dumps(PayloadV2(f))), createdAt)]
    {
      hide ChainHash, Dumps, PayloadV2, StartHash;
      var prev;
      if prevHash.None? { prev := ReadLastHash(); } else { prev := prevHash.value; }
      hash := ChainHash(H, prev, "v2", f);
      NewHash(H, prev, f);
      events := events + [Row(NextRowid(events), "v2", f, hash, createdAt)];
      id := f.id;
    }

    // The id returned with false is that of the first row, in replay order, that breaks the chain.
    method VerifyChain() returns (ok: bool, bad: Option<string>)
      ensures ok == Verifies(H, Content())
      ensures ok <==> forall i | 0 <= i < |ReplayOrder(events)| ::
        var r, prev := ReplayOrder(events)[i], HashBefore(StartHash(Content()), ReplayOrder(events), i);
        || (r.version == "v1" && r.contentHash == H(prev + Dumps(PayloadV1(r.fields))))
        || (r.version == "v2" && r.contentHash == H(prev + Dumps(PayloadV2(r.fields))))
      ensures ok ==> bad == None
      ensures !ok ==> exists k ::
        && 0 <= k < |ReplayOrder(events)|
        && Chained(H, StartHash(Content()), ReplayOrder(events)[..k])
        && !GoodAt(H, StartHash(Content()), ReplayOrder(events), k)
        && bad == Some(ReplayOrder(events)[k].fields.id)
    {
      hide ReplayOrder, ChainHash, StartHash, Dumps, PayloadV1, PayloadV2, HashBefore;
      ReplayAcceptsIff(H, Content());
      var latest := LatestCheckpointHash();
      var prev := if latest.Some? && latest.value != "" then latest.value else GENESIS;
      ghost var start := StartHash(Content());
      var rows := ReplayOrder(events);
      var i := 0;
      while i < |rows|
        invariant 0 <= i <= |rows|
        invariant prev == Tip(start, rows[..i])
        invariant Chained(H, start, rows[..i])
      {
        var r := rows[i];
        assert !(KnownVersion(r.version) && ChainHash(H, prev, r.version, r.fields) == r.contentHash)
          ==> !GoodAt(H, start, rows, i);
        if r.version != "v1" && r.version != "v2" { return false, Some(r.fields.id); }
        if ChainHash(H, prev, r.version, r.fields) != r.contentHash { return false, Some(r.fields.id); }
        ChainExtend(H, start, rows[..i], r);
        assert rows[..i + 1] == rows[..i] + [r];
        prev := r.contentHash;
        i := i + 1;
      }
      assert rows[..i] == rows;
      return true, None;
    }

    // The reading half of a prune: the last rowid to delete and the mark to record.
    method ScanPrune(cutoff: string) returns (through: Option<nat>, mark: PruneMark)
      ensures through.None? <==> StalePrefix(events, cutoff) == 0
      ensures through.Some? ==>
        var n := StalePrefix(events, cutoff);
        through == Some(events[n - 1].rowid) && mark == MarkFor(events, n)
      ensures through.Some? ==>
        var n := StalePrefix(events, cutoff);
        && mark.throughId == events[n - 1].fields.id && mark.throughOccurredAt == events[n - 1].fields.occurredAt
        && mark.chainTipHash == events[n - 1].contentHash && mark.eventsPruned == n
    {
      through, mark := None, PruneMark("", "", "", 0);
      var pruned := 0;
      while pruned < |events| && Stale(events[pruned], cutoff)
        invariant 0 <= pruned <= |events|
        invariant forall i | 0 <= i < pruned :: Stale(events[i], cutoff)
        invariant through.None? <==> pruned == 0
        invariant through.Some? ==> through == Some(events[pruned - 1].rowid) && mark == MarkFor(events, pruned)
      {
        var r := events[pruned];
        pruned := pruned + 1;
        through, mark := Some(r.rowid), PruneMark(r.fields.id, r.fields.occurredAt, r.contentHash, pruned);
      }
      StalePrefixLongest(events, cutoff, pruned);
    }

    method PruneEvents(cutoff: string) returns (pruned: nat, tip: Option<string>)
      requires Increasing(events)
      modifies this
      ensures Content() == Prune(old(Content()), cutoff)
      ensures pruned == StalePrefix(old(events), cutoff) == |old(events)| - |events|
      ensures tip == if pruned == 0 then None else Some(old(events)[pruned - 1].contentHash)
    {
      var through, mark := ScanPrune(cutoff);
      if through.None? { return 0, None; }
      DeleteThroughPrefix(events, StalePrefix(events, cutoff));
      marks := marks + [mark];
      events := DeleteThrough(events, through.value);
      return mark.eventsPruned, Some(mark.chainTipHash);
    }

    // At startup: a marker is appended when the last event is old enough, and only then.
    method CheckAndLogGap(now: int, threshold: int, marker: Fields, createdAt: int) returns (id: Option<string>)
      modifies this`events
      ensures id.Some? <==>
        old(events) != [] && now - Seconds(old(events)[|old(events)| - 1].fields.occurredAt) >= threshold
      ensures id.None? ==> events == old(events)
      ensures id.Some? ==> id == Some(marker.id)
      ensures id.Some? ==>
        && events == old(events) + [NewRow(H, old(LastHash(Content())), marker, NextRowid(old(events)), createdAt)]
        && events[|old(events)|].fields == marker && events[|old(events)|].version == "v2"
        && events[|old(events)|].createdAt == createdAt
    {
      if events == [] { return None; }
      var elapsed := now - Seconds(events[|events| - 1].fields.occurredAt);
      if elapsed < threshold { return None; }
      var prev := ReadLastHash();
      var event, _ := LogEvent(marker, Some(prev), createdAt);
      return Some(event);
    }
  }
}
