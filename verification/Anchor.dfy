/**
 The signed external anchor: a file of checkpoints, each naming the event chain's tip and
 the checkpoint before it. `verify` is the public-key check; a signature counts as forged
 when it checks out for a hash the honest writer never signed.
 */
module Anchor {
  import opened Wrappers
  import opened Json
  import opened EventChain
  import opened EventStore

  const GENESIS_CHECKPOINT := "GENESIS_CHECKPOINT"

  datatype Checkpoint = Checkpoint(
    seqNo: int, createdAt: string, chainTipHash: string, eventCount: int,
    prevCheckpointHash: string, checkpointHash: string, signature: string)

  datatype Keys = Keys(H: string -> string, sign: string -> string, verify: (string, string) -> bool)

  function CheckpointPayload(cp: Checkpoint): seq<Member> {
    [Text("chain_tip_hash", cp.chainTipHash), Text("created_at", cp.createdAt),
     Member("event_count", Int(cp.eventCount)),
     Text("prev_checkpoint_hash", cp.prevCheckpointHash), Member("seq", Int(cp.seqNo))]
  }

  function CheckpointText(cp: Checkpoint): string { Dumps(CheckpointPayload(cp)) }

  predicate SamePayload(a: Checkpoint, b: Checkpoint) {
    && a.seqNo == b.seqNo && a.createdAt == b.createdAt && a.chainTipHash == b.chainTipHash
    && a.eventCount == b.eventCount && a.prevCheckpointHash == b.prevCheckpointHash
  }

  /** The object hashed for a checkpoint has these five members and no other. */
  lemma CheckpointColumns(cp: Checkpoint)
    ensures var p := CheckpointPayload(cp);
      && |p| == 5
      && Member("seq", Int(cp.seqNo)) in p && Text("created_at", cp.createdAt) in p
      && Text("chain_tip_hash", cp.chainTipHash) in p && Member("event_count", Int(cp.eventCount)) in p
      && Text("prev_checkpoint_hash", cp.prevCheckpointHash) in p
  {
    var p := CheckpointPayload(cp);
    assert p[0] in p && p[1] in p && p[2] in p && p[3] in p && p[4] in p;
  }

  /** The checkpoint text, too, is uniquely decodable. */
  lemma {:induction false} CheckpointTextInjective(a: Checkpoint, b: Checkpoint)
    ensures CheckpointText(a) == CheckpointText(b) <==> SamePayload(a, b)
  {
    hide Dumps;
    var p, q := CheckpointPayload(a), CheckpointPayload(b);
    DumpsInjective(p, q);
    if p == q {
      assert p[0] == q[0] && p[1] == q[1] && p[2] == q[2] && p[3] == q[3] && p[4] == q[4];
    }
  }

  /* ----- the file ----- */

  function PrevHash(cps: seq<Checkpoint>): string {
    if cps == [] then GENESIS_CHECKPOINT else cps[|cps| - 1].checkpointHash
  }

  predicate EntryOk(k: Keys, prev: string, cp: Checkpoint) {
    && cp.prevCheckpointHash == prev
    && k.H(CheckpointText(cp)) == cp.checkpointHash
    && k.verify(cp.signature, cp.checkpointHash)
  }

  predicate FileValid(k: Keys, cps: seq<Checkpoint>) {
    forall i | 0 <= i < |cps| :: EntryOk(k, PrevHash(cps[..i]), cps[i])
  }

  lemma EmptyFileValid(k: Keys, cps: seq<Checkpoint>)
    requires cps == []
    ensures FileValid(k, cps)
  {
  }

  // What the file check accepts, entry by entry.
  lemma {:induction false} FileAcceptsIff(k: Keys, cps: seq<Checkpoint>)
    ensures FileValid(k, cps) <==>
      forall i | 0 <= i < |cps| ::
        && (i == 0 ==> cps[i].prevCheckpointHash == "GENESIS_CHECKPOINT")
        && (i > 0 ==> cps[i].prevCheckpointHash == cps[i - 1].checkpointHash)
        && cps[i].checkpointHash == k.H(CheckpointText(cps[i]))
        && k.verify(cps[i].signature, cps[i].checkpointHash)
  {
    hide CheckpointText;
    forall i | 0 <= i < |cps|
      ensures PrevHash(cps[..i]) == if i == 0 then "GENESIS_CHECKPOINT" else cps[i - 1].checkpointHash
    {
      assert i > 0 ==> cps[..i][|cps[..i]| - 1] == cps[i - 1];
    }
    if FileValid(k, cps) {
      forall i | 0 <= i < |cps|
        ensures i == 0 ==> cps[i].prevCheckpointHash == "GENESIS_CHECKPOINT"
        ensures i > 0 ==> cps[i].prevCheckpointHash == cps[i - 1].checkpointHash
        ensures cps[i].checkpointHash == k.H(CheckpointText(cps[i]))
        ensures k.verify(cps[i].signature, cps[i].checkpointHash)
      {
        assert EntryOk(k, PrevHash(cps[..i]), cps[i]);
      }
    }
  }

  lemma BadEntry(k: Keys, cps: seq<Checkpoint>, i: nat)
    requires i < |cps| && !EntryOk(k, PrevHash(cps[..i]), cps[i])
    ensures !FileValid(k, cps)
  {
    hide EntryOk;
  }

  lemma OneMoreValid(k: Keys, cps: seq<Checkpoint>, i: nat)
    requires i < |cps| && FileValid(k, cps[..i]) && EntryOk(k, PrevHash(cps[..i]), cps[i])
    ensures FileValid(k, cps[..i + 1]) && PrevHash(cps[..i + 1]) == cps[i].checkpointHash
  {
    hide EntryOk;
    var init, all := cps[..i], cps[..i + 1];
    forall j | 0 <= j < |all|
      ensures EntryOk(k, PrevHash(all[..j]), all[j])
    {
      assert all[..j] == cps[..j] && (j < i ==> init[..j] == cps[..j] && init[j] == cps[j]);
    }
  }

  // The checkpoint the writer appends to the file it found.
  function NewCheckpoint(k: Keys, cps: seq<Checkpoint>, s: Store, createdAt: string): Checkpoint {
    var number := if cps == [] then 0 else cps[|cps| - 1].seqNo + 1;
    var unsigned := Checkpoint(number, createdAt, LastHash(s), |s.events|, PrevHash(cps), "", "");
    var hash := k.H(CheckpointText(unsigned));
    unsigned.(checkpointHash := hash, signature := k.sign(hash))
  }

  predicate WrittenAt(k: Keys, cps: seq<Checkpoint>, i: nat)
    requires i < |cps|
  {
    && cps[i].seqNo == i
    && cps[i].prevCheckpointHash == PrevHash(cps[..i])
    && cps[i].checkpointHash == k.H(CheckpointText(cps[i]))
    && cps[i].signature == k.sign(cps[i].checkpointHash)
  }

  // What repeated writing builds: numbered from 0, chained, hashed and signed.
  predicate Written(k: Keys, cps: seq<Checkpoint>) {
    forall i | 0 <= i < |cps| :: WrittenAt(k, cps, i)
  }

  lemma {:induction false} WritingExtends(k: Keys, cps: seq<Checkpoint>, s: Store, createdAt: string)
    requires Written(k, cps)
    ensures Written(k, cps + [NewCheckpoint(k, cps, s, createdAt)])
  {
    hide CheckpointText;
    var cp := NewCheckpoint(k, cps, s, createdAt);
    var all := cps + [cp];
    assert cp.checkpointHash == k.H(CheckpointText(cp)) by {
      CheckpointTextInjective(cp, cp.(checkpointHash := "", signature := ""));
    }
    assert cps == [] ==> cp.seqNo == 0;
    assert cps != [] ==> WrittenAt(k, cps, |cps| - 1);
    forall i | 0 <= i < |all|
      ensures WrittenAt(k, all, i)
    {
      if i < |cps| {
        assert WrittenAt(k, cps, i);
        assert all[..i] == cps[..i] && all[i] == cps[i];
      } else {
        assert all[..i] == cps && all[i] == cp;
      }
    }
  }

  function CheckpointTexts(cps: seq<Checkpoint>): set<string> {
    set i | 0 <= i < |cps| :: CheckpointText(cps[i])
  }

  // Some entry of `file` carries a good signature on a hash that `written` never had signed.
  ghost predicate Forged(k: Keys, file: seq<Checkpoint>, written: seq<Checkpoint>) {
    exists i :: 0 <= i < |file| && k.verify(file[i].signature, file[i].checkpointHash) &&
      forall j | 0 <= j < |written| :: written[j].checkpointHash != file[i].checkpointHash
  }

  // The two entries record the same, and the first carries a good signature.
  predicate SameEntry(k: Keys, a: Checkpoint, b: Checkpoint) {
    SamePayload(a, b) && a.checkpointHash == b.checkpointHash && k.verify(a.signature, a.checkpointHash)
  }

  // The entries of `file` are the first entries of `written`, in order.
  predicate SignedPrefix(k: Keys, file: seq<Checkpoint>, written: seq<Checkpoint>) {
    |file| <= |written| && forall i | 0 <= i < |file| :: SameEntry(k, file[i], written[i])
  }

  // A digest is never the sentinel, so only the first entry can follow it.
  lemma {:induction false} FirstIffSentinel(k: Keys, cps: seq<Checkpoint>, n: nat)
    requires Digests(k.H) && n <= |cps| && Written(k, cps)
    ensures PrevHash(cps[..n]) == GENESIS_CHECKPOINT <==> n == 0
  {
    hide CheckpointText;
    if n > 0 {
      assert WrittenAt(k, cps, n - 1);
      assert IsDigest(k.H(CheckpointText(cps[n - 1])));
    }
  }

  lemma {:induction false} SameHash(k: Keys, file: seq<Checkpoint>, written: seq<Checkpoint>, i: nat, j: nat)
    requires Written(k, written) && FileValid(k, file)
    requires i < |file| && j < |written| && file[i].checkpointHash == written[j].checkpointHash
    requires !CollisionBetween(k.H, CheckpointTexts(file), CheckpointTexts(written))
    ensures SameEntry(k, file[i], written[j])
  {
    hide CheckpointText;
    assert EntryOk(k, PrevHash(file[..i]), file[i]);
    assert WrittenAt(k, written, j);
    assert CheckpointText(file[i]) in CheckpointTexts(file) && CheckpointText(written[j]) in CheckpointTexts(written);
    CheckpointTextInjective(file[i], written[j]);
  }

  lemma SamePrev(k: Keys, prev: string, a: Checkpoint, written: seq<Checkpoint>, j: nat)
    requires j < |written| && WrittenAt(k, written, j) && SameEntry(k, a, written[j])
    ensures EntryOk(k, prev, a) <==> prev == PrevHash(written[..j])
    ensures a.seqNo == j
  {
    hide CheckpointText, PrevHash;
    CheckpointTextInjective(a, written[j]);
  }

  lemma PrevOf(cps: seq<Checkpoint>, n: nat)
    requires 0 < n <= |cps|
    ensures PrevHash(cps[..n]) == cps[n - 1].checkpointHash
  {
  }

  // Entry i records what was written as entry j after the same previous hash, so j is i.
  lemma {:induction false} IndexDetermined(k: Keys, file: seq<Checkpoint>, written: seq<Checkpoint>, i: nat, j: nat)
    requires Digests(k.H) && Written(k, written) && FileValid(k, file)
    requires i < |file| && i <= |written| && j < |written|
    requires i > 0 ==> SameEntry(k, file[i - 1], written[i - 1])
    requires PrevHash(file[..i]) == PrevHash(written[..j])
    requires !CollisionBetween(k.H, CheckpointTexts(file), CheckpointTexts(written))
    ensures j == i
  {
    hide Digests, CollisionBetween, CheckpointTexts, WrittenAt, SameEntry, PrevHash, FileValid;
    FirstIffSentinel(k, written, i);
    FirstIffSentinel(k, written, j);
    if i > 0 {
      PrevOf(file, i);
      PrevOf(written, i);
      EqualHashes(k, file[i - 1], written[i - 1]);
      assert j > 0;
      PrevOf(written, j);
      SameHash(k, file, written, i - 1, j - 1);
      assert WrittenAt(k, written, i - 1) && WrittenAt(k, written, j - 1);
      SamePrev(k, "", file[i - 1], written, i - 1);
      SamePrev(k, "", file[i - 1], written, j - 1);
    } else {
      assert file[..0] == written[..0];
    }
  }

  // One entry: given that everything before it is in place, it can only be the next one written.
  lemma {:induction false} NextEntry(k: Keys, file: seq<Checkpoint>, written: seq<Checkpoint>, i: nat)
    requires Digests(k.H) && Written(k, written) && FileValid(k, file)
    requires i < |file| && SignedPrefix(k, file[..i], written)
    requires !Forged(k, file, written)
    requires !CollisionBetween(k.H, CheckpointTexts(file), CheckpointTexts(written))
    ensures i < |written| && SameEntry(k, file[i], written[i])
  {
    hide Digests, CollisionBetween, CheckpointTexts, WrittenAt, SameEntry, PrevHash, Forged, EntryOk;
    var j := SignedEntry(k, file, written, i);
    SameHash(k, file, written, i, j);
    assert EntryOk(k, PrevHash(file[..i]), file[i]) && WrittenAt(k, written, j);
    SamePrev(k, PrevHash(file[..i]), file[i], written, j);
    if i > 0 { assert file[..i][i - 1] == file[i - 1]; }
    IndexDetermined(k, file, written, i, j);
  }

  lemma EqualHashes(k: Keys, a: Checkpoint, b: Checkpoint)
    requires SameEntry(k, a, b)
    ensures a.checkpointHash == b.checkpointHash
  {
  }

  lemma SignedEntry(k: Keys, file: seq<Checkpoint>, written: seq<Checkpoint>, i: nat) returns (j: nat)
    requires FileValid(k, file) && i < |file| && !Forged(k, file, written)
    ensures j < |written| && written[j].checkpointHash == file[i].checkpointHash
  {
    hide CheckpointText;
    assert EntryOk(k, PrevHash(file[..i]), file[i]);
    j :| j < |written| && written[j].checkpointHash == file[i].checkpointHash;
  }

  lemma {:induction false} PrefixUpTo(k: Keys, file: seq<Checkpoint>, written: seq<Checkpoint>, n: nat)
    requires Digests(k.H) && Written(k, written) && FileValid(k, file) && n <= |file|
    requires !Forged(k, file, written)
    requires !CollisionBetween(k.H, CheckpointTexts(file), CheckpointTexts(written))
    ensures SignedPrefix(k, file[..n], written)
  {
    hide CheckpointTexts, SameEntry, WrittenAt, EntryOk, Forged, CollisionBetween, Digests;
    if n > 0 {
      PrefixUpTo(k, file, written, n - 1);
      NextEntry(k, file, written, n - 1);
      forall i | 0 <= i < n
        ensures SameEntry(k, file[..n][i], written[i])
      {
        assert i < n - 1 ==> file[..n - 1][i] == file[i];
      }
    }
  }

  /** Truncation is not detected: every prefix of what was written passes. */
  lemma {:induction false} PrefixIsValid(k: Keys, file: seq<Checkpoint>, written: seq<Checkpoint>)
    requires Written(k, written) && SignedPrefix(k, file, written)
    ensures FileValid(k, file)
  {
    hide SameEntry, WrittenAt, EntryOk;
    forall i | 0 <= i < |file|
      ensures EntryOk(k, PrevHash(file[..i]), file[i])
    {
      assert SameEntry(k, file[i], written[i]) && WrittenAt(k, written, i);
      SamePrev(k, PrevHash(file[..i]), file[i], written, i);
      if i > 0 {
        assert SameEntry(k, file[i - 1], written[i - 1]);
        EqualHashes(k, file[i - 1], written[i - 1]);
        assert file[..i][i - 1] == file[i - 1] && written[..i][i - 1] == written[i - 1];
      }
    }
  }

  /**
   Without a forged signature or a collision, the files that pass are exactly the prefixes
   of what was written: deleting from the middle, reordering, inserting and editing all fail.
   */
  lemma {:induction false} ValidFilesArePrefixes(k: Keys, file: seq<Checkpoint>, written: seq<Checkpoint>)
    requires Digests(k.H) && Written(k, written)
    ensures || Forged(k, file, written)
            || CollisionBetween(k.H, CheckpointTexts(file), CheckpointTexts(written))
            || (FileValid(k, file) <==> SignedPrefix(k, file, written))
  {
    hide SameEntry, WrittenAt, EntryOk, Forged, CollisionBetween, Digests;
    if Forged(k, file, written) || CollisionBetween(k.H, CheckpointTexts(file), CheckpointTexts(written)) {
    } else if FileValid(k, file) {
      PrefixUpTo(k, file, written, |file|);
      assert file[..|file|] == file;
    } else if SignedPrefix(k, file, written) {
      PrefixIsValid(k, file, written);
    }
  }

  /* ----- the file against the event table ----- */

  predicate HasHash(rows: seq<Row>, h: string) { exists i :: 0 <= i < |rows| && rows[i].contentHash == h }

  predicate AgainstEvents(k: Keys, cps: seq<Checkpoint>, s: Store) {
    && FileValid(k, cps)
    && (cps == [] || (
      && Verifies(k.H, s)
      && (cps[|cps| - 1].chainTipHash == GENESIS || HasHash(s.events, cps[|cps| - 1].chainTipHash))))
  }

  // The anchored row in replay order.
  lemma {:induction false} InReplayOrder(rows: seq<Row>, h: string) returns (i: nat)
    requires HasHash(rows, h)
    ensures i < |ReplayOrder(rows)| && ReplayOrder(rows)[i].contentHash == h
  {
    hide ReplayOrder;
    ReplayOrderSorts(rows);
    var j :| 0 <= j < |rows| && rows[j].contentHash == h;
    assert rows[j] in multiset(rows);
    assert rows[j] in ReplayOrder(rows);
    i :| i < |ReplayOrder(rows)| && ReplayOrder(rows)[i] == rows[j];
  }

  // The table, replayed and cut just after row i, is the end of the honest history.
  ghost predicate AnchoredAt(s: Store, history: seq<Row>, tip: string, i: nat) {
    && i < |ReplayOrder(s.events)|
    && ReplayOrder(s.events)[i].contentHash == tip
    && SuffixOf(StartHash(s), ReplayOrder(s.events)[..i + 1], GENESIS, history)
  }

  ghost predicate IsEndOf(s: Store, history: seq<Row>, tip: string) {
    exists i :: AnchoredAt(s, history, tip, i)
  }

  /**
   Anchor soundness. `history` is the honest history up to the moment its tip was signed. A
   table that replays and holds a row with that tip, cut just after it, is the end of that
   history on every covered field, or a text hashed for it collides with one of the history's.
   */
  lemma {:induction false} AnchorSound(H: string -> string, history: seq<Row>, s: Store, tip: string)
    requires Digests(H) && Chained(H, GENESIS, history) && tip == Tip(GENESIS, history)
    requires Verifies(H, s) && HasHash(s.events, tip)
    ensures || CollisionBetween(H, RowTexts(StartHash(s), ReplayOrder(s.events)), RowTexts(GENESIS, history))
            || IsEndOf(s, history, tip)
  {
    hide ReplayOrder, ChainText, SameRow;
    var start, rows := StartHash(s), ReplayOrder(s.events);
    var i := InReplayOrder(s.events, tip);
    var cut := rows[..i + 1];
    ChainPrefix(H, start, rows, i + 1);
    assert Tip(start, cut) == tip;
    TipDeterminesSuffix(H, start, cut, GENESIS, history);
    if SuffixOf(GENESIS, history, start, cut) {
      GenesisSuffix(H, history, start, cut);
    }
    assert SuffixOf(start, cut, GENESIS, history) ==> AnchoredAt(s, history, tip, i);
  }

  // A chain that ends with one from GENESIS is that chain.
  lemma {:induction false} GenesisSuffix(H: string -> string, xs: seq<Row>, t: string, ys: seq<Row>)
    requires Digests(H) && Chained(H, t, ys)
    requires SuffixOf(GENESIS, xs, t, ys)
    ensures SuffixOf(t, ys, GENESIS, xs)
  {
    hide SameRow, ChainText;
    var k := |ys| - |xs|;
    ChainPrefix(H, t, ys, k);
    if k > 0 { TipIsDigest(H, t, ys[..k]); }
    assert k == 0;
    assert ys[k..] == ys && xs[0..] == xs;
    forall i | 0 <= i < |ys| ensures SameRow(ys[i], xs[i]) { SameRowSymmetric(xs[i], ys[i]); }
  }

  /* ----- the file in place ----- */

  class AnchorFile {
    const k: Keys
    var lines: seq<Checkpoint>

    constructor (k: Keys)
      ensures this.k == k && lines == []
    {
      this.k, lines := k, [];
    }

    method WriteCheckpoint(table: EventTable, createdAt: string) returns (cp: Checkpoint)
      modifies this
      ensures lines == old(lines) + [cp]
      ensures cp == NewCheckpoint(k, old(lines), table.Content(), createdAt)
      ensures cp.eventCount == |table.events| && cp.createdAt == createdAt
      ensures cp.chainTipHash == if table.events != [] then table.events[|table.events| - 1].contentHash
        else StartHash(table.Content())
      ensures if old(lines) == [] then cp.seqNo == 0 && cp.prevCheckpointHash == "GENESIS_CHECKPOINT"
        else
          var last := old(lines)[|old(lines)| - 1];
          cp.seqNo == last.seqNo + 1 && cp.prevCheckpointHash == last.checkpointHash
      ensures cp.checkpointHash == k.H(CheckpointText(cp)) && cp.signature == k.sign(cp.checkpointHash)
      ensures old(Written(k, lines)) ==> Written(k, lines)
    {
      hide Written, CheckpointText;
      var prev, number := GENESIS_CHECKPOINT, 0;
      if lines != [] {
        prev, number := lines[|lines| - 1].checkpointHash, lines[|lines| - 1].seqNo + 1;
      }
      var tip := table.ReadLastHash();
      var unsigned := Checkpoint(number, createdAt, tip, |table.events|, prev, "", "");
      var hash := k.H(CheckpointText(unsigned));
      cp := unsigned.(checkpointHash := hash, signature := k.sign(hash));
      CheckpointTextInjective(cp, unsigned);
      if Written(k, lines) { WritingExtends(k, lines, table.Content(), createdAt); }
      lines := lines + [cp];
    }

    method VerifyFile() returns (ok: bool)
      ensures ok == FileValid(k, lines)
      ensures ok <==> forall i | 0 <= i < |lines| ::
        && (i == 0 ==> lines[i].prevCheckpointHash == "GENESIS_CHECKPOINT")
        && (i > 0 ==> lines[i].prevCheckpointHash == lines[i - 1].checkpointHash)
        && lines[i].checkpointHash == k.H(CheckpointText(lines[i]))
        && k.verify(lines[i].signature, lines[i].checkpointHash)
    {
      hide CheckpointText, FileValid;
      var prev := GENESIS_CHECKPOINT;
      var i := 0;
      EmptyFileValid(k, lines[..0]);
      while i < |lines|
        invariant 0 <= i <= |lines|
        invariant prev == PrevHash(lines[..i])
        invariant FileValid(k, lines[..i])
      {
        var cp := lines[i];
        if cp.prevCheckpointHash != prev || k.H(CheckpointText(cp)) != cp.checkpointHash
          || !k.verify(cp.signature, cp.checkpointHash)
        {
          BadEntry(k, lines, i);
          FileAcceptsIff(k, lines);
          return false;
        }
        OneMoreValid(k, lines, i);
        prev := cp.checkpointHash;
        i := i + 1;
      }
      assert lines[..i] == lines;
      FileAcceptsIff(k, lines);
      return true;
    }

    method VerifyAgainstEvents(table: EventTable) returns (ok: bool)
      requires table.H == k.H
      ensures ok == AgainstEvents(k, lines, table.Content())
      ensures ok <==>
        && FileValid(k, lines)
        && (lines != [] ==>
          && Verifies(table.H, table.Content())
          && var tip := lines[|lines| - 1].chainTipHash;
             tip == "GENESIS" || exists i :: 0 <= i < |table.events| && table.events[i].contentHash == tip)
    {
      hide FileValid, Verifies, ReplayOrder, HashBefore, StartHash, GoodAt, Chained, CheckpointText;
      hide Dumps, PayloadV1, PayloadV2;
      var fileOk := VerifyFile();
      if !fileOk { return false; }
      if lines == [] { return true; }
      var chainOk, _ := table.VerifyChain();
      if !chainOk { return false; }
      var latest := lines[|lines| - 1];
      if latest.chainTipHash == GENESIS { return true; }
      ok := exists i :: 0 <= i < |table.events| && table.events[i].contentHash == latest.chainTipHash;
    }
  }
}
