/**
 The hash chain over event rows: what is hashed for a row, what a valid chain is, and what
 the hash at its end says about the rows. SHA-256 is a parameter `H` about which only the
 shape of its digests is assumed. A result that needs collision freedom names the texts
 among which the collision would be: those hashed for the two chains it compares.
 */
module EventChain {
  import opened Wrappers
  import opened Json
  import opened SplitText

  const GENESIS := "GENESIS"

  // The columns of an event row that a hash may cover.
  datatype Fields = Fields(
    id: string, occurredAt: string, organizationId: string, agentId: string,
    sessionId: Option<string>, actorHumanId: Option<string>, eventType: string,
    action: Option<string>, toolId: Option<string>, resourceId: Option<string>,
    environment: Option<string>, source: Option<string>, result: Option<string>,
    requestId: Option<string>, metadata: Option<string>)

  datatype Row = Row(rowid: nat, version: string, fields: Fields, contentHash: string, createdAt: int)

  /* ----- the hashed text ----- */

  function Text(key: string, s: string): Member { Member(key, Str(s)) }

  function Nullable(key: string, s: Option<string>): Member {
    Member(key, if s.None? then Null else Str(s.value))
  }

  // Keys in sorted order.
  function PayloadV1(f: Fields): seq<Member> {
    [Nullable("action", f.action), Text("agent_id", f.agentId), Text("event_type", f.eventType),
     Text("id", f.id), Text("occurred_at", f.occurredAt), Nullable("resource_id", f.resourceId)]
  }

  function PayloadV2(f: Fields): seq<Member> {
    [Nullable("action", f.action), Nullable("actor_human_id", f.actorHumanId), Text("agent_id", f.agentId),
     Nullable("environment", f.environment), Text("event_type", f.eventType), Text("event_version", "v2"),
     Text("id", f.id), Nullable("metadata", f.metadata), Text("occurred_at", f.occurredAt),
     Text("organization_id", f.organizationId), Nullable("request_id", f.requestId),
     Nullable("resource_id", f.resourceId), Nullable("result", f.result), Nullable("session_id", f.sessionId),
     Nullable("source", f.source), Nullable("tool_id", f.toolId)]
  }

  function Payload(version: string, f: Fields): seq<Member> {
    if version == "v1" then PayloadV1(f) else PayloadV2(f)
  }

  function ChainText(prev: string, version: string, f: Fields): string {
    prev + Dumps(Payload(version, f))
  }

  function ChainHash(H: string -> string, prev: string, version: string, f: Fields): string {
    H(ChainText(prev, version, f))
  }

  predicate KnownVersion(version: string) { version == "v1" || version == "v2" }

  // Agreement on the columns the hash of this version covers.
  predicate SameCovered(version: string, f: Fields, g: Fields) {
    if version == "v1" then
      && f.id == g.id && f.occurredAt == g.occurredAt && f.agentId == g.agentId
      && f.eventType == g.eventType && f.action == g.action && f.resourceId == g.resourceId
    else f == g
  }

  predicate IsHexDigit(c: char) { '0' <= c <= '9' || 'a' <= c <= 'f' }

  predicate IsDigest(s: string) { |s| == 64 && forall i | 0 <= i < 64 :: IsHexDigit(s[i]) }

  ghost predicate Digests(H: string -> string) { forall s :: IsDigest(H(s)) }

  /** The object hashed for a v1 row has these six members and no other: each column under its own key. */
  lemma PayloadV1Columns(f: Fields)
    ensures |PayloadV1(f)| == 6
    ensures
      && Text("id", f.id) in PayloadV1(f) && Text("occurred_at", f.occurredAt) in PayloadV1(f)
      && Text("agent_id", f.agentId) in PayloadV1(f) && Text("event_type", f.eventType) in PayloadV1(f)
      && Nullable("action", f.action) in PayloadV1(f) && Nullable("resource_id", f.resourceId) in PayloadV1(f)
  {
    var p := PayloadV1(f);
    assert p[0] in p && p[1] in p && p[2] in p && p[3] in p && p[4] in p && p[5] in p;
  }

  /** And for a v2 row these sixteen. */
  lemma PayloadV2Columns(f: Fields)
    ensures |PayloadV2(f)| == 16
    ensures
      && Text("event_version", "v2") in PayloadV2(f)
      && Text("id", f.id) in PayloadV2(f) && Text("occurred_at", f.occurredAt) in PayloadV2(f)
      && Text("organization_id", f.organizationId) in PayloadV2(f) && Text("agent_id", f.agentId) in PayloadV2(f)
      && Text("event_type", f.eventType) in PayloadV2(f)
    ensures
      && Nullable("session_id", f.sessionId) in PayloadV2(f)
      && Nullable("actor_human_id", f.actorHumanId) in PayloadV2(f)
      && Nullable("action", f.action) in PayloadV2(f) && Nullable("tool_id", f.toolId) in PayloadV2(f)
      && Nullable("resource_id", f.resourceId) in PayloadV2(f) && Nullable("environment", f.environment) in PayloadV2(f)
      && Nullable("source", f.source) in PayloadV2(f) && Nullable("result", f.result) in PayloadV2(f)
      && Nullable("request_id", f.requestId) in PayloadV2(f) && Nullable("metadata", f.metadata) in PayloadV2(f)
  {
    hide Text, Nullable;
    var p := PayloadV2(f);
    assert p[0] in p && p[1] in p && p[2] in p && p[3] in p && p[4] in p && p[5] in p && p[6] in p && p[7] in p;
    assert p[8] in p && p[9] in p && p[10] in p && p[11] in p && p[12] in p && p[13] in p && p[14] in p && p[15] in p;
  }

  lemma PayloadV1Determined(f: Fields, g: Fields)
    requires PayloadV1(f) == PayloadV1(g)
    ensures SameCovered("v1", f, g)
  {
    var a, b := PayloadV1(f), PayloadV1(g);
    assert a[0] == b[0] && a[1] == b[1] && a[2] == b[2] && a[3] == b[3] && a[4] == b[4] && a[5] == b[5];
  }

  lemma PayloadV2Determined(f: Fields, g: Fields)
    requires PayloadV2(f) == PayloadV2(g)
    ensures f == g
  {
    var a, b := PayloadV2(f), PayloadV2(g);
    assert a[0] == b[0] && a[1] == b[1] && a[2] == b[2] && a[3] == b[3] && a[4] == b[4];
    assert a[6] == b[6] && a[7] == b[7] && a[8] == b[8] && a[9] == b[9] && a[10] == b[10];
    assert a[11] == b[11] && a[12] == b[12] && a[13] == b[13] && a[14] == b[14] && a[15] == b[15];
  }

  lemma {:induction false} PayloadDetermined(v: string, f: Fields, w: string, g: Fields)
    requires KnownVersion(v) && KnownVersion(w)
    ensures Payload(v, f) == Payload(w, g) <==> v == w && SameCovered(v, f, g)
  {
    assert |Payload(v, f)| == if v == "v1" then 6 else 16;
    assert |Payload(w, g)| == if w == "v1" then 6 else 16;
    if Payload(v, f) == Payload(w, g) {
      if v == "v1" { PayloadV1Determined(f, g); } else { PayloadV2Determined(f, g); }
    }
  }

  /**
   The hashed text is uniquely decodable: whatever string stands for the previous hash, the
   text fixes it, the version and the covered fields.
   */
  lemma {:induction false} ChainTextInjective(p: string, v: string, f: Fields, q: string, w: string, g: Fields)
    requires KnownVersion(v) && KnownVersion(w)
    ensures ChainText(p, v, f) == ChainText(q, w, g) <==> p == q && v == w && SameCovered(v, f, g)
  {
    hide Dumps, SameCovered, MarkedOnce;
    ObjectMarkedOnce(Payload(v, f));
    ObjectMarkedOnce(Payload(w, g));
    hide Payload;
    DumpsInjective(Payload(v, f), Payload(w, g));
    PayloadDetermined(v, f, w, g);
    if ChainText(p, v, f) == ChainText(q, w, g) {
      SplitAtLastMark(p, Dumps(Payload(v, f)), q, Dumps(Payload(w, g)));
    }
  }

  /* ----- chains of rows ----- */

  function Tip(start: string, rows: seq<Row>): string {
    if rows == [] then start else rows[|rows| - 1].contentHash
  }

  // The row is of a known version and its hash is the hash of its text after `prev`.
  predicate Link(H: string -> string, prev: string, r: Row) {
    KnownVersion(r.version) && ChainHash(H, prev, r.version, r.fields) == r.contentHash
  }

  predicate GoodAt(H: string -> string, start: string, rows: seq<Row>, i: nat)
    requires i < |rows|
  {
    Link(H, Tip(start, rows[..i]), rows[i])
  }

  function RowText(start: string, rows: seq<Row>, i: nat): string
    requires i < |rows|
  {
    ChainText(Tip(start, rows[..i]), rows[i].version, rows[i].fields)
  }

  // Every row has a known version and the hash of its text, which starts with the hash before it.
  predicate Chained(H: string -> string, start: string, rows: seq<Row>) {
    forall i | 0 <= i < |rows| :: GoodAt(H, start, rows, i)
  }

  function RowTexts(start: string, rows: seq<Row>): set<string> {
    set i | 0 <= i < |rows| :: RowText(start, rows, i)
  }

  // Two different texts, one from each set, with the same hash.
  ghost predicate CollisionBetween(H: string -> string, A: set<string>, B: set<string>) {
    exists a, b :: a in A && b in B && a != b && H(a) == H(b)
  }

  ghost predicate SameRow(r: Row, s: Row) {
    r.version == s.version && r.contentHash == s.contentHash && SameCovered(r.version, r.fields, s.fields)
  }

  // Agreement of two row lists, row by row, on all a chain hash covers.
  ghost predicate SameRows(xs: seq<Row>, ys: seq<Row>) {
    |xs| == |ys| && forall i | 0 <= i < |xs| :: SameRow(xs[i], ys[i])
  }

  // (s, xs) is the end of the chain (t, ys), from the hash before it on.
  ghost predicate SuffixOf(s: string, xs: seq<Row>, t: string, ys: seq<Row>) {
    && |xs| <= |ys|
    && SameRows(xs, ys[|ys| - |xs|..])
    && s == Tip(t, ys[..|ys| - |xs|])
  }

  lemma {:induction false} ChainPrefix(H: string -> string, start: string, rows: seq<Row>, k: nat)
    requires k <= |rows|
    requires Chained(H, start, rows)
    ensures Chained(H, start, rows[..k])
    ensures RowTexts(start, rows[..k]) <= RowTexts(start, rows)
  {
    hide Link, ChainText;
    forall i | 0 <= i < k
      ensures RowText(start, rows[..k], i) == RowText(start, rows, i)
      ensures GoodAt(H, start, rows[..k], i)
    {
      assert rows[..k][..i] == rows[..i];
      assert GoodAt(H, start, rows, i);
    }
  }

  lemma {:induction false} TipOfParts(start: string, rows: seq<Row>, k: nat)
    requires k <= |rows|
    ensures Tip(Tip(start, rows[..k]), rows[k..]) == Tip(start, rows)
  {
    if k == |rows| { assert rows[..k] == rows; }
  }

  lemma {:induction false} ChainSuffix(H: string -> string, start: string, rows: seq<Row>, k: nat)
    requires k <= |rows|
    requires Chained(H, start, rows)
    ensures Chained(H, Tip(start, rows[..k]), rows[k..])
    ensures Tip(Tip(start, rows[..k]), rows[k..]) == Tip(start, rows)
  {
    hide Link, Tip;
    TipOfParts(start, rows, k);
    forall i | 0 <= i < |rows[k..]|
      ensures GoodAt(H, Tip(start, rows[..k]), rows[k..], i)
    {
      var before := rows[..k + i];
      assert GoodAt(H, start, rows, k + i);
      TipOfParts(start, before, k);
      assert before[..k] == rows[..k] && before[k..] == rows[k..][..i];
    }
  }

  lemma {:induction false} ChainExtend(H: string -> string, start: string, rows: seq<Row>, r: Row)
    requires Chained(H, start, rows) && Link(H, Tip(start, rows), r)
    ensures Chained(H, start, rows + [r])
    ensures Tip(start, rows + [r]) == r.contentHash
  {
    hide Link;
    var all := rows + [r];
    forall i | 0 <= i < |all|
      ensures GoodAt(H, start, all, i)
    {
      if i < |rows| {
        assert all[..i] == rows[..i];
        assert GoodAt(H, start, rows, i);
      } else {
        assert all[..i] == rows;
      }
    }
  }

  lemma TipIsDigest(H: string -> string, start: string, rows: seq<Row>)
    requires Digests(H) && Chained(H, start, rows) && rows != []
    ensures IsDigest(Tip(start, rows))
  {
    assert GoodAt(H, start, rows, |rows| - 1);
  }

  // Rows with the same hash are the same after the same hash, or their texts collide.
  lemma {:induction false} LinkDetermined(H: string -> string, p: string, r: Row, q: string, s: Row)
    requires Link(H, p, r) && Link(H, q, s)
    requires r.contentHash == s.contentHash
    ensures ChainText(p, r.version, r.fields) != ChainText(q, s.version, s.fields) || (p == q && SameRow(r, s))
    ensures H(ChainText(p, r.version, r.fields)) == H(ChainText(q, s.version, s.fields))
  {
    hide ChainText, SameCovered;
    ChainTextInjective(p, r.version, r.fields, q, s.version, s.fields);
  }

  /**
   The tip determines history. Two valid chains that end in the same hash, whatever they start
   from: one is the end of the other on every covered field, or two of the texts hashed for
   them collide.
   */
  lemma {:induction false} TipDeterminesSuffix(H: string -> string, s: string, xs: seq<Row>, t: string, ys: seq<Row>)
    requires Chained(H, s, xs) && Chained(H, t, ys)
    requires Tip(s, xs) == Tip(t, ys)
    ensures CollisionBetween(H, RowTexts(s, xs), RowTexts(t, ys)) || SuffixOf(s, xs, t, ys) || SuffixOf(t, ys, s, xs)
    decreases |xs|
  {
    hide Link, ChainText, SameRow;
    if xs == [] {
      assert ys[..|ys| - |xs|] == ys;
    } else if ys == [] {
      assert xs[..|xs| - |ys|] == xs;
    } else {
      var m, n := |xs| - 1, |ys| - 1;
      assert GoodAt(H, s, xs, m) && GoodAt(H, t, ys, n);
      ChainPrefix(H, s, xs, m);
      ChainPrefix(H, t, ys, n);
      LinkDetermined(H, Tip(s, xs[..m]), xs[m], Tip(t, ys[..n]), ys[n]);
      var a, b := RowText(s, xs, m), RowText(t, ys, n);
      assert a in RowTexts(s, xs) && b in RowTexts(t, ys);
      if a == b {
        TipDeterminesSuffix(H, s, xs[..m], t, ys[..n]);
        SameRowSymmetric(xs[m], ys[n]);
        if SuffixOf(s, xs[..m], t, ys[..n]) {
          SuffixExtend(s, xs, t, ys);
        } else if SuffixOf(t, ys[..n], s, xs[..m]) {
          SuffixExtend(t, ys, s, xs);
        }
      }
    }
  }

  lemma SameRowSymmetric(r: Row, s: Row)
    ensures SameRow(r, s) == SameRow(s, r)
  {
  }

  lemma SuffixExtend(s: string, xs: seq<Row>, t: string, ys: seq<Row>)
    requires xs != [] && ys != []
    requires SuffixOf(s, xs[..|xs| - 1], t, ys[..|ys| - 1])
    requires SameRow(xs[|xs| - 1], ys[|ys| - 1])
    ensures SuffixOf(s, xs, t, ys)
  {
    hide SameRow;
    var k := |ys| - |xs|;
    assert ys[..|ys| - 1][..k] == ys[..k];
    forall i | 0 <= i < |xs|
      ensures SameRow(xs[i], ys[k..][i])
    {
      if i < |xs| - 1 {
        assert SameRow(xs[..|xs| - 1][i], ys[..|ys| - 1][k..][i]);
      }
    }
  }

  /** Two histories from the very beginning that end in the same hash are the same history. */
  lemma {:induction false} TipDeterminesHistory(H: string -> string, xs: seq<Row>, ys: seq<Row>)
    requires Digests(H)
    requires Chained(H, GENESIS, xs) && Chained(H, GENESIS, ys)
    requires Tip(GENESIS, xs) == Tip(GENESIS, ys)
    ensures CollisionBetween(H, RowTexts(GENESIS, xs), RowTexts(GENESIS, ys)) || SameRows(xs, ys)
  {
    hide Link, ChainText, SameRow;
    TipDeterminesSuffix(H, GENESIS, xs, GENESIS, ys);
    if SuffixOf(GENESIS, xs, GENESIS, ys) {
      StartsAtGenesis(H, xs, ys);
    } else if SuffixOf(GENESIS, ys, GENESIS, xs) {
      StartsAtGenesis(H, ys, xs);
      forall i | 0 <= i < |xs| ensures SameRow(xs[i], ys[i]) { SameRowSymmetric(ys[i], xs[i]); }
    }
  }

  // A digest is never GENESIS, so a suffix that starts at GENESIS is the whole chain.
  lemma StartsAtGenesis(H: string -> string, xs: seq<Row>, ys: seq<Row>)
    requires Digests(H) && Chained(H, GENESIS, ys)
    requires SuffixOf(GENESIS, xs, GENESIS, ys)
    ensures SameRows(xs, ys)
  {
    hide Link, SameRow;
    var k := |ys| - |xs|;
    ChainPrefix(H, GENESIS, ys, k);
    if k > 0 { TipIsDigest(H, GENESIS, ys[..k]); }
    assert k == 0 && ys[k..] == ys;
  }

  /** In one history without collisions no hash occurs twice, nor does the start recur. */
  lemma {:induction false} TipsDistinct(H: string -> string, rows: seq<Row>, i: nat, j: nat)
    requires Digests(H) && Chained(H, GENESIS, rows)
    requires i <= |rows| && j <= |rows|
    requires Tip(GENESIS, rows[..i]) == Tip(GENESIS, rows[..j])
    requires !CollisionBetween(H, RowTexts(GENESIS, rows), RowTexts(GENESIS, rows))
    ensures i == j
  {
    hide Link, SameRow, ChainText;
    ChainPrefix(H, GENESIS, rows, i);
    ChainPrefix(H, GENESIS, rows, j);
    TipDeterminesHistory(H, rows[..i], rows[..j]);
  }
}
