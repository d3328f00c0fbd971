/**
 The order in which `sort_keys` writes the members of the hashed objects.
 */
module SortedKeys {
  import opened Json
  import opened TextOrder
  import opened EventChain
  import opened Anchor

  predicate KeysSorted(ms: seq<Member>) { forall i | 0 < i < |ms| :: Before(ms[i - 1].key, ms[i].key) }

  lemma {:induction false} FirstDifference(a: string, b: string, k: nat)
    requires k < |a| && k < |b| && a[k] < b[k] && forall i | 0 <= i < k :: a[i] == b[i]
    ensures Before(a, b)
  {
    if k > 0 { FirstDifference(a[1..], b[1..], k - 1); }
  }

  lemma V1Keys()
    ensures Before("action", "agent_id")
    ensures Before("agent_id", "event_type")
    ensures Before("event_type", "id")
    ensures Before("id", "occurred_at")
    ensures Before("occurred_at", "resource_id")
  {
    hide Before;
    FirstDifference("action", "agent_id", 1);
    FirstDifference("agent_id", "event_type", 0);
    FirstDifference("event_type", "id", 0);
    FirstDifference("id", "occurred_at", 0);
    FirstDifference("occurred_at", "resource_id", 0);
  }

  lemma {:induction false} V1Sorted(f: Fields)
    ensures KeysSorted(PayloadV1(f))
  {
    hide Before;
    V1Keys();
    var p := PayloadV1(f);
    assert p[0].key == "action";
    assert p[1].key == "agent_id";
    assert p[2].key == "event_type";
    assert p[3].key == "id";
    assert p[4].key == "occurred_at";
    assert p[5].key == "resource_id";
  }

  lemma V2Keys1()
    ensures Before("action", "actor_human_id")
    ensures Before("actor_human_id", "agent_id")
    ensures Before("agent_id", "environment")
    ensures Before("environment", "event_type")
    ensures Before("event_type", "event_version")
  {
    hide Before;
    FirstDifference("action", "actor_human_id", 3);
    FirstDifference("actor_human_id", "agent_id", 1);
    FirstDifference("agent_id", "environment", 0);
    FirstDifference("environment", "event_type", 1);
    FirstDifference("event_type", "event_version", 6);
  }

  lemma V2Keys2()
    ensures Before("event_version", "id")
    ensures Before("id", "metadata")
    ensures Before("metadata", "occurred_at")
    ensures Before("occurred_at", "organization_id")
    ensures Before("organization_id", "request_id")
  {
    hide Before;
    FirstDifference("event_version", "id", 0);
    FirstDifference("id", "metadata", 0);
    FirstDifference("metadata", "occurred_at", 0);
    FirstDifference("occurred_at", "organization_id", 1);
    FirstDifference("organization_id", "request_id", 0);
  }

  lemma V2Keys3()
    ensures Before("request_id", "resource_id")
    ensures Before("resource_id", "result")
    ensures Before("result", "session_id")
    ensures Before("session_id", "source")
    ensures Before("source", "tool_id")
  {
    hide Before;
    FirstDifference("request_id", "resource_id", 2);
    FirstDifference("resource_id", "result", 3);
    FirstDifference("result", "session_id", 0);
    FirstDifference("session_id", "source", 1);
    FirstDifference("source", "tool_id", 0);
  }

  lemma V2Part1(f: Fields)
    ensures forall i | 0 < i <= 5 :: Before(PayloadV2(f)[i - 1].key, PayloadV2(f)[i].key)
  {
    hide Before;
    V2Keys1();
    var p := PayloadV2(f);
    assert p[0].key == "action";
    assert p[1].key == "actor_human_id";
    assert p[2].key == "agent_id";
    assert p[3].key == "environment";
    assert p[4].key == "event_type";
    assert p[5].key == "event_version";
  }

  lemma V2Part2(f: Fields)
    ensures forall i | 5 < i <= 10 :: Before(PayloadV2(f)[i - 1].key, PayloadV2(f)[i].key)
  {
    hide Before;
    V2Keys2();
    var p := PayloadV2(f);
    assert p[5].key == "event_version";
    assert p[6].key == "id";
    assert p[7].key == "metadata";
    assert p[8].key == "occurred_at";
    assert p[9].key == "organization_id";
    assert p[10].key == "request_id";
  }

  lemma V2Part3(f: Fields)
    ensures forall i | 10 < i <= 15 :: Before(PayloadV2(f)[i - 1].key, PayloadV2(f)[i].key)
  {
    hide Before;
    V2Keys3();
    var p := PayloadV2(f);
    assert p[10].key == "request_id";
    assert p[11].key == "resource_id";
    assert p[12].key == "result";
    assert p[13].key == "session_id";
    assert p[14].key == "source";
    assert p[15].key == "tool_id";
  }

  lemma V2Sorted(f: Fields)
    ensures KeysSorted(PayloadV2(f))
  {
    assert |PayloadV2(f)| == 16;
    hide Before, PayloadV2;
    V2Part1(f);
    V2Part2(f);
    V2Part3(f);
  }

  lemma CheckpointKeys()
    ensures Before("chain_tip_hash", "created_at")
    ensures Before("created_at", "event_count")
    ensures Before("event_count", "prev_checkpoint_hash")
    ensures Before("prev_checkpoint_hash", "seq")
  {
    hide Before;
    FirstDifference("chain_tip_hash", "created_at", 1);
    FirstDifference("created_at", "event_count", 0);
    FirstDifference("event_count", "prev_checkpoint_hash", 0);
    FirstDifference("prev_checkpoint_hash", "seq", 0);
  }

  lemma {:induction false} CheckpointSorted(cp: Checkpoint)
    ensures KeysSorted(CheckpointPayload(cp))
  {
    hide Before;
    CheckpointKeys();
    var p := CheckpointPayload(cp);
    assert p[0].key == "chain_tip_hash";
    assert p[1].key == "created_at";
    assert p[2].key == "event_count";
    assert p[3].key == "prev_checkpoint_hash";
    assert p[4].key == "seq";
  }
}
